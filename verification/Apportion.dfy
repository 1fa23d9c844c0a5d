/** Exact apportionment of a finite quantity over weighted cells. */
module Apportion {
  import opened Prelude
  import opened Bands

  // ----- greatest common divisors -----

  function Gcd(a: nat, b: nat): nat
    decreases b
  {
    if b == 0 then a else Gcd(b, a % b)
  }

  method ComputeGcd(a0: nat, b0: nat) returns (g: nat)
    ensures g == Gcd(a0, b0)
  {
    var a, b := a0, b0;
    while b != 0
      invariant Gcd(a, b) == Gcd(a0, b0)
      decreases b
    {
      var remainder := a % b;
      a := b;
      b := remainder;
    }
    g := a;
  }

  lemma {:induction false} Bezout(a: nat, b: nat) returns (x: int, y: int)
    ensures a * x + b * y == Gcd(a, b)
    decreases b
  {
    if b == 0 {
      x, y := 1, 0;
    } else {
      var u, v := Bezout(b, a % b);
      x, y := v, u - (a / b) * v;
      var q, r := a / b, a % b;
      assert a == q * b + r;
      calc {
        a * x + b * y;
        (q * b + r) * v + b * (u - q * v);
        {
          assert (q * b + r) * v == q * b * v + r * v;
          assert b * (u - q * v) == b * u - b * (q * v);
          assert q * b * v == b * (q * v);
        }
        b * u + r * v;
      }
    }
  }

  predicate Divides(d: nat, x: nat) {
    0 < d && x % d == 0
  }

  lemma DividesProduct(d: nat, x: nat, q: int)
    requires 0 < d && x == d * q
    ensures Divides(d, x)
  {
    RemainderUnique(x, d, q, 0);
  }

  lemma {:induction false} GcdDividesBoth(a: nat, b: nat)
    requires 0 < a || 0 < b
    ensures Divides(Gcd(a, b), a) && Divides(Gcd(a, b), b)
    decreases b
  {
    if b == 0 {
      DividesProduct(a, a, 1);
      DividesProduct(a, 0, 0);
    } else {
      var g, q, r := Gcd(a, b), a / b, a % b;
      GcdDividesBoth(b, r);
      assert a == b * q + r && b == g * (b / g) && r == g * (r / g);
      Factor(a, b, r, g, q, b / g, r / g);
      DividesProduct(g, a, q * (b / g) + r / g);
    }
  }

  lemma Factor(a: int, b: int, r: int, g: int, q: int, m: int, n: int)
    requires a == b * q + r && b == g * m && r == g * n
    ensures a == g * (q * m + n)
  {
    assert b * q == g * (q * m);
    assert g * (q * m + n) == g * (q * m) + g * n;
  }

  /** Euclid's recursion finds the greatest common divisor: it divides both numbers, and whatever divides both
      divides it. */
  lemma GcdIsGreatest(a: nat, b: nat, d: nat)
    requires 0 < a || 0 < b
    ensures Divides(Gcd(a, b), a) && Divides(Gcd(a, b), b)
    ensures Divides(d, a) && Divides(d, b) ==> Divides(d, Gcd(a, b)) && d <= Gcd(a, b)
  {
    hide *;
    GcdDividesBoth(a, b);
    DivisorPositive(Gcd(a, b), a);
    if Divides(d, a) && Divides(d, b) {
      var x, y := Bezout(a, b);
      Multiple(d, a);
      Multiple(d, b);
      CommonFactor(Gcd(a, b), a, b, d, a / d, b / d, x, y);
      DividesProduct(d, Gcd(a, b), (a / d) * x + (b / d) * y);
      DivisorAtMost(d, Gcd(a, b));
    }
  }

  lemma Multiple(d: nat, x: nat)
    requires Divides(d, x)
    ensures 0 < d && x == d * (x / d)
  {
  }

  lemma DivisorPositive(d: nat, x: nat)
    requires Divides(d, x)
    ensures 0 < d
  {
  }

  lemma DivisorAtMost(d: nat, x: nat)
    requires Divides(d, x) && 0 < x
    ensures d <= x
  {
    Multiple(d, x);
    hide *;
    MultiplesSpread(d, x / d);
  }

  lemma CommonFactor(g: int, a: int, b: int, d: int, m: int, n: int, x: int, y: int)
    requires g == a * x + b * y && a == d * m && b == d * n
    ensures g == d * (m * x + n * y)
  {
    assert a * x == d * (m * x) && b * y == d * (n * y);
    assert d * (m * x + n * y) == d * (m * x) + d * (n * y);
  }

  lemma GcdWithOne(n: nat)
    requires n > 1
    ensures Gcd(1, n) == 1
  {
    assert 1 % n == 1;
    assert Gcd(n, 1) == Gcd(1, 0);
  }

  lemma GcdOfZero(n: nat)
    ensures Gcd(0, n) == n
  {
    if n != 0 {
      assert 0 % n == 0;
    }
  }

  /** A multiple of `n` is never strictly between 0 and `n`. */
  lemma MultiplesSpread(n: int, k: int)
    requires 0 < n
    ensures n * k <= 0 || n <= n * k
  {
    if k <= 0 {
      Monotone(n, k, 0);
    } else {
      Monotone(n, 1, k);
    }
  }

  lemma RemainderUnique(x: int, n: int, q: int, r: int)
    requires 0 <= r < n && x == n * q + r
    ensures x % n == r
  {
    var d := x / n - q;
    assert x == n * (x / n) + x % n;
    assert n * d == n * (x / n) - n * q;
    MultiplesSpread(n, d);
    MultiplesSpread(n, -d);
    assert n * -d == -(n * d);
  }

  function Position(start: nat, stride: nat, n: nat, k: nat): nat
    requires 0 < n
  {
    (start + k * stride) % n
  }

  /** A walk whose stride is coprime to the number of cells does not revisit a cell within a round. */
  lemma WalkDistinct(start: nat, stride: nat, n: nat, i: nat, j: nat)
    requires 0 < n && Gcd(stride, n) == 1 && i < j < n
    ensures Position(start, stride, n, i) != Position(start, stride, n, j)
  {
    if Position(start, stride, n, i) == Position(start, stride, n, j) {
      var m := EqualPositions(start, stride, n, i, j);
      MultiplesSpread(n, m);
      assert false;
    }
  }

  lemma EqualPositions(start: nat, stride: nat, n: nat, i: nat, j: nat) returns (m: int)
    requires 0 < n && Gcd(stride, n) == 1 && i <= j
    requires Position(start, stride, n, i) == Position(start, stride, n, j)
    ensures j - i == n * m
  {
    hide Gcd;
    var a, b, d := start + i * stride, start + j * stride, j - i;
    var k := b / n - a / n;
    Difference(start, stride, i, j);
    assert a == n * (a / n) + a % n && b == n * (b / n) + b % n;
    assert n * k == n * (b / n) - n * (a / n);
    var x, y := Bezout(stride, n);
    m := k * x + d * y;
    Combine(d, stride, n, x, y, k);
  }

  lemma Difference(start: int, stride: int, i: int, j: int)
    ensures (start + j * stride) - (start + i * stride) == (j - i) * stride
  {
  }

  lemma Combine(d: int, stride: int, n: int, x: int, y: int, k: int)
    requires stride * x + n * y == 1 && d * stride == n * k
    ensures d == n * (k * x + d * y)
  {
    calc {
      d;
      d * (stride * x + n * y);
      d * (stride * x) + d * (n * y);
      { assert d * (stride * x) == (d * stride) * x; assert d * (n * y) == n * (d * y); }
      (n * k) * x + n * (d * y);
      { assert (n * k) * x == n * (k * x); }
      n * (k * x) + n * (d * y);
      n * (k * x + d * y);
    }
  }

  // ----- the stride search -----

  /** Distance to stride 1 when stepping by two around the ring. */
  function StepsToOne(stride: int, n: int): int {
    if stride == 1 then 0
    else if n % 2 == 1 && stride % 2 == 1 then 2 * n + 1 - stride
    else n + 1 - stride
  }

  /** The first stride from `stride` on, in steps of two, that is coprime to the cell count. */
  function SearchStride(stride: nat, n: nat): nat
    requires stride < n && (n % 2 == 0 ==> stride % 2 == 1)
    decreases StepsToOne(stride, n)
  {
    if n <= 1 || stride == 1 || Gcd(stride, n) == 1 then stride
    else
      NextStride(stride, n);
      SearchStride((stride + 2) % n, n)
  }

  function Stride(seed: nat, n: nat): nat
    requires 0 < n
  {
    OddStart(seed, n);
    SearchStride((if seed % 2 == 0 then seed + 1 else seed) % n, n)
  }

  lemma {:induction false} SearchCoprime(stride: nat, n: nat)
    requires 0 < n && stride < n && (n % 2 == 0 ==> stride % 2 == 1)
    ensures Gcd(Max(SearchStride(stride, n), 1), n) == 1 && SearchStride(stride, n) < n
    decreases StepsToOne(stride, n)
  {
    GcdOfZero(n);
    if n > 1 {
      GcdWithOne(n);
    } else {
      assert Gcd(1, 1) == Gcd(1, 0);
    }
    hide Gcd;
    if n > 1 && stride != 1 && Gcd(stride, n) != 1 {
      NextStride(stride, n);
      SearchCoprime((stride + 2) % n, n);
    }
  }

  lemma StrideCoprime(seed: nat, n: nat)
    requires 0 < n
    ensures Gcd(Max(Stride(seed, n), 1), n) == 1 && Stride(seed, n) < n
  {
    OddStart(seed, n);
    SearchCoprime((if seed % 2 == 0 then seed + 1 else seed) % n, n);
    hide Gcd, SearchStride;
  }

  /** Stepping by two from an odd start always meets a stride coprime to the cell count. */
  method CoprimeStride(seed: nat, n: nat) returns (stride: nat)
    requires 0 < n
    ensures stride == Stride(seed, n)
    ensures Gcd(Max(stride, 1), n) == 1 && stride < n
  {
    stride := (if seed % 2 == 0 then seed + 1 else seed) % n;
    OddStart(seed, n);
    var g := ComputeGcd(stride, n);
    while n > 1 && g != 1
      invariant g == Gcd(stride, n) && stride < n && (n % 2 == 0 ==> stride % 2 == 1)
      invariant SearchStride(stride, n) == Stride(seed, n)
      decreases if n > 1 && g != 1 then StepsToOne(stride, n) else 0
    {
      if stride == 1 {
        GcdWithOne(n);
        assert false;
      }
      ghost var before := stride;
      stride := (stride + 2) % n;
      NextStride(before, n);
      g := ComputeGcd(stride, n);
      if g != 1 && stride == 1 {
        GcdWithOne(n);
      }
    }
    GcdOfZero(n);
    if n == 1 {
      assert Gcd(1, 1) == Gcd(1, 0);
    }
  }

  lemma OddStart(seed: nat, n: nat)
    requires 0 < n
    ensures var odd := if seed % 2 == 0 then seed + 1 else seed; n % 2 == 0 ==> (odd % n) % 2 == 1
  {
    var odd := if seed % 2 == 0 then seed + 1 else seed;
    if n % 2 == 0 {
      var h, q := n / 2, odd / n;
      assert odd == n * q + odd % n && n == 2 * h;
      assert n * q == 2 * (h * q);
    }
  }

  lemma NextStride(stride: nat, n: nat)
    requires 1 < n && stride < n && stride != 1 && (n % 2 == 0 ==> stride % 2 == 1)
    ensures var next := (stride + 2) % n;
            && (n % 2 == 0 ==> next % 2 == 1)
            && StepsToOne(next, n) < StepsToOne(stride, n)
            && 0 <= StepsToOne(next, n)
  {
    var wrapped := if stride + 2 < n then 0 else 1;
    RemainderUnique(stride + 2, n, wrapped, stride + 2 - n * wrapped);
    assert n == 2 ==> stride == 1;
    hide *;
    StepsShrink(stride, n, stride + 2 - n * wrapped);
  }

  lemma StepsShrink(stride: nat, n: nat, next: int)
    requires 2 < n && stride < n && stride != 1 && (n % 2 == 0 ==> stride % 2 == 1)
    requires next == if stride + 2 < n then stride + 2 else stride + 2 - n
    ensures n % 2 == 0 ==> next % 2 == 1
    ensures 0 <= StepsToOne(next, n) < StepsToOne(stride, n)
  {
  }

  // ----- quotas -----

  ghost function Identity(): nat -> int {
    (w: nat) => w
  }

  ghost function WeightSum(weights: seq<nat>): int {
    SumSeq(weights, Identity())
  }

  function Quota(total: nat, weight: nat, all: nat): nat
    requires 0 < all
  {
    total * weight / all
  }

  function Quotas(total: nat, weights: seq<nat>, all: nat): seq<nat>
    requires 0 < all
  {
    seq(|weights|, i requires 0 <= i < |weights| => Quota(total, weights[i], all))
  }

  /** Rounding every share down loses less than one unit per cell. */
  lemma {:induction false} FloorsLoseLittle(total: nat, weights: seq<nat>, all: nat)
    requires 0 < all
    ensures all * WeightSum(Quotas(total, weights, all)) <= total * WeightSum(weights)
    ensures total * WeightSum(weights) <= all * WeightSum(Quotas(total, weights, all)) + |weights| * (all - 1)
  {
    if weights != [] {
      var last := |weights| - 1;
      var front, w := weights[..last], weights[last];
      FloorsLoseLittle(total, front, all);
      assert Quotas(total, weights, all)[..last] == Quotas(total, front, all);
      var q, f := Quota(total, w, all), WeightSum(Quotas(total, front, all));
      assert all * q <= total * w <= all * q + (all - 1);
      assert all * (f + q) == all * f + all * q;
      assert total * (WeightSum(front) + w) == total * WeightSum(front) + total * w;
      assert |weights| * (all - 1) == last * (all - 1) + (all - 1);
    }
  }

  lemma RemainderBelowCount(total: nat, weights: seq<nat>)
    requires 0 < WeightSum(weights)
    ensures var q := WeightSum(Quotas(total, weights, WeightSum(weights)));
            q <= total < q + |weights|
  {
    var all := WeightSum(weights);
    var q := WeightSum(Quotas(total, weights, all));
    var n := |weights|;
    FloorsLoseLittle(total, weights, all);
    assert weights != [];
    assert total * all == all * total;
    CancelAtMost(all, q, total);
    assert n * (all - 1) == all * n - n;
    assert all * (q + n) == all * q + all * n;
    CancelLess(all, total, q + n);
  }

  /** One more unit for each of the first `k` cells of the walk. */
  function Spread(shares: seq<nat>, start: nat, stride: nat, k: nat): (out: seq<nat>)
    requires shares != []
    ensures |out| == |shares|
  {
    if k == 0 then shares
    else
      var before := Spread(shares, start, stride, k - 1);
      var at := Position(start, stride, |shares|, k - 1);
      before[at := before[at] + 1]
  }

  ghost predicate Visited(start: nat, stride: nat, n: nat, k: nat, i: nat)
    requires 0 < n
  {
    exists j :: 0 <= j < k && Position(start, stride, n, j) == i
  }

  /** While the walk is within one round it adds at most one unit to any cell, and `k` in all. */
  lemma {:induction false} SpreadEvenly(shares: seq<nat>, start: nat, stride: nat, k: nat)
    requires shares != [] && Gcd(stride, |shares|) == 1 && k <= |shares|
    ensures |Spread(shares, start, stride, k)| == |shares|
    ensures forall i | 0 <= i < |shares| ::
              Spread(shares, start, stride, k)[i]
              == shares[i] + if Visited(start, stride, |shares|, k, i) then 1 else 0
    ensures WeightSum(Spread(shares, start, stride, k)) == WeightSum(shares) + k
    decreases k
  {
    if k > 0 {
      var n := |shares|;
      var at := Position(start, stride, n, k - 1);
      var before := Spread(shares, start, stride, k - 1);
      SpreadEvenly(shares, start, stride, k - 1);
      forall j | 0 <= j < k - 1 ensures Position(start, stride, n, j) != at {
        WalkDistinct(start, stride, n, j, k - 1);
      }
      assert !Visited(start, stride, n, k - 1, at);
      SumSeqPut(before, at, before[at] + 1, Identity());
      forall i | 0 <= i < n
        ensures Visited(start, stride, n, k, i) <==> Visited(start, stride, n, k - 1, i) || i == at
      {
        if i == at {
          assert Position(start, stride, n, k - 1) == i;
        }
      }
    }
  }

  lemma NextPosition(start: nat, stride: nat, n: nat, k: nat)
    requires 0 < n
    ensures (Position(start, stride, n, k) + stride) % n == Position(start, stride, n, k + 1)
  {
    var a := start + k * stride;
    var b := a % n + stride;
    assert a == n * (a / n) + a % n && b == n * (b / n) + b % n;
    Difference(start, stride, k, k + 1);
    assert n * (a / n) + n * (b / n) == n * (a / n + b / n);
    RemainderUnique(a + stride, n, a / n + b / n, b % n);
  }

  method FloorShares(total: nat, weights: seq<nat>, all: nat) returns (out: seq<nat>, fits: bool)
    requires 0 < all
    ensures fits <==> forall i | 0 <= i < |weights| :: Quota(total, weights[i], all) <= U16_MAX
    ensures fits ==> out == Quotas(total, weights, all)
  {
    out := [];
    for i := 0 to |weights|
      invariant |out| == i
      invariant forall k | 0 <= k < i :: out[k] == Quota(total, weights[k], all) <= U16_MAX
    {
      var units := Quota(total, weights[i], all);
      if units > U16_MAX {
        return out, false;
      }
      out := out + [units];
    }
    fits := true;
  }

  /** Hand out the remaining units along the walk. */
  method WalkRemainder(shares: seq<nat>, start: nat, step: nat, remaining: nat)
    returns (r: Result<seq<nat>, GeographyError>)
    requires shares != [] && Gcd(step, |shares|) == 1 && remaining <= |shares| && start < |shares|
    requires forall i | 0 <= i < |shares| :: shares[i] <= U16_MAX
    ensures r.Ok? <==> forall i | 0 <= i < |shares| :: Spread(shares, start, step, remaining)[i] <= U16_MAX
    ensures r == if r.Ok? then Ok(Spread(shares, start, step, remaining)) else Err(Overflow)
  {
    hide Gcd, Spread, Position;
    var n := |shares|;
    var out, index, left := shares, start, remaining;
    ghost var k := 0;
    FirstPosition(start, step, n);
    SpreadNone(shares, start, step);
    while left != 0
      invariant k + left == remaining
      invariant out == Spread(shares, start, step, k)
      invariant index == Position(start, step, n, k) < n
      invariant forall i | 0 <= i < n :: out[i] <= U16_MAX
    {
      SpreadNext(shares, start, step, k);
      if out[index] == U16_MAX {
        SpreadEvenly(shares, start, step, remaining);
        assert Visited(start, step, n, remaining, index);
        return Err(Overflow);
      }
      out := out[index := out[index] + 1];
      left := left - 1;
      NextPosition(start, step, n, k);
      index := (index + step) % n;
      k := k + 1;
    }
    r := Ok(out);
  }

  lemma FirstPosition(start: nat, stride: nat, n: nat)
    requires start < n
    ensures Position(start, stride, n, 0) == start
  {
    assert 0 * stride == 0;
  }

  lemma SpreadNone(shares: seq<nat>, start: nat, stride: nat)
    requires shares != []
    ensures Spread(shares, start, stride, 0) == shares
  {
  }

  /** The cell the walk reaches next has not been given a unit yet. */
  lemma SpreadNext(shares: seq<nat>, start: nat, stride: nat, k: nat)
    requires shares != [] && Gcd(stride, |shares|) == 1 && k < |shares|
    ensures var at := Position(start, stride, |shares|, k);
            var out := Spread(shares, start, stride, k);
            && 0 <= at < |shares| && out[at] == shares[at]
            && Spread(shares, start, stride, k + 1) == out[at := out[at] + 1]
  {
    SpreadEvenly(shares, start, stride, k);
    var at := Position(start, stride, |shares|, k);
    forall j | 0 <= j < k ensures Position(start, stride, |shares|, j) != at {
      WalkDistinct(start, stride, |shares|, j, k);
    }
  }

  /** The floors of the weighted shares, and the units over handed out along the walk. */
  ghost function Allocated(total: nat, weights: seq<nat>, strideSeed: nat, startSeed: nat): (out: seq<nat>)
    requires 0 < WeightSum(weights)
    ensures |out| == |weights|
  {
    RemainderBelowCount(total, weights);
    var floors := Quotas(total, weights, WeightSum(weights));
    Spread(floors, startSeed % |weights|, Max(Stride(strideSeed, |weights|), 1), total - WeightSum(floors))
  }

  /** No cell gets less than the floor of its share. */
  lemma AllocatedAtLeast(total: nat, weights: seq<nat>, strideSeed: nat, startSeed: nat, i: nat)
    requires 0 < WeightSum(weights) && i < |weights|
    ensures Quota(total, weights[i], WeightSum(weights)) <= Allocated(total, weights, strideSeed, startSeed)[i]
  {
    hide Gcd, Spread, Quota, Stride;
    StrideCoprime(strideSeed, |weights|);
    RemainderBelowCount(total, weights);
    var floors := Quotas(total, weights, WeightSum(weights));
    SpreadEvenly(floors, startSeed % |weights|, Max(Stride(strideSeed, |weights|), 1), total - WeightSum(floors));
  }

  /** Exact and within quota: every cell gets the floor of its weighted share or one unit more, and the shares add up to
      the total; it fails exactly when some cell's share, with the unit the walk may bring it, passes 16 bits. */
  method WeightedAllocation(total: nat, weights: seq<nat>, strideSeed: nat, startSeed: nat)
    returns (r: Result<seq<nat>, GeographyError>)
    requires 0 < WeightSum(weights)
    ensures var shares := Allocated(total, weights, strideSeed, startSeed);
            && (r.Ok? <==> forall i | 0 <= i < |shares| :: shares[i] <= U16_MAX)
            && r == if r.Ok? then Ok(shares) else Err(Overflow)
    ensures r.Ok? ==>
              var shares, all := r.value, WeightSum(weights);
              && |shares| == |weights|
              && WeightSum(shares) == total
              && forall i | 0 <= i < |weights| ::
                   && Quota(total, weights[i], all) <= shares[i] <= Quota(total, weights[i], all) + 1
                   && shares[i] <= U16_MAX
  {
    hide Gcd, Spread, Quota, Stride;
    var n := |weights|;
    var all: nat := SumWeights(weights);
    assert weights != [];
    RemainderBelowCount(total, weights);
    var floors, fits := FloorShares(total, weights, all);
    if !fits {
      ghost var i :| 0 <= i < n && U16_MAX < Quota(total, weights[i], all);
      AllocatedAtLeast(total, weights, strideSeed, startSeed, i);
      return Err(Overflow);
    }
    var given := SumWeights(floors);
    var stride := CoprimeStride(strideSeed, n);
    SpreadEvenly(floors, startSeed % n, Max(stride, 1), total - given);
    r := WalkRemainder(floors, startSeed % n, Max(stride, 1), total - given);
  }

  method SumWeights(weights: seq<nat>) returns (sum: nat)
    ensures sum == WeightSum(weights)
  {
    sum := 0;
    for i := 0 to |weights|
      invariant sum == WeightSum(weights[..i])
    {
      SumSeqTake(weights, i, Identity());
      sum := sum + weights[i];
    }
    assert weights[..|weights|] == weights;
  }
}
