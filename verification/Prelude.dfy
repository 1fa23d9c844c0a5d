/** Shared vocabulary: outcomes, machine-integer bounds and finite sums. */
module Prelude {

  datatype Option<+T> = None | Some(value: T)

  datatype Result<+T, +E> = Ok(value: T) | Err(error: E)

  const U8_MAX: nat := 0xFF
  const U16_MAX: nat := 0xFFFF
  const U32_MAX: nat := 0xFFFF_FFFF
  const U64_MAX: nat := 0xFFFF_FFFF_FFFF_FFFF

  function Min(a: int, b: int): (r: int)
    ensures r <= a && r <= b && (r == a || r == b)
  {
    if a <= b then a else b
  }

  function Max(a: int, b: int): (r: int)
    ensures a <= r && b <= r && (r == a || r == b)
  {
    if a <= b then b else a
  }

  /** Subtraction that stops at zero. */
  function Saturating(a: nat, b: nat): nat {
    if b <= a then a - b else 0
  }

  // ----- products -----

  lemma Monotone(a: int, x: int, y: int)
    requires 0 <= a && x <= y
    ensures a * x <= a * y
  {
    assert a * y - a * x == a * (y - x);
  }

  lemma CancelLess(a: int, x: int, y: int)
    requires 0 < a && a * x < a * y
    ensures x < y
  {
    if y <= x {
      Monotone(a, y, x);
    }
  }

  lemma CancelAtMost(a: int, x: int, y: int)
    requires 0 < a && a * x <= a * y
    ensures x <= y
  {
    assert a * (y + 1) == a * y + a;
    CancelLess(a, x, y + 1);
  }

  // ----- sums over maps -----

  /** A fixed choice of one member, so that recursion over a set is a function. */
  ghost function Pick<K>(s: set<K>): K
    requires s != {}
  {
    var k :| k in s;
    k
  }

  ghost function SumMap<K, V>(m: map<K, V>, f: V -> nat): nat
    decreases |m|
  {
    if m.Keys == {} then 0
    else
      var k := Pick(m.Keys);
      f(m[k]) + SumMap(m - {k}, f)
  }

  lemma RemoveBoth<K, V>(m: map<K, V>, j: K, k: K)
    requires j in m && k in m && j != k
    ensures m - {j} - {k} == m - {k} - {j}
    ensures |m - {j}| < |m| && |m - {k}| < |m|
    ensures k in m - {j} && (m - {j})[k] == m[k]
    ensures j in m - {k} && (m - {k})[j] == m[j]
  {
    assert (m - {j}).Keys == m.Keys - {j} && (m - {k}).Keys == m.Keys - {k};
  }

  lemma SumMapUnfold<K, V>(m: map<K, V>, f: V -> nat)
    requires m.Keys != {}
    ensures SumMap(m, f) == f(m[Pick(m.Keys)]) + SumMap(m - {Pick(m.Keys)}, f)
  {
  }

  lemma {:induction false} SumMapPick<K, V>(m: map<K, V>, f: V -> nat, k: K)
    requires k in m
    ensures SumMap(m, f) == f(m[k]) + SumMap(m - {k}, f)
    decreases |m|
  {
    hide SumMap;
    var j := Pick(m.Keys);
    SumMapUnfold(m, f);
    if j != k {
      RemoveBoth(m, j, k);
      SumMapPick(m - {j}, f, k);
      SumMapPick(m - {k}, f, j);
    }
  }

  /** Replacing or inserting one entry moves the sum by the difference of its weights. */
  lemma SumMapPut<K, V>(m: map<K, V>, f: V -> nat, k: K, v: V)
    ensures SumMap(m[k := v], f) + (if k in m then f(m[k]) else 0) == SumMap(m, f) + f(v)
  {
    SumMapPick(m[k := v], f, k);
    assert m[k := v] - {k} == m - {k};
    if k in m {
      SumMapPick(m, f, k);
    } else {
      assert m - {k} == m;
    }
  }

  lemma SumMapMember<K, V>(m: map<K, V>, f: V -> nat, k: K)
    requires k in m
    ensures f(m[k]) <= SumMap(m, f)
  {
    SumMapPick(m, f, k);
  }

  /** Sums agree when the maps agree wherever either weighs anything. */
  lemma {:induction false} SumMapSame<K, V>(m: map<K, V>, n: map<K, V>, f: V -> nat)
    requires forall k | k in m :: f(m[k]) == if k in n then f(n[k]) else 0
    requires forall k | k in n && k !in m :: f(n[k]) == 0
    ensures SumMap(m, f) == SumMap(n, f)
    decreases |m| + |n|
  {
    if m.Keys != {} {
      var k := Pick(m.Keys);
      SumMapPick(m, f, k);
      if k in n {
        SumMapPick(n, f, k);
        SumMapSame(m - {k}, n - {k}, f);
      } else {
        SumMapSame(m - {k}, n, f);
      }
    } else if n.Keys != {} {
      var k := Pick(n.Keys);
      SumMapPick(n, f, k);
      SumMapSame(m, n - {k}, f);
    }
  }

  // ----- sums over sequences -----

  ghost function SumSeq<T>(s: seq<T>, f: T -> int): int
  {
    if s == [] then 0 else SumSeq(s[..|s| - 1], f) + f(s[|s| - 1])
  }

  lemma SumSeqSnoc<T>(s: seq<T>, x: T, f: T -> int)
    ensures SumSeq(s + [x], f) == SumSeq(s, f) + f(x)
  {
    assert (s + [x])[..|s|] == s;
  }

  lemma SumSeqTake<T>(s: seq<T>, i: nat, f: T -> int)
    requires i < |s|
    ensures SumSeq(s[..i + 1], f) == SumSeq(s[..i], f) + f(s[i])
  {
    assert s[..i + 1][..i] == s[..i];
  }

  lemma {:induction false} SumSeqPut<T>(s: seq<T>, i: nat, x: T, f: T -> int)
    requires i < |s|
    ensures SumSeq(s[i := x], f) == SumSeq(s, f) - f(s[i]) + f(x)
  {
    var last := |s| - 1;
    if i == last {
      assert s[i := x][..last] == s[..last];
    } else {
      SumSeqPut(s[..last], i, x, f);
      assert s[i := x][..last] == s[..last][i := x];
    }
  }

  lemma {:induction false} SumSeqConcat<T>(a: seq<T>, b: seq<T>, f: T -> int)
    ensures SumSeq(a + b, f) == SumSeq(a, f) + SumSeq(b, f)
  {
    if b == [] {
      assert a + b == a;
    } else {
      var last := |b| - 1;
      SumSeqConcat(a, b[..last], f);
      assert (a + b)[..|a + b| - 1] == a + b[..last];
    }
  }

  lemma {:induction false} SumSeqNonNegative<T>(s: seq<T>, f: T -> int)
    requires forall i | 0 <= i < |s| :: 0 <= f(s[i])
    ensures 0 <= SumSeq(s, f)
    ensures forall i | 0 <= i < |s| :: f(s[i]) <= SumSeq(s, f)
  {
    if s != [] {
      SumSeqNonNegative(s[..|s| - 1], f);
      forall i | 0 <= i < |s| - 1 ensures f(s[i]) <= SumSeq(s, f) {
        assert s[..|s| - 1][i] == s[i];
      }
    }
  }

  /** Two sequences of the same length whose weights differ pointwise by `g` differ in sum by `g`'s sum. */
  lemma {:induction false} SumSeqPointwise<S, T, U>(a: seq<S>, f: S -> int, b: seq<T>, g: T -> int, c: seq<U>,
                                                    h: U -> int)
    requires |a| == |b| == |c|
    requires forall i | 0 <= i < |a| :: f(a[i]) == g(b[i]) + h(c[i])
    ensures SumSeq(a, f) == SumSeq(b, g) + SumSeq(c, h)
  {
    if a != [] {
      var last := |a| - 1;
      forall i | 0 <= i < last ensures f(a[..last][i]) == g(b[..last][i]) + h(c[..last][i]) {
        assert a[..last][i] == a[i];
      }
      SumSeqPointwise(a[..last], f, b[..last], g, c[..last], h);
    }
  }

  lemma {:induction false} SumSeqFirst<T>(s: seq<T>, f: T -> int)
    requires s != []
    ensures SumSeq(s, f) == f(s[0]) + SumSeq(s[1..], f)
  {
    assert s == [s[0]] + s[1..];
    SumSeqConcat([s[0]], s[1..], f);
    assert [s[0]][..0] == [];
  }

  /** The order of the terms does not matter. */
  lemma {:induction false} SumSeqPermuted<T>(a: seq<T>, b: seq<T>, f: T -> int)
    requires multiset(a) == multiset(b)
    ensures SumSeq(a, f) == SumSeq(b, f)
  {
    SameLength(a, b);
    if a != [] {
      var last := a[|a| - 1];
      assert last in multiset(b);
      var j :| 0 <= j < |b| && b[j] == last;
      var c := b[..j] + b[j + 1..];
      assert b == b[..j] + [last] + b[j + 1..];
      assert a == a[..|a| - 1] + [last];
      assert multiset(a[..|a| - 1]) == multiset(a) - multiset{last} == multiset(c);
      SumSeqPermuted(a[..|a| - 1], c, f);
      SumSeqConcat(b[..j], [last], f);
      SumSeqConcat(b[..j] + [last], b[j + 1..], f);
      SumSeqConcat(b[..j], b[j + 1..], f);
      assert SumSeq([last], f) == f(last) by {
        assert [last][..0] == [];
      }
    }
  }

  lemma SameLength<T>(a: seq<T>, b: seq<T>)
    requires multiset(a) == multiset(b)
    ensures |a| == |b|
  {
    assert |multiset(a)| == |a| && |multiset(b)| == |b|;
  }

  // ----- set sizes -----

  lemma {:induction false} Subset(a: set<string>, b: set<string>)
    requires a <= b
    ensures |a| <= |b|
  {
    if a != {} {
      var k :| k in a;
      Subset(a - {k}, b - {k});
    }
  }
}
