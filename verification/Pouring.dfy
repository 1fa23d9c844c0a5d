/** Taking and giving six bands at a time: greedy pours, weighted uptake and the signed export boundary. */
module Pouring {
  import opened Prelude
  import opened Bands

  // ----- greedy pours -----

  function PouredAt(caps: Six, amount: nat, slot: nat): nat
    requires slot < 6
  {
    Min(caps[slot], Saturating(amount, SumBefore(caps, slot)))
  }

  /** `amount` units into (or out of) six bands, filling each up to its cap before the next. */
  function Poured(caps: Six, amount: nat): Six {
    [PouredAt(caps, amount, 0), PouredAt(caps, amount, 1), PouredAt(caps, amount, 2),
     PouredAt(caps, amount, 3), PouredAt(caps, amount, 4), PouredAt(caps, amount, 5)]
  }

  lemma PouredSlot(caps: Six, amount: nat, slot: nat)
    requires slot < 6
    ensures Poured(caps, amount)[slot] == PouredAt(caps, amount, slot) <= caps[slot]
    ensures Saturating(amount, SumBefore(caps, slot + 1)) as int
            == Saturating(amount, SumBefore(caps, slot)) as int - PouredAt(caps, amount, slot) as int
  {
    var all := [0, 1, 2, 3, 4, 5];
    assert all[slot] == slot;
  }

  lemma {:induction false} PouredBefore(caps: Six, amount: nat, n: nat)
    requires n <= 6
    ensures SumBefore(Poured(caps, amount), n) == Min(amount, SumBefore(caps, n))
  {
    if n > 0 {
      PouredBefore(caps, amount, n - 1);
      PouredSlot(caps, amount, n - 1);
      hide Poured;
    }
  }

  /** A pour moves the whole amount unless every cap is reached. */
  lemma PouredExact(caps: Six, amount: nat)
    ensures Sum6(Poured(caps, amount)) == Min(amount, Sum6(caps))
    ensures forall s | 0 <= s < 6 :: Poured(caps, amount)[s] <= caps[s]
  {
    hide Poured;
    PouredBefore(caps, amount, 6);
    SumBeforeAll(caps);
    SumBeforeAll(Poured(caps, amount));
    forall s | 0 <= s < 6 ensures Poured(caps, amount)[s] <= caps[s] {
      PouredSlot(caps, amount, s);
    }
  }

  // ----- weighted uptake -----

  function WeightShare(wanted: nat, weight: nat, all: nat): nat {
    if all == 0 then 0 else wanted * weight / all
  }

  /** The preferred part: each band its weighted share, as far as it is present. */
  function Preferred(source: Six, weights: Six, wanted: nat): Six {
    var all := Sum6(weights);
    [Min(WeightShare(wanted, weights[0], all), source[0]), Min(WeightShare(wanted, weights[1], all), source[1]),
     Min(WeightShare(wanted, weights[2], all), source[2]), Min(WeightShare(wanted, weights[3], all), source[3]),
     Min(WeightShare(wanted, weights[4], all), source[4]), Min(WeightShare(wanted, weights[5], all), source[5])]
  }

  /** What an organism takes: preferred shares first, then whatever the mixture still holds, in band order. */
  function Uptake(source: Six, weights: Six, requested: nat): Six {
    var wanted := Min(requested, Sum6(source));
    var first := Preferred(source, weights, wanted);
    SixPlus(first, Poured(SixMinus(source, first), Saturating(wanted, Sum6(first))))
  }

  lemma PreferredSlot(source: Six, weights: Six, wanted: nat, slot: nat)
    requires slot < 6
    ensures Preferred(source, weights, wanted)[slot]
            == Min(WeightShare(wanted, weights[slot], Sum6(weights)), source[slot])
  {
    var all := [0, 1, 2, 3, 4, 5];
    assert all[slot] == slot;
    hide WeightShare, Sum6;
  }

  /** The preferred shares never ask for more than is wanted in all. */
  lemma {:induction false} PreferredWithin(source: Six, weights: Six, wanted: nat, n: nat)
    requires n <= 6
    ensures Sum6(weights) * SumBefore(Preferred(source, weights, wanted), n) <= wanted * SumBefore(weights, n)
    ensures Sum6(weights) == 0 ==> SumBefore(Preferred(source, weights, wanted), n) == 0
  {
    if n > 0 {
      PreferredWithin(source, weights, wanted, n - 1);
      PreferredSlot(source, weights, wanted, n - 1);
      ShareStep(Sum6(weights), SumBefore(Preferred(source, weights, wanted), n - 1),
                Preferred(source, weights, wanted)[n - 1],
                wanted, SumBefore(weights, n - 1), weights[n - 1]);
      hide Preferred, Sum6, WeightShare;
    }
  }

  lemma ShareStep(all: nat, given: nat, units: nat, wanted: nat, before: nat, weight: nat)
    requires units <= WeightShare(wanted, weight, all) && all * given <= wanted * before
    ensures all * (given + units) <= wanted * (before + weight)
    ensures all == 0 ==> units == 0
  {
    assert wanted * (before + weight) == wanted * before + wanted * weight;
    assert all * (given + units) == all * given + all * units;
    if all == 0 {
      assert all * units == 0;
    } else {
      var share := wanted * weight / all;
      assert all * share <= wanted * weight;
      Monotone(all, units, share);
    }
  }

  /** Partial sums of the preferred part stay within what is wanted, so no share is ever cut short. */
  lemma PreferredFits(source: Six, weights: Six, wanted: nat, n: nat)
    requires n <= 6
    ensures SumBefore(Preferred(source, weights, wanted), n) <= wanted
  {
    PreferredWithin(source, weights, wanted, n);
    SumBeforeAll(weights);
    WithinAll(weights, n);
    hide Preferred, SumBefore, Sum6;
    var all, part, given := Sum6(weights), SumBefore(weights, n), SumBefore(Preferred(source, weights, wanted), n);
    Monotone(wanted, part, all);
    assert wanted * all == all * wanted;
    if all > 0 {
      CancelAtMost(all, given, wanted);
    }
  }

  lemma WithinAll(s: Six, n: nat)
    requires n <= 6
    ensures SumBefore(s, n) <= Sum6(s)
  {
    SumBeforeAll(s);
    GrowsTo(s, n, 6);
  }

  lemma {:induction false} GrowsTo(s: Six, n: nat, m: nat)
    requires n <= m <= 6
    ensures SumBefore(s, n) <= SumBefore(s, m)
  {
    if n < m {
      GrowsTo(s, n, m - 1);
    }
  }

  ghost predicate TakenFrom(source: Six, taken: Six, left: Six) {
    forall s | 0 <= s < 6 :: taken[s] + left[s] == source[s]
  }

  /** Uptake takes exactly what was asked, or everything, and gives every present preferred band its share. */
  lemma UptakeExact(source: Six, weights: Six, requested: nat)
    ensures Sum6(Uptake(source, weights, requested)) == Min(requested, Sum6(source))
    ensures TakenFrom(source, Uptake(source, weights, requested), SixMinus(source, Uptake(source, weights, requested)))
    ensures forall s | 0 <= s < 6 ::
              Min(WeightShare(Min(requested, Sum6(source)), weights[s], Sum6(weights)), source[s])
              <= Uptake(source, weights, requested)[s]
  {
    hide *;
    var wanted := WantedUnits(source, requested);
    var first := Preferred(source, weights, wanted);
    var rest := SixMinus(source, first);
    WantedIs(source, requested);
    UptakeUnfold(source, weights, requested);
    PreferredShares(source, weights, wanted);
    RestSum(source, first);
    PouredExact(rest, Saturating(wanted, Sum6(first)));
    UptakeParts(source, first, rest, Poured(rest, Saturating(wanted, Sum6(first))));
    UptakeSum(wanted, Sum6(source), Sum6(first));
  }

  lemma WantedIs(source: Six, requested: nat)
    ensures WantedUnits(source, requested) == Min(requested, Sum6(source)) <= Sum6(source)
  {
  }

  lemma PreferredShares(source: Six, weights: Six, wanted: nat)
    ensures var first := Preferred(source, weights, wanted);
            && Sum6(first) <= wanted
            && forall s | 0 <= s < 6 ::
                 first[s] == Min(WeightShare(wanted, weights[s], Sum6(weights)), source[s]) <= source[s]
  {
    hide *;
    var first := Preferred(source, weights, wanted);
    PreferredFits(source, weights, wanted, 6);
    SumBeforeAll(first);
    forall s | 0 <= s < 6
      ensures first[s] == Min(WeightShare(wanted, weights[s], Sum6(weights)), source[s]) <= source[s]
    {
      PreferredSlot(source, weights, wanted, s);
    }
  }

  lemma RestSum(source: Six, first: Six)
    requires forall s | 0 <= s < 6 :: first[s] <= source[s]
    ensures Sum6(SixMinus(source, first)) == Sum6(source) - Sum6(first)
  {
  }

  lemma UptakeSum(wanted: nat, held: nat, given: nat)
    requires given <= wanted <= held
    ensures given + Min(Saturating(wanted, given), held - given) == wanted
  {
  }

  /** The preference, spelled out: each band gives at least the floor of its weighted share of what is taken, as far as
      it is present; a band without weight gives only what the others could not. */
  lemma UptakeByWeight(source: Six, weights: Six, requested: nat, slot: nat)
    requires slot < 6
    ensures var taken := if requested < Sum6(source) then requested else Sum6(source);
            var all := Sum6(weights);
            var share := if all == 0 then 0 else taken * weights[slot] / all;
            && (if share < source[slot] then share else source[slot]) <= Uptake(source, weights, requested)[slot]
            && (Uptake(source, weights, requested)[slot] > share ==>
                  forall k | 0 <= k < slot ::
                    Uptake(source, weights, requested)[k] == source[k])
  {
    hide *;
    UptakeExact(source, weights, requested);
    ShareIs(source, weights, requested, slot);
    FilledBefore(source, weights, requested, slot);
  }

  lemma ShareIs(source: Six, weights: Six, requested: nat, slot: nat)
    requires slot < 6
    ensures var taken := if requested < Sum6(source) then requested else Sum6(source);
            WeightShare(Min(requested, Sum6(source)), weights[slot], Sum6(weights))
            == if Sum6(weights) == 0 then 0 else taken * weights[slot] / Sum6(weights)
  {
    hide Sum6;
  }

  lemma FilledBefore(source: Six, weights: Six, requested: nat, slot: nat)
    requires slot < 6
    ensures Uptake(source, weights, requested)[slot]
            > WeightShare(Min(requested, Sum6(source)), weights[slot], Sum6(weights)) ==>
              forall k | 0 <= k < slot :: Uptake(source, weights, requested)[k] == source[k]
  {
    hide *;
    var wanted := WantedUnits(source, requested);
    var first := Preferred(source, weights, wanted);
    var rest := SixMinus(source, first);
    var amount := Saturating(wanted, Sum6(first));
    WantedIs(source, requested);
    UptakeUnfold(source, weights, requested);
    PreferredShares(source, weights, wanted);
    forall k | 0 <= k < slot &&
      Uptake(source, weights, requested)[slot] > WeightShare(wanted, weights[slot], Sum6(weights))
      ensures Uptake(source, weights, requested)[k] == source[k]
    {
      PouredInOrder(rest, amount, k, slot);
      SixSlots(first, Poured(rest, amount), k);
      SixSlots(first, Poured(rest, amount), slot);
      Minused(source, first, k);
    }
  }

  lemma Minused(a: Six, b: Six, k: nat)
    requires k < 6 && b[k] <= a[k]
    ensures SixMinus(a, b)[k] == a[k] - b[k]
  {
  }

  /** A pour reaches a band only when those before it are full. */
  lemma PouredInOrder(caps: Six, amount: nat, k: nat, slot: nat)
    requires k < slot < 6
    ensures 0 < Poured(caps, amount)[slot] ==> Poured(caps, amount)[k] == caps[k]
  {
    PouredSlot(caps, amount, k);
    PouredSlot(caps, amount, slot);
    GrowsTo(caps, k + 1, slot);
    SumBeforeStep(caps, k);
    hide Poured, SumBefore;
  }

  lemma UptakeParts(source: Six, first: Six, rest: Six, poured: Six)
    requires forall s | 0 <= s < 6 :: first[s] <= source[s] && poured[s] <= rest[s]
    requires rest == SixMinus(source, first)
    ensures Sum6(SixPlus(first, poured)) == Sum6(first) + Sum6(poured)
    ensures TakenFrom(source, SixPlus(first, poured), SixMinus(source, SixPlus(first, poured)))
    ensures forall s | 0 <= s < 6 :: first[s] <= SixPlus(first, poured)[s]
  {
  }

  /** Take up to `requested` units out of a mixture. */
  method TakeWeighted(source: Six, weights: Six, requested: nat) returns (left: Six, out: Six)
    ensures out == Uptake(source, weights, requested)
    ensures left == SixMinus(source, out) && TakenFrom(source, out, left)
    ensures Sum6(out) == Min(requested, Sum6(source))
  {
    hide *;
    UptakeExact(source, weights, requested);
    if requested == 0 {
      UptakeNothing(source, weights);
      TakenNothing(source);
      return source, Zero6;
    }
    var wanted := WantedUnits(source, requested);
    var first, given := TakePreferred(source, weights, wanted);
    var rest := SixMinus(source, first);
    var poured, _ := PourInto(rest, Saturating(wanted, given));
    out := SixPlus(first, poured);
    UptakeUnfold(source, weights, requested);
    left := SixMinus(source, out);
  }

  function WantedUnits(source: Six, requested: nat): nat {
    Min(requested, Sum6(source))
  }

  lemma UptakeUnfold(source: Six, weights: Six, requested: nat)
    ensures var wanted := WantedUnits(source, requested);
            var first := Preferred(source, weights, wanted);
            Uptake(source, weights, requested)
            == SixPlus(first, Poured(SixMinus(source, first), Saturating(wanted, Sum6(first))))
  {
    hide Preferred, Poured, SixMinus, SixPlus, Sum6;
  }

  lemma TakenNothing(source: Six)
    ensures TakenFrom(source, Zero6, source) && SixMinus(source, Zero6) == source
  {
  }

  lemma UptakeNothing(source: Six, weights: Six)
    ensures Uptake(source, weights, 0) == Zero6
  {
    UptakeExact(source, weights, 0);
    var out := Uptake(source, weights, 0);
    hide Uptake;
    forall s | 0 <= s < 6 ensures out[s] == 0 {
      SlotWithinSum(out, s);
    }
  }

  method TakePreferred(source: Six, weights: Six, wanted: nat) returns (out: Six, given: nat)
    ensures out == Preferred(source, weights, wanted) && given == Sum6(out)
  {
    hide *;
    out, given := Zero6, 0;
    var all := Sum6(weights);
    ghost var goal := Preferred(source, weights, wanted);
    var remaining := wanted;
    SumBeforeNone(out);
    SumBeforeNone(goal);
    for slot := 0 to 6
      invariant forall s | 0 <= s < slot :: out[s] == goal[s]
      invariant given == SumBefore(out, slot) == SumBefore(goal, slot)
      invariant remaining + given == wanted
    {
      PreferredSlot(source, weights, wanted, slot);
      PreferredFits(source, weights, wanted, slot + 1);
      SumBeforeStep(goal, slot);
      var take := Min(Min(WeightShare(wanted, weights[slot], all), source[slot]), remaining);
      NotCutShort(WeightShare(wanted, weights[slot], all), source[slot], remaining);
      SumBeforePut(out, slot, take);
      out := out[slot := take];
      given := given + take;
      remaining := remaining - take;
    }
    SumBeforeAll(out);
  }

  lemma NotCutShort(share: nat, present: nat, remaining: nat)
    requires Min(share, present) <= remaining
    ensures Min(Min(share, present), remaining) == Min(share, present)
  {
  }

  /** Fill bands in order until the amount is used up. */
  method PourInto(caps: Six, amount: nat) returns (out: Six, left: nat)
    ensures out == Poured(caps, amount) && left == Saturating(amount, Sum6(caps))
  {
    hide Poured, Sum6;
    out, left := Zero6, amount;
    ghost var goal := Poured(caps, amount);
    for slot := 0 to 6
      invariant forall s | 0 <= s < slot :: out[s] == goal[s]
      invariant left == Saturating(amount, SumBefore(caps, slot))
    {
      PouredSlot(caps, amount, slot);
      var take := Min(left, caps[slot]);
      out := out[slot := take];
      left := left - take;
    }
    SumBeforeAll(caps);
  }

  // ----- steps that stop half way -----

  type Flags = f: seq<bool> | |f| == 6 witness [true, true, true, true, true, true]

  predicate Through(flags: Flags, n: nat)
    requires n <= 6
  {
    forall j | 0 <= j < n :: flags[j]
  }

  /** Slot by slot: done up to the first slot whose flag is down, left alone from there on. */
  function Until(flags: Flags, done: Six, left: Six): Six {
    [if Through(flags, 1) then done[0] else left[0], if Through(flags, 2) then done[1] else left[1],
     if Through(flags, 3) then done[2] else left[2], if Through(flags, 4) then done[3] else left[3],
     if Through(flags, 5) then done[4] else left[4], if Through(flags, 6) then done[5] else left[5]]
  }

  lemma UntilSlot(flags: Flags, done: Six, left: Six, slot: nat)
    requires slot < 6
    ensures Until(flags, done, left)[slot] == if Through(flags, slot + 1) then done[slot] else left[slot]
  {
    var all := [0, 1, 2, 3, 4, 5];
    assert all[slot] == slot;
    hide Through;
  }

  lemma ThroughStep(flags: Flags, n: nat)
    requires n < 6
    ensures Through(flags, n + 1) <==> Through(flags, n) && flags[n]
  {
  }

  /** All flags up: everything is done. */
  lemma UntilAll(flags: Flags, done: Six, left: Six)
    requires Through(flags, 6)
    ensures Until(flags, done, left) == done
  {
  }

  /** A loop that has passed `n` slots and stops at a flag that is down has left exactly this. */
  lemma UntilStopped(flags: Flags, done: Six, left: Six, n: nat, out: Six)
    requires n <= 6 && Through(flags, n) && (n < 6 ==> !flags[n])
    requires forall s | 0 <= s < 6 :: out[s] == if s < n then done[s] else left[s]
    ensures out == Until(flags, done, left)
  {
    forall s | 0 <= s < 6 ensures out[s] == Until(flags, done, left)[s] {
      UntilSlot(flags, done, left, s);
      hide Until;
      if s < n {
        assert Through(flags, s + 1);
      } else {
        assert !flags[n] && n < s + 1;
      }
    }
    hide Until;
  }

  function FitFlags(target: Six, moved: Six): Flags {
    [target[0] + moved[0] <= U32_MAX, target[1] + moved[1] <= U32_MAX, target[2] + moved[2] <= U32_MAX,
     target[3] + moved[3] <= U32_MAX, target[4] + moved[4] <= U32_MAX, target[5] + moved[5] <= U32_MAX]
  }

  function CoverFlags(stored: Six, taken: Six): Flags {
    [taken[0] <= stored[0], taken[1] <= stored[1], taken[2] <= stored[2],
     taken[3] <= stored[3], taken[4] <= stored[4], taken[5] <= stored[5]]
  }

  // ----- the signed boundary -----

  /** Net units outside the geography, per resonance, kept as two non-negative arrays. */
  datatype Boundary = Boundary(exported: Six, imported: Six)

  function Net(b: Boundary, slot: nat): int
    requires slot < 6
  {
    b.exported[slot] as int - b.imported[slot] as int
  }

  /** At most one of the two sides is open. */
  predicate Canonical(b: Boundary) {
    forall slot | 0 <= slot < 6 :: b.exported[slot] == 0 || b.imported[slot] == 0
  }

  predicate ExportFits(b: Boundary, slot: nat, units: nat)
    requires slot < 6
  {
    b.exported[slot] + Saturating(units, b.imported[slot]) <= U64_MAX
  }

  function Exported(b: Boundary, slot: nat, units: nat): Boundary
    requires slot < 6
  {
    Boundary(b.exported[slot := b.exported[slot] + Saturating(units, b.imported[slot])],
             b.imported[slot := Saturating(b.imported[slot], units)])
  }

  function Imported(b: Boundary, slot: nat, units: nat): Boundary
    requires slot < 6
  {
    Boundary(b.exported[slot := Saturating(b.exported[slot], units)],
             b.imported[slot := b.imported[slot] + Saturating(units, b.exported[slot])])
  }

  /** An export raises the net of its resonance by exactly its units, touches no other and keeps one side closed. */
  lemma ExportLaw(b: Boundary, slot: nat, units: nat, other: nat)
    requires slot < 6 && other < 6
    ensures Net(Exported(b, slot, units), other) == Net(b, other) + if other == slot then units else 0
    ensures Canonical(b) ==> Canonical(Exported(b, slot, units))
  {
  }

  lemma ImportLaw(b: Boundary, slot: nat, units: nat, other: nat)
    requires slot < 6 && other < 6
    ensures Net(Imported(b, slot, units), other) == Net(b, other) - if other == slot then units else 0
    ensures Canonical(b) ==> Canonical(Imported(b, slot, units))
  {
  }

  /** With one side closed the two arrays are determined by the net, so bringing units back undoes sending them out. */
  lemma CanonicalUnique(b: Boundary, c: Boundary)
    requires Canonical(b) && Canonical(c) && forall slot | 0 <= slot < 6 :: Net(b, slot) == Net(c, slot)
    ensures b == c
  {
    forall slot | 0 <= slot < 6 ensures b.exported[slot] == c.exported[slot] && b.imported[slot] == c.imported[slot] {
      assert Net(b, slot) == Net(c, slot);
    }
  }

  lemma BoundaryRoundTrip(b: Boundary, slot: nat, units: nat)
    requires slot < 6 && Canonical(b)
    ensures Imported(Exported(b, slot, units), slot, units) == b
    ensures Exported(Imported(b, slot, units), slot, units) == b
  {
    hide Canonical, Net, Exported, Imported;
    var out, back := Exported(b, slot, units), Imported(b, slot, units);
    forall other | 0 <= other < 6
      ensures Canonical(Imported(out, slot, units)) && Net(Imported(out, slot, units), other) == Net(b, other)
      ensures Canonical(Exported(back, slot, units)) && Net(Exported(back, slot, units), other) == Net(b, other)
    {
      ExportLaw(b, slot, units, other);
      ImportLaw(out, slot, units, other);
      ImportLaw(b, slot, units, other);
      ExportLaw(back, slot, units, other);
    }
    ExportLaw(b, slot, units, 0);
    ImportLaw(out, slot, units, 0);
    ImportLaw(b, slot, units, 0);
    ExportLaw(back, slot, units, 0);
    CanonicalUnique(Imported(out, slot, units), b);
    CanonicalUnique(Exported(back, slot, units), b);
  }

  function ExportFlags(b: Boundary, units: Six): Flags {
    [ExportFits(b, 0, units[0]), ExportFits(b, 1, units[1]), ExportFits(b, 2, units[2]),
     ExportFits(b, 3, units[3]), ExportFits(b, 4, units[4]), ExportFits(b, 5, units[5])]
  }

  lemma ExportFlag(b: Boundary, units: Six, slot: nat)
    requires slot < 6
    ensures ExportFlags(b, units)[slot] == ExportFits(b, slot, units[slot])
  {
    hide ExportFits;
  }

  /** The slots that have cancelled inbound units: those recorded, and the one whose counter is found full after
      that. */
  function Cancelled(flags: Flags): Flags {
    [true, Through(flags, 1), Through(flags, 2), Through(flags, 3), Through(flags, 4), Through(flags, 5)]
  }

  /** Six exports, one after the other, up to the first whose counter is full. */
  function ExportedUntil(b: Boundary, units: Six): Boundary {
    var flags := ExportFlags(b, units);
    Boundary(Until(flags, SixPlus(b.exported, SixMinus(units, b.imported)), b.exported),
             Until(Cancelled(flags), SixMinus(b.imported, units), b.imported))
  }

  /** What those exports account for: everything where recorded, what was cancelled where the counter was full. */
  function Accounted(b: Boundary, units: Six): Six {
    var flags := ExportFlags(b, units);
    Until(flags, units, Until(Cancelled(flags), SixMinus(units, SixMinus(units, b.imported)), Zero6))
  }

  lemma CancelledThrough(flags: Flags, slot: nat)
    requires slot < 6
    ensures Through(Cancelled(flags), slot + 1) <==> Through(flags, slot)
  {
    forall j | 0 <= j < 6 ensures Cancelled(flags)[j] == Through(flags, j) {
    }
    hide Cancelled;
    if Through(flags, slot) {
      forall j | 0 <= j < slot + 1 ensures Cancelled(flags)[j] {
      }
    } else {
      assert !Cancelled(flags)[slot];
    }
  }

  /** The net of every resonance rises by what is accounted for, which is the whole amount when no counter is full. */
  lemma ExportedUntilNet(b: Boundary, units: Six, slot: nat)
    requires slot < 6
    ensures Net(ExportedUntil(b, units), slot) == Net(b, slot) + Accounted(b, units)[slot]
    ensures Accounted(b, units)[slot] <= units[slot]
  {
    var flags := ExportFlags(b, units);
    UntilSlot(flags, SixPlus(b.exported, SixMinus(units, b.imported)), b.exported, slot);
    UntilSlot(Cancelled(flags), SixMinus(b.imported, units), b.imported, slot);
    UntilSlot(flags, units, Until(Cancelled(flags), SixMinus(units, SixMinus(units, b.imported)), Zero6), slot);
    UntilSlot(Cancelled(flags), SixMinus(units, SixMinus(units, b.imported)), Zero6, slot);
    CancelledThrough(flags, slot);
    ThroughStep(flags, slot);
    SixSlots(units, b.imported, slot);
    SixSlots(b.imported, units, slot);
    SixSlots(units, SixMinus(units, b.imported), slot);
    SixSlots(b.exported, SixMinus(units, b.imported), slot);
    hide Until, Cancelled, Through, SixMinus, SixPlus, ExportFlags;
  }

  lemma SixSlots(a: Six, b: Six, slot: nat)
    requires slot < 6
    ensures SixMinus(a, b)[slot] == Saturating(a[slot], b[slot]) && SixPlus(a, b)[slot] == a[slot] + b[slot]
  {
  }

  /** One side of every slot stays closed, even where the counter was full. */
  lemma ExportedCanonical(b: Boundary, units: Six)
    ensures Canonical(b) ==> Canonical(ExportedUntil(b, units))
  {
    var flags := ExportFlags(b, units);
    var after := ExportedUntil(b, units);
    forall slot | 0 <= slot < 6
      ensures b.exported[slot] == 0 || b.imported[slot] == 0 ==> after.exported[slot] == 0 || after.imported[slot] == 0
    {
      UntilSlot(flags, SixPlus(b.exported, SixMinus(units, b.imported)), b.exported, slot);
      UntilSlot(Cancelled(flags), SixMinus(b.imported, units), b.imported, slot);
      CancelledThrough(flags, slot);
      ThroughStep(flags, slot);
      SixSlots(units, b.imported, slot);
      SixSlots(b.imported, units, slot);
      SixSlots(b.exported, SixMinus(units, b.imported), slot);
      hide Until, Cancelled, Through, SixMinus, SixPlus, ExportFlags;
    }
    hide ExportedUntil;
  }

  /** A counter is an unsigned 64-bit number. */
  predicate InCounters(b: Boundary) {
    forall s | 0 <= s < 6 :: b.exported[s] <= U64_MAX
  }

  /** Everything is accounted for exactly when no counter is full. */
  lemma AccountedIff(b: Boundary, units: Six)
    requires InCounters(b)
    ensures Accounted(b, units) == units <==> Through(ExportFlags(b, units), 6)
  {
    var flags := ExportFlags(b, units);
    if Through(flags, 6) {
      UntilAll(flags, units, Until(Cancelled(flags), SixMinus(units, SixMinus(units, b.imported)), Zero6));
    } else {
      var k := FirstDown(flags);
      ExportFlag(b, units, k);
      UntilSlot(flags, units, Until(Cancelled(flags), SixMinus(units, SixMinus(units, b.imported)), Zero6), k);
      UntilSlot(Cancelled(flags), SixMinus(units, SixMinus(units, b.imported)), Zero6, k);
      CancelledThrough(flags, k);
      ThroughStep(flags, k);
      SixSlots(units, b.imported, k);
      SixSlots(units, SixMinus(units, b.imported), k);
      hide Until, Cancelled, Through, SixMinus, ExportFlags;
      assert Accounted(b, units)[k] < units[k];
    }
  }

  lemma FirstDown(flags: Flags) returns (k: nat)
    requires !Through(flags, 6)
    ensures k < 6 && Through(flags, k) && !flags[k]
  {
    k := if !flags[0] then 0 else if !flags[1] then 1 else if !flags[2] then 2
         else if !flags[3] then 3 else if !flags[4] then 4 else 5;
  }
}
