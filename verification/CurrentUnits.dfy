/** Exact resonance quantities: a finite map from resonance name to a positive number of units. */
module CurrentUnits {
  import opened Prelude

  datatype Resonance = Resonance(name: string)

  /** "No zero entries" is the representation invariant every constructor keeps. */
  type Parts = m: map<Resonance, nat> | forall n | n in m :: 0 < m[n]

  datatype Current = Current(parts: Parts)

  const Empty: Current := Current(map[])

  datatype LedgerError =
    | InvalidCurrent
    | Overflow
    | InsufficientResonance
    | InsufficientCurrent
    | MissingAccount
    | InvalidTransaction
    | VersionConflict
    | PermissionDenied
    | Unbalanced
    | UnknownResonance
    | Corrupt

  datatype Verdict = Pass | Fail(error: LedgerError)

  function UnitsOf(c: Current, r: Resonance): nat {
    if r in c.parts then c.parts[r] else 0
  }

  function Single(r: Resonance, units: nat): (c: Current)
    ensures forall n {:trigger UnitsOf(c, n)} :: UnitsOf(c, n) == if n == r then units else 0
  {
    if units == 0 then Empty else Current(map[r := units])
  }

  ghost function Weight(): nat -> nat {
    (units: nat) => units
  }

  /** The scalar quantity of a mixture. */
  ghost function Total(c: Current): nat {
    SumMap(c.parts, Weight())
  }

  // ----- the algebra of mixtures -----

  function Plus(a: Current, b: Current): (sum: Current)
    ensures forall n {:trigger UnitsOf(sum, n)} :: UnitsOf(sum, n) == UnitsOf(a, n) + UnitsOf(b, n)
  {
    Current(map n | n in a.parts.Keys + b.parts.Keys :: UnitsOf(a, n) + UnitsOf(b, n))
  }

  ghost predicate Covers(a: Current, b: Current) {
    forall n {:trigger UnitsOf(a, n)} {:trigger UnitsOf(b, n)} :: UnitsOf(b, n) <= UnitsOf(a, n)
  }

  function Minus(a: Current, b: Current): (rest: Current)
    requires Covers(a, b)
    ensures forall n {:trigger UnitsOf(rest, n)} :: UnitsOf(rest, n) == UnitsOf(a, n) - UnitsOf(b, n)
  {
    Current(map n | n in a.parts && UnitsOf(b, n) < a.parts[n] :: a.parts[n] - UnitsOf(b, n))
  }

  /** The mixture with one band replaced. */
  function Put(c: Current, n: Resonance, units: nat): (d: Current)
    ensures forall k {:trigger UnitsOf(d, k)} :: UnitsOf(d, k) == if k == n then units else UnitsOf(c, k)
  {
    if units == 0 then Current(c.parts - {n}) else Current(c.parts[n := units])
  }

  /** Mixtures are determined by their per-resonance units. */
  lemma SameUnits(a: Current, b: Current)
    requires forall n :: UnitsOf(a, n) == UnitsOf(b, n)
    ensures a == b
  {
    forall n ensures n in a.parts <==> n in b.parts {
      assert UnitsOf(a, n) == UnitsOf(b, n);
    }
    forall n | n in a.parts ensures a.parts[n] == b.parts[n] {
      assert UnitsOf(a, n) == UnitsOf(b, n);
    }
    assert a.parts == b.parts;
  }

  lemma TotalPut(c: Current, n: Resonance, units: nat)
    ensures Total(Put(c, n, units)) + UnitsOf(c, n) == Total(c) + units
  {
    if units != 0 {
      SumMapPut(c.parts, Weight(), n, units);
    } else if n in c.parts {
      SumMapPick(c.parts, Weight(), n);
    } else {
      assert c.parts - {n} == c.parts;
    }
  }

  /** Totals of mixtures that differ in one band differ by that band. */
  lemma TotalOneBand(c: Current, d: Current, n: Resonance)
    requires forall k | k != n :: UnitsOf(c, k) == UnitsOf(d, k)
    ensures Total(d) + UnitsOf(c, n) == Total(c) + UnitsOf(d, n)
  {
    TotalPut(c, n, UnitsOf(d, n));
    SameUnits(d, Put(c, n, UnitsOf(d, n)));
  }

  lemma {:induction false} TotalPlus(a: Current, b: Current)
    ensures Total(Plus(a, b)) == Total(a) + Total(b)
    decreases |b.parts.Keys|
  {
    if b.parts.Keys == {} {
      SameUnits(Plus(a, b), a);
    } else {
      var n := Pick(b.parts.Keys);
      var c := Put(b, n, 0);
      assert c.parts.Keys == b.parts.Keys - {n};
      TotalPlus(a, c);
      TotalOneBand(c, b, n);
      TotalOneBand(Plus(a, c), Plus(a, b), n);
    }
  }

  /** Taking a part out and putting it back restores the mixture, so totals subtract exactly. */
  lemma MinusPlus(a: Current, b: Current)
    requires Covers(a, b)
    ensures Plus(Minus(a, b), b) == a
    ensures Total(Minus(a, b)) + Total(b) == Total(a)
  {
    SameUnits(Plus(Minus(a, b), b), a);
    TotalPlus(Minus(a, b), b);
  }

  lemma UnitsWithinTotal(c: Current, r: Resonance)
    ensures UnitsOf(c, r) <= Total(c)
  {
    if r in c.parts {
      SumMapMember(c.parts, Weight(), r);
    }
  }

  lemma EmptyIffZero(c: Current)
    ensures c == Empty <==> Total(c) == 0
  {
    if c.parts != map[] {
      var n :| n in c.parts;
      SumMapMember(c.parts, Weight(), n);
    }
  }

  lemma TotalSingle(r: Resonance, units: nat)
    ensures Total(Single(r, units)) == units
  {
    TotalOneBand(Empty, Single(r, units), r);
  }

  // ----- the operations, entry by entry -----

  method TotalChecked(c: Current) returns (total: nat, verdict: Verdict)
    ensures verdict == if Total(c) <= U64_MAX then Pass else Fail(Overflow)
    ensures verdict.Pass? ==> total == Total(c)
  {
    total := 0;
    var rest := c.parts;
    while rest.Keys != {}
      invariant total + SumMap(rest, Weight()) == Total(c)
      invariant total <= U64_MAX
      decreases |rest|
    {
      var n :| n in rest.Keys;
      SumMapPick(rest, Weight(), n);
      total := total + rest[n];
      rest := rest - {n};
      if total > U64_MAX {
        return 0, Fail(Overflow);
      }
    }
    verdict := Pass;
  }

  /** The entries of `other` not yet visited by a walk over its bands. */
  ghost predicate Remaining(other: Current, done: set<Resonance>, rest: set<Resonance>) {
    done !! rest && done + rest == other.parts.Keys
  }

  predicate BandOverflows(self: Current, other: Current) {
    exists n | n in other.parts :: UnitsOf(self, n) + other.parts[n] > U64_MAX
  }

  /** Some bands of `after` have been added already; one that would overflow has not. */
  ghost predicate PartlyAdded(self: Current, other: Current, after: Current) {
    forall n {:trigger UnitsOf(after, n)} ::
      || UnitsOf(after, n) == UnitsOf(self, n)
      || UnitsOf(after, n) == UnitsOf(self, n) + UnitsOf(other, n) <= U64_MAX
  }

  /** Some bands of `after` have been taken already; one that is short has not. */
  ghost predicate PartlyTaken(self: Current, other: Current, after: Current) {
    forall n {:trigger UnitsOf(after, n)} ::
      || UnitsOf(after, n) == UnitsOf(self, n)
      || (UnitsOf(other, n) <= UnitsOf(self, n) && UnitsOf(after, n) == UnitsOf(self, n) - UnitsOf(other, n))
  }

  /** Adds in place. A failing sum may have updated some bands of `after` already; the whole mixture is in place when
      every single band fits and only the total overflows. */
  method CheckedAdd(self: Current, other: Current) returns (after: Current, verdict: Verdict)
    ensures verdict == if Total(self) + Total(other) <= U64_MAX then Pass else Fail(Overflow)
    ensures verdict.Pass? ==> after == Plus(self, other)
    ensures verdict.Fail? ==>
              if BandOverflows(self, other) then PartlyAdded(self, other, after) else after == Plus(self, other)
  {
    after := self;
    var rest := other.parts.Keys;
    ghost var done: set<Resonance> := {};
    TotalPlus(self, other);
    while rest != {}
      invariant Remaining(other, done, rest)
      invariant forall n | n in done :: UnitsOf(self, n) + other.parts[n] <= U64_MAX
      invariant forall n {:trigger UnitsOf(after, n)} ::
                  UnitsOf(after, n) == UnitsOf(self, n) + if n in done then UnitsOf(other, n) else 0
    {
      var n :| n in rest;
      var next := UnitsOf(after, n) + other.parts[n];
      if next > U64_MAX {
        UnitsWithinTotal(Plus(self, other), n);
        return after, Fail(Overflow);
      }
      after := Put(after, n, next);
      done, rest := done + {n}, rest - {n};
    }
    SameUnits(after, Plus(self, other));
    var total;
    total, verdict := TotalChecked(after);
  }

  /** Subtracts in place, or reports a band that is short. */
  method CheckedSub(self: Current, other: Current) returns (after: Current, verdict: Verdict)
    ensures verdict == if Covers(self, other) then Pass else Fail(InsufficientResonance)
    ensures verdict.Pass? ==> after == Minus(self, other)
    ensures PartlyTaken(self, other, after)
  {
    after := self;
    var rest := other.parts.Keys;
    ghost var done: set<Resonance> := {};
    while rest != {}
      invariant Remaining(other, done, rest)
      invariant forall n | n in done :: other.parts[n] <= UnitsOf(self, n)
      invariant forall n {:trigger UnitsOf(after, n)} ::
                  UnitsOf(after, n) == UnitsOf(self, n) - if n in done then UnitsOf(other, n) else 0
    {
      var n :| n in rest;
      var available := UnitsOf(after, n);
      if available < other.parts[n] {
        return after, Fail(InsufficientResonance);
      }
      after := Put(after, n, available - other.parts[n]);
      done, rest := done + {n}, rest - {n};
    }
    SameUnits(after, Minus(self, other));
    verdict := Pass;
  }

  // ----- taking a scalar amount out of a mixture -----

  /** Nothing is taken from a band while one named before it still holds units. */
  ghost predicate InOrder(names: seq<Resonance>, after: Current, taken: Current) {
    forall i, j | 0 <= i < j < |names| && UnitsOf(taken, names[j]) != 0 && names[j] !in names[..i + 1] ::
      UnitsOf(after, names[i]) == 0
  }

  /** Removes exactly `units`, preferred bands first and the rest in stored order. It succeeds
      exactly when the mixture holds that many; then nothing is created or lost. A request for more has
      emptied the mixture before it fails, and what was taken out is dropped: it loses everything there was. */
  method TakeUnits(self: Current, units: nat, preferred: seq<Resonance>, stored: seq<Resonance>)
    returns (after: Current, taken: Current, verdict: Verdict)
    requires Total(self) <= U64_MAX
    requires forall n :: n in self.parts <==> n in stored
    ensures verdict == if units <= Total(self) then Pass else Fail(InsufficientCurrent)
    ensures verdict.Pass? ==> Plus(after, taken) == self && Total(taken) == units && InOrder(preferred, after, taken)
    ensures verdict.Fail? ==> after == Empty && taken == Empty
    ensures Plus(after, taken) == self <==> units <= Total(self) || self == Empty
  {
    hide Plus, Minus, Single, Put, Total;
    var names := preferred;
    for i := 0 to |stored|
      invariant forall k | 0 <= k < i :: stored[k] in names
      invariant preferred <= names
    {
      if stored[i] !in names {
        names := names + [stored[i]];
      }
    }
    after, taken := self, Empty;
    EmptyIffZero(taken);
    SameUnits(Plus(Empty, Empty), Empty);
    var remaining: nat := units;
    SameUnits(Plus(after, taken), self);
    var i := 0;
    while i < |names| && remaining != 0
      invariant 0 <= i <= |names|
      invariant Plus(after, taken) == self
      invariant Total(taken) + remaining == units
      invariant forall k | 0 <= k < i :: remaining != 0 || k < i - 1 ==> UnitsOf(after, names[k]) == 0
      invariant forall n | n !in names[..i] :: UnitsOf(taken, n) == 0
    {
      var take := Min(UnitsOf(after, names[i]), remaining);
      if take != 0 {
        after, taken := MoveBand(self, after, taken, names[i], take);
        remaining := remaining - take;
      }
      i := i + 1;
    }
    TotalPlus(after, taken);
    if remaining != 0 {
      forall n ensures UnitsOf(after, n) == UnitsOf(Empty, n) {
        assert UnitsOf(after, n) + UnitsOf(taken, n) == UnitsOf(self, n);
        assert n in self.parts ==> n in names;
      }
      SameUnits(after, Empty);
      return after, Empty, Fail(InsufficientCurrent);
    }
    verdict := Pass;
  }

  method MoveBand(ghost self: Current, from: Current, into: Current, band: Resonance, units: nat)
    returns (after: Current, taken: Current)
    requires Total(self) <= U64_MAX && Plus(from, into) == self
    requires 0 < units <= UnitsOf(from, band)
    ensures Plus(after, taken) == self
    ensures Total(taken) == Total(into) + units
    ensures forall n :: UnitsOf(after, n) == UnitsOf(from, n) - if n == band then units else 0
    ensures forall n :: UnitsOf(taken, n) == UnitsOf(into, n) + if n == band then units else 0
  {
    hide Plus, Minus, Single, Put, Total;
    var part := Single(band, units);
    var fits;
    TotalSingle(band, units);
    MinusPlus(from, part);
    TotalPlus(from, into);
    TotalPlus(into, part);
    after, fits := CheckedSub(from, part);
    taken, fits := CheckedAdd(into, part);
    SameUnits(Plus(after, taken), self);
  }
}
