/** Six resonance bands and the errors of the planetary geography. */
module Bands {
  import opened Prelude

  type Six = s: seq<nat> | |s| == 6 witness [0, 0, 0, 0, 0, 0]

  const Zero6: Six := [0, 0, 0, 0, 0, 0]

  datatype GeographyError = Overflow | Corrupt

  function Sum6(s: Six): nat {
    s[0] + s[1] + s[2] + s[3] + s[4] + s[5]
  }

  /** The part of the sum contributed by the slots before `n`. */
  function SumBefore(s: Six, n: nat): nat
    requires n <= 6
  {
    if n == 0 then 0 else SumBefore(s, n - 1) + s[n - 1]
  }

  lemma SumBeforeAll(s: Six)
    ensures SumBefore(s, 6) == Sum6(s)
  {
    assert SumBefore(s, 1) == s[0];
    assert SumBefore(s, 2) == s[0] + s[1];
    assert SumBefore(s, 3) == s[0] + s[1] + s[2];
    assert SumBefore(s, 4) == s[0] + s[1] + s[2] + s[3];
  }

  lemma {:induction false} SumBeforeSame(s: Six, t: Six, n: nat)
    requires n <= 6 && forall k | 0 <= k < n :: s[k] == t[k]
    ensures SumBefore(s, n) == SumBefore(t, n)
  {
    if n > 0 {
      SumBeforeSame(s, t, n - 1);
    }
  }

  lemma SumBeforePut(s: Six, slot: nat, units: nat)
    requires slot < 6
    ensures SumBefore(s[slot := units], slot) == SumBefore(s, slot)
    ensures SumBefore(s[slot := units], slot + 1) == SumBefore(s, slot) + units
  {
    SumBeforeSame(s, s[slot := units], slot);
  }

  lemma SumBeforeStep(s: Six, n: nat)
    requires n < 6
    ensures SumBefore(s, n + 1) == SumBefore(s, n) + s[n]
  {
  }

  lemma SumBeforeNone(s: Six)
    ensures SumBefore(s, 0) == 0
  {
  }

  function SixMinus(a: Six, b: Six): Six {
    [Saturating(a[0], b[0]), Saturating(a[1], b[1]), Saturating(a[2], b[2]),
     Saturating(a[3], b[3]), Saturating(a[4], b[4]), Saturating(a[5], b[5])]
  }

  function SixPlus(a: Six, b: Six): Six {
    [a[0] + b[0], a[1] + b[1], a[2] + b[2], a[3] + b[3], a[4] + b[4], a[5] + b[5]]
  }

  lemma Put6(s: Six, slot: nat, units: nat)
    requires slot < 6
    ensures Sum6(s[slot := units]) == Sum6(s) - s[slot] + units
  {
  }

  lemma SlotWithinSum(s: Six, slot: nat)
    requires slot < 6
    ensures s[slot] <= Sum6(s)
  {
  }

  ghost function Slot(slot: nat): Six -> int
    requires slot < 6
  {
    (s: Six) => s[slot]
  }

  ghost function AllSlots(): Six -> int {
    (s: Six) => Sum6(s)
  }

  /** Planet-wide units in one band. */
  ghost function BandSum(cells: seq<Six>, slot: nat): int
    requires slot < 6
  {
    SumSeq(cells, Slot(slot))
  }

  // ----- the ring of six slots -----

  function Next6(cursor: nat): (next: nat)
    requires cursor < 6
    ensures next < 6 && next != cursor
  {
    (cursor + 1) % 6
  }

  /** Steps around the ring from `cursor` to `s`. */
  function Ahead(s: nat, cursor: nat): nat
    requires s < 6 && cursor < 6
  {
    if cursor <= s then s - cursor else s + 6 - cursor
  }

  lemma AheadStep(cursor: nat)
    requires cursor < 6
    ensures Ahead(cursor, Next6(cursor)) == 5
    ensures forall s | 0 <= s < 6 && s != cursor :: Ahead(s, Next6(cursor)) == Ahead(s, cursor) - 1
  {
  }

  lemma AheadNext(slot: nat, start: nat)
    requires slot < 6 && start < 6
    ensures Ahead(start, start) == 0 && Ahead(slot, start) < 6
    ensures Ahead(slot, start) < 5 ==> Ahead(Next6(slot), start) == Ahead(slot, start) + 1
    ensures forall s | 0 <= s < 6 :: Ahead(s, start) == Ahead(slot, start) ==> s == slot
  {
  }
}
