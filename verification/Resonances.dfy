/** Splitting cells into six bands and relabelling them to exact planet-wide band totals. */
module Resonances {
  import opened Prelude
  import opened Bands
  import opened Apportion

  const FULL_WEIGHT: nat := 255

  // ----- baseline mixtures -----

  /** A largest entry above one; ties go to the later slot. */
  method LargestAboveOne(s: Six) returns (slot: nat)
    requires exists k :: 0 <= k < 6 && s[k] > 1
    ensures slot < 6 && s[slot] > 1
    ensures forall k | 0 <= k < 6 && s[k] > 1 :: s[k] <= s[slot]
  {
    slot := 0;
    for k := 0 to 6
      invariant slot < 6
      invariant forall j | 0 <= j < k && s[j] > 1 :: s[slot] > 1 && s[j] <= s[slot]
    {
      if s[k] > 1 && (s[slot] <= 1 || s[slot] <= s[k]) {
        slot := k;
      }
    }
  }

  function Raised(values: Six): Six {
    [Max(values[0], 1), Max(values[1], 1), Max(values[2], 1),
     Max(values[3], 1), Max(values[4], 1), Max(values[5], 1)]
  }

  /** A band's share of 255, at least one. */
  function BaseShare(values: Six, k: nat): nat
    requires k < 6
  {
    Share255(Raised(values)[k], Sum6(Raised(values)))
  }

  function Share255(part: nat, total: nat): nat {
    if total == 0 then 1 else Max(part * 255 / total, 1)
  }

  /** Any six weights become a baseline: every band present, adding up to exactly 255, and each within a few
      units of its share. */
  method NormalizedSix(values: Six) returns (out: Six)
    ensures Sum6(out) == FULL_WEIGHT
    ensures forall k | 0 <= k < 6 :: 1 <= out[k] <= U8_MAX
    ensures forall k | 0 <= k < 6 :: BaseShare(values, k) <= out[k] + 6 && out[k] <= BaseShare(values, k) + 1
  {
    var first, given := ShareAll(values);
    ghost var shares := first;
    hide Sum6, BaseShare;
    if given > FULL_WEIGHT {
      out := Reduced(first, given);
    } else {
      out := Filled(first, given);
    }
    forall k | 0 <= k < 6 ensures out[k] <= U8_MAX {
      SlotWithinSum(out, k);
    }
  }

  method ShareAll(values: Six) returns (out: Six, given: nat)
    ensures forall k | 0 <= k < 6 :: 1 <= out[k] == BaseShare(values, k)
    ensures given == Sum6(out) && 250 <= given <= 261
  {
    hide *;
    var raised := Raised(values);
    var total := Sum6(raised);
    RaisedTotal(values);
    out, given := Zero6, 0;
    SumBeforeNone(out);
    SumBeforeNone(raised);
    for k := 0 to 6
      invariant forall j | 0 <= j < k :: 1 <= out[j] == BaseShare(values, j)
      invariant given == SumBefore(out, k)
      invariant 255 * SumBefore(raised, k) <= total * given + (total - 1) * k
      invariant total * given <= 255 * SumBefore(raised, k) + total * k
    {
      var units := Share255(raised[k], total);
      BaseShareIs(values, k);
      ShareBounds(raised[k], total, units);
      ShareStep(total, given, units, SumBefore(raised, k), raised[k], k);
      SumBeforeStep(raised, k);
      SumBeforePut(out, k, units);
      out := out[k := units];
      given := given + units;
    }
    SumBeforeAll(out);
    SumBeforeAll(raised);
    GivenBounds(total, given);
  }

  lemma RaisedTotal(values: Six)
    ensures 6 <= Sum6(Raised(values))
  {
  }

  lemma BaseShareIs(values: Six, k: nat)
    requires k < 6
    ensures BaseShare(values, k) == Share255(Raised(values)[k], Sum6(Raised(values)))
  {
    hide Share255, Raised, Sum6;
  }

  lemma ShareBounds(part: nat, total: nat, units: nat)
    requires 0 < total && units == Share255(part, total)
    ensures 1 <= units
    ensures part * 255 <= total * units + (total - 1)
    ensures total * units <= part * 255 + total
  {
    var q := part * 255 / total;
    assert part * 255 == total * q + part * 255 % total;
    if units != q {
      assert q == 0 && units == 1;
    }
  }

  lemma ShareStep(total: nat, given: nat, units: nat, before: nat, part: nat, k: nat)
    requires 0 < total
    requires 255 * before <= total * given + (total - 1) * k && total * given <= 255 * before + total * k
    requires part * 255 <= total * units + (total - 1) && total * units <= part * 255 + total
    ensures 255 * (before + part) <= total * (given + units) + (total - 1) * (k + 1)
    ensures total * (given + units) <= 255 * (before + part) + total * (k + 1)
  {
    assert total * (given + units) == total * given + total * units;
    assert (total - 1) * (k + 1) == (total - 1) * k + (total - 1);
    assert total * (k + 1) == total * k + total;
  }

  lemma GivenBounds(total: nat, given: nat)
    requires 0 < total && 255 * total <= total * given + (total - 1) * 6 && total * given <= 255 * total + total * 6
    ensures 250 <= given <= 261
  {
    assert total * 249 < total * given;
    CancelLess(total, 249, given);
    assert total * given <= total * 261;
    CancelAtMost(total, given, 261);
  }

  /** Take the excess from the largest bands, one unit at a time. */
  method Reduced(first: Six, total: nat) returns (out: Six)
    requires total == Sum6(first) && FULL_WEIGHT < total <= 261 && forall k | 0 <= k < 6 :: 1 <= first[k]
    ensures Sum6(out) == FULL_WEIGHT && forall k | 0 <= k < 6 :: 1 <= out[k] <= first[k] <= out[k] + 6
  {
    hide Sum6;
    out := first;
    var given := total;
    while given > FULL_WEIGHT
      invariant FULL_WEIGHT <= given == Sum6(out) <= total
      invariant forall k | 0 <= k < 6 :: 1 <= out[k] <= first[k] <= out[k] + (total - given)
    {
      SomeAboveOne(out);
      var slot := LargestAboveOne(out);
      Put6(out, slot, out[slot] - 1);
      out := out[slot := out[slot] - 1];
      given := given - 1;
    }
  }

  /** Fill up the shortfall of at most five, each unit in a different band. */
  method Filled(first: Six, total: nat) returns (out: Six)
    requires total == Sum6(first) && 250 <= total <= FULL_WEIGHT
    ensures Sum6(out) == FULL_WEIGHT && forall k | 0 <= k < 6 :: first[k] <= out[k] <= first[k] + 1
  {
    hide Sum6;
    out := first;
    var given := total;
    while given < FULL_WEIGHT
      invariant total <= given == Sum6(out) <= FULL_WEIGHT
      invariant forall k | 0 <= k < 6 ::
                  out[k] == first[k] + if FULL_WEIGHT - given < k <= FULL_WEIGHT - total then 1 else 0
    {
      var slot := (FULL_WEIGHT - given) % 6;
      Put6(out, slot, out[slot] + 1);
      out := out[slot := out[slot] + 1];
      given := given + 1;
    }
  }

  lemma SomeAboveOne(s: Six)
    requires Sum6(s) > 6
    ensures exists k :: 0 <= k < 6 && s[k] > 1
  {
    var k := if s[0] > 1 then 0 else if s[1] > 1 then 1 else if s[2] > 1 then 2
             else if s[3] > 1 then 3 else if s[4] > 1 then 4 else 5;
    assert s[k] > 1;
  }

  // ----- splitting one cell -----

  function Floor255(total: nat, weight: nat): nat {
    total * weight / 255
  }

  /** Every unit of a cell is labelled: each band gets the floor of its share or one more. */
  method SplitResonance(total: nat, weights: Six, rotation: nat) returns (out: Six)
    requires Sum6(weights) == FULL_WEIGHT
    ensures Sum6(out) == total
    ensures forall s | 0 <= s < 6 :: Floor255(total, weights[s]) <= out[s] <= Floor255(total, weights[s]) + 1
  {
    var given;
    out, given := FloorSplit(total, weights);
    ghost var floors := out;
    hide *;
    var start := rotation % 6;
    var remaining: nat := total - given;
    var slot: nat := start;
    AheadNext(slot, start);
    DealtNone(floors, start);
    ghost var k: nat := 0;
    while remaining != 0
      invariant k + remaining == total - given < 6
      invariant 0 <= slot < 6 && (remaining != 0 ==> Ahead(slot, start) == k)
      invariant Dealt(floors, out, start, k)
    {
      DealNext(floors, out, start, k, slot);
      out := out[slot := out[slot] + 1];
      remaining := remaining - 1;
      AheadNext(slot, start);
      slot := Next6(slot);
      k := k + 1;
    }
    DealtAround(floors, out, start, k);
  }

  /** One unit each for the first `k` slots from `start` around the ring. */
  ghost predicate Dealt(floors: Six, out: Six, start: nat, k: nat)
    requires start < 6
  {
    && Sum6(out) == Sum6(floors) + k
    && forall s | 0 <= s < 6 :: out[s] == floors[s] + if Ahead(s, start) < k then 1 else 0
  }

  lemma DealtNone(floors: Six, start: nat)
    requires start < 6
    ensures Dealt(floors, floors, start, 0)
  {
    hide Sum6, Ahead;
  }

  lemma DealNext(floors: Six, out: Six, start: nat, k: nat, slot: nat)
    requires start < 6 && slot < 6 && Dealt(floors, out, start, k) && Ahead(slot, start) == k
    ensures Dealt(floors, out[slot := out[slot] + 1], start, k + 1)
  {
    Put6(out, slot, out[slot] + 1);
    AheadNext(slot, start);
    hide Sum6, Ahead;
  }

  lemma DealtAround(floors: Six, out: Six, start: nat, k: nat)
    requires start < 6 && Dealt(floors, out, start, k)
    ensures Sum6(out) == Sum6(floors) + k
    ensures forall s | 0 <= s < 6 :: floors[s] <= out[s] <= floors[s] + 1
  {
    hide Sum6, Ahead;
  }

  /** The floors of the six shares leave fewer than six units over. */
  method FloorSplit(total: nat, weights: Six) returns (out: Six, given: nat)
    requires Sum6(weights) == FULL_WEIGHT
    ensures given == Sum6(out) <= total < given + 6
    ensures forall s | 0 <= s < 6 :: out[s] == Floor255(total, weights[s])
  {
    hide Floor255, Sum6;
    out, given := Zero6, 0;
    for slot := 0 to 6
      invariant forall s | 0 <= s < slot :: out[s] == Floor255(total, weights[s])
      invariant given == SumBefore(out, slot)
      invariant 255 * given <= total * SumBefore(weights, slot) <= 255 * given + 254 * slot
    {
      var units := Floor255(total, weights[slot]);
      SumBeforePut(out, slot, units);
      FloorStep(total, SumBefore(weights, slot), weights[slot], given, units, slot);
      out := out[slot := units];
      given := given + units;
    }
    SumBeforeAll(out);
    SumBeforeAll(weights);
    assert total * FULL_WEIGHT == 255 * total;
  }

  lemma FloorStep(total: nat, before: nat, weight: nat, given: nat, units: nat, slot: nat)
    requires units == Floor255(total, weight)
    requires 255 * given <= total * before <= 255 * given + 254 * slot
    ensures 255 * (given + units) <= total * (before + weight) <= 255 * (given + units) + 254 * (slot + 1)
  {
    assert total * (before + weight) == total * before + total * weight;
  }

  // ----- planet-wide relabelling -----

  function MoveUnits(cell: Six, from: nat, to: nat, units: nat): Six
    requires from < 6 && to < 6 && from != to && units <= cell[from]
  {
    cell[from := cell[from] - units][to := cell[to] + units]
  }

  lemma MoveUnitsBands(cells: seq<Six>, i: nat, from: nat, to: nat, units: nat, slot: nat)
    requires i < |cells| && from < 6 && to < 6 && from != to && slot < 6 && units <= cells[i][from]
    ensures BandSum(cells[i := MoveUnits(cells[i], from, to, units)], slot)
            == BandSum(cells, slot) + (if slot == to then units as int else 0)
               - (if slot == from then units as int else 0)
    ensures Sum6(MoveUnits(cells[i], from, to, units)) == Sum6(cells[i])
  {
    SumSeqPut(cells, i, MoveUnits(cells[i], from, to, units), Slot(slot));
  }

  ghost predicate Eligible(baseline: seq<Six>, i: nat, source: nat, deficit: nat, preferred: bool)
    requires i < |baseline| && source < 6 && deficit < 6
  {
    preferred == (baseline[i][deficit] > baseline[i][source])
  }

  /** `after` is `before` with `moved` units relabelled from `source` to `deficit`, each inside its cell. */
  ghost predicate Relabelled(before: seq<Six>, after: seq<Six>, source: nat, deficit: nat, moved: nat)
    requires source < 6 && deficit < 6
  {
    && |after| == |before|
    && (forall i | 0 <= i < |before| :: Sum6(after[i]) == Sum6(before[i]) && after[i][source] <= before[i][source])
    && (forall slot | 0 <= slot < 6 ::
          BandSum(after, slot) == BandSum(before, slot) + (if slot == deficit then moved as int else 0)
                                  - (if slot == source then moved as int else 0))
  }

  function RingCell(start: nat, offset: nat, n: nat): nat
    requires start < n && offset <= n
  {
    if start + offset < n then start + offset else start + offset - n
  }

  lemma RelabelledMore(before: seq<Six>, after: seq<Six>, i: nat, source: nat, deficit: nat, moved: nat, units: nat)
    requires source < 6 && deficit < 6 && source != deficit && Relabelled(before, after, source, deficit, moved)
    requires i < |after| && units <= after[i][source]
    ensures Relabelled(before, after[i := MoveUnits(after[i], source, deficit, units)], source, deficit, moved + units)
  {
    hide BandSum;
    forall slot | 0 <= slot < 6
      ensures BandSum(after[i := MoveUnits(after[i], source, deficit, units)], slot)
              == BandSum(after, slot) + (if slot == deficit then units as int else 0)
                 - (if slot == source then units as int else 0)
    {
      MoveUnitsBands(after, i, source, deficit, units, slot);
    }
    MoveUnitsBands(after, i, source, deficit, units, 0);
  }

  /** One sweep around the ring over the cells of one preference. It stops short of `needed` only by
      draining the source band of every such cell, and no cell can overflow. */
  method RelabelPass(cells: seq<Six>, baseline: seq<Six>, source: nat, deficit: nat, start: nat, preferred: bool,
                     needed: nat)
    returns (out: seq<Six>, left: nat)
    requires source < 6 && deficit < 6 && source != deficit
    requires |baseline| == |cells| && start < |cells|
    requires forall i | 0 <= i < |cells| :: Sum6(cells[i]) <= U16_MAX
    ensures left <= needed && Relabelled(cells, out, source, deficit, needed - left)
    ensures left != 0 ==>
              forall i | 0 <= i < |cells| && Eligible(baseline, i, source, deficit, preferred) :: out[i][source] == 0
    ensures |out| == |cells| && forall i | 0 <= i < |cells| && !Eligible(baseline, i, source, deficit, preferred) ::
              out[i] == cells[i]
  {
    hide Relabelled;
    var n := |cells|;
    out, left := cells, needed;
    RelabelledNone(cells, source, deficit);
    var offset := 0;
    while offset < n && left != 0
      invariant 0 <= offset <= n && left <= needed
      invariant Relabelled(cells, out, source, deficit, needed - left) && |out| == n
      invariant forall i | 0 <= i < n && !Eligible(baseline, i, source, deficit, preferred) :: out[i] == cells[i]
      invariant left != 0 ==>
                  forall o | 0 <= o < offset && Eligible(baseline, RingCell(start, o, n), source, deficit, preferred) ::
                    out[RingCell(start, o, n)][source] == 0
    {
      var index := (start + offset) % n;
      RingIsModulo(start, offset, n);
      if preferred == (baseline[index][deficit] > baseline[index][source]) && out[index][source] != 0 {
        var moved := Min(out[index][source], left);
        RelabelledRoom(cells, out, source, deficit, needed - left, index, moved);
        RelabelledMore(cells, out, index, source, deficit, needed - left, moved);
        out := out[index := MoveUnits(out[index], source, deficit, moved)];
        left := left - moved;
      }
      offset := offset + 1;
    }
    if left != 0 {
      forall i | 0 <= i < n && Eligible(baseline, i, source, deficit, preferred) ensures out[i][source] == 0 {
        var o := if start <= i then i - start else i + n - start;
        assert RingCell(start, o, n) == i;
      }
    }
  }

  lemma RelabelledNone(cells: seq<Six>, source: nat, deficit: nat)
    requires source < 6 && deficit < 6
    ensures Relabelled(cells, cells, source, deficit, 0)
  {
    hide BandSum;
  }

  /** The checked addition of the source has room: a cell's bands never exceed its scalar. */
  lemma RelabelledRoom(before: seq<Six>, after: seq<Six>, source: nat, deficit: nat, moved: nat, i: nat, units: nat)
    requires source < 6 && deficit < 6 && source != deficit && Relabelled(before, after, source, deficit, moved)
    requires i < |after| && units <= after[i][source] && Sum6(before[i]) <= U16_MAX
    ensures after[i][deficit] + units <= U16_MAX
  {
    hide BandSum;
  }

  lemma RingIsModulo(start: nat, offset: nat, n: nat)
    requires start < n && offset < n
    ensures (start + offset) % n == RingCell(start, offset, n)
  {
    RemainderUnique(start + offset, n, if start + offset < n then 0 else 1, RingCell(start, offset, n));
  }

  function Surplus(actual: Six, targets: Six, slot: nat): int
    requires slot < 6
  {
    actual[slot] as int - targets[slot] as int
  }

  /** The slot with the largest surplus; ties go to the later slot. */
  method LargestSurplus(actual: Six, targets: Six) returns (slot: Option<nat>)
    ensures slot.None? <==> forall k | 0 <= k < 6 :: actual[k] <= targets[k]
    ensures slot.Some? ==> slot.value < 6 && targets[slot.value] < actual[slot.value]
                           && forall k | 0 <= k < 6 ::
                                Surplus(actual, targets, k) <= Surplus(actual, targets, slot.value)
  {
    slot := None;
    for k := 0 to 6
      invariant slot.None? <==> forall j | 0 <= j < k :: actual[j] <= targets[j]
      invariant slot.Some? ==> slot.value < k && targets[slot.value] < actual[slot.value]
                               && forall j | 0 <= j < k ::
                                    Surplus(actual, targets, j) <= Surplus(actual, targets, slot.value)
    {
      if actual[k] > targets[k]
         && (slot.None? || actual[k] - targets[k] >= actual[slot.value] - targets[slot.value]) {
        slot := Some(k);
      }
    }
  }

  lemma {:induction false} BandsAddUp(cells: seq<Six>)
    ensures BandSum(cells, 0) + BandSum(cells, 1) + BandSum(cells, 2) + BandSum(cells, 3) + BandSum(cells, 4)
            + BandSum(cells, 5)
            == SumSeq(cells, AllSlots())
  {
    if cells != [] {
      BandsAddUp(cells[..|cells| - 1]);
    }
  }

  lemma {:induction false} ScalarsAddUp(cells: seq<Six>, totals: seq<nat>)
    requires |cells| == |totals| && forall i | 0 <= i < |cells| :: Sum6(cells[i]) == totals[i]
    ensures SumSeq(cells, AllSlots()) == WeightSum(totals)
  {
    if cells != [] {
      ScalarsAddUp(cells[..|cells| - 1], totals[..|totals| - 1]);
    }
  }

  /** The planet-wide totals of `cells`, band by band. */
  ghost predicate Tallies(cells: seq<Six>, actual: Six) {
    forall slot | 0 <= slot < 6 :: actual[slot] == BandSum(cells, slot)
  }

  lemma EmptyHasNoSurplus(cells: seq<Six>, actual: Six, slot: nat)
    requires Tallies(cells, actual) && slot < 6 && actual[slot] > 0
    ensures cells != []
  {
  }

  lemma {:induction false} DrainedBand(cells: seq<Six>, slot: nat)
    requires slot < 6 && forall i | 0 <= i < |cells| :: cells[i][slot] == 0
    ensures BandSum(cells, slot) == 0
  {
    if cells != [] {
      DrainedBand(cells[..|cells| - 1], slot);
    }
  }

  lemma TallyMoved(before: seq<Six>, after: seq<Six>, actual: Six, source: nat, deficit: nat, moved: nat)
    requires source < 6 && deficit < 6 && source != deficit && moved <= actual[source]
    requires Tallies(before, actual) && Relabelled(before, after, source, deficit, moved)
    ensures Tallies(after, MoveUnits(actual, source, deficit, moved))
  {
    hide BandSum;
  }

  /** Relabel exactly `needed` units of one surplus band into one deficit band. Between them the two sweeps see
      every cell, so the amount is always found; cells whose baseline does not favour the deficit band are touched
      only once those that favour it have none of the surplus band left. */
  method Relabel(cells: seq<Six>, baseline: seq<Six>, actual: Six, source: nat, deficit: nat, start: nat, needed: nat)
    returns (out: seq<Six>)
    requires source < 6 && deficit < 6 && source != deficit && needed <= actual[source]
    requires |baseline| == |cells| && start < |cells| && Tallies(cells, actual)
    requires forall i | 0 <= i < |cells| :: Sum6(cells[i]) <= U16_MAX
    ensures Relabelled(cells, out, source, deficit, needed)
    ensures (forall i | 0 <= i < |cells| && Eligible(baseline, i, source, deficit, false) :: out[i] == cells[i])
            || (forall i | 0 <= i < |cells| && Eligible(baseline, i, source, deficit, true) :: out[i][source] == 0)
  {
    hide BandSum;
    var mid, left := RelabelPass(cells, baseline, source, deficit, start, true, needed);
    if left == 0 {
      return mid;
    }
    var rest;
    out, rest := RelabelPass(mid, baseline, source, deficit, start, false, left);
    if rest != 0 {
      forall i | 0 <= i < |cells| ensures out[i][source] == 0 {
        assert Eligible(baseline, i, source, deficit, true) || Eligible(baseline, i, source, deficit, false);
      }
      DrainedBand(out, source);
      assert false;
    }
  }

  /** The relabelling succeeds exactly when the six targets sum to the scalar allocation. Then every
      cell keeps its scalar and every planet-wide band total is exactly its target. */
  method AssignResonances(totals: seq<nat>, baseline: seq<Six>, targets: Six, rotation: nat -> nat,
                          startHash: (nat, nat) -> nat)
    returns (r: Result<seq<Six>, GeographyError>)
    requires |baseline| == |totals|
    requires forall i | 0 <= i < |totals| :: totals[i] <= U16_MAX && Sum6(baseline[i]) == FULL_WEIGHT
    ensures r.Ok? <==> Sum6(targets) == WeightSum(totals)
    ensures r.Ok? ==>
              && |r.value| == |totals|
              && (forall i | 0 <= i < |totals| :: Sum6(r.value[i]) == totals[i])
              && Tallies(r.value, targets)
  {
    var out := SplitAll(totals, baseline, rotation);
    var actual := Tally(out);
    for deficit := 0 to 6
      invariant KeepsScalars(out, totals) && Tallies(out, actual)
      invariant forall k | 0 <= k < deficit :: targets[k] <= actual[k]
    {
      while actual[deficit] < targets[deficit]
        invariant KeepsScalars(out, totals) && Tallies(out, actual)
        invariant forall k | 0 <= k < deficit :: targets[k] <= actual[k]
        decreases targets[deficit] as int - actual[deficit] as int
      {
        hide Tallies, BandSum, Relabelled, KeepsScalars;
        var surplus := LargestSurplus(actual, targets);
        if surplus.None? {
          ScalarSum(out, totals, actual);
          return Err(Corrupt);
        }
        var source := surplus.value;
        var needed := Min(targets[deficit] - actual[deficit], actual[source] - targets[source]);
        EmptyHasNoSurplus(out, actual, source);
        KeptScalars(out, totals);
        var start := startHash(deficit * 6 + source, |out|) % |out|;
        var next := Relabel(out, baseline, actual, source, deficit, start, needed);
        TallyMoved(out, next, actual, source, deficit, needed);
        ScalarsKept(out, next, totals, source, deficit, needed);
        out, actual := next, MoveUnits(actual, source, deficit, needed);
      }
    }
    ScalarSum(out, totals, actual);
    if actual != targets {
      SumsDiffer(actual, targets);
      return Err(Corrupt);
    }
    r := Ok(out);
  }

  ghost predicate KeepsScalars(cells: seq<Six>, totals: seq<nat>) {
    |cells| == |totals| && forall i | 0 <= i < |cells| :: Sum6(cells[i]) == totals[i]
  }

  lemma KeptScalars(cells: seq<Six>, totals: seq<nat>)
    requires KeepsScalars(cells, totals) && forall i | 0 <= i < |totals| :: totals[i] <= U16_MAX
    ensures |cells| == |totals| && forall i | 0 <= i < |cells| :: Sum6(cells[i]) <= U16_MAX
  {
  }

  lemma ScalarsKept(before: seq<Six>, after: seq<Six>, totals: seq<nat>, source: nat, deficit: nat, moved: nat)
    requires source < 6 && deficit < 6 && KeepsScalars(before, totals)
             && Relabelled(before, after, source, deficit, moved)
    ensures KeepsScalars(after, totals)
  {
    hide BandSum;
  }

  lemma ScalarSum(cells: seq<Six>, totals: seq<nat>, actual: Six)
    requires KeepsScalars(cells, totals) && Tallies(cells, actual)
    ensures Sum6(actual) == WeightSum(totals)
  {
    hide BandSum;
    BandsAddUp(cells);
    ScalarsAddUp(cells, totals);
  }

  lemma SumsDiffer(actual: Six, targets: Six)
    requires actual != targets && forall k | 0 <= k < 6 :: targets[k] <= actual[k]
    ensures Sum6(targets) < Sum6(actual)
  {
    assert exists k :: 0 <= k < 6 && targets[k] != actual[k];
  }

  method SplitAll(totals: seq<nat>, baseline: seq<Six>, rotation: nat -> nat) returns (out: seq<Six>)
    requires |baseline| == |totals| && forall i | 0 <= i < |totals| :: Sum6(baseline[i]) == FULL_WEIGHT
    ensures KeepsScalars(out, totals)
  {
    out := [];
    for i := 0 to |totals|
      invariant |out| == i && forall k | 0 <= k < i :: Sum6(out[k]) == totals[k]
    {
      var split := SplitResonance(totals[i], baseline[i], rotation(i));
      out := out + [split];
    }
  }

  method Tally(cells: seq<Six>) returns (actual: Six)
    ensures Tallies(cells, actual)
  {
    actual := Zero6;
    for i := 0 to |cells|
      invariant Tallies(cells[..i], actual)
    {
      ghost var before := actual;
      var c := cells[i];
      forall slot | 0 <= slot < 6 ensures BandSum(cells[..i + 1], slot) == BandSum(cells[..i], slot) + c[slot] {
        SumSeqTake(cells, i, Slot(slot));
      }
      hide BandSum;
      actual := [actual[0] + c[0], actual[1] + c[1], actual[2] + c[2], actual[3] + c[3], actual[4] + c[4],
                 actual[5] + c[5]];
    }
    assert cells[..|cells|] == cells;
  }
}
