/** One transport pass over the planet: immutable cells, integer deltas, exact balance. */
module Transport {
  import opened Prelude
  import opened Bands
  import opened Flow

  datatype Cell = Cell(deep: Six, ambient: Six, dross: Six, wakeId: nat,
                       historicalMin: nat, historicalMax: nat, remainder: int)

  datatype Direction = East | North | West | South

  datatype Axes = Axes(east: nat, north: nat, west: nat, south: nat)

  datatype Control = Control(capacity: nat, deepCapacity: nat, conductivity: Axes, exchange: nat,
                             drossMobility: nat, baseline: Six)

  /** `step` walks to a neighbouring cell and the direction faced there; `steeper` compares two fillings
      of two capacities; `gate` opens an edge to resonance swaps on some steps. */
  datatype Planet = Planet(
    controls: seq<Control>,
    step: (nat, Direction) -> (nat, Direction),
    steeper: (nat, nat, nat, nat) -> bool,
    gate: (nat, nat) -> bool)

  ghost predicate OnPlanet(planet: Planet, n: nat) {
    && |planet.controls| == n
    && forall i, d: Direction | 0 <= i < n :: planet.step(i, d).0 < n
  }

  // ----- eighteen bands a cell -----

  const DEEP: nat := 0
  const AMBIENT: nat := 6
  const DROSS: nat := 12

  type Delta = s: seq<int> | |s| == 18 witness seq(18, _ => 0)

  const ZeroDelta: Delta := seq(18, _ => 0)

  function Held(cell: Cell, band: nat): nat
    requires band < 18
  {
    if band < 6 then cell.deep[band] else if band < 12 then cell.ambient[band - 6] else cell.dross[band - 12]
  }

  function PutBand(cell: Cell, band: nat, units: nat): Cell
    requires band < 18
  {
    if band < 6 then cell.(deep := cell.deep[band := units])
    else if band < 12 then cell.(ambient := cell.ambient[band - 6 := units])
    else cell.(dross := cell.dross[band - 12 := units])
  }

  lemma PutBandHeld(cell: Cell, band: nat, units: nat, other: nat)
    requires band < 18 && other < 18
    ensures Held(PutBand(cell, band, units), other) == if other == band then units else Held(cell, other)
  {
  }

  ghost function HeldOf(band: nat): Cell -> int
    requires band < 18
  {
    (cell: Cell) => Held(cell, band)
  }

  ghost function BandTotal(cells: seq<Cell>, band: nat): int
    requires band < 18
  {
    SumSeq(cells, HeldOf(band))
  }

  ghost function ChangeOf(band: nat): Delta -> int
    requires band < 18
  {
    (d: Delta) => d[band]
  }

  ghost function ChangeTotal(delta: seq<Delta>, band: nat): int
    requires band < 18
  {
    SumSeq(delta, ChangeOf(band))
  }

  ghost predicate Representable(cell: Cell) {
    forall band | 0 <= band < 18 :: Held(cell, band) <= U16_MAX
  }

  /** No band is debited below what the cell held when the pass began. */
  ghost predicate BackedBy(cell: Cell, change: Delta) {
    forall band | 0 <= band < 18 :: 0 <= Held(cell, band) + change[band]
  }

  ghost predicate Backed(cells: seq<Cell>, delta: seq<Delta>) {
    |delta| == |cells| && forall i | 0 <= i < |cells| :: Representable(cells[i]) && BackedBy(cells[i], delta[i])
  }

  /** Dross balances alone; deep and ambient Current balance together, resonance by resonance. */
  ghost predicate Balanced(delta: seq<Delta>) {
    forall slot | 0 <= slot < 6 :: BalancedSlot(delta, slot)
  }

  ghost predicate BalancedSlot(delta: seq<Delta>, slot: nat)
    requires slot < 6
  {
    && ChangeTotal(delta, DROSS + slot) == 0
    && ChangeTotal(delta, DEEP + slot) + ChangeTotal(delta, AMBIENT + slot) == 0
  }

  ghost predicate SoundFlux(cells: seq<Cell>, delta: seq<Delta>) {
    Backed(cells, delta) && Balanced(delta)
  }

  // ----- the elementary move -----

  /** Units already taken out of a band, as the unsigned 16-bit number the source keeps. */
  function Debited(change: Delta, band: nat): nat
    requires band < 18
  {
    Max(-change[band], 0) % 0x1_0000
  }

  function Unspent(cells: seq<Cell>, delta: seq<Delta>, i: nat, band: nat): nat
    requires i < |cells| == |delta| && band < 18
  {
    Max(Held(cells[i], band) - Debited(delta[i], band), 0)
  }

  function Change(delta: seq<Delta>, i: nat, band: nat, units: int): (r: seq<Delta>)
    requires i < |delta| && band < 18
    ensures |r| == |delta|
  {
    delta[i := delta[i][band := delta[i][band] + units]]
  }

  function Shift(delta: seq<Delta>, from: nat, p: nat, to: nat, q: nat, units: nat): (r: seq<Delta>)
    requires from < |delta| && to < |delta| && p < 18 && q < 18
    ensures |r| == |delta|
  {
    Change(Change(delta, from, p, -(units as int)), to, q, units)
  }

  ghost predicate SameResonance(p: nat, q: nat) {
    p < 18 && q < 18 && p % 6 == q % 6 && (p < 12 <==> q < 12)
  }

  lemma ChangeTotals(delta: seq<Delta>, i: nat, band: nat, units: int, other: nat)
    requires i < |delta| && band < 18 && other < 18
    ensures ChangeTotal(Change(delta, i, band, units), other)
            == ChangeTotal(delta, other) + if other == band then units else 0
  {
    SumSeqPut(delta, i, delta[i][band := delta[i][band] + units], ChangeOf(other));
  }

  lemma ShiftTotals(delta: seq<Delta>, from: nat, p: nat, to: nat, q: nat, units: nat, other: nat)
    requires from < |delta| && to < |delta| && p < 18 && q < 18 && other < 18
    ensures ChangeTotal(Shift(delta, from, p, to, q, units), other)
            == ChangeTotal(delta, other) + (if other == q then units as int else 0)
               - (if other == p then units as int else 0)
  {
    hide ChangeTotal, Change;
    ChangeTotals(delta, from, p, -(units as int), other);
    ChangeTotals(Change(delta, from, p, -(units as int)), to, q, units, other);
  }

  lemma ShiftBalanced(delta: seq<Delta>, from: nat, p: nat, to: nat, q: nat, units: nat)
    requires from < |delta| && to < |delta| && SameResonance(p, q) && Balanced(delta)
    ensures Balanced(Shift(delta, from, p, to, q, units))
  {
    hide ChangeTotal, Shift;
    forall slot | 0 <= slot < 6 ensures BalancedSlot(Shift(delta, from, p, to, q, units), slot) {
      assert BalancedSlot(delta, slot);
      ShiftTotals(delta, from, p, to, q, units, DROSS + slot);
      ShiftTotals(delta, from, p, to, q, units, DEEP + slot);
      ShiftTotals(delta, from, p, to, q, units, AMBIENT + slot);
    }
  }

  lemma ChangeBacked(cells: seq<Cell>, delta: seq<Delta>, i: nat, band: nat, units: int)
    requires Backed(cells, delta) && i < |cells| && band < 18 && 0 <= Held(cells[i], band) + delta[i][band] + units
    ensures Backed(cells, Change(delta, i, band, units))
  {
    hide Held, Representable;
  }

  /** The 16-bit truncation of the debit never bites, because no debit exceeds what the band held. */
  lemma DebitedExact(cells: seq<Cell>, delta: seq<Delta>, i: nat, band: nat)
    requires Backed(cells, delta) && i < |cells| && band < 18
    ensures Debited(delta[i], band) == Max(-delta[i][band], 0)
    ensures Unspent(cells, delta, i, band) == Min(Held(cells[i], band) + delta[i][band], Held(cells[i], band))
  {
    assert Held(cells[i], band) <= U16_MAX && 0 <= Held(cells[i], band) + delta[i][band] by {
      assert Representable(cells[i]) && BackedBy(cells[i], delta[i]);
    }
    hide Held, Backed;
  }

  lemma ShiftBacked(cells: seq<Cell>, delta: seq<Delta>, from: nat, p: nat, to: nat, q: nat, units: nat)
    requires Backed(cells, delta) && from < |cells| && to < |cells| && p < 18 && q < 18
    requires units <= Unspent(cells, delta, from, p)
    ensures Backed(cells, Shift(delta, from, p, to, q, units))
  {
    DebitedExact(cells, delta, from, p);
    hide Unspent, Held;
    ChangeBacked(cells, delta, from, p, -(units as int));
    var less := Change(delta, from, p, -(units as int));
    assert 0 <= Held(cells[to], q) + less[to][q] by {
      assert BackedBy(cells[to], less[to]);
    }
    ChangeBacked(cells, less, to, q, units);
  }

  lemma ShiftSound(cells: seq<Cell>, delta: seq<Delta>, from: nat, p: nat, to: nat, q: nat, units: nat)
    requires SoundFlux(cells, delta) && from < |cells| == |delta| && to < |cells| && SameResonance(p, q)
    requires units <= Unspent(cells, delta, from, p)
    ensures SoundFlux(cells, Shift(delta, from, p, to, q, units))
  {
    hide Backed, Balanced, Shift, Unspent;
    ShiftBacked(cells, delta, from, p, to, q, units);
    ShiftBalanced(delta, from, p, to, q, units);
  }

  // ----- transfers -----

  /** Six bands moved from `p`.. of one cell to `q`.. of another, each limited to what is still there. */
  function TransferBands(cells: seq<Cell>, delta: seq<Delta>, from: nat, p: nat, to: nat, q: nat, moved: Six,
                         n: nat): (r: seq<Delta>)
    requires from < |cells| == |delta| && to < |cells| && p <= 12 && q <= 12 && n <= 6
    ensures |r| == |delta|
  {
    if n == 0 then delta
    else
      var before := TransferBands(cells, delta, from, p, to, q, moved, n - 1);
      Shift(before, from, p + n - 1, to, q + n - 1, LimitedUnits(cells, before, from, p + n - 1, moved[n - 1]))
  }

  function LimitedUnits(cells: seq<Cell>, delta: seq<Delta>, from: nat, band: nat, wanted: nat): nat
    requires from < |cells| == |delta| && band < 18
  {
    Min(wanted, Unspent(cells, delta, from, band))
  }

  function TransferTotal(cells: seq<Cell>, delta: seq<Delta>, from: nat, p: nat, to: nat, q: nat, moved: Six,
                         n: nat): nat
    requires from < |cells| == |delta| && to < |cells| && p <= 12 && q <= 12 && n <= 6
  {
    if n == 0 then 0
    else
      var before := TransferBands(cells, delta, from, p, to, q, moved, n - 1);
      Min(TransferTotal(cells, delta, from, p, to, q, moved, n - 1)
          + LimitedUnits(cells, before, from, p + n - 1, moved[n - 1]), U16_MAX)
  }

  lemma {:induction false} TransferSound(cells: seq<Cell>, delta: seq<Delta>, from: nat, p: nat, to: nat, q: nat,
                                         moved: Six, n: nat)
    requires SoundFlux(cells, delta) && from < |cells| == |delta| && to < |cells| && n <= 6
    requires p <= 12 && q <= 12 && SameResonance(p, q) && p % 6 == 0
    ensures SoundFlux(cells, TransferBands(cells, delta, from, p, to, q, moved, n))
  {
    if n > 0 {
      TransferSound(cells, delta, from, p, to, q, moved, n - 1);
      SameResonanceAlong(p, q, n - 1);
      hide SoundFlux, SameResonance, Shift, Unspent;
      var before := TransferBands(cells, delta, from, p, to, q, moved, n - 1);
      ShiftSound(cells, before, from, p + n - 1, to, q + n - 1,
                 LimitedUnits(cells, before, from, p + n - 1, moved[n - 1]));
    }
  }

  lemma SameResonanceAlong(p: nat, q: nat, k: nat)
    requires p <= 12 && q <= 12 && SameResonance(p, q) && p % 6 == 0 && k < 6
    ensures SameResonance(p + k, q + k)
  {
  }

  // ----- resonance swaps -----

  datatype Swap = Swap(score: nat, fromA: nat, fromB: nat)

  function Deviation(mixture: Six, baseline: Six, slot: nat): int
    requires slot < 6
  {
    mixture[slot] - Sum6(mixture) * baseline[slot] / 255
  }

  /** How far trading resonance `fromA` of `a` for `fromB` of `b` improves both; not positive when it does not. */
  function SwapScore(a: Six, baseA: Six, b: Six, baseB: Six, fromA: nat, fromB: nat): int
    requires fromA < 6 && fromB < 6
  {
    if fromA == fromB then 0
    else Min(Min(Min(Deviation(a, baseA, fromA), -Deviation(b, baseB, fromA)), Deviation(b, baseB, fromB)),
             -Deviation(a, baseA, fromB))
  }

  function ScoreOf(swap: Option<Swap>): nat {
    if swap.Some? then swap.value.score else 0
  }

  /** The best of the first `k` of the 36 trades; the earliest wins a tie. */
  function BestSwap(a: Six, baseA: Six, b: Six, baseB: Six, k: nat): Option<Swap>
    requires k <= 36
  {
    if k == 0 then None
    else
      var best := BestSwap(a, baseA, b, baseB, k - 1);
      var score := SwapScore(a, baseA, b, baseB, (k - 1) / 6, (k - 1) % 6);
      if score > ScoreOf(best) then Some(Swap(score, (k - 1) / 6, (k - 1) % 6)) else best
  }

  /** The chosen trade is a genuine improvement on both sides and no other trade beats it. */
  lemma {:induction false} BestSwapIsBest(a: Six, baseA: Six, b: Six, baseB: Six, k: nat)
    requires k <= 36
    ensures var best := BestSwap(a, baseA, b, baseB, k);
            && (best.Some? ==>
                  && best.value.fromA < 6 && best.value.fromB < 6 && best.value.fromA != best.value.fromB
                  && 0 < best.value.score == SwapScore(a, baseA, b, baseB, best.value.fromA, best.value.fromB))
            && forall j | 0 <= j < k :: SwapScore(a, baseA, b, baseB, j / 6, j % 6) <= ScoreOf(best)
  {
    hide Deviation;
    if k > 0 {
      BestSwapIsBest(a, baseA, b, baseB, k - 1);
    }
  }

  lemma BestSwapSlots(a: Six, baseA: Six, b: Six, baseB: Six)
    ensures var best := BestSwap(a, baseA, b, baseB, 36);
            best.Some? ==> best.value.fromA < 6 && best.value.fromB < 6 && best.value.fromA != best.value.fromB
  {
    BestSwapIsBest(a, baseA, b, baseB, 36);
  }

  function SwapUnits(cells: seq<Cell>, delta: seq<Delta>, first: nat, second: nat, swap: Swap, conductivity: nat): nat
    requires first < |cells| == |delta| && second < |cells| && swap.fromA < 6 && swap.fromB < 6
  {
    Min(Min(Min(swap.score, 1 + conductivity / 500), Unspent(cells, delta, first, AMBIENT + swap.fromA)),
        Unspent(cells, delta, second, AMBIENT + swap.fromB))
  }

  function Trade(delta: seq<Delta>, first: nat, second: nat, swap: Swap, units: nat): (r: seq<Delta>)
    requires first < |delta| && second < |delta| && swap.fromA < 6 && swap.fromB < 6
    ensures |r| == |delta|
  {
    Shift(Shift(delta, first, AMBIENT + swap.fromA, second, AMBIENT + swap.fromA, units),
          second, AMBIENT + swap.fromB, first, AMBIENT + swap.fromB, units)
  }

  function SwapFlux(planet: Planet, cells: seq<Cell>, step: nat, delta: seq<Delta>, first: nat, second: nat,
                    conductivity: nat)
    : (r: seq<Delta>)
    requires first < |cells| == |delta| == |planet.controls| && second < |cells|
    ensures |r| == |delta|
  {
    if conductivity < 64 || !planet.gate(step % 0x1_0000_0000, Xor(first, second)) then delta
    else
      var a, b := cells[first].ambient, cells[second].ambient;
      var baseA, baseB := planet.controls[first].baseline, planet.controls[second].baseline;
      var best := BestSwap(a, baseA, b, baseB, 36);
      BestSwapSlots(a, baseA, b, baseB);
      if best.None? then delta
      else Trade(delta, first, second, best.value, SwapUnits(cells, delta, first, second, best.value, conductivity))
  }

  lemma TradeSound(cells: seq<Cell>, delta: seq<Delta>, first: nat, second: nat, swap: Swap, units: nat)
    requires SoundFlux(cells, delta) && first < |cells| && second < |cells| && first != second
    requires swap.fromA < 6 && swap.fromB < 6 && swap.fromA != swap.fromB
    requires units <= Unspent(cells, delta, first, AMBIENT + swap.fromA)
    requires units <= Unspent(cells, delta, second, AMBIENT + swap.fromB)
    ensures SoundFlux(cells, Trade(delta, first, second, swap, units))
  {
    var p, q := AMBIENT + swap.fromA, AMBIENT + swap.fromB;
    assert SameResonance(p, p) && SameResonance(q, q);
    var half := Shift(delta, first, p, second, p, units);
    assert half[second][q] == delta[second][q];
    assert Unspent(cells, half, second, q) == Unspent(cells, delta, second, q);
    hide SoundFlux, SameResonance, Shift, Unspent;
    ShiftSound(cells, delta, first, p, second, p, units);
    ShiftSound(cells, half, second, q, first, q, units);
  }

  lemma SwapSound(planet: Planet, cells: seq<Cell>, step: nat, delta: seq<Delta>, first: nat, second: nat,
                  conductivity: nat)
    requires first < |cells| == |delta| == |planet.controls| && second < |cells| && first != second
    requires SoundFlux(cells, delta)
    ensures SoundFlux(cells, SwapFlux(planet, cells, step, delta, first, second, conductivity))
  {
    var a, b := cells[first].ambient, cells[second].ambient;
    var baseA, baseB := planet.controls[first].baseline, planet.controls[second].baseline;
    var best := BestSwap(a, baseA, b, baseB, 36);
    BestSwapSlots(a, baseA, b, baseB);
    hide SoundFlux, Trade, BestSwap, Unspent;
    if best.Some? {
      TradeSound(cells, delta, first, second, best.value,
                 SwapUnits(cells, delta, first, second, best.value, conductivity));
    }
  }

  /** Bitwise exclusive or. */
  function Xor(a: nat, b: nat): nat {
    if a == 0 && b == 0 then 0
    else (if a % 2 == b % 2 then 0 else 1) + 2 * Xor(a / 2, b / 2)
  }

  // ----- one cell's contribution -----

  /** The six bands of one compartment of one cell, with the capacity its gradient is measured by. */
  datatype Side = Side(cell: nat, band: nat, capacity: nat)

  datatype Work = Work(delta: seq<Delta>, remainder: int)

  function SideBands(cells: seq<Cell>, side: Side): Six
    requires side.cell < |cells|
  {
    if side.band == DEEP then cells[side.cell].deep
    else if side.band == AMBIENT then cells[side.cell].ambient
    else cells[side.cell].dross
  }

  predicate Compartment(side: Side, n: nat) {
    side.cell < n && (side.band == DEEP || side.band == AMBIENT || side.band == DROSS)
  }

  function PourFlux(cells: seq<Cell>, work: Work, from: Side, to: Side, conductivity: nat, divisor: nat): Flux
    requires Compartment(from, |cells|) && Compartment(to, |cells|)
  {
    FluxOf(Sum6(SideBands(cells, from)), from.capacity, Sum6(SideBands(cells, to)), to.capacity,
           conductivity, divisor, work.remainder)
  }

  /** Flow along a gradient: the amount is bounded, taken in proportion and limited to what is left. */
  function Pour(cells: seq<Cell>, work: Work, from: Side, to: Side, conductivity: nat, divisor: nat,
                rotation: nat): (r: Work)
    requires |work.delta| == |cells| && Compartment(from, |cells|) && Compartment(to, |cells|)
    ensures |r.delta| == |cells|
  {
    var flux := PourFlux(cells, work, from, to, conductivity, divisor);
    var moved := Proportional(SideBands(cells, from), flux.moved, rotation);
    Work(TransferBands(cells, work.delta, from.cell, from.band, to.cell, to.band, moved, 6), flux.remainder)
  }

  function PouredUnits(cells: seq<Cell>, work: Work, from: Side, to: Side, conductivity: nat, divisor: nat,
                       rotation: nat): nat
    requires |work.delta| == |cells| && Compartment(from, |cells|) && Compartment(to, |cells|)
  {
    var flux := PourFlux(cells, work, from, to, conductivity, divisor);
    var moved := Proportional(SideBands(cells, from), flux.moved, rotation);
    TransferTotal(cells, work.delta, from.cell, from.band, to.cell, to.band, moved, 6)
  }

  lemma PourSound(cells: seq<Cell>, work: Work, from: Side, to: Side, conductivity: nat, divisor: nat, rotation: nat)
    requires SoundFlux(cells, work.delta) && |work.delta| == |cells| && Compartment(from, |cells|)
             && Compartment(to, |cells|)
    requires from.band == DROSS <==> to.band == DROSS
    ensures SoundFlux(cells, Pour(cells, work, from, to, conductivity, divisor, rotation).delta)
  {
    assert SameResonance(from.band, to.band);
    hide SoundFlux, TransferBands, SameResonance, FluxOf, Proportional;
    var flux := PourFlux(cells, work, from, to, conductivity, divisor);
    TransferSound(cells, work.delta, from.cell, from.band, to.cell, to.band,
                  Proportional(SideBands(cells, from), flux.moved, rotation), 6);
  }

  lemma {:induction false} TransferTotalWithin(cells: seq<Cell>, delta: seq<Delta>, from: nat, p: nat, to: nat, q: nat,
                                               moved: Six, n: nat)
    requires from < |cells| == |delta| && to < |cells| && p <= 12 && q <= 12 && n <= 6
    ensures TransferTotal(cells, delta, from, p, to, q, moved, n) <= SumBefore(moved, n)
  {
    if n > 0 {
      TransferTotalWithin(cells, delta, from, p, to, q, moved, n - 1);
      hide TransferBands, Unspent;
    }
  }

  /** As carried out in a pass, a flow runs from the fuller side to the emptier one and stops before they change
      roles. */
  lemma PourDownhill(cells: seq<Cell>, work: Work, from: Side, to: Side, conductivity: nat, divisor: nat, rotation: nat)
    requires |work.delta| == |cells| && Compartment(from, |cells|) && Compartment(to, |cells|)
    requires conductivity <= 1_000 && 16 <= divisor && work.remainder < FIXED_ONE
    ensures var units := PouredUnits(cells, work, from, to, conductivity, divisor, rotation);
            var source, target := Sum6(SideBands(cells, from)), Sum6(SideBands(cells, to));
            && units <= source
            && (0 < units ==> (source - units) * to.capacity >= (target + units) * from.capacity)
  {
    PourFluxDownhill(cells, work, from, to, conductivity, divisor);
    hide *;
    PouredWithin(cells, work, from, to, conductivity, divisor, rotation);
    LessIsDownhill(Sum6(SideBands(cells, from)), Sum6(SideBands(cells, to)),
                   PourFlux(cells, work, from, to, conductivity, divisor).moved,
                   PouredUnits(cells, work, from, to, conductivity, divisor, rotation), from.capacity, to.capacity);
  }

  lemma PourFluxDownhill(cells: seq<Cell>, work: Work, from: Side, to: Side, conductivity: nat, divisor: nat)
    requires Compartment(from, |cells|) && Compartment(to, |cells|)
    requires conductivity <= 1_000 && 16 <= divisor && work.remainder < FIXED_ONE
    ensures var m := PourFlux(cells, work, from, to, conductivity, divisor).moved;
            var source, target := Sum6(SideBands(cells, from)), Sum6(SideBands(cells, to));
            m <= source && (0 < m ==> (source - m) * to.capacity >= (target + m) * from.capacity)
  {
    hide FluxOf, SideBands, Sum6;
    FlowNeverReverses(Sum6(SideBands(cells, from)), from.capacity, Sum6(SideBands(cells, to)), to.capacity,
                      conductivity, divisor, work.remainder);
  }

  lemma LessIsDownhill(source: nat, target: nat, most: nat, units: nat, here: nat, there: nat)
    requires units <= most <= source && (0 < most ==> (source - most) * there >= (target + most) * here)
    ensures 0 < units ==> (source - units) * there >= (target + units) * here
  {
    Monotone(there, source - most, source - units);
    Monotone(here, target + units, target + most);
  }

  lemma PouredWithin(cells: seq<Cell>, work: Work, from: Side, to: Side, conductivity: nat, divisor: nat, rotation: nat)
    requires |work.delta| == |cells| && Compartment(from, |cells|) && Compartment(to, |cells|)
    ensures PouredUnits(cells, work, from, to, conductivity, divisor, rotation)
            <= PourFlux(cells, work, from, to, conductivity, divisor).moved
    ensures PouredUnits(cells, work, from, to, conductivity, divisor, rotation) <= Sum6(SideBands(cells, from))
  {
    hide TransferTotal, Proportional, PourFlux, SideBands, Sum6, Share;
    var flux := PourFlux(cells, work, from, to, conductivity, divisor);
    var moved := Proportional(SideBands(cells, from), flux.moved, rotation);
    ProportionalIsFair(SideBands(cells, from), flux.moved, rotation);
    TransferTotalWithin(cells, work.delta, from.cell, from.band, to.cell, to.band, moved, 6);
    SumBeforeAll(moved);
  }

  function AxisConductivity(control: Control, direction: Direction): nat {
    match direction
    case East => control.conductivity.east
    case North => control.conductivity.north
    case West => control.conductivity.west
    case South => control.conductivity.south
  }

  function Opposite(direction: Direction): Direction {
    match direction
    case East => West
    case North => South
    case West => East
    case South => North
  }

  function Steeper(planet: Planet, cells: seq<Cell>, a: Side, b: Side): bool
    requires Compartment(a, |cells|) && Compartment(b, |cells|)
  {
    planet.steeper(Sum6(SideBands(cells, a)), a.capacity, Sum6(SideBands(cells, b)), b.capacity)
  }

  function EdgeConductivity(planet: Planet, index: nat, direction: Direction): nat
    requires index < |planet.controls| && planet.step(index, direction).0 < |planet.controls|
  {
    var (other, facing) := planet.step(index, direction);
    Min(AxisConductivity(planet.controls[index], direction), AxisConductivity(planet.controls[other], Opposite(facing)))
  }

  function DrossConductivity(planet: Planet, index: nat, other: nat, conductivity: nat): nat
    requires index < |planet.controls| && other < |planet.controls|
  {
    Max(1, Min(Min(planet.controls[index].drossMobility, planet.controls[other].drossMobility) * 4
               * conductivity / 1_000, 1_000))
  }

  function AmbientSide(planet: Planet, cell: nat): Side
    requires cell < |planet.controls|
  {
    Side(cell, AMBIENT, planet.controls[cell].capacity)
  }

  function DrossSide(planet: Planet, cell: nat): Side
    requires cell < |planet.controls|
  {
    Side(cell, DROSS, planet.controls[cell].capacity)
  }

  function DeepSide(planet: Planet, cell: nat): Side
    requires cell < |planet.controls|
  {
    Side(cell, DEEP, planet.controls[cell].deepCapacity)
  }

  /** One flow a pass carries out: between which compartments, how strongly, from which slot round. */
  datatype Course = Course(from: Side, to: Side, conductivity: nat, divisor: nat, rotation: nat)

  predicate Charted(course: Course, n: nat) {
    Compartment(course.from, n) && Compartment(course.to, n)
  }

  function PourAlong(cells: seq<Cell>, work: Work, course: Course): (r: Work)
    requires |work.delta| == |cells| && Charted(course, |cells|)
    ensures |r.delta| == |cells|
  {
    Pour(cells, work, course.from, course.to, course.conductivity, course.divisor, course.rotation)
  }

  function UnitsAlong(cells: seq<Cell>, work: Work, course: Course): nat
    requires |work.delta| == |cells| && Charted(course, |cells|)
  {
    PouredUnits(cells, work, course.from, course.to, course.conductivity, course.divisor, course.rotation)
  }

  function AmbientCourse(planet: Planet, cells: seq<Cell>, index: nat, other: nat, conductivity: nat): (r: Course)
    requires |cells| == |planet.controls| && index < |cells| && other < |cells|
    ensures Charted(r, |cells|)
  {
    var here, there := AmbientSide(planet, index), AmbientSide(planet, other);
    if Steeper(planet, cells, here, there) then Course(here, there, conductivity, 16, index + other)
    else Course(there, here, conductivity, 16, index + other)
  }

  function DrossCourse(planet: Planet, cells: seq<Cell>, index: nat, other: nat, conductivity: nat): (r: Course)
    requires |cells| == |planet.controls| && index < |cells| && other < |cells|
    ensures Charted(r, |cells|)
  {
    var here, there := DrossSide(planet, index), DrossSide(planet, other);
    var mobile := DrossConductivity(planet, index, other, conductivity);
    if Steeper(planet, cells, here, there) then Course(here, there, mobile, 96, Xor(index, other))
    else Course(there, here, mobile, 96, Xor(index, other))
  }

  function ExchangeCourse(planet: Planet, cells: seq<Cell>, index: nat): (r: Option<Course>)
    requires |cells| == |planet.controls| && index < |cells|
    ensures r.Some? ==> Charted(r.value, |cells|)
  {
    var deep, ambient := DeepSide(planet, index), AmbientSide(planet, index);
    var exchange := planet.controls[index].exchange;
    if Steeper(planet, cells, deep, ambient) then Some(Course(deep, ambient, exchange, 32, index))
    else if Steeper(planet, cells, ambient, deep) then Some(Course(ambient, deep, exchange, 32, index))
    else None
  }

  function AmbientEdge(planet: Planet, cells: seq<Cell>, step: nat, work: Work, index: nat, other: nat,
                       conductivity: nat)
    : (r: Work)
    requires |work.delta| == |cells| == |planet.controls| && index < |cells| && other < |cells|
    ensures |r.delta| == |cells|
  {
    var course := AmbientCourse(planet, cells, index, other, conductivity);
    var poured := PourAlong(cells, work, course);
    if UnitsAlong(cells, work, course) != 0
    then poured.(delta := SwapFlux(planet, cells, step, poured.delta, index, other, conductivity))
    else poured
  }

  function DrossEdge(planet: Planet, cells: seq<Cell>, work: Work, index: nat, other: nat, conductivity: nat): (r: Work)
    requires |work.delta| == |cells| == |planet.controls| && index < |cells| && other < |cells|
    ensures |r.delta| == |cells|
  {
    PourAlong(cells, work, DrossCourse(planet, cells, index, other, conductivity))
  }

  /** Each edge is handled once, by its lower cell. */
  function EdgeFlux(planet: Planet, cells: seq<Cell>, step: nat, work: Work, index: nat,
                    direction: Direction): (r: Work)
    requires |work.delta| == |cells| == |planet.controls| && index < |cells|
             && planet.step(index, direction).0 < |cells|
    ensures |r.delta| == |cells|
  {
    var other := planet.step(index, direction).0;
    if index >= other then work
    else
      var conductivity := EdgeConductivity(planet, index, direction);
      DrossEdge(planet, cells, AmbientEdge(planet, cells, step, work, index, other, conductivity), index, other,
                conductivity)
  }

  function ExchangeFlux(planet: Planet, cells: seq<Cell>, work: Work, index: nat): (r: Work)
    requires |work.delta| == |cells| == |planet.controls| && index < |cells|
    ensures |r.delta| == |cells|
  {
    var course := ExchangeCourse(planet, cells, index);
    if course.Some? then PourAlong(cells, work, course.value) else work
  }

  function CellFlux(planet: Planet, cells: seq<Cell>, step: nat, work: Work, index: nat): (r: Work)
    requires |work.delta| == |cells| == |planet.controls| && index < |cells|
    requires forall d: Direction :: planet.step(index, d).0 < |cells|
    ensures |r.delta| == |cells|
  {
    var east := EdgeFlux(planet, cells, step, work, index, East);
    var north := EdgeFlux(planet, cells, step, east, index, North);
    var west := EdgeFlux(planet, cells, step, north, index, West);
    var south := EdgeFlux(planet, cells, step, west, index, South);
    ExchangeFlux(planet, cells, south, index)
  }

  lemma AmbientEdgeSound(planet: Planet, cells: seq<Cell>, step: nat, work: Work, index: nat, other: nat,
                         conductivity: nat)
    requires |work.delta| == |cells| == |planet.controls| && index < other < |cells|
    requires SoundFlux(cells, work.delta)
    ensures SoundFlux(cells, AmbientEdge(planet, cells, step, work, index, other, conductivity).delta)
  {
    hide SoundFlux, Pour, PouredUnits, SwapFlux, Steeper;
    var here, there := AmbientSide(planet, index), AmbientSide(planet, other);
    var down := Steeper(planet, cells, here, there);
    var from, to := if down then here else there, if down then there else here;
    PourSound(cells, work, from, to, conductivity, 16, index + other);
    var poured := Pour(cells, work, from, to, conductivity, 16, index + other);
    SwapSound(planet, cells, step, poured.delta, index, other, conductivity);
  }

  lemma EdgeSound(planet: Planet, cells: seq<Cell>, step: nat, work: Work, index: nat, direction: Direction)
    requires |work.delta| == |cells| == |planet.controls| && index < |cells|
             && planet.step(index, direction).0 < |cells|
    requires SoundFlux(cells, work.delta)
    ensures SoundFlux(cells, EdgeFlux(planet, cells, step, work, index, direction).delta)
  {
    hide SoundFlux, Pour, Steeper, AmbientEdge, EdgeConductivity;
    var other := planet.step(index, direction).0;
    if index < other {
      var conductivity := EdgeConductivity(planet, index, direction);
      AmbientEdgeSound(planet, cells, step, work, index, other, conductivity);
      var next := AmbientEdge(planet, cells, step, work, index, other, conductivity);
      var here, there := DrossSide(planet, index), DrossSide(planet, other);
      var down := Steeper(planet, cells, here, there);
      PourSound(cells, next, if down then here else there, if down then there else here,
                DrossConductivity(planet, index, other, conductivity), 96, Xor(index, other));
    }
  }

  lemma ExchangeSound(planet: Planet, cells: seq<Cell>, work: Work, index: nat)
    requires |work.delta| == |cells| == |planet.controls| && index < |cells| && SoundFlux(cells, work.delta)
    ensures SoundFlux(cells, ExchangeFlux(planet, cells, work, index).delta)
  {
    hide SoundFlux, Pour, Steeper;
    var deep, ambient := DeepSide(planet, index), AmbientSide(planet, index);
    PourSound(cells, work, deep, ambient, planet.controls[index].exchange, 32, index);
    PourSound(cells, work, ambient, deep, planet.controls[index].exchange, 32, index);
  }

  /** However many edges, swaps and exchanges hit the same band, a cell's contribution keeps the pass sound. */
  lemma CellFluxSound(planet: Planet, cells: seq<Cell>, step: nat, work: Work, index: nat)
    requires |work.delta| == |cells| == |planet.controls| && index < |cells|
    requires forall d: Direction :: planet.step(index, d).0 < |cells|
    requires SoundFlux(cells, work.delta)
    ensures SoundFlux(cells, CellFlux(planet, cells, step, work, index).delta)
  {
    hide SoundFlux, EdgeFlux, ExchangeFlux;
    var east := EdgeFlux(planet, cells, step, work, index, East);
    var north := EdgeFlux(planet, cells, step, east, index, North);
    var west := EdgeFlux(planet, cells, step, north, index, West);
    var south := EdgeFlux(planet, cells, step, west, index, South);
    EdgeSound(planet, cells, step, work, index, East);
    EdgeSound(planet, cells, step, east, index, North);
    EdgeSound(planet, cells, step, north, index, West);
    EdgeSound(planet, cells, step, west, index, South);
    ExchangeSound(planet, cells, south, index);
  }

  // ----- a whole pass -----

  datatype Progress = Progress(delta: seq<Delta>, remainders: seq<int>)

  function Clamp(x: int): int {
    Max(0, Min(x, FIXED_ONE - 1))
  }

  /** The pass after the first `k` cells have contributed. */
  function FluxPrefix(planet: Planet, cells: seq<Cell>, step: nat, k: nat): (r: Progress)
    requires OnPlanet(planet, |cells|) && k <= |cells|
    ensures |r.delta| == |r.remainders| == |cells|
  {
    if k == 0 then
      Progress(seq(|cells|, _ => ZeroDelta), seq(|cells|, i requires 0 <= i < |cells| => Max(cells[i].remainder, 0)))
    else
      var before := FluxPrefix(planet, cells, step, k - 1);
      ContributeOne(planet, cells, step, before, k - 1)
  }

  function ContributeOne(planet: Planet, cells: seq<Cell>, step: nat, before: Progress, index: nat): (r: Progress)
    requires OnPlanet(planet, |cells|) && index < |cells| == |before.delta| == |before.remainders|
    ensures |r.delta| == |r.remainders| == |cells|
  {
    var work := CellFlux(planet, cells, step, Work(before.delta, before.remainders[index]), index);
    Progress(work.delta, before.remainders[index := Clamp(work.remainder)])
  }

  ghost predicate AllRepresentable(cells: seq<Cell>) {
    forall i | 0 <= i < |cells| :: Representable(cells[i])
  }

  lemma {:induction false} ZeroTotal(n: nat, band: nat)
    requires band < 18
    ensures ChangeTotal(seq(n, _ => ZeroDelta), band) == 0
  {
    if n > 0 {
      assert seq(n, _ => ZeroDelta)[..n - 1] == seq(n - 1, _ => ZeroDelta);
      ZeroTotal(n - 1, band);
    }
  }

  lemma NoFluxSound(cells: seq<Cell>)
    requires AllRepresentable(cells)
    ensures SoundFlux(cells, seq(|cells|, _ => ZeroDelta))
  {
    var none := seq(|cells|, _ => ZeroDelta);
    forall slot | 0 <= slot < 6 ensures BalancedSlot(none, slot) {
      ZeroTotal(|cells|, DROSS + slot);
      ZeroTotal(|cells|, DEEP + slot);
      ZeroTotal(|cells|, AMBIENT + slot);
    }
    forall i | 0 <= i < |cells| ensures Representable(cells[i]) && BackedBy(cells[i], none[i]) {
      assert none[i] == ZeroDelta;
    }
    hide Representable, ChangeTotal;
  }

  /** At every point of the pass no cell band is debited below what it held, and the deltas sum to zero
      per resonance, for dross alone and for deep and ambient together. */
  lemma {:induction false} PassSound(planet: Planet, cells: seq<Cell>, step: nat, k: nat)
    requires OnPlanet(planet, |cells|) && k <= |cells| && AllRepresentable(cells)
    ensures SoundFlux(cells, FluxPrefix(planet, cells, step, k).delta)
  {
    hide *;
    if k == 0 {
      NoFluxSound(cells);
      FluxPrefixStart(planet, cells, step);
    } else {
      PassSound(planet, cells, step, k - 1);
      FluxPrefixStep(planet, cells, step, k);
      ContributeSound(planet, cells, step, FluxPrefix(planet, cells, step, k - 1), k - 1);
    }
  }

  lemma FluxPrefixStart(planet: Planet, cells: seq<Cell>, step: nat)
    requires OnPlanet(planet, |cells|)
    ensures FluxPrefix(planet, cells, step, 0).delta == seq(|cells|, _ => ZeroDelta)
  {
    hide OnPlanet;
  }

  lemma FluxPrefixStep(planet: Planet, cells: seq<Cell>, step: nat, k: nat)
    requires OnPlanet(planet, |cells|) && 0 < k <= |cells|
    ensures FluxPrefix(planet, cells, step, k)
            == ContributeOne(planet, cells, step, FluxPrefix(planet, cells, step, k - 1), k - 1)
  {
    hide OnPlanet, ContributeOne;
  }

  lemma ContributeSound(planet: Planet, cells: seq<Cell>, step: nat, before: Progress, index: nat)
    requires OnPlanet(planet, |cells|) && index < |cells| == |before.delta| == |before.remainders|
    requires SoundFlux(cells, before.delta)
    ensures SoundFlux(cells, ContributeOne(planet, cells, step, before, index).delta)
  {
    hide SoundFlux, CellFlux;
    CellFluxSound(planet, cells, step, Work(before.delta, before.remainders[index]), index);
  }

  // ----- carried remainders -----

  /** A proper fraction of a unit, in fixed point. */
  predicate Fraction(x: int) {
    0 <= x < FIXED_ONE
  }

  lemma PourFraction(cells: seq<Cell>, work: Work, from: Side, to: Side, conductivity: nat, divisor: nat, rotation: nat)
    requires |work.delta| == |cells| && Compartment(from, |cells|) && Compartment(to, |cells|)
             && Fraction(work.remainder)
    ensures Fraction(Pour(cells, work, from, to, conductivity, divisor, rotation).remainder)
  {
    FluxFraction(Sum6(SideBands(cells, from)), from.capacity, Sum6(SideBands(cells, to)), to.capacity,
                 conductivity, divisor, work.remainder);
    hide FluxOf, TransferBands, Proportional, Sum6;
  }

  lemma EdgeFraction(planet: Planet, cells: seq<Cell>, step: nat, work: Work, index: nat, direction: Direction)
    requires |work.delta| == |cells| == |planet.controls| && index < |cells|
             && planet.step(index, direction).0 < |cells|
    requires Fraction(work.remainder)
    ensures Fraction(EdgeFlux(planet, cells, step, work, index, direction).remainder)
  {
    hide Pour, PouredUnits, SwapFlux, Steeper, EdgeConductivity, DrossConductivity, Fraction, Xor;
    var other := planet.step(index, direction).0;
    if index < other {
      var conductivity := EdgeConductivity(planet, index, direction);
      var here, there := AmbientSide(planet, index), AmbientSide(planet, other);
      PourFraction(cells, work, here, there, conductivity, 16, index + other);
      PourFraction(cells, work, there, here, conductivity, 16, index + other);
      var next := AmbientEdge(planet, cells, step, work, index, other, conductivity);
      var low, high := DrossSide(planet, index), DrossSide(planet, other);
      PourFraction(cells, next, low, high, DrossConductivity(planet, index, other, conductivity), 96,
                   Xor(index, other));
      PourFraction(cells, next, high, low, DrossConductivity(planet, index, other, conductivity), 96,
                   Xor(index, other));
    }
  }

  lemma CellFraction(planet: Planet, cells: seq<Cell>, step: nat, work: Work, index: nat)
    requires |work.delta| == |cells| == |planet.controls| && index < |cells| && Fraction(work.remainder)
    requires forall d: Direction :: planet.step(index, d).0 < |cells|
    ensures Fraction(CellFlux(planet, cells, step, work, index).remainder)
  {
    hide EdgeFlux, Pour, Steeper, Fraction;
    var east := EdgeFlux(planet, cells, step, work, index, East);
    var north := EdgeFlux(planet, cells, step, east, index, North);
    var west := EdgeFlux(planet, cells, step, north, index, West);
    var south := EdgeFlux(planet, cells, step, west, index, South);
    EdgeFraction(planet, cells, step, work, index, East);
    EdgeFraction(planet, cells, step, east, index, North);
    EdgeFraction(planet, cells, step, north, index, West);
    EdgeFraction(planet, cells, step, west, index, South);
    var deep, ambient := DeepSide(planet, index), AmbientSide(planet, index);
    PourFraction(cells, south, deep, ambient, planet.controls[index].exchange, 32, index);
    PourFraction(cells, south, ambient, deep, planet.controls[index].exchange, 32, index);
  }

  /** Remainders stay proper fractions at every point of a pass, so its final clamp never cuts anything off and the
      gradient bound applies to every edge. */
  lemma {:induction false} PassFractions(planet: Planet, cells: seq<Cell>, step: nat, k: nat)
    requires OnPlanet(planet, |cells|) && k <= |cells| && forall i | 0 <= i < |cells| :: Fraction(cells[i].remainder)
    ensures forall i | 0 <= i < |cells| :: Fraction(FluxPrefix(planet, cells, step, k).remainders[i])
  {
    hide Fraction, CellFlux, OnPlanet;
    if k == 0 {
      forall i | 0 <= i < |cells| ensures Fraction(FluxPrefix(planet, cells, step, 0).remainders[i]) {
        CarriedIn(cells[i].remainder);
      }
    } else {
      PassFractions(planet, cells, step, k - 1);
      FluxPrefixStep(planet, cells, step, k);
      ContributedFraction(planet, cells, step, FluxPrefix(planet, cells, step, k - 1), k - 1);
      hide FluxPrefix, ContributeOne;
    }
  }

  lemma CarriedIn(x: int)
    requires Fraction(x)
    ensures Max(x, 0) == x
  {
  }

  lemma ContributedFraction(planet: Planet, cells: seq<Cell>, step: nat, before: Progress, index: nat)
    requires OnPlanet(planet, |cells|) && index < |cells| == |before.delta| == |before.remainders|
    requires forall i | 0 <= i < |cells| :: Fraction(before.remainders[i])
    ensures var after := ContributeOne(planet, cells, step, before, index);
            && (forall i | 0 <= i < |cells| :: Fraction(after.remainders[i]))
            && after.remainders[index]
               == CellFlux(planet, cells, step, Work(before.delta, before.remainders[index]), index).remainder
  {
    hide CellFlux;
    CellFraction(planet, cells, step, Work(before.delta, before.remainders[index]), index);
  }

  // ----- every flow of a pass runs downhill -----

  /** The units carried along a course leave its source no emptier, for its capacity, than its target becomes. */
  ghost predicate Downhill(cells: seq<Cell>, work: Work, course: Course)
    requires |work.delta| == |cells| && Charted(course, |cells|)
  {
    var units := UnitsAlong(cells, work, course);
    var source, target := Sum6(SideBands(cells, course.from)), Sum6(SideBands(cells, course.to));
    && units <= source
    && (0 < units ==> (source - units) * course.to.capacity >= (target + units) * course.from.capacity)
  }

  /** What geography validation demands of the controls: no conductance above one, in thousandths. */
  predicate Gentle(planet: Planet) {
    forall i | 0 <= i < |planet.controls| :: GentleControl(planet.controls[i])
  }

  predicate GentleControl(control: Control) {
    && control.conductivity.east <= 1_000 && control.conductivity.north <= 1_000
    && control.conductivity.west <= 1_000 && control.conductivity.south <= 1_000 && control.exchange <= 1_000
  }

  lemma CourseDownhill(cells: seq<Cell>, work: Work, course: Course)
    requires |work.delta| == |cells| && Charted(course, |cells|)
    requires course.conductivity <= 1_000 && 16 <= course.divisor && Fraction(work.remainder)
    ensures Downhill(cells, work, course)
  {
    hide PouredUnits, SideBands, Sum6;
    PourDownhill(cells, work, course.from, course.to, course.conductivity, course.divisor, course.rotation);
  }

  /** Both flows of an edge, each with the work it finds. */
  ghost predicate EdgeDownhill(planet: Planet, cells: seq<Cell>, step: nat, work: Work, index: nat,
                               direction: Direction)
    requires |work.delta| == |cells| == |planet.controls| && index < |cells|
             && planet.step(index, direction).0 < |cells|
  {
    var other := planet.step(index, direction).0;
    index < other ==>
      var conductivity := EdgeConductivity(planet, index, direction);
      && Downhill(cells, work, AmbientCourse(planet, cells, index, other, conductivity))
      && Downhill(cells, AmbientEdge(planet, cells, step, work, index, other, conductivity),
                  DrossCourse(planet, cells, index, other, conductivity))
  }

  /** Everything one cell contributes: four edges and the exchange with its depths, each after the ones before it. */
  ghost predicate CellDownhill(planet: Planet, cells: seq<Cell>, step: nat, work: Work, index: nat)
    requires |work.delta| == |cells| == |planet.controls| && index < |cells|
    requires forall d: Direction :: planet.step(index, d).0 < |cells|
  {
    var east := EdgeFlux(planet, cells, step, work, index, East);
    var north := EdgeFlux(planet, cells, step, east, index, North);
    var west := EdgeFlux(planet, cells, step, north, index, West);
    var south := EdgeFlux(planet, cells, step, west, index, South);
    && EdgeDownhill(planet, cells, step, work, index, East)
    && EdgeDownhill(planet, cells, step, east, index, North)
    && EdgeDownhill(planet, cells, step, north, index, West)
    && EdgeDownhill(planet, cells, step, west, index, South)
    && (ExchangeCourse(planet, cells, index).Some? ==>
          Downhill(cells, south, ExchangeCourse(planet, cells, index).value))
  }

  lemma EdgeGentle(planet: Planet, index: nat, direction: Direction)
    requires Gentle(planet) && index < |planet.controls| && planet.step(index, direction).0 < |planet.controls|
    ensures EdgeConductivity(planet, index, direction) <= 1_000
  {
    assert GentleControl(planet.controls[index]);
  }

  lemma DrossGentle(planet: Planet, index: nat, other: nat, conductivity: nat)
    requires index < |planet.controls| && other < |planet.controls|
    ensures DrossConductivity(planet, index, other, conductivity) <= 1_000
  {
  }

  lemma AmbientFraction(planet: Planet, cells: seq<Cell>, step: nat, work: Work, index: nat, other: nat,
                        conductivity: nat)
    requires |work.delta| == |cells| == |planet.controls| && index < |cells| && other < |cells|
    requires Fraction(work.remainder)
    ensures Fraction(AmbientEdge(planet, cells, step, work, index, other, conductivity).remainder)
  {
    hide Pour, PouredUnits, SwapFlux, AmbientCourse, Fraction;
    var course := AmbientCourse(planet, cells, index, other, conductivity);
    PourFraction(cells, work, course.from, course.to, course.conductivity, course.divisor, course.rotation);
  }

  lemma EdgeRunsDownhill(planet: Planet, cells: seq<Cell>, step: nat, work: Work, index: nat, direction: Direction)
    requires |work.delta| == |cells| == |planet.controls| && index < |cells|
             && planet.step(index, direction).0 < |cells|
    requires Gentle(planet) && Fraction(work.remainder)
    ensures EdgeDownhill(planet, cells, step, work, index, direction)
  {
    var other := planet.step(index, direction).0;
    if index < other {
      EdgeGentle(planet, index, direction);
      var conductivity := EdgeConductivity(planet, index, direction);
      DrossGentle(planet, index, other, conductivity);
      var ambient := AmbientCourse(planet, cells, index, other, conductivity);
      var dross := DrossCourse(planet, cells, index, other, conductivity);
      assert ambient.conductivity == conductivity && ambient.divisor == 16;
      assert dross.conductivity == DrossConductivity(planet, index, other, conductivity) && dross.divisor == 96;
      hide *;
      AmbientFraction(planet, cells, step, work, index, other, conductivity);
      CourseDownhill(cells, work, ambient);
      CourseDownhill(cells, AmbientEdge(planet, cells, step, work, index, other, conductivity), dross);
      EdgeIsDownhill(planet, cells, step, work, index, direction, other, conductivity);
    } else {
      hide Downhill, AmbientEdge, AmbientCourse, DrossCourse;
    }
  }

  lemma EdgeIsDownhill(planet: Planet, cells: seq<Cell>, step: nat, work: Work, index: nat, direction: Direction,
                       other: nat, conductivity: nat)
    requires |work.delta| == |cells| == |planet.controls| && index < other < |cells|
    requires other == planet.step(index, direction).0 && conductivity == EdgeConductivity(planet, index, direction)
    requires Downhill(cells, work, AmbientCourse(planet, cells, index, other, conductivity))
    requires Downhill(cells, AmbientEdge(planet, cells, step, work, index, other, conductivity),
                      DrossCourse(planet, cells, index, other, conductivity))
    ensures EdgeDownhill(planet, cells, step, work, index, direction)
  {
    hide Downhill, AmbientEdge, AmbientCourse, DrossCourse, EdgeConductivity;
  }

  lemma ExchangeRunsDownhill(planet: Planet, cells: seq<Cell>, work: Work, index: nat)
    requires |work.delta| == |cells| == |planet.controls| && index < |cells| && Gentle(planet)
             && Fraction(work.remainder)
    ensures var course := ExchangeCourse(planet, cells, index);
            course.Some? ==> Downhill(cells, work, course.value)
  {
    assert GentleControl(planet.controls[index]);
    var course := ExchangeCourse(planet, cells, index);
    assert course.Some? ==> course.value.conductivity <= 1_000 && course.value.divisor == 32;
    hide *;
    if course.Some? {
      CourseDownhill(cells, work, course.value);
    }
  }

  /** With every conductance at most one, each flow a pass carries out, over every edge in both pools and between every
      cell and its depths, runs from the fuller side to the emptier and stops before they change roles. */
  lemma PassRunsDownhill(planet: Planet, cells: seq<Cell>, step: nat, index: nat)
    requires OnPlanet(planet, |cells|) && index < |cells| && Gentle(planet)
    requires forall i | 0 <= i < |cells| :: Fraction(cells[i].remainder)
    ensures var before := FluxPrefix(planet, cells, step, index);
            CellDownhill(planet, cells, step, Work(before.delta, before.remainders[index]), index)
  {
    PassFractions(planet, cells, step, index);
    var before := FluxPrefix(planet, cells, step, index);
    hide FluxPrefix, EdgeFlux, EdgeDownhill, Downhill, ExchangeCourse, Fraction, Gentle;
    var work := Work(before.delta, before.remainders[index]);
    var east := EdgeFlux(planet, cells, step, work, index, East);
    var north := EdgeFlux(planet, cells, step, east, index, North);
    var west := EdgeFlux(planet, cells, step, north, index, West);
    var south := EdgeFlux(planet, cells, step, west, index, South);
    EdgeFraction(planet, cells, step, work, index, East);
    EdgeFraction(planet, cells, step, east, index, North);
    EdgeFraction(planet, cells, step, north, index, West);
    EdgeFraction(planet, cells, step, west, index, South);
    EdgeRunsDownhill(planet, cells, step, work, index, East);
    EdgeRunsDownhill(planet, cells, step, east, index, North);
    EdgeRunsDownhill(planet, cells, step, north, index, West);
    EdgeRunsDownhill(planet, cells, step, west, index, South);
    ExchangeRunsDownhill(planet, cells, south, index);
  }
}
