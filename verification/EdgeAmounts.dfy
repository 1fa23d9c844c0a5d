/** How much every edge and every exchange of a pass moves, from the totals, the capacities and the conductances alone.
    */
module EdgeAmounts {
  import opened Prelude
  import opened Bands
  import opened Flow
  import opened Transport

  // ----- amounts -----

  /** What a flow is due: nothing below four times the wider capacity of excess, otherwise its rate and the carried
      fraction in whole units, at most an eighth of the source and one more, at most 16 bits. */
  function Quantity(source: nat, room: nat, target: nat, targetRoom: nat, c: nat, divisor: nat, carried: int): nat
    requires 0 < divisor
  {
    var excess, widest := source * targetRoom - target * room, Max(room, targetRoom);
    if excess <= 4 * widest then 0
    else
      WideEnough(source, room, target, targetRoom);
      Min(Min((excess * c * 1_000 / (widest * divisor) + Max(carried, 0)) / 1_000_000, source / 8 + 1), 65_535)
  }

  /** The fraction left for the next flow of the cell. */
  function CarriedOn(source: nat, room: nat, target: nat, targetRoom: nat, c: nat, divisor: nat, carried: int): int
    requires 0 < divisor
  {
    var excess, widest := source * targetRoom - target * room, Max(room, targetRoom);
    if excess <= 0 then carried
    else if excess <= 4 * widest then 0
    else
      WideEnough(source, room, target, targetRoom);
      var fixed := excess * c * 1_000 / (widest * divisor) + Max(carried, 0);
      if fixed / 1_000_000 == Quantity(source, room, target, targetRoom, c, divisor, carried)
      then fixed % 1_000_000 else 0
  }

  lemma WideEnough(source: nat, room: nat, target: nat, targetRoom: nat)
    requires 0 < source * targetRoom - target * room
    ensures 0 < Max(room, targetRoom)
    ensures forall d: nat | 0 < d :: 0 < Max(room, targetRoom) * d
  {
    WidestPositive(source, room, target, targetRoom);
    forall d: nat | 0 < d ensures 0 < Max(room, targetRoom) * d {
      Monotone(Max(room, targetRoom), 1, d);
    }
  }

  lemma FluxQuantity(source: nat, room: nat, target: nat, targetRoom: nat, c: nat, divisor: nat, carried: int)
    requires 0 < divisor
    ensures FluxOf(source, room, target, targetRoom, c, divisor, carried)
            == Flux(Quantity(source, room, target, targetRoom, c, divisor, carried),
                    CarriedOn(source, room, target, targetRoom, c, divisor, carried))
  {
    var excess, widest := source * targetRoom - target * room, Max(room, targetRoom);
    if source == 0 {
      NoSource(target, room, targetRoom);
    }
    if 4 * widest < excess {
      WideEnough(source, room, target, targetRoom);
      SameRate(excess, widest, c, divisor);
      hide FlowRate;
    }
  }

  lemma NoSource(target: nat, room: nat, targetRoom: nat)
    ensures 0 * targetRoom - target * room <= 0
  {
    Monotone(target, 0, room);
  }

  lemma SameRate(excess: nat, widest: nat, c: nat, divisor: nat)
    requires 0 < divisor && 0 < widest && 0 < widest * divisor
    ensures FlowRate(excess, widest, c, divisor) == excess * c * 1_000 / (widest * divisor)
  {
    var x := excess * c;
    assert x * 1_000_000 == x * 1_000 * 1_000;
    assert x * 1_000_000 / 1_000 == x * 1_000;
  }

  /** The smaller of the two conductances that face each other across an edge. */
  function Conductance(planet: Planet, index: nat, direction: Direction): nat
    requires index < |planet.controls| && planet.step(index, direction).0 < |planet.controls|
  {
    var (other, facing) := planet.step(index, direction);
    var near, far := planet.controls[index].conductivity, planet.controls[other].conductivity;
    var out := match direction
               case East => near.east
               case North => near.north
               case West => near.west
               case South => near.south;
    var back := match facing
                case East => far.west
                case North => far.south
                case West => far.east
                case South => far.north;
    Min(out, back)
  }

  lemma ConductanceIs(planet: Planet, index: nat, direction: Direction)
    requires index < |planet.controls| && planet.step(index, direction).0 < |planet.controls|
    ensures EdgeConductivity(planet, index, direction) == Conductance(planet, index, direction)
  {
  }

  /** Dross follows the same edge in proportion to the less mobile of the two cells. */
  function DrossConductance(planet: Planet, index: nat, other: nat, c: nat): nat
    requires index < |planet.controls| && other < |planet.controls|
  {
    var mobility := Min(planet.controls[index].drossMobility, planet.controls[other].drossMobility);
    Max(1, Min(4 * mobility * c / 1_000, 1_000))
  }

  lemma DrossConductanceIs(planet: Planet, index: nat, other: nat, c: nat)
    requires index < |planet.controls| && other < |planet.controls|
    ensures DrossConductivity(planet, index, other, c) == DrossConductance(planet, index, other, c)
  {
    var mobility := Min(planet.controls[index].drossMobility, planet.controls[other].drossMobility);
    assert mobility * 4 == 4 * mobility;
  }

  // ----- what one flow changes -----

  /** Units of a band not taken out of it yet. */
  function Available(cells: seq<Cell>, delta: seq<Delta>, i: nat, band: nat): int
    requires i < |cells| == |delta| && band < 18
  {
    Held(cells[i], band) + Min(delta[i][band], 0)
  }

  /** `shares` divide the quantity in proportion to the bands of the source; `given` is what of them is still there. */
  ghost predicate Given(cells: seq<Cell>, delta: seq<Delta>, from: Side, quantity: nat, shares: Six, given: Six)
    requires Compartment(from, |cells|) && |delta| == |cells|
  {
    && TakenFairly(SideBands(cells, from), quantity, shares)
    && forall s | 0 <= s < 6 :: given[s] == Max(Min(shares[s], Available(cells, delta, from.cell, from.band + s)), 0)
  }

  /** Exactly the given units leave one compartment and arrive in the other; nothing else changes. */
  ghost predicate Moves(before: seq<Delta>, after: seq<Delta>, from: Side, to: Side, given: Six)
  {
    && |after| == |before|
    && forall i, b | 0 <= i < |before| && 0 <= b < 18 ::
         after[i][b] == before[i][b]
                        - (if i == from.cell && from.band <= b < from.band + 6 then given[b - from.band] as int else 0)
                        + (if i == to.cell && to.band <= b < to.band + 6 then given[b - to.band] as int else 0)
  }

  ghost predicate MovesBefore(before: seq<Delta>, after: seq<Delta>, from: Side, to: Side, given: Six, n: nat)
  {
    && |after| == |before|
    && forall i, b | 0 <= i < |before| && 0 <= b < 18 ::
         after[i][b] == before[i][b]
                        - (if i == from.cell && from.band <= b < from.band + n && b < from.band + 6
                           then given[b - from.band] as int else 0)
                        + (if i == to.cell && to.band <= b < to.band + n && b < to.band + 6
                           then given[b - to.band] as int else 0)
  }

  /** The same six bands, or twelve different ones. */
  predicate Apart(from: Side, to: Side) {
    from.cell != to.cell || from.band != to.band
  }

  lemma AvailableIs(cells: seq<Cell>, delta: seq<Delta>, i: nat, band: nat)
    requires Backed(cells, delta) && i < |cells| && band < 18
    ensures Unspent(cells, delta, i, band) == Available(cells, delta, i, band)
  {
    DebitedExact(cells, delta, i, band);
    hide Unspent, Held, Debited;
  }

  lemma MovesStep(before: seq<Delta>, mid: seq<Delta>, from: Side, to: Side, given: Six, n: nat, units: nat)
    requires MovesBefore(before, mid, from, to, given, n) && n < 6 && Apart(from, to) && units == given[n]
    requires Compartment(from, |before|) && Compartment(to, |before|)
    ensures MovesBefore(before, Shift(mid, from.cell, from.band + n, to.cell, to.band + n, units), from, to, given,
                        n + 1)
    ensures mid[from.cell][from.band + n] == before[from.cell][from.band + n]
  {
    var after := Shift(mid, from.cell, from.band + n, to.cell, to.band + n, units);
    forall i, b | 0 <= i < |before| && 0 <= b < 18
      ensures after[i][b] == mid[i][b] - (if i == from.cell && b == from.band + n then units as int else 0)
                             + (if i == to.cell && b == to.band + n then units as int else 0)
    {
    }
    hide Shift;
  }

  lemma {:induction false} TransferMoves(cells: seq<Cell>, delta: seq<Delta>, from: Side, to: Side, shares: Six,
                                         given: Six, n: nat)
    requires SoundFlux(cells, delta) && Compartment(from, |cells|) && Compartment(to, |cells|) && Apart(from, to)
    requires n <= 6 && forall s | 0 <= s < 6 ::
               given[s] == Max(Min(shares[s], Available(cells, delta, from.cell, from.band + s)), 0)
    ensures MovesBefore(delta, TransferBands(cells, delta, from.cell, from.band, to.cell, to.band, shares, n),
                        from, to, given, n)
  {
    if n > 0 {
      var p, at := n - 1, from.band + n - 1;
      TransferMoves(cells, delta, from, to, shares, given, p);
      var mid := TransferBands(cells, delta, from.cell, from.band, to.cell, to.band, shares, p);
      assert Backed(cells, delta);
      hide TransferBands, MovesBefore, SoundFlux;
      AvailableIs(cells, delta, from.cell, at);
      SameUnspent(cells, delta, mid, from, to, given, p);
      MovesStep(delta, mid, from, to, given, p, given[p]);
      OneTransfer(cells, delta, mid, from, to, shares, n);
      hide Unspent, Shift, Available;
    }
  }

  lemma OneTransfer(cells: seq<Cell>, delta: seq<Delta>, mid: seq<Delta>, from: Side, to: Side, shares: Six, n: nat)
    requires Compartment(from, |cells|) && Compartment(to, |cells|) && 0 < n <= 6 && |delta| == |cells|
    requires mid == TransferBands(cells, delta, from.cell, from.band, to.cell, to.band, shares, n - 1)
    ensures TransferBands(cells, delta, from.cell, from.band, to.cell, to.band, shares, n)
            == Shift(mid, from.cell, from.band + n - 1, to.cell, to.band + n - 1,
                     Min(shares[n - 1], Unspent(cells, mid, from.cell, from.band + n - 1)))
  {
    hide Shift, Unspent;
  }

  lemma SameUnspent(cells: seq<Cell>, delta: seq<Delta>, mid: seq<Delta>, from: Side, to: Side, given: Six, p: nat)
    requires |delta| == |cells| && Compartment(from, |cells|) && Compartment(to, |cells|) && Apart(from, to) && p < 6
    requires MovesBefore(delta, mid, from, to, given, p)
    ensures Unspent(cells, mid, from.cell, from.band + p) == Unspent(cells, delta, from.cell, from.band + p)
  {
    assert mid[from.cell][from.band + p] == delta[from.cell][from.band + p];
    hide MovesBefore, Held;
  }

  function FlowDue(cells: seq<Cell>, from: Side, to: Side, c: nat, divisor: nat, carried: int): nat
    requires Compartment(from, |cells|) && Compartment(to, |cells|) && 0 < divisor
  {
    Quantity(Sum6(SideBands(cells, from)), from.capacity, Sum6(SideBands(cells, to)), to.capacity, c, divisor, carried)
  }

  function FlowCarry(cells: seq<Cell>, from: Side, to: Side, c: nat, divisor: nat, carried: int): int
    requires Compartment(from, |cells|) && Compartment(to, |cells|) && 0 < divisor
  {
    CarriedOn(Sum6(SideBands(cells, from)), from.capacity, Sum6(SideBands(cells, to)), to.capacity, c, divisor, carried)
  }

  /** A flow of a pass gives out what is due, in fair shares, as far as the bands still hold it. */
  lemma PourMoves(cells: seq<Cell>, work: Work, from: Side, to: Side, c: nat, divisor: nat, rotation: nat)
    returns (shares: Six, given: Six)
    requires SoundFlux(cells, work.delta) && Compartment(from, |cells|) && Compartment(to, |cells|) && Apart(from, to)
    requires 0 < divisor
    ensures var r := Pour(cells, work, from, to, c, divisor, rotation);
            && Given(cells, work.delta, from, FlowDue(cells, from, to, c, divisor, work.remainder), shares, given)
            && Moves(work.delta, r.delta, from, to, given)
            && r.remainder == FlowCarry(cells, from, to, c, divisor, work.remainder)
            && PouredUnits(cells, work, from, to, c, divisor, rotation) == Sum6(given)
  {
    SoundLength(cells, work.delta);
    assert from.cell < |cells| && to.cell < |cells|;
    hide *;
    var due := FlowDue(cells, from, to, c, divisor, work.remainder);
    shares := Proportional(SideBands(cells, from), due, rotation);
    given := GivenOf(cells, work.delta, from, shares);
    ProportionalIsFair(SideBands(cells, from), due, rotation);
    GivenIs(cells, work.delta, from, due, shares, given);
    PourIs(cells, work, from, to, c, divisor, rotation);
    TransferMoves(cells, work.delta, from, to, shares, given, 6);
    AllMoved(work.delta, Pour(cells, work, from, to, c, divisor, rotation).delta, from, to, given);
    PouredIs(cells, work, from, to, c, divisor, rotation);
    SharesFit(cells, from, to, c, divisor, work.remainder, shares);
    TransferredIs(cells, work.delta, from, to, shares, given, 6);
    SumBeforeAll(given);
  }

  lemma PouredIs(cells: seq<Cell>, work: Work, from: Side, to: Side, c: nat, divisor: nat, rotation: nat)
    requires |work.delta| == |cells| && Compartment(from, |cells|) && Compartment(to, |cells|) && 0 < divisor
    ensures PouredUnits(cells, work, from, to, c, divisor, rotation)
            == TransferTotal(cells, work.delta, from.cell, from.band, to.cell, to.band,
                             Proportional(SideBands(cells, from), FlowDue(cells, from, to, c, divisor, work.remainder),
                                          rotation), 6)
  {
    FluxQuantity(Sum6(SideBands(cells, from)), from.capacity, Sum6(SideBands(cells, to)), to.capacity, c, divisor,
                 work.remainder);
    hide FluxOf, Quantity, CarriedOn, TransferTotal, Proportional, SideBands, Sum6;
  }

  lemma SharesFit(cells: seq<Cell>, from: Side, to: Side, c: nat, divisor: nat, carried: int, shares: Six)
    requires Compartment(from, |cells|) && Compartment(to, |cells|) && 0 < divisor
    requires TakenFairly(SideBands(cells, from), FlowDue(cells, from, to, c, divisor, carried), shares)
    ensures Sum6(shares) <= U16_MAX
  {
    QuantityFits(Sum6(SideBands(cells, from)), from.capacity, Sum6(SideBands(cells, to)), to.capacity, c, divisor,
                 carried);
    hide Quantity, SideBands, Sum6;
  }

  lemma QuantityFits(source: nat, room: nat, target: nat, targetRoom: nat, c: nat, divisor: nat, carried: int)
    requires 0 < divisor
    ensures Quantity(source, room, target, targetRoom, c, divisor, carried) <= U16_MAX
  {
  }

  /** The units a transfer reports are the units it moved. */
  lemma {:induction false} TransferredIs(cells: seq<Cell>, delta: seq<Delta>, from: Side, to: Side, shares: Six,
                                         given: Six, n: nat)
    requires SoundFlux(cells, delta) && Compartment(from, |cells|) && Compartment(to, |cells|) && Apart(from, to)
    requires n <= 6 && Sum6(shares) <= U16_MAX
    requires forall s | 0 <= s < 6 ::
               given[s] == Max(Min(shares[s], Available(cells, delta, from.cell, from.band + s)), 0)
    ensures |delta| == |cells| && SumBefore(given, n) <= SumBefore(shares, n)
    ensures TransferTotal(cells, delta, from.cell, from.band, to.cell, to.band, shares, n) == SumBefore(given, n)
  {
    SoundLength(cells, delta);
    hide SoundFlux, Available, TransferBands;
    if n > 0 {
      var p := n - 1;
      TransferredIs(cells, delta, from, to, shares, given, p);
      TransferMoves(cells, delta, from, to, shares, given, p);
      var mid := TransferBands(cells, delta, from.cell, from.band, to.cell, to.band, shares, p);
      SameUnspent(cells, delta, mid, from, to, given, p);
      AvailableIs(cells, delta, from.cell, from.band + p);
      SumBeforeWithin(shares, n);
      hide Unspent;
    }
  }

  lemma SumBeforeWithin(s: Six, n: nat)
    requires n <= 6
    ensures SumBefore(s, n) <= Sum6(s)
  {
    SumBeforeAll(s);
    SumBeforeGrows(s, n);
  }

  lemma {:induction false} SumBeforeGrows(s: Six, n: nat)
    requires n <= 6
    ensures SumBefore(s, n) <= SumBefore(s, 6)
    decreases 6 - n
  {
    if n < 6 {
      SumBeforeGrows(s, n + 1);
      SumBeforeStep(s, n);
    }
  }

  lemma SoundLength(cells: seq<Cell>, delta: seq<Delta>)
    requires SoundFlux(cells, delta)
    ensures |delta| == |cells| && Backed(cells, delta)
  {
    hide Balanced, Representable, BackedBy;
  }

  function GivenAt(cells: seq<Cell>, delta: seq<Delta>, from: Side, shares: Six, s: nat): nat
    requires Compartment(from, |cells|) && |delta| == |cells| && s < 6
  {
    Max(Min(shares[s], Available(cells, delta, from.cell, from.band + s)), 0)
  }

  function GivenOf(cells: seq<Cell>, delta: seq<Delta>, from: Side, shares: Six): Six
    requires Compartment(from, |cells|) && |delta| == |cells|
  {
    [GivenAt(cells, delta, from, shares, 0), GivenAt(cells, delta, from, shares, 1),
     GivenAt(cells, delta, from, shares, 2), GivenAt(cells, delta, from, shares, 3),
     GivenAt(cells, delta, from, shares, 4), GivenAt(cells, delta, from, shares, 5)]
  }

  lemma GivenIs(cells: seq<Cell>, delta: seq<Delta>, from: Side, due: nat, shares: Six, given: Six)
    requires Compartment(from, |cells|) && |delta| == |cells|
    requires TakenFairly(SideBands(cells, from), due, shares) && given == GivenOf(cells, delta, from, shares)
    ensures Given(cells, delta, from, due, shares, given)
    ensures forall s | 0 <= s < 6 ::
              given[s] == Max(Min(shares[s], Available(cells, delta, from.cell, from.band + s)), 0)
  {
    hide Available, TakenFairly, SideBands, Sum6, Min, Max;
    forall s | 0 <= s < 6 ensures given[s] == GivenAt(cells, delta, from, shares, s) {
    }
  }

  lemma AllMoved(before: seq<Delta>, after: seq<Delta>, from: Side, to: Side, given: Six)
    requires MovesBefore(before, after, from, to, given, 6)
    ensures Moves(before, after, from, to, given)
  {
  }

  lemma PourIs(cells: seq<Cell>, work: Work, from: Side, to: Side, c: nat, divisor: nat, rotation: nat)
    requires |work.delta| == |cells| && Compartment(from, |cells|) && Compartment(to, |cells|) && 0 < divisor
    ensures var due := FlowDue(cells, from, to, c, divisor, work.remainder);
            Pour(cells, work, from, to, c, divisor, rotation)
            == Work(TransferBands(cells, work.delta, from.cell, from.band, to.cell, to.band,
                                  Proportional(SideBands(cells, from), due, rotation), 6),
                    FlowCarry(cells, from, to, c, divisor, work.remainder))
  {
    FluxQuantity(Sum6(SideBands(cells, from)), from.capacity, Sum6(SideBands(cells, to)), to.capacity, c, divisor,
                 work.remainder);
    hide FluxOf, Quantity, CarriedOn, TransferBands, Proportional, SideBands, Sum6;
  }

  // ----- whole edges and exchanges -----

  /** The same pool of two cells in the order a flow runs: from the steeper one. */
  function Way(planet: Planet, cells: seq<Cell>, index: nat, other: nat, band: nat): (way: (Side, Side))
    requires |planet.controls| == |cells| && index < other < |cells| && (band == AMBIENT || band == DROSS)
    ensures Compartment(way.0, |cells|) && Compartment(way.1, |cells|) && Apart(way.0, way.1)
    ensures way.0.band == way.1.band == band && way.0.cell != way.1.cell
    ensures way.0.cell == index || way.0.cell == other
    ensures way.1.cell == if way.0.cell == index then other else index
  {
    var a, b := Side(index, band, planet.controls[index].capacity), Side(other, band, planet.controls[other].capacity);
    var here := if band == AMBIENT then cells[index].ambient else cells[index].dross;
    var there := if band == AMBIENT then cells[other].ambient else cells[other].dross;
    if planet.steeper(Sum6(here), a.capacity, Sum6(there), b.capacity) then (a, b) else (b, a)
  }

  /** Ambient bands of one cell together. */
  function Together(change: Delta, band: nat): int
    requires band <= 12
  {
    change[band] + change[band + 1] + change[band + 2] + change[band + 3] + change[band + 4] + change[band + 5]
  }

  /** A trade of resonances: `units` of one resonance one way, as many of another the other way. */
  ghost predicate Trades(before: seq<Delta>, after: seq<Delta>, first: nat, second: nat, swap: Swap, units: nat)
    requires swap.fromA < 6 && swap.fromB < 6
  {
    && |after| == |before|
    && forall i, b | 0 <= i < |before| && 0 <= b < 18 ::
         after[i][b] == before[i][b]
                        + (if (i == first && b == 6 + swap.fromB) || (i == second && b == 6 + swap.fromA)
                           then units as int else 0)
                        - (if (i == first && b == 6 + swap.fromA) || (i == second && b == 6 + swap.fromB)
                           then units as int else 0)
  }

  lemma TradeMoves(delta: seq<Delta>, first: nat, second: nat, swap: Swap, units: nat)
    requires first < |delta| && second < |delta| && first != second
    requires swap.fromA < 6 && swap.fromB < 6 && swap.fromA != swap.fromB
    ensures Trades(delta, Trade(delta, first, second, swap, units), first, second, swap, units)
  {
  }

  /** What a swap is due: the best trade's score, at most one unit and one more for every 500 of conductance, as far as
      both bands still hold it; and nothing on a poor edge, at a closed gate or without a trade that improves both. */
  lemma SwapMoves(planet: Planet, cells: seq<Cell>, step: nat, delta: seq<Delta>, first: nat, second: nat, c: nat)
    requires SoundFlux(cells, delta) && |planet.controls| == |cells| && first < |cells| && second < |cells|
    requires first != second
    ensures var a, b := cells[first].ambient, cells[second].ambient;
            var best := BestSwap(a, planet.controls[first].baseline, b, planet.controls[second].baseline, 36);
            var after := SwapFlux(planet, cells, step, delta, first, second, c);
            if c < 64 || !planet.gate(step % 0x1_0000_0000, Xor(first, second)) || best.None? then after == delta
            else
              && best.value.fromA < 6 && best.value.fromB < 6 && best.value.fromA != best.value.fromB
              && var units := Max(Min(Min(best.value.score, 1 + c / 500),
                                      Min(Available(cells, delta, first, 6 + best.value.fromA),
                                          Available(cells, delta, second, 6 + best.value.fromB))), 0);
              Trades(delta, after, first, second, best.value, units)
  {
    var a, b := cells[first].ambient, cells[second].ambient;
    var best := BestSwap(a, planet.controls[first].baseline, b, planet.controls[second].baseline, 36);
    BestSwapSlots(a, planet.controls[first].baseline, b, planet.controls[second].baseline);
    SoundLength(cells, delta);
    hide SoundFlux, Trade, BestSwap, Available, Backed, Trades, SwapUnits;
    if best.Some? {
      SwapUnitsAre(cells, delta, first, second, best.value, c);
      TradeMoves(delta, first, second, best.value, SwapUnits(cells, delta, first, second, best.value, c));
    }
  }

  lemma SwapUnitsAre(cells: seq<Cell>, delta: seq<Delta>, first: nat, second: nat, swap: Swap, c: nat)
    requires Backed(cells, delta) && first < |cells| && second < |cells| && swap.fromA < 6 && swap.fromB < 6
    ensures SwapUnits(cells, delta, first, second, swap, c)
            == Max(Min(Min(swap.score, 1 + c / 500), Min(Available(cells, delta, first, 6 + swap.fromA),
                                                         Available(cells, delta, second, 6 + swap.fromB))), 0)
  {
    AvailableIs(cells, delta, first, AMBIENT + swap.fromA);
    AvailableIs(cells, delta, second, AMBIENT + swap.fromB);
    hide Unspent, Available, Backed;
  }

  lemma TradeKeepsTogether(before: seq<Delta>, after: seq<Delta>, first: nat, second: nat, swap: Swap, units: nat)
    requires swap.fromA < 6 && swap.fromB < 6 && swap.fromA != swap.fromB && first != second
    requires Trades(before, after, first, second, swap, units)
    ensures forall i | 0 <= i < |before| :: Together(after[i], 6) == Together(before[i], 6)
    ensures forall i, b | 0 <= i < |before| && 0 <= b < 18 && !(6 <= b < 12) :: after[i][b] == before[i][b]
  {
    forall i | 0 <= i < |before| ensures Together(after[i], 6) == Together(before[i], 6) {
      assert forall b | 6 <= b < 12 ::
          after[i][b] == before[i][b]
                        + (if (i == first && b == 6 + swap.fromB) || (i == second && b == 6 + swap.fromA)
                           then units as int else 0)
                        - (if (i == first && b == 6 + swap.fromA) || (i == second && b == 6 + swap.fromB)
                           then units as int else 0);
      hide Trades;
    }
  }

  /** After the swap that may follow a flow, the flow's units are still where it left them, resonances aside. */
  ghost predicate MovesTogether(before: seq<Delta>, after: seq<Delta>, from: Side, to: Side, units: nat) {
    && |after| == |before|
    && (forall i | 0 <= i < |before| ::
          Together(after[i], 6) == Together(before[i], 6) - (if i == from.cell then units as int else 0)
                                   + (if i == to.cell then units as int else 0))
    && forall i, b | 0 <= i < |before| && 0 <= b < 18 && !(6 <= b < 12) :: after[i][b] == before[i][b]
  }

  lemma MovedTogether(before: seq<Delta>, after: seq<Delta>, from: Side, to: Side, given: Six)
    requires Moves(before, after, from, to, given) && from.band == to.band == AMBIENT && from.cell != to.cell
    ensures MovesTogether(before, after, from, to, Sum6(given))
  {
    forall i | 0 <= i < |before|
      ensures Together(after[i], 6) == Together(before[i], 6) - (if i == from.cell then Sum6(given) as int else 0)
                                       + (if i == to.cell then Sum6(given) as int else 0)
    {
      assert forall b | 6 <= b < 12 ::
          after[i][b] == before[i][b] - (if i == from.cell then given[b - 6] as int else 0)
                        + (if i == to.cell then given[b - 6] as int else 0);
      hide Moves;
    }
  }

  lemma ThenSwapped(before: seq<Delta>, mid: seq<Delta>, after: seq<Delta>, from: Side, to: Side, units: nat)
    requires MovesTogether(before, mid, from, to, units) && |after| == |mid|
    requires forall i | 0 <= i < |mid| :: Together(after[i], 6) == Together(mid[i], 6)
    requires forall i, b | 0 <= i < |mid| && 0 <= b < 18 && !(6 <= b < 12) :: after[i][b] == mid[i][b]
    ensures MovesTogether(before, after, from, to, units)
  {
    hide Together;
  }

  lemma MaybeSwapped(planet: Planet, cells: seq<Cell>, step: nat, before: seq<Delta>, mid: seq<Delta>,
                     after: seq<Delta>,
                     index: nat, other: nat, c: nat, from: Side, to: Side, units: nat)
    requires SoundFlux(cells, mid) && |mid| == |cells| == |planet.controls| && index < other < |cells|
    requires MovesTogether(before, mid, from, to, units)
    requires after == mid || after == SwapFlux(planet, cells, step, mid, index, other, c)
    ensures MovesTogether(before, after, from, to, units)
  {
    hide *;
    if after != mid {
      SwapKeepsTogether(planet, cells, step, mid, index, other, c);
      ThenSwapped(before, mid, after, from, to, units);
    }
  }

  /** What the ambient half of an edge does: what is due runs down the gradient, as far as the bands still hold it. */
  ghost predicate AmbientPart(planet: Planet, cells: seq<Cell>, work: Work, after: seq<Delta>, index: nat, other: nat,
                              c: nat, shares: Six, given: Six)
    requires |planet.controls| == |cells| == |work.delta| && index < other < |cells|
  {
    var way := Way(planet, cells, index, other, AMBIENT);
    && Given(cells, work.delta, way.0, FlowDue(cells, way.0, way.1, c, 16, work.remainder), shares, given)
    && |after| == |work.delta|
    && forall i | 0 <= i < |after| ::
         Together(after[i], 6) == Together(work.delta[i], 6) - (if i == way.0.cell then Sum6(given) as int else 0)
                                  + (if i == way.1.cell then Sum6(given) as int else 0)
  }

  /** The same of the dross half, band by band, with the fraction the ambient half left. */
  ghost predicate DrossPart(planet: Planet, cells: seq<Cell>, work: Work, after: seq<Delta>, index: nat, other: nat,
                            d: nat, shares: Six, foul: Six)
    requires |planet.controls| == |cells| == |work.delta| && index < other < |cells|
  {
    var way := Way(planet, cells, index, other, DROSS);
    && Given(cells, work.delta, way.0, FlowDue(cells, way.0, way.1, d, 96, work.remainder), shares, foul)
    && |after| == |work.delta|
    && forall i, b | 0 <= i < |after| && 12 <= b < 18 ::
         after[i][b] == work.delta[i][b] - (if i == way.0.cell then foul[b - 12] as int else 0)
                        + (if i == way.1.cell then foul[b - 12] as int else 0)
  }

  function AmbientCarry(planet: Planet, cells: seq<Cell>, index: nat, other: nat, c: nat, carried: int): int
    requires |planet.controls| == |cells| && index < other < |cells|
  {
    var way := Way(planet, cells, index, other, AMBIENT);
    FlowCarry(cells, way.0, way.1, c, 16, carried)
  }

  function DrossCarry(planet: Planet, cells: seq<Cell>, index: nat, other: nat, d: nat, carried: int): int
    requires |planet.controls| == |cells| && index < other < |cells|
  {
    var way := Way(planet, cells, index, other, DROSS);
    FlowCarry(cells, way.0, way.1, d, 96, carried)
  }

  lemma AmbientWayIs(planet: Planet, cells: seq<Cell>, index: nat, other: nat, c: nat)
    requires |planet.controls| == |cells| && index < other < |cells|
    ensures var way := Way(planet, cells, index, other, AMBIENT);
            AmbientCourse(planet, cells, index, other, c) == Course(way.0, way.1, c, 16, index + other)
  {
    assert SideBands(cells, AmbientSide(planet, index)) == cells[index].ambient;
    assert SideBands(cells, AmbientSide(planet, other)) == cells[other].ambient;
    hide Sum6;
  }

  lemma DrossWayIs(planet: Planet, cells: seq<Cell>, index: nat, other: nat, c: nat)
    requires |planet.controls| == |cells| && index < other < |cells|
    ensures var way := Way(planet, cells, index, other, DROSS);
            DrossCourse(planet, cells, index, other, c)
            == Course(way.0, way.1, DrossConductance(planet, index, other, c), 96, Xor(index, other))
  {
    DrossConductanceIs(planet, index, other, c);
    assert SideBands(cells, DrossSide(planet, index)) == cells[index].dross;
    assert SideBands(cells, DrossSide(planet, other)) == cells[other].dross;
    hide Sum6, DrossConductance, DrossConductivity, Xor;
  }

  /** The flow of an ambient half, before any swap. */
  lemma AmbientPour(cells: seq<Cell>, work: Work, from: Side, to: Side, c: nat, rotation: nat)
    returns (shares: Six, given: Six)
    requires SoundFlux(cells, work.delta) && |work.delta| == |cells|
    requires Compartment(from, |cells|) && Compartment(to, |cells|) && Apart(from, to)
    requires from.band == to.band == AMBIENT && from.cell != to.cell
    ensures var poured := Pour(cells, work, from, to, c, 16, rotation);
            && Given(cells, work.delta, from, FlowDue(cells, from, to, c, 16, work.remainder), shares, given)
            && MovesTogether(work.delta, poured.delta, from, to, Sum6(given))
            && poured.remainder == FlowCarry(cells, from, to, c, 16, work.remainder)
            && SoundFlux(cells, poured.delta) && |poured.delta| == |cells|
  {
    hide *;
    shares, given := PourMoves(cells, work, from, to, c, 16, rotation);
    MovedTogether(work.delta, Pour(cells, work, from, to, c, 16, rotation).delta, from, to, given);
    PourSound(cells, work, from, to, c, 16, rotation);
  }

  /** The ambient half of an edge. */
  lemma AmbientMoves(planet: Planet, cells: seq<Cell>, step: nat, work: Work, index: nat, other: nat, c: nat)
    returns (shares: Six, given: Six)
    requires SoundFlux(cells, work.delta) && |planet.controls| == |cells| == |work.delta| && index < other < |cells|
    ensures var r := AmbientEdge(planet, cells, step, work, index, other, c);
            && AmbientPart(planet, cells, work, r.delta, index, other, c, shares, given)
            && r.remainder == AmbientCarry(planet, cells, index, other, c, work.remainder)
            && SoundFlux(cells, r.delta)
            && MovesTogether(work.delta, r.delta, Way(planet, cells, index, other, AMBIENT).0,
                             Way(planet, cells, index, other, AMBIENT).1, Sum6(given))
  {
    hide *;
    var way := Way(planet, cells, index, other, AMBIENT);
    AmbientEdgeSound(planet, cells, step, work, index, other, c);
    shares, given := AmbientPour(cells, work, way.0, way.1, c, index + other);
    var poured := Pour(cells, work, way.0, way.1, c, 16, index + other);
    AmbientWayIs(planet, cells, index, other, c);
    AmbientIs(planet, cells, step, work, index, other, c, Course(way.0, way.1, c, 16, index + other));
    var after := AmbientEdge(planet, cells, step, work, index, other, c).delta;
    MaybeSwapped(planet, cells, step, work.delta, poured.delta, after, index, other, c, way.0, way.1, Sum6(given));
    AmbientPartIs(planet, cells, work, after, index, other, c, shares, given);
  }

  lemma AmbientPartIs(planet: Planet, cells: seq<Cell>, work: Work, after: seq<Delta>, index: nat, other: nat, c: nat,
                      shares: Six, given: Six)
    requires |planet.controls| == |cells| == |work.delta| && index < other < |cells|
    requires var way := Way(planet, cells, index, other, AMBIENT);
             && Given(cells, work.delta, way.0, FlowDue(cells, way.0, way.1, c, 16, work.remainder), shares, given)
             && MovesTogether(work.delta, after, way.0, way.1, Sum6(given))
    ensures AmbientPart(planet, cells, work, after, index, other, c, shares, given)
    ensures AmbientCarry(planet, cells, index, other, c, work.remainder)
            == FlowCarry(cells, Way(planet, cells, index, other, AMBIENT).0,
                         Way(planet, cells, index, other, AMBIENT).1,
                         c, 16, work.remainder)
  {
    hide Way, Given, FlowDue, FlowCarry, Together, Sum6;
  }

  lemma AmbientIs(planet: Planet, cells: seq<Cell>, step: nat, work: Work, index: nat, other: nat, c: nat,
                  course: Course)
    requires |work.delta| == |cells| == |planet.controls| && index < |cells| && other < |cells|
    requires course == AmbientCourse(planet, cells, index, other, c)
    ensures var poured :=
      Pour(cells, work, course.from, course.to, course.conductivity, course.divisor, course.rotation);
            var r := AmbientEdge(planet, cells, step, work, index, other, c);
            && r.remainder == poured.remainder
            && (r.delta == poured.delta || r.delta == SwapFlux(planet, cells, step, poured.delta, index, other, c))
  {
    hide Pour, PouredUnits, SwapFlux, AmbientCourse;
  }

  lemma SwapKeepsTogether(planet: Planet, cells: seq<Cell>, step: nat, delta: seq<Delta>, first: nat, second: nat,
                          c: nat)
    requires SoundFlux(cells, delta) && |planet.controls| == |cells| && first < second < |cells|
    ensures var after := SwapFlux(planet, cells, step, delta, first, second, c);
            && |after| == |delta|
            && (forall i | 0 <= i < |delta| :: Together(after[i], 6) == Together(delta[i], 6))
            && forall i, b | 0 <= i < |delta| && 0 <= b < 18 && !(6 <= b < 12) :: after[i][b] == delta[i][b]
  {
    SwapMoves(planet, cells, step, delta, first, second, c);
    SoundLength(cells, delta);
    hide SoundFlux, BestSwap, Available, Together, Trades, SwapFlux;
    var a, b := cells[first].ambient, cells[second].ambient;
    var best := BestSwap(a, planet.controls[first].baseline, b, planet.controls[second].baseline, 36);
    var after := SwapFlux(planet, cells, step, delta, first, second, c);
    if c >= 64 && planet.gate(step % 0x1_0000_0000, Xor(first, second)) && best.Some? {
      var units := Max(Min(Min(best.value.score, 1 + c / 500),
                           Min(Available(cells, delta, first, 6 + best.value.fromA),
                               Available(cells, delta, second, 6 + best.value.fromB))), 0);
      TradeKeepsTogether(delta, after, first, second, best.value, units);
    }
  }

  /** An edge of a pass, at whatever point of it. Ambient Current runs down the gradient by what is due for the smaller
      of the two facing conductances, then dross for its own, each as far as the bands still hold it; a swap changes
      resonances only, and the depths are left alone. */
  lemma EdgeMoves(planet: Planet, cells: seq<Cell>, step: nat, work: Work, index: nat, direction: Direction)
    returns (shares: Six, given: Six, foulShares: Six, foul: Six)
    requires SoundFlux(cells, work.delta) && |planet.controls| == |cells| == |work.delta|
    requires index < planet.step(index, direction).0 < |cells|
    ensures var other, c := planet.step(index, direction).0, Conductance(planet, index, direction);
            var d := DrossConductance(planet, index, other, c);
            var carried := AmbientCarry(planet, cells, index, other, c, work.remainder);
            var r := EdgeFlux(planet, cells, step, work, index, direction);
            && AmbientPart(planet, cells, work, r.delta, index, other, c, shares, given)
            && DrossPart(planet, cells, Work(work.delta, carried), r.delta, index, other, d, foulShares, foul)
            && r.remainder == DrossCarry(planet, cells, index, other, d, carried)
            && forall i, b | 0 <= i < |work.delta| && 0 <= b < 6 :: r.delta[i][b] == work.delta[i][b]
  {
    hide *;
    var other, c := planet.step(index, direction).0, Conductance(planet, index, direction);
    ConductanceIs(planet, index, direction);
    var d := DrossConductance(planet, index, other, c);
    DrossWayIs(planet, cells, index, other, c);
    shares, given := AmbientMoves(planet, cells, step, work, index, other, c);
    var mid := AmbientEdge(planet, cells, step, work, index, other, c);
    var way := Way(planet, cells, index, other, DROSS);
    foulShares, foul := PourMoves(cells, mid, way.0, way.1, d, 96, Xor(index, other));
    EdgeIs(planet, cells, step, work, index, direction, Course(way.0, way.1, d, 96, Xor(index, other)));
    var after := EdgeFlux(planet, cells, step, work, index, direction).delta;
    Halves(planet, cells, work, mid, after, index, other, c, d, shares, given, foulShares, foul);
  }

  lemma Halves(planet: Planet, cells: seq<Cell>, work: Work, mid: Work, after: seq<Delta>, index: nat, other: nat,
               c: nat,
               d: nat, shares: Six, given: Six, foulShares: Six, foul: Six)
    requires |planet.controls| == |cells| == |work.delta| && index < other < |cells| && |mid.delta| == |cells|
    requires AmbientPart(planet, cells, work, mid.delta, index, other, c, shares, given)
    requires mid.remainder == AmbientCarry(planet, cells, index, other, c, work.remainder)
    requires MovesTogether(work.delta, mid.delta, Way(planet, cells, index, other, AMBIENT).0,
                           Way(planet, cells, index, other, AMBIENT).1, Sum6(given))
    requires var way := Way(planet, cells, index, other, DROSS);
             && Given(cells, mid.delta, way.0, FlowDue(cells, way.0, way.1, d, 96, mid.remainder), foulShares, foul)
             && Moves(mid.delta, after, way.0, way.1, foul)
    ensures AmbientPart(planet, cells, work, after, index, other, c, shares, given)
    ensures DrossPart(planet, cells, Work(work.delta, mid.remainder), after, index, other, d, foulShares, foul)
    ensures forall i, b | 0 <= i < |work.delta| && 0 <= b < 6 :: after[i][b] == work.delta[i][b]
    ensures DrossCarry(planet, cells, index, other, d, mid.remainder)
            == FlowCarry(cells, Way(planet, cells, index, other, DROSS).0, Way(planet, cells, index, other, DROSS).1,
                         d, 96, mid.remainder)
  {
    hide *;
    var at, way := Way(planet, cells, index, other, AMBIENT), Way(planet, cells, index, other, DROSS);
    var due := FlowDue(cells, way.0, way.1, d, 96, mid.remainder);
    SameDrossGiven(cells, work.delta, mid.delta, way.0, at.0, at.1, Sum6(given), due, foulShares, foul);
    BothMoved(work.delta, mid.delta, after, at.0, at.1, way.0, way.1, Sum6(given), foul);
    DrossPartIs(planet, cells, Work(work.delta, mid.remainder), after, index, other, d, foulShares, foul);
    StillAmbient(planet, cells, work, mid.delta, after, index, other, c, shares, given);
  }

  lemma StillAmbient(planet: Planet, cells: seq<Cell>, work: Work, mid: seq<Delta>, after: seq<Delta>, index: nat,
                     other: nat, c: nat, shares: Six, given: Six)
    requires |planet.controls| == |cells| == |work.delta| && index < other < |cells|
    requires AmbientPart(planet, cells, work, mid, index, other, c, shares, given) && |after| == |mid|
    requires forall i | 0 <= i < |mid| :: Together(after[i], 6) == Together(mid[i], 6)
    ensures AmbientPart(planet, cells, work, after, index, other, c, shares, given)
  {
    hide Given, FlowDue, Together, Sum6, Way;
  }

  lemma DrossPartIs(planet: Planet, cells: seq<Cell>, work: Work, after: seq<Delta>, index: nat, other: nat, d: nat,
                    shares: Six, foul: Six)
    requires |planet.controls| == |cells| == |work.delta| && index < other < |cells| && |after| == |work.delta|
    requires var way := Way(planet, cells, index, other, DROSS);
             && Given(cells, work.delta, way.0, FlowDue(cells, way.0, way.1, d, 96, work.remainder), shares, foul)
             && forall i, b | 0 <= i < |after| && 12 <= b < 18 ::
                  after[i][b] == work.delta[i][b] - (if i == way.0.cell then foul[b - 12] as int else 0)
                                 + (if i == way.1.cell then foul[b - 12] as int else 0)
    ensures DrossPart(planet, cells, work, after, index, other, d, shares, foul)
    ensures DrossCarry(planet, cells, index, other, d, work.remainder)
            == FlowCarry(cells, Way(planet, cells, index, other, DROSS).0, Way(planet, cells, index, other, DROSS).1,
                         d, 96, work.remainder)
  {
    hide Way, Given, FlowDue, FlowCarry;
  }

  lemma EdgeIs(planet: Planet, cells: seq<Cell>, step: nat, work: Work, index: nat, direction: Direction,
               course: Course)
    requires |work.delta| == |cells| == |planet.controls| && index < planet.step(index, direction).0 < |cells|
    requires course == DrossCourse(planet, cells, index, planet.step(index, direction).0,
                                   EdgeConductivity(planet, index, direction))
    ensures var other := planet.step(index, direction).0;
            EdgeFlux(planet, cells, step, work, index, direction)
            == Pour(cells,
                    AmbientEdge(planet, cells, step, work, index, other, EdgeConductivity(planet, index, direction)),
                    course.from, course.to, course.conductivity, course.divisor, course.rotation)
  {
    hide Pour, AmbientEdge, DrossCourse, EdgeConductivity;
  }

  lemma SameDrossGiven(cells: seq<Cell>, before: seq<Delta>, mid: seq<Delta>, foulFrom: Side, from: Side, to: Side,
                       units: nat, due: nat, shares: Six, foul: Six)
    requires MovesTogether(before, mid, from, to, units) && |before| == |cells|
    requires Compartment(foulFrom, |cells|) && foulFrom.band == DROSS
    requires Given(cells, mid, foulFrom, due, shares, foul)
    ensures Given(cells, before, foulFrom, due, shares, foul)
  {
    forall b | 12 <= b < 18
      ensures Available(cells, mid, foulFrom.cell, b) == Available(cells, before, foulFrom.cell, b)
    {
      assert mid[foulFrom.cell][b] == before[foulFrom.cell][b];
      hide MovesTogether, Held;
    }
    hide Available, MovesTogether, TakenFairly;
  }

  lemma BothMoved(before: seq<Delta>, mid: seq<Delta>, after: seq<Delta>, from: Side, to: Side, foulFrom: Side,
                  foulTo: Side, units: nat, foul: Six)
    requires MovesTogether(before, mid, from, to, units) && Moves(mid, after, foulFrom, foulTo, foul)
    requires foulFrom.band == foulTo.band == DROSS
    ensures |after| == |before| == |mid|
    ensures forall i | 0 <= i < |mid| :: Together(after[i], 6) == Together(mid[i], 6)
    ensures forall i, b | 0 <= i < |after| && 12 <= b < 18 ::
              after[i][b] == before[i][b] - (if i == foulFrom.cell then foul[b - 12] as int else 0)
                             + (if i == foulTo.cell then foul[b - 12] as int else 0)
    ensures forall i, b | 0 <= i < |before| && 0 <= b < 6 :: after[i][b] == before[i][b]
  {
    forall i | 0 <= i < |mid| ensures Together(after[i], 6) == Together(mid[i], 6) {
      assert forall b | 0 <= b < 12 :: after[i][b] == mid[i][b];
      hide Moves, MovesTogether;
    }
    hide Together;
  }

  /** The exchange of a cell with its depths: from the steeper of the two by what is due for the exchange, as far as the
      bands still hold it, and nothing when neither is. */
  lemma ExchangeMoves(planet: Planet, cells: seq<Cell>, work: Work, index: nat) returns (shares: Six, given: Six)
    requires SoundFlux(cells, work.delta) && |planet.controls| == |cells| && index < |cells|
    ensures var control := planet.controls[index];
            var deep, ambient := Side(index, DEEP, control.deepCapacity), Side(index, AMBIENT, control.capacity);
            var (h, k) := (Sum6(cells[index].deep), Sum6(cells[index].ambient));
            var r := ExchangeFlux(planet, cells, work, index);
            if planet.steeper(h, control.deepCapacity, k, control.capacity) then
              && Given(cells, work.delta, deep, FlowDue(cells, deep, ambient, control.exchange, 32, work.remainder),
                       shares, given)
              && Moves(work.delta, r.delta, deep, ambient, given)
              && r.remainder == FlowCarry(cells, deep, ambient, control.exchange, 32, work.remainder)
            else if planet.steeper(k, control.capacity, h, control.deepCapacity) then
              && Given(cells, work.delta, ambient, FlowDue(cells, ambient, deep, control.exchange, 32, work.remainder),
                       shares, given)
              && Moves(work.delta, r.delta, ambient, deep, given)
              && r.remainder == FlowCarry(cells, ambient, deep, control.exchange, 32, work.remainder)
            else r == work
  {
    SoundLength(cells, work.delta);
    var control := planet.controls[index];
    var deep, ambient := Side(index, DEEP, control.deepCapacity), Side(index, AMBIENT, control.capacity);
    assert SideBands(cells, deep) == cells[index].deep && SideBands(cells, ambient) == cells[index].ambient;
    assert Compartment(deep, |cells|) && Compartment(ambient, |cells|) && Apart(deep, ambient) && Apart(ambient, deep);
    shares, given := Zero6, Zero6;
    if Steeper(planet, cells, deep, ambient) {
      hide SoundFlux, Given, Moves, Pour, FlowDue, FlowCarry;
      shares, given := PourMoves(cells, work, deep, ambient, control.exchange, 32, index);
    } else if Steeper(planet, cells, ambient, deep) {
      hide SoundFlux, Given, Moves, Pour, FlowDue, FlowCarry;
      shares, given := PourMoves(cells, work, ambient, deep, control.exchange, 32, index);
    }
  }

  // ----- the first flow of a pass -----

  /** What an edge is due, signed: positive when it runs to the other cell. */
  function Signed(planet: Planet, cells: seq<Cell>, index: nat, other: nat, band: nat, c: nat, divisor: nat,
                  carried: int)
    : int
    requires |planet.controls| == |cells| && index < other < |cells| && (band == AMBIENT || band == DROSS)
             && 0 < divisor
  {
    var near, far := planet.controls[index].capacity, planet.controls[other].capacity;
    var here := Sum6(if band == AMBIENT then cells[index].ambient else cells[index].dross);
    var there := Sum6(if band == AMBIENT then cells[other].ambient else cells[other].dross);
    if here * far > there * near then Quantity(here, near, there, far, c, divisor, carried)
    else -(Quantity(there, far, here, near, c, divisor, carried) as int)
  }

  /** The steepness test agrees with the cross products of totals and capacities. */
  ghost predicate TrueSteepness(planet: Planet) {
    forall a: nat, roomA: nat, b: nat, roomB: nat ::
      planet.steeper(a, roomA, b, roomB) == (a * roomB > b * roomA)
  }

  /** On an untouched pass the bands hold all they are asked for: an edge moves exactly what is due, of Current and then
      of dross. */
  lemma FirstEdgeMoves(planet: Planet, cells: seq<Cell>, step: nat, carried: int, index: nat, direction: Direction)
    requires |planet.controls| == |cells| && AllRepresentable(cells) && TrueSteepness(planet)
    requires index < planet.step(index, direction).0 < |cells|
    ensures var other, c := planet.step(index, direction).0, Conductance(planet, index, direction);
            var d := DrossConductance(planet, index, other, c);
            var r := EdgeFlux(planet, cells, step, Work(seq(|cells|, _ => ZeroDelta), carried), index, direction);
            var moved := Signed(planet, cells, index, other, AMBIENT, c, 16, carried);
            var fouled := Signed(planet, cells, index, other, DROSS, d, 96,
                                 AmbientCarry(planet, cells, index, other, c, carried));
            && Together(r.delta[index], 6) == -moved && Together(r.delta[other], 6) == moved
            && Together(r.delta[index], 12) == -fouled && Together(r.delta[other], 12) == fouled
  {
    var none := Work(seq(|cells|, _ => ZeroDelta), carried);
    NoFluxSound(cells);
    hide *;
    NoneIsZero(cells, none.delta);
    var shares, given, foulShares, foul := EdgeMoves(planet, cells, step, none, index, direction);
    var other, c := planet.step(index, direction).0, Conductance(planet, index, direction);
    var d := DrossConductance(planet, index, other, c);
    var after := EdgeFlux(planet, cells, step, none, index, direction).delta;
    FirstAmbient(planet, cells, none, after, index, other, c, shares, given);
    FirstDross(planet, cells, Work(none.delta, AmbientCarry(planet, cells, index, other, c, carried)), after, index,
               other,
               d, foulShares, foul);
  }

  lemma NoneIsZero(cells: seq<Cell>, none: seq<Delta>)
    requires none == seq(|cells|, _ => ZeroDelta)
    ensures |none| == |cells| && forall i | 0 <= i < |none| :: none[i] == ZeroDelta
  {
  }

  /** The way a flow takes, and what it is due, from the totals and capacities. */
  lemma WayIs(planet: Planet, cells: seq<Cell>, index: nat, other: nat, band: nat, c: nat, divisor: nat, carried: int)
    requires |planet.controls| == |cells| && index < other < |cells| && (band == AMBIENT || band == DROSS)
             && 0 < divisor
    requires TrueSteepness(planet)
    ensures var way := Way(planet, cells, index, other, band);
            var due := FlowDue(cells, way.0, way.1, c, divisor, carried);
            && due <= Sum6(SideBands(cells, way.0))
            && Signed(planet, cells, index, other, band, c, divisor, carried)
               == if way.0.cell == index then due as int else -(due as int)
  {
    var way := Way(planet, cells, index, other, band);
    var here := if band == AMBIENT then cells[index].ambient else cells[index].dross;
    var there := if band == AMBIENT then cells[other].ambient else cells[other].dross;
    var near, far := planet.controls[index].capacity, planet.controls[other].capacity;
    assert planet.steeper(Sum6(here), near, Sum6(there), far) == (Sum6(here) * far > Sum6(there) * near);
    assert SideBands(cells, way.0) == if way.0.cell == index then here else there;
    assert SideBands(cells, way.1) == if way.1.cell == index then here else there;
    hide Quantity, Sum6, TrueSteepness;
    QuantityWithin(Sum6(SideBands(cells, way.0)), way.0.capacity, Sum6(SideBands(cells, way.1)), way.1.capacity, c,
                   divisor,
                   carried);
  }

  lemma FirstAmbient(planet: Planet, cells: seq<Cell>, none: Work, after: seq<Delta>, index: nat, other: nat, c: nat,
                     shares: Six, given: Six)
    requires |planet.controls| == |cells| == |none.delta| && index < other < |cells| && TrueSteepness(planet)
    requires forall i | 0 <= i < |none.delta| :: none.delta[i] == ZeroDelta
    requires AmbientPart(planet, cells, none, after, index, other, c, shares, given)
    ensures var moved := Signed(planet, cells, index, other, AMBIENT, c, 16, none.remainder);
            && |after| == |cells| && Together(after[index], 6) == -moved && Together(after[other], 6) == moved
  {
    var way := Way(planet, cells, index, other, AMBIENT);
    WayIs(planet, cells, index, other, AMBIENT, c, 16, none.remainder);
    assert Given(cells, none.delta, way.0, FlowDue(cells, way.0, way.1, c, 16, none.remainder), shares, given);
    AllGiven(cells, none.delta, way.0, FlowDue(cells, way.0, way.1, c, 16, none.remainder), shares, given);
    assert Together(ZeroDelta, 6) == 0;
    assert Together(none.delta[index], 6) == 0 && Together(none.delta[other], 6) == 0 by { hide AmbientPart; }
    hide Way, Given, FlowDue, Together, Sum6, SideBands, Signed, TrueSteepness;
  }

  lemma FirstDross(planet: Planet, cells: seq<Cell>, none: Work, after: seq<Delta>, index: nat, other: nat, d: nat,
                   shares: Six, foul: Six)
    requires |planet.controls| == |cells| == |none.delta| && index < other < |cells| && TrueSteepness(planet)
    requires forall i | 0 <= i < |none.delta| :: none.delta[i] == ZeroDelta
    requires DrossPart(planet, cells, none, after, index, other, d, shares, foul)
    ensures var moved := Signed(planet, cells, index, other, DROSS, d, 96, none.remainder);
            && |after| == |cells| && Together(after[index], 12) == -moved && Together(after[other], 12) == moved
  {
    var way := Way(planet, cells, index, other, DROSS);
    WayIs(planet, cells, index, other, DROSS, d, 96, none.remainder);
    assert Given(cells, none.delta, way.0, FlowDue(cells, way.0, way.1, d, 96, none.remainder), shares, foul);
    AllGiven(cells, none.delta, way.0, FlowDue(cells, way.0, way.1, d, 96, none.remainder), shares, foul);
    forall i | i == index || i == other
      ensures forall b | 12 <= b < 18 ::
                after[i][b] == if i == way.0.cell then -(foul[b - 12] as int) else foul[b - 12] as int
    {
      assert none.delta[i] == ZeroDelta;
      hide Way, Given, FlowDue, TrueSteepness, Signed;
    }
    hide Way, Given, FlowDue, SideBands, Signed, TrueSteepness, DrossPart;
  }

  lemma QuantityWithin(source: nat, room: nat, target: nat, targetRoom: nat, c: nat, divisor: nat, carried: int)
    requires 0 < divisor
    ensures Quantity(source, room, target, targetRoom, c, divisor, carried) <= source
  {
    if source == 0 {
      NoSource(target, room, targetRoom);
    }
  }

  lemma AllGiven(cells: seq<Cell>, none: seq<Delta>, from: Side, due: nat, shares: Six, given: Six)
    requires Compartment(from, |cells|) && |none| == |cells| && forall i | 0 <= i < |none| :: none[i] == ZeroDelta
    requires Given(cells, none, from, due, shares, given) && due <= Sum6(SideBands(cells, from))
    ensures Sum6(given) == due
  {
    var bands := SideBands(cells, from);
    FairHeld(bands, due, shares);
    forall s | 0 <= s < 6 ensures given[s] == shares[s] {
      HeldThere(cells, none, from, s);
      hide Available, SideBands, TakenFairly, Sum6;
    }
    hide Given, SideBands;
  }

  lemma HeldThere(cells: seq<Cell>, none: seq<Delta>, from: Side, s: nat)
    requires Compartment(from, |cells|) && |none| == |cells| && none[from.cell] == ZeroDelta && s < 6
    ensures Available(cells, none, from.cell, from.band + s) == SideBands(cells, from)[s]
  {
  }

  lemma FairHeld(source: Six, units: nat, out: Six)
    requires TakenFairly(source, units, out) && units <= Sum6(source)
    ensures Sum6(out) == units && forall s | 0 <= s < 6 :: out[s] <= source[s]
  {
    hide Sum6, Share;
  }

  // ----- whole cells -----

  /** One edge of a cell is done: by the lower of its two cells, as `EdgeMoves` says; the higher one leaves it alone. */
  ghost predicate EdgeDone(planet: Planet, cells: seq<Cell>, before: Work, after: Work, index: nat,
                           direction: Direction)
    requires |planet.controls| == |cells| == |before.delta| && index < |cells|
             && planet.step(index, direction).0 < |cells|
  {
    var other, c := planet.step(index, direction).0, Conductance(planet, index, direction);
    if other <= index then after == before
    else
      var carried := AmbientCarry(planet, cells, index, other, c, before.remainder);
      var d := DrossConductance(planet, index, other, c);
      && (exists shares, given :: AmbientPart(planet, cells, before, after.delta, index, other, c, shares, given))
      && (exists shares, foul ::
            DrossPart(planet, cells, Work(before.delta, carried), after.delta, index, other, d, shares, foul))
      && after.remainder == DrossCarry(planet, cells, index, other, d, carried)
  }

  lemma EdgeIsDone(planet: Planet, cells: seq<Cell>, step: nat, work: Work, index: nat, direction: Direction)
    requires SoundFlux(cells, work.delta) && |planet.controls| == |cells| == |work.delta| && index < |cells|
    requires planet.step(index, direction).0 < |cells|
    ensures EdgeDone(planet, cells, work, EdgeFlux(planet, cells, step, work, index, direction), index, direction)
    ensures SoundFlux(cells, EdgeFlux(planet, cells, step, work, index, direction).delta)
  {
    hide SoundFlux, AmbientPart, DrossPart, AmbientCarry, DrossCarry, Conductance, DrossConductance, AmbientEdge,
         DrossEdge, EdgeConductivity;
    EdgeSound(planet, cells, step, work, index, direction);
    if index < planet.step(index, direction).0 {
      var shares, given, foulShares, foul := EdgeMoves(planet, cells, step, work, index, direction);
    }
  }

  /** A cell of a pass works its four edges in turn, east, north, west and south, and then exchanges with its depths. */
  lemma CellMoves(planet: Planet, cells: seq<Cell>, step: nat, work: Work, index: nat)
    returns (east: Work, north: Work, west: Work, south: Work)
    requires SoundFlux(cells, work.delta) && OnPlanet(planet, |cells|) && |work.delta| == |cells| && index < |cells|
    ensures |east.delta| == |north.delta| == |west.delta| == |south.delta| == |cells|
    ensures EdgeDone(planet, cells, work, east, index, East) && EdgeDone(planet, cells, east, north, index, North)
    ensures EdgeDone(planet, cells, north, west, index, West) && EdgeDone(planet, cells, west, south, index, South)
    ensures SoundFlux(cells, south.delta)
    ensures CellFlux(planet, cells, step, work, index) == ExchangeFlux(planet, cells, south, index)
  {
    hide SoundFlux, EdgeDone, EdgeFlux, ExchangeFlux;
    east := EdgeFlux(planet, cells, step, work, index, East);
    EdgeIsDone(planet, cells, step, work, index, East);
    north := EdgeFlux(planet, cells, step, east, index, North);
    EdgeIsDone(planet, cells, step, east, index, North);
    west := EdgeFlux(planet, cells, step, north, index, West);
    EdgeIsDone(planet, cells, step, north, index, West);
    south := EdgeFlux(planet, cells, step, west, index, South);
    EdgeIsDone(planet, cells, step, west, index, South);
  }
}
