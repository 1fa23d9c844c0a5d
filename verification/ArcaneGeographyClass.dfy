/** The planetary geography: cells, wakes and the transport pass they share. */
module ArcaneGeographyClass {
  import opened Prelude
  import opened Bands
  import opened Flow
  import opened Transport
  import opened FluxCommit
  import opened Wakes
  import opened GeographySteps

  // ----- the pass -----

  function DirectionAt(k: nat): Direction
    requires k < 4
  {
    if k == 0 then East else if k == 1 then North else if k == 2 then West else South
  }

  ghost function EdgesTo(planet: Planet, cells: seq<Cell>, step: nat, work: Work, index: nat, k: nat): (r: Work)
    requires |work.delta| == |cells| == |planet.controls| && index < |cells| && k <= 4
    requires forall d: Direction :: planet.step(index, d).0 < |cells|
    ensures |r.delta| == |cells|
  {
    if k == 0 then work
    else EdgeFlux(planet, cells, step, EdgesTo(planet, cells, step, work, index, k - 1), index, DirectionAt(k - 1))
  }

  lemma AllEdges(planet: Planet, cells: seq<Cell>, step: nat, work: Work, index: nat)
    requires |work.delta| == |cells| == |planet.controls| && index < |cells|
    requires forall d: Direction :: planet.step(index, d).0 < |cells|
    ensures ExchangeFlux(planet, cells, EdgesTo(planet, cells, step, work, index, 4), index)
            == CellFlux(planet, cells, step, work, index)
  {
    hide EdgeFlux, ExchangeFlux;
    assert EdgesTo(planet, cells, step, work, index, 1) == EdgeFlux(planet, cells, step, work, index, East);
    assert EdgesTo(planet, cells, step, work, index, 2)
        == EdgeFlux(planet, cells, step, EdgesTo(planet, cells, step, work, index, 1), index, North);
    assert EdgesTo(planet, cells, step, work, index, 3)
        == EdgeFlux(planet, cells, step, EdgesTo(planet, cells, step, work, index, 2), index, West);
  }

  lemma NoEdges(planet: Planet, cells: seq<Cell>, step: nat, work: Work, index: nat)
    requires |work.delta| == |cells| == |planet.controls| && index < |cells|
    requires forall d: Direction :: planet.step(index, d).0 < |cells|
    ensures EdgesTo(planet, cells, step, work, index, 0) == work
  {
  }

  lemma NextEdge(planet: Planet, cells: seq<Cell>, step: nat, work: Work, index: nat, k: nat)
    requires |work.delta| == |cells| == |planet.controls| && index < |cells| && k < 4
    requires forall d: Direction :: planet.step(index, d).0 < |cells|
    ensures EdgesTo(planet, cells, step, work, index, k + 1)
            == EdgeFlux(planet, cells, step, EdgesTo(planet, cells, step, work, index, k), index, DirectionAt(k))
  {
    hide EdgeFlux, DirectionAt;
  }

  lemma ContributeIs(planet: Planet, cells: seq<Cell>, step: nat, before: Progress, index: nat)
    requires OnPlanet(planet, |cells|) && index < |cells| == |before.delta| == |before.remainders|
    ensures var work := CellFlux(planet, cells, step, Work(before.delta, before.remainders[index]), index);
            ContributeOne(planet, cells, step, before, index)
            == Progress(work.delta, before.remainders[index := Clamp(work.remainder)])
  {
    hide CellFlux, Clamp;
  }

  class TransportPass {
    const targetStep: nat
    var cursor: nat
    var delta: seq<Delta>
    var remainders: seq<int>

    constructor (targetStep: nat)
      ensures this.targetStep == targetStep && cursor == 0 && delta == [] && remainders == []
    {
      this.targetStep := targetStep;
      cursor, delta, remainders := 0, [], [];
    }

    /** Move up to six bands, never taking a band below what is left of it. */
    method AddTransfer(cells: seq<Cell>, from: nat, p: nat, to: nat, q: nat, wanted: Six) returns (total: nat)
      requires from < |cells| == |delta| && to < |cells| && p <= 12 && q <= 12
      modifies this`delta
      ensures delta == TransferBands(cells, old(delta), from, p, to, q, wanted, 6)
      ensures total == TransferTotal(cells, old(delta), from, p, to, q, wanted, 6)
    {
      hide Held, Debited;
      total := 0;
      for slot := 0 to 6
        invariant delta == TransferBands(cells, old(delta), from, p, to, q, wanted, slot)
        invariant total == TransferTotal(cells, old(delta), from, p, to, q, wanted, slot)
      {
        var debited := Debited(delta[from], p + slot);
        var units := Min(wanted[slot], Max(Held(cells[from], p + slot) - debited, 0));
        delta := Change(delta, from, p + slot, -(units as int));
        delta := Change(delta, to, q + slot, units);
        total := Min(total + units, U16_MAX);
      }
    }

    /** Trade equal amounts of two resonances across an edge when both sides come closer to their baseline. */
    method AddResonanceSwap(planet: Planet, cells: seq<Cell>, first: nat, second: nat, conductivity: nat)
      requires first < |cells| == |delta| == |planet.controls| && second < |cells|
      modifies this`delta
      ensures delta == SwapFlux(planet, cells, targetStep, old(delta), first, second, conductivity)
    {
      if conductivity < 64 || !planet.gate(targetStep % 0x1_0000_0000, Xor(first, second)) {
        return;
      }
      var a, b := cells[first].ambient, cells[second].ambient;
      var baseA, baseB := planet.controls[first].baseline, planet.controls[second].baseline;
      BestSwapSlots(a, baseA, b, baseB);
      var best := ChooseSwap(a, baseA, b, baseB);
      hide BestSwap, Unspent, Shift;
      if best.None? {
        return;
      }
      var swap := best.value;
      var units := SwapUnits(cells, delta, first, second, swap, conductivity);
      if units == 0 {
        NoTrade(delta, first, second, swap);
        return;
      }
      delta := Shift(delta, first, AMBIENT + swap.fromA, second, AMBIENT + swap.fromA, units);
      delta := Shift(delta, second, AMBIENT + swap.fromB, first, AMBIENT + swap.fromB, units);
    }

    /** Flow between two compartments along a gradient the caller has judged steeper. */
    method AddFlow(cells: seq<Cell>, from: Side, to: Side, conductivity: nat, divisor: nat, rotation: nat,
                   remainder: int)
      returns (total: nat, left: int)
      requires |delta| == |cells| && Compartment(from, |cells|) && Compartment(to, |cells|)
      modifies this`delta
      ensures Work(delta, left) == Pour(cells, Work(old(delta), remainder), from, to, conductivity, divisor, rotation)
      ensures total == PouredUnits(cells, Work(old(delta), remainder), from, to, conductivity, divisor, rotation)
    {
      hide FluxOf, Proportional, TakenFairly, TransferBands, TransferTotal;
      var units;
      units, left := BoundedFlow(Sum6(SideBands(cells, from)), from.capacity, Sum6(SideBands(cells, to)), to.capacity,
                                 conductivity, divisor, remainder);
      var wanted := TakeProportional(SideBands(cells, from), units, rotation);
      total := AddTransfer(cells, from.cell, from.band, to.cell, to.band, wanted);
    }

    method AddEdge(planet: Planet, cells: seq<Cell>, index: nat, direction: Direction, remainder: int)
      returns (left: int)
      requires |delta| == |cells| == |planet.controls| && index < |cells| && planet.step(index, direction).0 < |cells|
      modifies this`delta
      ensures Work(delta, left) == EdgeFlux(planet, cells, targetStep, Work(old(delta), remainder), index, direction)
    {
      hide Pour, PouredUnits, SwapFlux, Steeper, EdgeConductivity, DrossConductivity, Xor;
      var other := planet.step(index, direction).0;
      left := remainder;
      if index >= other {
        return;
      }
      var conductivity := EdgeConductivity(planet, index, direction);
      var from, to := AmbientSide(planet, index), AmbientSide(planet, other);
      if !Steeper(planet, cells, from, to) {
        from, to := to, from;
      }
      var moved;
      moved, left := AddFlow(cells, from, to, conductivity, 16, index + other, left);
      if moved != 0 {
        AddResonanceSwap(planet, cells, index, other, conductivity);
      }
      assert Work(delta, left)
             == AmbientEdge(planet, cells, targetStep, Work(old(delta), remainder), index, other, conductivity);
      hide AmbientEdge;
      from, to := DrossSide(planet, index), DrossSide(planet, other);
      if !Steeper(planet, cells, from, to) {
        from, to := to, from;
      }
      moved, left :=
        AddFlow(cells, from, to, DrossConductivity(planet, index, other, conductivity), 96, Xor(index, other), left);
    }

    /** Deep and surface trade inside one cell, down whichever gradient there is. */
    method AddExchange(planet: Planet, cells: seq<Cell>, index: nat, remainder: int) returns (left: int)
      requires |delta| == |cells| == |planet.controls| && index < |cells|
      modifies this`delta
      ensures Work(delta, left) == ExchangeFlux(planet, cells, Work(old(delta), remainder), index)
    {
      hide Pour, Steeper;
      left := remainder;
      var deep, ambient := DeepSide(planet, index), AmbientSide(planet, index);
      var exchange := planet.controls[index].exchange;
      var moved;
      if Steeper(planet, cells, deep, ambient) {
        moved, left := AddFlow(cells, deep, ambient, exchange, 32, index, remainder);
      } else if Steeper(planet, cells, ambient, deep) {
        moved, left := AddFlow(cells, ambient, deep, exchange, 32, index, remainder);
      }
    }

    /** One cell's contribution: its upward edges, then the exchange with its own depths. */
    method ComputeCellFlux(planet: Planet, cells: seq<Cell>, index: nat)
      requires OnPlanet(planet, |cells|) && index < |cells| == |delta| == |remainders|
      modifies this`delta, this`remainders
      ensures Progress(delta, remainders)
              == ContributeOne(planet, cells, targetStep, Progress(old(delta), old(remainders)), index)
    {
      assert |planet.controls| == |cells| && forall d: Direction :: planet.step(index, d).0 < |cells|;
      hide *;
      ghost var start := Work(delta, remainders[index]);
      ContributeIs(planet, cells, targetStep, Progress(delta, remainders), index);
      NoEdges(planet, cells, targetStep, start, index);
      var remainder := remainders[index];
      for k := 0 to 4
        invariant |delta| == |cells| && remainders == old(remainders)
        invariant Work(delta, remainder) == EdgesTo(planet, cells, targetStep, start, index, k)
      {
        NextEdge(planet, cells, targetStep, start, index, k);
        remainder := AddEdge(planet, cells, index, DirectionAt(k), remainder);
      }
      AllEdges(planet, cells, targetStep, start, index);
      remainder := AddExchange(planet, cells, index, remainder);
      remainders := remainders[index := Clamp(remainder)];
    }

    /** Where the pass stands after `work` cells have been prepared or computed. */
    ghost predicate At(planet: Planet, cells: seq<Cell>, work: nat)
      reads this
      requires OnPlanet(planet, |cells|) && work <= 2 * |cells|
    {
      if work < |cells| then
        && cursor == 0 && delta == seq(work, _ => ZeroDelta) && |remainders| == work
        && forall i | 0 <= i < work :: remainders[i] == Max(cells[i].remainder, 0)
      else
        cursor == work - |cells| && Progress(delta, remainders) == FluxPrefix(planet, cells, targetStep, work - |cells|)
    }
  }

  lemma NoTrade(delta: seq<Delta>, first: nat, second: nat, swap: Swap)
    requires first < |delta| && second < |delta| && swap.fromA < 6 && swap.fromB < 6
    ensures Trade(delta, first, second, swap, 0) == delta
  {
    ShiftNothing(delta, first, AMBIENT + swap.fromA, second, AMBIENT + swap.fromA);
    ShiftNothing(delta, second, AMBIENT + swap.fromB, first, AMBIENT + swap.fromB);
    hide Shift;
  }

  lemma ShiftNothing(delta: seq<Delta>, from: nat, p: nat, to: nat, q: nat)
    requires from < |delta| && to < |delta| && p < 18 && q < 18
    ensures Shift(delta, from, p, to, q, 0) == delta
  {
    ChangeNothing(delta, from, p);
    ChangeNothing(delta, to, q);
  }

  lemma ChangeNothing(delta: seq<Delta>, i: nat, band: nat)
    requires i < |delta| && band < 18
    ensures Change(delta, i, band, 0) == delta
  {
    assert delta[i][band := delta[i][band]] == delta[i];
  }

  /** The best trade over all ordered pairs of resonances. */
  method ChooseSwap(a: Six, baseA: Six, b: Six, baseB: Six) returns (best: Option<Swap>)
    ensures best == BestSwap(a, baseA, b, baseB, 36)
  {
    hide Deviation;
    best := None;
    for fromA := 0 to 6
      invariant best == BestSwap(a, baseA, b, baseB, 6 * fromA)
    {
      var excess, need := Deviation(a, baseA, fromA), -Deviation(b, baseB, fromA);
      if excess <= 0 || need <= 0 {
        NothingToTrade(a, baseA, b, baseB, fromA, 6);
      } else {
        for fromB := 0 to 6
          invariant best == BestSwap(a, baseA, b, baseB, 6 * fromA + fromB)
        {
          var score := SwapScore(a, baseA, b, baseB, fromA, fromB);
          BestSwapStep(a, baseA, b, baseB, fromA, fromB);
          if fromA != fromB && score > ScoreOf(best) {
            best := Some(Swap(score, fromA, fromB));
          }
        }
      }
    }
  }

  lemma BestSwapStep(a: Six, baseA: Six, b: Six, baseB: Six, fromA: nat, fromB: nat)
    requires fromA < 6 && fromB < 6
    ensures var best := BestSwap(a, baseA, b, baseB, 6 * fromA + fromB);
            var score := SwapScore(a, baseA, b, baseB, fromA, fromB);
            BestSwap(a, baseA, b, baseB, 6 * fromA + fromB + 1)
            == if score > ScoreOf(best) then Some(Swap(score, fromA, fromB)) else best
  {
    hide *;
    BestSwapUnfold(a, baseA, b, baseB, 6 * fromA + fromB + 1, fromA, fromB);
  }

  lemma BestSwapUnfold(a: Six, baseA: Six, b: Six, baseB: Six, k: nat, fromA: nat, fromB: nat)
    requires fromA < 6 && fromB < 6 && k == 6 * fromA + fromB + 1
    ensures var best := BestSwap(a, baseA, b, baseB, k - 1);
            var score := SwapScore(a, baseA, b, baseB, fromA, fromB);
            BestSwap(a, baseA, b, baseB, k) == if score > ScoreOf(best) then Some(Swap(score, fromA, fromB)) else best
  {
    assert (k - 1) / 6 == fromA && (k - 1) % 6 == fromB;
    hide SwapScore, ScoreOf;
  }

  /** A resonance that one side does not have to spare, or the other does not lack, is never traded. */
  lemma {:induction false} NothingToTrade(a: Six, baseA: Six, b: Six, baseB: Six, fromA: nat, n: nat)
    requires fromA < 6 && n <= 6 && (Deviation(a, baseA, fromA) <= 0 || -Deviation(b, baseB, fromA) <= 0)
    ensures BestSwap(a, baseA, b, baseB, 6 * fromA + n) == BestSwap(a, baseA, b, baseB, 6 * fromA)
  {
    if n > 0 {
      hide *;
      NothingToTrade(a, baseA, b, baseB, fromA, n - 1);
      SkipTrade(a, baseA, b, baseB, fromA, n - 1, 6 * fromA + n);
    }
  }

  lemma SkipTrade(a: Six, baseA: Six, b: Six, baseB: Six, fromA: nat, fromB: nat, k: nat)
    requires fromA < 6 && fromB < 6 && k == 6 * fromA + fromB + 1
    requires Deviation(a, baseA, fromA) <= 0 || -Deviation(b, baseB, fromA) <= 0
    ensures BestSwap(a, baseA, b, baseB, k) == BestSwap(a, baseA, b, baseB, k - 1)
  {
    hide *;
    BestSwapUnfold(a, baseA, b, baseB, k, fromA, fromB);
    NoScore(a, baseA, b, baseB, fromA, fromB);
  }

  lemma NoScore(a: Six, baseA: Six, b: Six, baseB: Six, fromA: nat, fromB: nat)
    requires fromA < 6 && fromB < 6 && (Deviation(a, baseA, fromA) <= 0 || -Deviation(b, baseB, fromA) <= 0)
    ensures SwapScore(a, baseA, b, baseB, fromA, fromB) <= 0
  {
    hide Deviation;
  }

  // ----- fouling -----

  /** A cell after the first `k` bands of `moved` turned from ambient Current to dross, or stopped at a full band. */
  function FoulTo(cell: Cell, moved: Six, k: nat): Partly
    requires k <= 6 && forall s | 0 <= s < 6 :: moved[s] <= cell.ambient[s]
  {
    if k == 0 then Partly(cell, true)
    else
      var before := FoulTo(cell, moved, k - 1);
      if before.ok then FoulBand(before.cell, moved, k - 1) else before
  }

  function FoulBand(cell: Cell, moved: Six, s: nat): Partly
    requires s < 6
  {
    var less := cell.(ambient := cell.ambient[s := Saturating(cell.ambient[s], moved[s])]);
    if cell.dross[s] + moved[s] <= U16_MAX then Partly(less.(dross := cell.dross[s := cell.dross[s] + moved[s]]), true)
    else Partly(less, false)
  }

  function FouledUnits(cell: Cell, units: nat): nat {
    Min(units, Min(Sum6(cell.ambient), U16_MAX))
  }

  function FouledBands(cell: Cell, units: nat, rotation: nat): (moved: Six)
    ensures forall s | 0 <= s < 6 :: moved[s] <= cell.ambient[s]
  {
    FouledFairly(cell, units, rotation);
    Proportional(cell.ambient, FouledUnits(cell, units), rotation)
  }

  lemma FouledFairly(cell: Cell, units: nat, rotation: nat)
    ensures TakenFairly(cell.ambient, FouledUnits(cell, units),
                        Proportional(cell.ambient, FouledUnits(cell, units), rotation))
    ensures forall s | 0 <= s < 6 ::
              Proportional(cell.ambient, FouledUnits(cell, units), rotation)[s] <= cell.ambient[s]
  {
    hide *;
    ProportionalIsFair(cell.ambient, FouledUnits(cell, units), rotation);
    FairTakesHeld(cell.ambient, FouledUnits(cell, units),
                  Proportional(cell.ambient, FouledUnits(cell, units), rotation));
  }

  ghost predicate Fouled(cell: Cell, moved: Six, k: nat, after: Cell) {
    forall s | 0 <= s < 6 ::
      && after.ambient[s] as int == cell.ambient[s] as int - (if s < k then moved[s] as int else 0)
      && after.dross[s] == cell.dross[s] + if s < k then moved[s] else 0
  }

  lemma FoulOne(cell: Cell, moved: Six, k: nat, after: Cell)
    requires k < 6 && Fouled(cell, moved, k, after) && moved[k] <= cell.ambient[k]
    ensures FoulBand(after, moved, k).ok <==> cell.dross[k] + moved[k] <= U16_MAX
    ensures FoulBand(after, moved, k).ok ==> Fouled(cell, moved, k + 1, FoulBand(after, moved, k).cell)
  {
  }

  lemma {:induction false} FoulToExact(cell: Cell, moved: Six, k: nat)
    requires k <= 6 && forall s | 0 <= s < 6 :: moved[s] <= cell.ambient[s]
    ensures FoulTo(cell, moved, k).ok <==> forall s | 0 <= s < k :: cell.dross[s] + moved[s] <= U16_MAX
    ensures FoulTo(cell, moved, k).ok ==> Fouled(cell, moved, k, FoulTo(cell, moved, k).cell)
  {
    if k > 0 {
      FoulToExact(cell, moved, k - 1);
      var before := FoulTo(cell, moved, k - 1);
      if before.ok {
        FoulOne(cell, moved, k - 1, before.cell);
      }
      hide Fouled, FoulBand;
    }
  }

  /** A full band is found only after its Current has been taken: those units are in neither pool. */
  lemma {:induction false} FailedFoulLoses(cell: Cell, moved: Six, k: nat)
    requires k <= 6 && forall s | 0 <= s < 6 :: moved[s] <= cell.ambient[s]
    requires !FoulTo(cell, moved, k).ok
    ensures exists s :: 0 <= s < k && U16_MAX < cell.dross[s] + moved[s]
              && Sum6(FoulTo(cell, moved, k).cell.ambient) + Sum6(FoulTo(cell, moved, k).cell.dross) + moved[s]
                 == Sum6(cell.ambient) + Sum6(cell.dross)
  {
    var before := FoulTo(cell, moved, k - 1);
    if before.ok {
      var s := k - 1;
      FoulToExact(cell, moved, s);
      FoulSums(cell, moved, s, before.cell);
      Put6(before.cell.ambient, s, before.cell.ambient[s] - moved[s]);
      assert U16_MAX < cell.dross[s] + moved[s];
      hide Sum6;
    } else {
      FailedFoulLoses(cell, moved, k - 1);
      hide Sum6;
    }
  }

  lemma FairTakesHeld(source: Six, units: nat, out: Six)
    requires TakenFairly(source, units, out)
    ensures forall s | 0 <= s < 6 :: out[s] <= source[s]
  {
    hide Share;
  }

  /** Fouling keeps the cell's ambient Current and dross together exactly when every dross band has room. */
  lemma FoulKeepsIff(cell: Cell, moved: Six)
    requires Representable(cell) && forall s | 0 <= s < 6 :: moved[s] <= cell.ambient[s]
    ensures Sum6(FoulTo(cell, moved, 6).cell.ambient) + Sum6(FoulTo(cell, moved, 6).cell.dross)
            == Sum6(cell.ambient) + Sum6(cell.dross)
            <==> forall s | 0 <= s < 6 :: cell.dross[s] + moved[s] <= U16_MAX
  {
    hide FoulTo, FoulBand;
    FoulToExact(cell, moved, 6);
    if FoulTo(cell, moved, 6).ok {
      FoulSums(cell, moved, 6, FoulTo(cell, moved, 6).cell);
    } else {
      FailedFoulLoses(cell, moved, 6);
      forall s | 0 <= s < 6 ensures cell.dross[s] <= U16_MAX {
        assert Held(cell, DROSS + s) <= U16_MAX;
      }
      hide Sum6, Fouled, Representable;
    }
  }

  /** Five units on their way into a full band are gone. */
  lemma FullBandLosesUnits(rotation: nat) returns (cell: Cell)
    ensures Representable(cell) && var moved := FouledBands(cell, 5, rotation);
            Sum6(FoulTo(cell, moved, 6).cell.ambient) + Sum6(FoulTo(cell, moved, 6).cell.dross)
            == Sum6(cell.ambient) + Sum6(cell.dross) - 5
  {
    cell := Cell(Zero6, Zero6[0 := 5], Zero6[0 := U16_MAX], 0, 0, 0, 0);
    assert Representable(cell) && FouledUnits(cell, 5) == 5;
    FouledFairly(cell, 5, rotation);
    var moved := FouledBands(cell, 5, rotation);
    assert Sum6(moved) == 5 by { hide Share, FoulTo; }
    assert moved[0] == 5 && forall s | 1 <= s < 6 :: moved[s] == 0;
    hide TakenFairly, Proportional, FouledBands;
    FailedFoulLoses(cell, moved, 6) by { FoulToExact(cell, moved, 6); }
  }

  lemma FoulSums(cell: Cell, moved: Six, k: nat, after: Cell)
    requires k <= 6 && Fouled(cell, moved, k, after)
    ensures Sum6(after.ambient) + Sum6(after.dross) == Sum6(cell.ambient) + Sum6(cell.dross)
  {
  }

  // ----- lifting a wake -----

  function LiftedCell(cell: Cell, charge: Six, dross: Six): Cell {
    cell.(ambient := SixMinus(cell.ambient, charge), dross := SixMinus(cell.dross, dross))
  }

  lemma LiftedCellIs(cell: Cell, charge: Six, dross: Six)
    ensures var after := LiftedCell(cell, charge, dross);
            after.ambient == SixMinus(cell.ambient, charge) && after.dross == SixMinus(cell.dross, dross)
  {
  }

  /** The geography with a new wake lifted out of the first cell of its path. */
  function WakeLifted(g: Geo, wake: Wake): Geo
    requires wake.path != [] && wake.path[0] < |g.cells|
  {
    var at := wake.path[0];
    g.(cells := g.cells[at := LiftedCell(g.cells[at], wake.charge, wake.dross).(wakeId := Min(wake.id, U32_MAX))],
       wakes := g.wakes + [wake], sites := g.sites + [Site(wake.siteId, true)])
  }

  function Liftable(held: Six, units: nat): nat {
    Min(units, Min(Sum6(held), U16_MAX))
  }

  ghost predicate NewWake(wake: Wake, cell: Cell, charge: nat, dross: nat) {
    && wake.cursor == 0
    && TakenFairly(cell.ambient, Liftable(cell.ambient, charge), wake.charge)
    && TakenFairly(cell.dross, Liftable(cell.dross, dross), wake.dross)
  }

  lemma LiftedBands(cell: Cell, wake: Wake, charge: nat, dross: nat)
    requires NewWake(wake, cell, charge, dross)
    ensures forall s | 0 <= s < 6 ::
              && SixMinus(cell.ambient, wake.charge)[s] + wake.charge[s] == cell.ambient[s]
              && SixMinus(cell.dross, wake.dross)[s] + wake.dross[s] == cell.dross[s]
  {
    forall s | 0 <= s < 6 ensures wake.charge[s] <= cell.ambient[s] && wake.dross[s] <= cell.dross[s] {
      hide Share;
    }
    hide TakenFairly;
  }

  /** Lifting a wake keeps the planet's Current and dross, and the wake starts on its path. */
  lemma WakeLiftedConserves(planet: Planet, g: Geo, wake: Wake, charge: nat, dross: nat)
    requires Sound(planet, g) && wake.path != [] && wake.path[0] < |g.cells| && OnMap(wake, |g.cells|)
    requires NewWake(wake, g.cells[wake.path[0]], charge, dross)
    ensures Sound(planet, WakeLifted(g, wake)) && SamePlanet(g, WakeLifted(g, wake))
  {
    hide *;
    LiftedSound(planet, g, wake, charge, dross);
    forall slot | 0 <= slot < 6
      ensures PlanetCurrent(WakeLifted(g, wake), slot) == PlanetCurrent(g, slot)
      ensures PlanetDross(WakeLifted(g, wake), slot) == PlanetDross(g, slot)
    {
      LiftedTotals(g, wake, charge, dross, slot);
    }
    SlotBySlot(g, WakeLifted(g, wake));
  }

  lemma SlotBySlot(before: Geo, after: Geo)
    requires forall slot | 0 <= slot < 6 ::
               PlanetCurrent(after, slot) == PlanetCurrent(before, slot)
                 && PlanetDross(after, slot) == PlanetDross(before, slot)
    ensures SamePlanet(before, after)
  {
    hide PlanetCurrent, PlanetDross;
  }

  lemma LiftedSound(planet: Planet, g: Geo, wake: Wake, charge: nat, dross: nat)
    requires Sound(planet, g) && wake.path != [] && wake.path[0] < |g.cells| && OnMap(wake, |g.cells|)
    requires NewWake(wake, g.cells[wake.path[0]], charge, dross)
    ensures Sound(planet, WakeLifted(g, wake))
  {
    var at := wake.path[0];
    assert Representable(g.cells[at]);
    hide OnPlanet, SixMinus, TakenFairly, Representable, OnMap, LiftedCell;
    LiftedRepresentable(g.cells[at], wake,
                        LiftedCell(g.cells[at], wake.charge, wake.dross).(wakeId := Min(wake.id, U32_MAX)));
  }

  lemma LiftedTotals(g: Geo, wake: Wake, charge: nat, dross: nat, slot: nat)
    requires wake.path != [] && wake.path[0] < |g.cells| && slot < 6
    requires NewWake(wake, g.cells[wake.path[0]], charge, dross)
    ensures PlanetCurrent(WakeLifted(g, wake), slot) == PlanetCurrent(g, slot)
    ensures PlanetDross(WakeLifted(g, wake), slot) == PlanetDross(g, slot)
  {
    var at := wake.path[0];
    var after := LiftedCell(g.cells[at], wake.charge, wake.dross).(wakeId := Min(wake.id, U32_MAX));
    LiftedBands(g.cells[at], wake, charge, dross);
    hide SixMinus, NewWake;
    SumSeqPut(g.cells, at, after, HeldOf(DEEP + slot));
    SumSeqPut(g.cells, at, after, HeldOf(AMBIENT + slot));
    SumSeqPut(g.cells, at, after, HeldOf(DROSS + slot));
    SumSeqSnoc(g.wakes, wake, ChargeOf(slot));
    SumSeqSnoc(g.wakes, wake, WakeDrossOf(slot));
  }

  // ----- wakes that fail after lifting -----

  /** What a new wake takes out of its first cell. */
  function LiftCharge(cell: Cell, charge: nat, at: nat): Six {
    Proportional(cell.ambient, Liftable(cell.ambient, charge), at)
  }

  function LiftDross(cell: Cell, dross: nat, at: nat): Six {
    Proportional(cell.dross, Liftable(cell.dross, dross), at + 3)
  }

  /** The geography when the wake ids have run out: the units have left the cell and no wake holds them. */
  function WakeLost(g: Geo, at: nat, charge: nat, dross: nat): Geo
    requires at < |g.cells|
  {
    var cell := g.cells[at];
    g.(cells := g.cells[at := LiftedCell(cell, LiftCharge(cell, charge, at), LiftDross(cell, dross, at))])
  }

  lemma LiftsFairly(cell: Cell, charge: nat, dross: nat, at: nat)
    ensures TakenFairly(cell.ambient, Liftable(cell.ambient, charge), LiftCharge(cell, charge, at))
    ensures TakenFairly(cell.dross, Liftable(cell.dross, dross), LiftDross(cell, dross, at))
    ensures Sum6(LiftCharge(cell, charge, at)) == Liftable(cell.ambient, charge)
    ensures Sum6(LiftDross(cell, dross, at)) == Liftable(cell.dross, dross)
    ensures forall s | 0 <= s < 6 ::
              LiftCharge(cell, charge, at)[s] <= cell.ambient[s] && LiftDross(cell, dross, at)[s] <= cell.dross[s]
  {
    hide Proportional, Share;
    ProportionalIsFair(cell.ambient, Liftable(cell.ambient, charge), at);
    ProportionalIsFair(cell.dross, Liftable(cell.dross, dross), at + 3);
    FairTakesHeld(cell.ambient, Liftable(cell.ambient, charge), LiftCharge(cell, charge, at));
    FairTakesHeld(cell.dross, Liftable(cell.dross, dross), LiftDross(cell, dross, at));
    hide Sum6, FairPart;
  }

  /** A wake that fails for want of an id costs the planet exactly what it lifted, band by band. */
  lemma WakeLostExactly(g: Geo, at: nat, charge: nat, dross: nat, slot: nat)
    requires at < |g.cells| && slot < 6
    ensures PlanetCurrent(WakeLost(g, at, charge, dross), slot)
            == PlanetCurrent(g, slot) - LiftCharge(g.cells[at], charge, at)[slot]
    ensures PlanetDross(WakeLost(g, at, charge, dross), slot)
            == PlanetDross(g, slot) - LiftDross(g.cells[at], dross, at)[slot]
  {
    var cell := g.cells[at];
    LiftsFairly(cell, charge, dross, at);
    hide LiftCharge, LiftDross, TakenFairly, Sum6;
    var after := LiftedCell(cell, LiftCharge(cell, charge, at), LiftDross(cell, dross, at));
    MinusSlot(cell.ambient, LiftCharge(cell, charge, at), slot);
    MinusSlot(cell.dross, LiftDross(cell, dross, at), slot);
    hide SixMinus;
    SumSeqPut(g.cells, at, after, HeldOf(DEEP + slot));
    SumSeqPut(g.cells, at, after, HeldOf(AMBIENT + slot));
    SumSeqPut(g.cells, at, after, HeldOf(DROSS + slot));
  }

  lemma MinusSlot(a: Six, b: Six, slot: nat)
    requires slot < 6 && b[slot] <= a[slot]
    ensures SixMinus(a, b)[slot] == a[slot] - b[slot]
  {
  }

  /** The planet is left whole exactly when there was nothing to lift. */
  lemma WakeLostKeepsIff(g: Geo, at: nat, charge: nat, dross: nat)
    requires at < |g.cells|
    ensures SamePlanet(g, WakeLost(g, at, charge, dross))
            <==> (charge == 0 || Sum6(g.cells[at].ambient) == 0) && (dross == 0 || Sum6(g.cells[at].dross) == 0)
  {
    var lifted, liftedDross := LiftCharge(g.cells[at], charge, at), LiftDross(g.cells[at], dross, at);
    LiftsFairly(g.cells[at], charge, dross, at);
    hide LiftCharge, LiftDross, TakenFairly, PlanetCurrent, PlanetDross, WakeLost;
    forall slot | 0 <= slot < 6
      ensures PlanetCurrent(WakeLost(g, at, charge, dross), slot) == PlanetCurrent(g, slot) - lifted[slot]
      ensures PlanetDross(WakeLost(g, at, charge, dross), slot) == PlanetDross(g, slot) - liftedDross[slot]
    {
      WakeLostExactly(g, at, charge, dross, slot);
    }
    ZeroSum(lifted);
    ZeroSum(liftedDross);
    hide Sum6;
  }

  lemma ZeroSum(s: Six)
    ensures Sum6(s) == 0 <==> forall k | 0 <= k < 6 :: s[k] == 0
  {
  }

  /** One cell with five units, one wake asking for them, no id left: five units of Current are gone. */
  lemma LastWakeLosesUnits()
    ensures var g := Geo([Cell(Zero6, Zero6[0 := 5], Zero6, 0, 0, 0, 0)], [], [], 0, 0, 0);
            PlanetCurrent(WakeLost(g, 0, 5, 0), 0) == PlanetCurrent(g, 0) - 5
  {
    var g := Geo([Cell(Zero6, Zero6[0 := 5], Zero6, 0, 0, 0, 0)], [], [], 0, 0, 0);
    var cell := g.cells[0];
    WakeLostExactly(g, 0, 5, 0, 0);
    LiftsFairly(cell, 5, 0, 0);
    assert Sum6(cell.ambient) == 5 && Liftable(cell.ambient, 5) == 5;
    hide LiftCharge, LiftDross, PlanetCurrent, WakeLost, TakenFairly;
    assert forall s | 1 <= s < 6 :: LiftCharge(cell, 5, 0)[s] == 0;
  }

  lemma LiftedRepresentable(cell: Cell, wake: Wake, after: Cell)
    requires Representable(cell) && after == LiftedCell(cell, wake.charge, wake.dross).(wakeId := Min(wake.id, U32_MAX))
    ensures Representable(after)
  {
    forall band | 0 <= band < 18 ensures Held(after, band) <= U16_MAX {
      assert Held(cell, band) <= U16_MAX;
    }
  }

  // ----- the geography -----

  class ArcaneGeography {
    const planet: Planet
    var cells: seq<Cell>
    var wakes: seq<Wake>
    var sites: seq<Site>
    var completedSteps: nat
    var dynamicTime: nat
    var manifestTime: nat
    var nextWakeId: nat
    var transport: TransportPass?
    ghost var work: nat

    ghost function Value(): Geo
      reads this
    {
      Geo(cells, wakes, sites, completedSteps, dynamicTime, manifestTime)
    }

    ghost predicate Valid()
      reads this, transport
    {
      && Settled(planet, Value())
      && WorkInRange(Value(), work)
      && (transport == null ==> work == 0)
      && (transport != null ==> transport.targetStep == completedSteps + 1 && transport.At(planet, cells, work))
    }

    constructor (planet: Planet, cells: seq<Cell>, sites: seq<Site>)
      requires OnPlanet(planet, |cells|)
      ensures Valid() && Value() == Geo(cells, [], sites, 0, 0, 0) && work == 0 && this.planet == planet
              && nextWakeId == 1
    {
      this.planet, this.cells, this.sites := planet, cells, sites;
      wakes, completedSteps, dynamicTime, manifestTime, nextWakeId := [], 0, 0, 0, 1;
      transport, work := null, 0;
    }

    /** One slice of simulation. Whatever the budgets, the geography changes only when a step completes, and then
        exactly by that step; an overflowing pass has been partly written when it is reported. */
    method AdvanceToward(seconds: nat, budget: nat) returns (r: Result<nat, GeographyError>)
      requires Valid()
      modifies this, transport
      ensures Valid() && nextWakeId == old(nextWakeId)
      ensures var end := Slice(planet, old(Value()), old(work), seconds, budget);
              && Value() == end.geo && work == end.work
              && r == if end.processed.Some? then Ok(end.processed.value) else Err(Corrupt)
    {
      hide OnPlanet, FluxPrefix, CompleteStep, ContributeOne, TransportPass.At;
      if completedSteps >= seconds / STEP_SECONDS {
        manifestTime := seconds;
        return Ok(0);
      }
      if transport == null {
        transport := new TransportPass(completedSteps + 1);
        NewPassAt(transport, planet, cells);
      }
      var pass := transport;
      var n := |cells|;
      PassShape(pass, planet, cells, work);
      if |pass.delta| < n {
        var start := |pass.delta|;
        var end := Min(start + Max(budget, 1), n);
        Prepare(pass, end);
        work := end;
        return Ok(end - start);
      }
      var start := pass.cursor;
      var end := Min(start + Max(budget, 1), n);
      Compute(pass, end);
      work := n + end;
      if end < n {
        return Ok(end - start);
      }
      FinishedPass(pass, planet, cells);
      transport, work := null, 0;
      var done := CloseStep(pass.targetStep, pass.delta, pass.remainders);
      r := if done then Ok(end - start) else Err(Corrupt);
    }

    method Prepare(pass: TransportPass, end: nat)
      requires OnPlanet(planet, |cells|) && |pass.delta| < end <= |cells| && pass.At(planet, cells, |pass.delta|)
      modifies pass`delta, pass`remainders
      ensures pass.At(planet, cells, end) && pass.cursor == 0
    {
      ghost var start := |pass.delta|;
      pass.delta := pass.delta + seq(end - |pass.delta|, _ => ZeroDelta);
      while |pass.remainders| < end
        invariant start <= |pass.remainders| <= end && pass.cursor == 0
        invariant forall i | 0 <= i < |pass.remainders| :: pass.remainders[i] == Max(cells[i].remainder, 0)
        modifies pass`remainders
      {
        pass.remainders := pass.remainders + [Max(cells[|pass.remainders|].remainder, 0)];
      }
      assert pass.delta == seq(end, _ => ZeroDelta);
      if end == |cells| {
        PreparedAt(pass, planet, cells);
      }
    }

    method Compute(pass: TransportPass, end: nat)
      requires OnPlanet(planet, |cells|) && pass.cursor <= end <= |cells|
               && pass.At(planet, cells, |cells| + pass.cursor)
      modifies pass
      ensures pass.At(planet, cells, |cells| + end)
    {
      hide OnPlanet, ContributeOne;
      var index := pass.cursor;
      while index < end
        invariant old(pass.cursor) <= index <= end && pass.cursor == old(pass.cursor)
        invariant Progress(pass.delta, pass.remainders) == FluxPrefix(planet, cells, pass.targetStep, index)
        modifies pass`delta, pass`remainders
      {
        pass.ComputeCellFlux(planet, cells, index);
        FluxPrefixStep(planet, cells, pass.targetStep, index + 1);
        index := index + 1;
      }
      pass.cursor := end;
      ComputedAt(pass, planet, cells, end);
    }

    /** Land a finished pass and let the wakes decay. */
    method CloseStep(step: nat, delta: seq<Delta>, remainders: seq<int>) returns (done: bool)
      requires Settled(planet, Value()) && step == completedSteps + 1
      requires Progress(delta, remainders) == FluxPrefix(planet, cells, step, |cells|)
      modifies this`cells, this`wakes, this`sites, this`completedSteps, this`dynamicTime, this`manifestTime
      ensures StepEnd(Value(), done) == CompleteStep(planet, old(Value()))
      ensures Settled(planet, Value())
    {
      ghost var before := Value();
      hide OnPlanet, FluxPrefix, ApplyFluxTo, AllOnMap, DecayTo, CompleteStep;
      done := ApplyFlux(delta, remainders);
      ghost var landed := cells;
      if !done {
        StepStopped(planet, before, Progress(delta, remainders), landed);
        return;
      }
      DecayWakes();
      DecayedOnMap(landed, before.sites, before.wakes, |before.wakes|);
      StepLanded(planet, before, Progress(delta, remainders), landed, WakeState(cells, wakes, sites));
      completedSteps := step;
      dynamicTime := step * STEP_SECONDS;
      manifestTime := dynamicTime;
    }

    /** Write the deltas cell by cell, band by band; stop at the first band that leaves the 16-bit range. */
    method ApplyFlux(delta: seq<Delta>, remainders: seq<int>) returns (done: bool)
      requires |delta| == |remainders| == |cells|
      modifies this`cells
      ensures Commit(cells, done) == ApplyFluxTo(old(cells), delta, remainders, |old(cells)|)
    {
      hide ApplyCell;
      for i := 0 to |cells|
        invariant |cells| == |delta|
        invariant Commit(cells, true) == ApplyFluxTo(old(cells), delta, remainders, i)
      {
        var cell, ok := ApplyOneCell(cells[i], delta[i], remainders[i]);
        cells := cells[i := cell];
        if !ok {
          FailedStays(old(cells), delta, remainders, i + 1, |delta|);
          return false;
        }
      }
      done := true;
    }

    method DecayWakes()
      requires AllOnMap(wakes, |cells|)
      modifies this`cells, this`wakes, this`sites
      ensures WakeState(cells, wakes, sites) == DecayTo(old(cells), old(sites), old(wakes), |old(wakes)|)
    {
      hide Received, Kept, Deactivate;
      var retained: seq<Wake> := [];
      for i := 0 to |wakes|
        invariant wakes == old(wakes) && |cells| == |old(cells)|
        invariant WakeState(cells, retained, sites) == DecayTo(old(cells), old(sites), wakes, i)
      {
        var wake := wakes[i];
        assert OnMap(wake, |cells|);
        if wake.cursor < |wake.path| {
          var at := wake.path[wake.cursor];
          var cell, left := ReleaseInto(cells[at], wake);
          if !Spent(left) {
            cells := cells[at := cell];
            retained := retained + [left];
          } else {
            cells := cells[at := cell.(wakeId := 0)];
            sites := DeactivateFirst(sites, wake.siteId);
          }
        }
      }
      wakes := retained;
    }

    /** Turn part of a cell's ambient Current to dross. Any pass in progress is discarded. It succeeds exactly when
        every band has room; otherwise the bands before the full one have been turned and that one only taken. */
    method FoulAmbient(index: nat, units: nat) returns (r: Result<nat, GeographyError>)
      requires Valid() && index < |cells|
      modifies this
      ensures Valid() && work == 0 && transport == null && nextWakeId == old(nextWakeId)
      ensures var cell := old(cells[index]);
              var moved := FouledBands(cell, units, Xor(index, old(completedSteps)));
              && Value() == old(Value()).(cells := old(cells)[index := FoulTo(cell, moved, 6).cell])
              && (r.Ok? <==> forall s | 0 <= s < 6 :: cell.dross[s] + moved[s] <= U16_MAX)
              && (r.Ok? ==> r.value == FouledUnits(cell, units) && Fouled(cell, moved, 6, cells[index]))
    {
      hide OnPlanet, AllOnMap, Proportional, FoulTo, Sum6, Xor, TakenFairly;
      transport, work := null, 0;
      var cell := cells[index];
      FouledFairly(cell, units, Xor(index, completedSteps));
      var moved := TakeProportional(cells[index].ambient, FouledUnits(cells[index], units), Xor(index, completedSteps));
      hide FouledBands;
      FoulToExact(cell, moved, 6);
      var done := FoulBands(index, moved);
      hide Fouled;
      r := if done then Ok(FouledUnits(cell, units)) else Err(Overflow);
    }

    /** Turn `moved` band by band; a full band is noticed only after its Current was taken. */
    method FoulBands(index: nat, moved: Six) returns (done: bool)
      requires index < |cells| && forall s | 0 <= s < 6 :: moved[s] <= cells[index].ambient[s]
      modifies this`cells
      ensures |cells| == |old(cells)| && Partly(cells[index], done) == FoulTo(old(cells)[index], moved, 6)
      ensures cells == old(cells)[index := cells[index]]
    {
      hide FoulBand;
      ghost var cell := cells[index];
      for slot := 0 to 6
        invariant |cells| == |old(cells)| && cells == old(cells)[index := cells[index]]
        invariant FoulTo(cell, moved, slot) == Partly(cells[index], true)
      {
        var next := FoulBand(cells[index], moved, slot);
        cells := cells[index := next.cell];
        if !next.ok {
          FoulStays(cell, moved, slot + 1, 6);
          return false;
        }
      }
      done := true;
    }

    /** Lift Current and dross out of the first cell of a path into a wake that will carry them along it. Only the
        exhaustion of wake ids fails after the units have been lifted, and then they are nowhere. */
    method BeginWake(path: seq<nat>, charge: nat, dross: nat, decay: nat, siteId: nat)
      returns (r: Result<nat, GeographyError>)
      requires Valid() && nextWakeId <= U64_MAX
      modifies this
      ensures Valid() && work == 0 && transport == null
      ensures r.Ok? <==>
                && path != [] && (forall k | 0 <= k < |path| :: path[k] < |cells|)
                && decay != 0 && old(nextWakeId) < U64_MAX
      ensures r.Err? && r.error == Corrupt ==> Value() == old(Value()) && nextWakeId == old(nextWakeId)
      ensures r.Err? && r.error != Corrupt ==>
                && r.error == Overflow && old(nextWakeId) == nextWakeId == U64_MAX
                && path != [] && path[0] < |old(cells)| && Value() == WakeLost(old(Value()), path[0], charge, dross)
      ensures r.Ok? ==>
                && |wakes| == |old(wakes)| + 1 && nextWakeId == old(nextWakeId) + 1
                && var wake := wakes[|old(wakes)|];
                   && wake.id == r.value == old(nextWakeId)
                   && wake.path == path && wake.decay == decay && wake.siteId == siteId
                   && NewWake(wake, old(cells)[path[0]], charge, dross)
                   && wake.charge == LiftCharge(old(cells)[path[0]], charge, path[0])
                   && wake.dross == LiftDross(old(cells)[path[0]], dross, path[0])
                   && Value() == WakeLifted(old(Value()), wake)
                   && wakes == old(wakes) + [wake] && sites == old(sites) + [Site(siteId, true)]
                   && |cells| == |old(cells)| && cells[path[0]].wakeId == Min(wake.id, U32_MAX)
                   && (forall i | 0 <= i < |cells| && i != path[0] :: cells[i] == old(cells)[i])
                   && forall s | 0 <= s < 6 ::
                        && cells[path[0]].ambient[s] == old(cells)[path[0]].ambient[s] - wake.charge[s]
                        && cells[path[0]].dross[s] == old(cells)[path[0]].dross[s] - wake.dross[s]
    {
      hide OnPlanet, TakenFairly, LiftCharge, LiftDross, LiftedCell, Liftable, AllOnMap, SixMinus, Min, Sum6;
      transport, work := null, 0;
      var inside := InsideMap(path, |cells|);
      if path == [] || !inside || decay == 0 {
        return Err(Corrupt);
      }
      var at := path[0];
      ghost var cell := cells[at];
      var lifted, liftedDross := Lift(at, charge, dross);
      hide NewWake;
      if nextWakeId == U64_MAX {
        return Err(Overflow);
      }
      hide WakeLost;
      var id := nextWakeId;
      var wake := Wake(id, siteId, path, 0, lifted, liftedDross, decay);
      nextWakeId := id + 1;
      sites := sites + [Site(siteId, true)];
      cells := cells[at := cells[at].(wakeId := Min(id, U32_MAX))];
      wakes := wakes + [wake];
      MoreOnMap(old(wakes), wake, |cells|);
      LiftedFairly(wake, cell, charge, dross);
      LiftedBands(cell, wake, charge, dross);
      LiftedCellIs(cell, lifted, liftedDross);
      r := Ok(id);
    }

    /** Take the charge and dross of a new wake out of its first cell. */
    method Lift(at: nat, charge: nat, dross: nat) returns (lifted: Six, liftedDross: Six)
      requires at < |cells|
      modifies this`cells
      ensures TakenFairly(old(cells)[at].ambient, Liftable(old(cells)[at].ambient, charge), lifted)
      ensures TakenFairly(old(cells)[at].dross, Liftable(old(cells)[at].dross, dross), liftedDross)
      ensures lifted == LiftCharge(old(cells)[at], charge, at) && liftedDross == LiftDross(old(cells)[at], dross, at)
      ensures cells == old(cells)[at := LiftedCell(old(cells)[at], lifted, liftedDross)]
    {
      hide TakenFairly, Proportional, Sum6, LiftedCell;
      var cell := cells[at];
      lifted := TakeProportional(cell.ambient, Liftable(cell.ambient, charge), at);
      liftedDross := TakeProportional(cell.dross, Liftable(cell.dross, dross), at + 3);
      cells := cells[at := LiftedCell(cell, lifted, liftedDross)];
    }
  }

  lemma LiftedFairly(wake: Wake, cell: Cell, charge: nat, dross: nat)
    requires wake.cursor == 0
    requires TakenFairly(cell.ambient, Liftable(cell.ambient, charge), wake.charge)
    requires TakenFairly(cell.dross, Liftable(cell.dross, dross), wake.dross)
    ensures NewWake(wake, cell, charge, dross)
  {
  }

  lemma MoreOnMap(wakes: seq<Wake>, wake: Wake, n: nat)
    requires AllOnMap(wakes, n) && OnMap(wake, n)
    ensures AllOnMap(wakes + [wake], n)
  {
    hide OnMap;
  }

  lemma StepStopped(planet: Planet, g: Geo, flux: Progress, landed: seq<Cell>)
    requires Settled(planet, g) && flux == FluxPrefix(planet, g.cells, g.completedSteps + 1, |g.cells|)
    requires Commit(landed, false) == ApplyFluxTo(g.cells, flux.delta, flux.remainders, |g.cells|)
    ensures CompleteStep(planet, g) == StepEnd(g.(cells := landed), false)
  {
    hide FluxPrefix, ApplyFluxTo, OnPlanet, AllOnMap;
  }

  lemma StepLanded(planet: Planet, g: Geo, flux: Progress, landed: seq<Cell>, decayed: WakeState)
    requires Settled(planet, g) && flux == FluxPrefix(planet, g.cells, g.completedSteps + 1, |g.cells|)
    requires Commit(landed, true) == ApplyFluxTo(g.cells, flux.delta, flux.remainders, |g.cells|)
    requires AllOnMap(g.wakes, |landed|) && decayed == DecayTo(landed, g.sites, g.wakes, |g.wakes|)
    ensures var time := (g.completedSteps + 1) * STEP_SECONDS;
            CompleteStep(planet, g)
            == StepEnd(Geo(decayed.cells, decayed.retained, decayed.sites, g.completedSteps + 1, time, time), true)
  {
    hide FluxPrefix, ApplyFluxTo, DecayTo, OnPlanet, AllOnMap;
  }

  method InsideMap(path: seq<nat>, n: nat) returns (inside: bool)
    ensures inside <==> forall k | 0 <= k < |path| :: path[k] < n
  {
    for k := 0 to |path|
      invariant forall j | 0 <= j < k :: path[j] < n
    {
      if path[k] >= n {
        return false;
      }
    }
    inside := true;
  }

  method ApplyOneCell(cell: Cell, change: Delta, remainder: int) returns (after: Cell, ok: bool)
    ensures Partly(after, ok) == ApplyCell(cell, change, remainder)
  {
    hide Fits, PutBand, Finish, Held, BandAt;
    after := cell;
    for t := 0 to 18
      invariant ApplyBands(cell, change, t) == Partly(after, true)
    {
      var next := ApplyBand(after, change, BandAt(t));
      after := next.cell;
      if !next.ok {
        StaysFailed(cell, change, t + 1, 18);
        return after, false;
      }
    }
    after, ok := Finish(after, remainder), true;
  }

  lemma {:induction false} FailedStays(cells: seq<Cell>, delta: seq<Delta>, remainders: seq<int>, s: nat, t: nat)
    requires |cells| == |delta| == |remainders| && s <= t <= |cells| && !ApplyFluxTo(cells, delta, remainders, s).ok
    ensures ApplyFluxTo(cells, delta, remainders, t) == ApplyFluxTo(cells, delta, remainders, s)
  {
    if s < t {
      FailedStays(cells, delta, remainders, s, t - 1);
    }
  }

  lemma {:induction false} FoulStays(cell: Cell, moved: Six, s: nat, t: nat)
    requires s <= t <= 6 && (forall k | 0 <= k < 6 :: moved[k] <= cell.ambient[k]) && !FoulTo(cell, moved, s).ok
    ensures FoulTo(cell, moved, t) == FoulTo(cell, moved, s)
  {
    if s < t {
      FoulStays(cell, moved, s, t - 1);
    }
  }

  method ReleaseInto(cell: Cell, wake: Wake) returns (after: Cell, left: Wake)
    requires !Stranded(wake)
    ensures after == DecayedCell(cell, wake) && left == DecayedWake(cell, wake)
  {
    var ambient, dross, charge, burden := cell.ambient, cell.dross, wake.charge, wake.dross;
    ghost var a1, d1 := Received(cell.ambient, wake.charge, wake.decay), Received(cell.dross, wake.dross, wake.decay);
    ghost var c1, b1 := Kept(cell.ambient, wake.charge, wake.decay), Kept(cell.dross, wake.dross, wake.decay);
    for slot := 0 to 6
      invariant forall s | 0 <= s < 6 :: ambient[s] == if s < slot then a1[s] else cell.ambient[s]
      invariant forall s | 0 <= s < 6 :: dross[s] == if s < slot then d1[s] else cell.dross[s]
      invariant forall s | 0 <= s < 6 :: charge[s] == if s < slot then c1[s] else wake.charge[s]
      invariant forall s | 0 <= s < 6 :: burden[s] == if s < slot then b1[s] else wake.dross[s]
    {
      var freed := Released(charge[slot], wake.decay, ambient[slot]);
      var shed := Released(burden[slot], wake.decay, dross[slot]);
      ReceivedAt(cell.ambient, wake.charge, wake.decay, slot);
      ReceivedAt(cell.dross, wake.dross, wake.decay, slot);
      hide Received, Kept, Released;
      ambient := ambient[slot := ambient[slot] + freed];
      dross := dross[slot := dross[slot] + shed];
      charge := charge[slot := charge[slot] - freed];
      burden := burden[slot := burden[slot] - shed];
    }
    hide Received, Kept;
    after := cell.(ambient := ambient, dross := dross);
    left := wake.(charge := charge, dross := burden, cursor := Min(wake.cursor + 1, |wake.path| - 1));
  }

  lemma ReceivedAt(held: Six, units: Six, decay: nat, slot: nat)
    requires slot < 6
    ensures Received(held, units, decay)[slot] == held[slot] + Released(units[slot], decay, held[slot])
    ensures Kept(held, units, decay)[slot] == units[slot] - Released(units[slot], decay, held[slot])
  {
    hide Released;
  }

  method DeactivateFirst(sites: seq<Site>, id: nat) returns (out: seq<Site>)
    ensures out == Deactivate(sites, id)
  {
    hide Deactivate;
    var k := 0;
    assert sites[..0] + Deactivate(sites[0..], id) == Deactivate(sites, id) by {
      assert sites[0..] == sites;
    }
    while k < |sites| && sites[k].id != id
      invariant 0 <= k <= |sites|
      invariant Deactivate(sites, id) == sites[..k] + Deactivate(sites[k..], id)
    {
      SkipSite(sites, id, k);
      k := k + 1;
    }
    DeactivateHere(sites, id, k);
    out := if k < |sites| then sites[k := sites[k].(active := false)] else sites;
  }

  lemma SkipSite(sites: seq<Site>, id: nat, k: nat)
    requires k < |sites| && sites[k].id != id
    ensures sites[..k] + Deactivate(sites[k..], id) == sites[..k + 1] + Deactivate(sites[k + 1..], id)
  {
    assert sites[k..][0] == sites[k] && sites[k..][1..] == sites[k + 1..];
    assert sites[..k + 1] == sites[..k] + [sites[k]];
  }

  lemma DeactivateHere(sites: seq<Site>, id: nat, k: nat)
    requires k <= |sites| && (k < |sites| ==> sites[k].id == id)
    ensures sites[..k] + Deactivate(sites[k..], id)
            == if k < |sites| then sites[k := sites[k].(active := false)] else sites
  {
    if k < |sites| {
      assert sites[k..][0] == sites[k] && sites[k..][1..] == sites[k + 1..];
    }
  }

  // ----- where a pass stands -----

  lemma NewPassAt(pass: TransportPass, planet: Planet, cells: seq<Cell>)
    requires OnPlanet(planet, |cells|) && pass.cursor == 0 && pass.delta == [] && pass.remainders == []
    ensures pass.At(planet, cells, 0)
  {
    hide OnPlanet;
    if cells == [] {
      FluxPrefixNone(planet, cells, pass.targetStep);
      PreparedAt(pass, planet, cells);
    }
  }

  lemma FluxPrefixNone(planet: Planet, cells: seq<Cell>, step: nat)
    requires OnPlanet(planet, |cells|)
    ensures FluxPrefix(planet, cells, step, 0).delta == seq(|cells|, _ => ZeroDelta)
    ensures |FluxPrefix(planet, cells, step, 0).remainders| == |cells|
    ensures forall i | 0 <= i < |cells| ::
              FluxPrefix(planet, cells, step, 0).remainders[i] == Max(cells[i].remainder, 0)
  {
    hide OnPlanet;
  }

  lemma PreparedAt(pass: TransportPass, planet: Planet, cells: seq<Cell>)
    requires OnPlanet(planet, |cells|) && pass.cursor == 0 && pass.delta == seq(|cells|, _ => ZeroDelta)
    requires |pass.remainders| == |cells| && forall i | 0 <= i < |cells| ::
               pass.remainders[i] == Max(cells[i].remainder, 0)
    ensures pass.At(planet, cells, |cells|)
  {
    hide OnPlanet, FluxPrefix;
    FluxPrefixNone(planet, cells, pass.targetStep);
    assert pass.remainders == FluxPrefix(planet, cells, pass.targetStep, 0).remainders;
  }

  lemma ComputedAt(pass: TransportPass, planet: Planet, cells: seq<Cell>, end: nat)
    requires OnPlanet(planet, |cells|) && end <= |cells| && pass.cursor == end
    requires Progress(pass.delta, pass.remainders) == FluxPrefix(planet, cells, pass.targetStep, end)
    ensures pass.At(planet, cells, |cells| + end)
  {
    hide OnPlanet, FluxPrefix;
  }

  lemma PassShape(pass: TransportPass, planet: Planet, cells: seq<Cell>, work: nat)
    requires OnPlanet(planet, |cells|) && work <= 2 * |cells| && pass.At(planet, cells, work)
    ensures work < |cells| ==> |pass.delta| == work
    ensures work >= |cells| ==> |pass.delta| == |cells| && pass.cursor == work - |cells|
  {
    hide OnPlanet, FluxPrefix;
  }

  lemma FinishedPass(pass: TransportPass, planet: Planet, cells: seq<Cell>)
    requires OnPlanet(planet, |cells|) && pass.At(planet, cells, 2 * |cells|)
    ensures Progress(pass.delta, pass.remainders) == FluxPrefix(planet, cells, pass.targetStep, |cells|)
  {
    hide OnPlanet, FluxPrefix;
  }

  lemma {:induction false} DecayedOnMap(cells: seq<Cell>, sites: seq<Site>, wakes: seq<Wake>, k: nat)
    requires AllOnMap(wakes, |cells|) && k <= |wakes|
    ensures AllOnMap(DecayTo(cells, sites, wakes, k).retained, |cells|)
  {
    if k > 0 {
      DecayedOnMap(cells, sites, wakes, k - 1);
      assert OnMap(wakes[k - 1], |cells|);
      hide DecayedCell, Kept, Received, Deactivate;
    }
  }
}
