/** A planet of two cells whose pass overflows a band, and what the failed step leaves of its dross. */
module OverflowingPass {
  import opened Prelude
  import opened Bands
  import opened Flow
  import opened Transport
  import opened FluxCommit
  import opened Wakes
  import opened GeographySteps

  const Open: Control :=
    Control(1_000, 1_000, Axes(1_000, 1_000, 1_000, 1_000), 500, 250, [43, 43, 43, 42, 42, 42])

  function Neighbour(i: nat, d: Direction): (nat, Direction) {
    if i == 0 && d == East then (1, East) else if i == 1 && d == West then (0, West) else (i, d)
  }

  /** Two cells of the same capacity, joined by one edge. */
  const Pair: Planet :=
    Planet([Open, Open], Neighbour, (a: nat, roomA: nat, b: nat, roomB: nat) => a * roomB > b * roomA, (_, _) => true)

  const Foul: Cell := Cell(Zero6, Zero6, [37_568, 37_568, 0, 0, 0, 0], 0, 0, 0, 0)

  const Full: Cell := Cell(Zero6, Zero6, [U16_MAX, 0, 0, 0, 0, 0], 0, 0, 0, 0)

  const Cells: seq<Cell> := [Foul, Full]

  const Still: seq<Delta> := [ZeroDelta, ZeroDelta]

  const Out: Delta := ZeroDelta[12 := -50][13 := -50]

  const Into: Delta := ZeroDelta[12 := 50][13 := 50]

  /** The fuller cell has more dross in all, and its neighbour no room for the first resonance: the step fails, and
      fifty units of it have left the fuller cell without arriving anywhere. */
  lemma FailedPassLosesUnits()
    ensures var g := Geo(Cells, [], [], 0, 0, 0);
            var end := CompleteStep(Pair, g);
            && Sound(Pair, g) && Gentle(Pair)
            && !end.ok && PlanetDross(end.geo, 0) == PlanetDross(g, 0) - 50
  {
    var g := Geo(Cells, [], [], 0, 0, 0);
    PairIsSound();
    PassOverflows(1);
    CommitFails();
    hide *;
    StepFails(g);
  }

  lemma StepFails(g: Geo)
    requires g == Geo(Cells, [], [], 0, 0, 0) && Sound(Pair, g)
    requires FluxPrefix(Pair, Cells, 1, 2) == Progress([Out, Into], [10_416, 0])
    requires var r := ApplyFluxTo(Cells, [Out, Into], [10_416, 0], 2);
             !r.ok && DrossTotal(r.cells, 0) == DrossTotal(Cells, 0) - 50
    ensures Settled(Pair, g)
    ensures var end := CompleteStep(Pair, g); !end.ok && PlanetDross(end.geo, 0) == PlanetDross(g, 0) - 50
  {
    assert AllOnMap(g.wakes, 2);
    hide FluxPrefix, ApplyFluxTo, DrossTotal, OnPlanet, WellFormedWakes;
  }

  lemma PairIsSound()
    ensures OnPlanet(Pair, 2) && Gentle(Pair) && Sound(Pair, Geo(Cells, [], [], 0, 0, 0))
  {
    assert Representable(Foul) && Representable(Full);
    hide Representable;
    assert AllRepresentable(Cells);
  }

  // ----- the pass -----

  lemma PassOverflows(step: nat)
    ensures OnPlanet(Pair, 2) && FluxPrefix(Pair, Cells, step, 2) == Progress([Out, Into], [10_416, 0])
  {
    hide *;
    PairIsSound();
    PassStart(step);
    FluxPrefixStep(Pair, Cells, step, 1);
    FirstCell(step);
    Contributes(step, Progress(Still, [0, 0]), 0, Work([Out, Into], 10_416));
    FluxPrefixStep(Pair, Cells, step, 2);
    SecondCell(step, Work([Out, Into], 0));
    Contributes(step, Progress([Out, Into], [10_416, 0]), 1, Work([Out, Into], 0));
    assert [0, 0][0 := Clamp(10_416)] == [10_416, 0] && [10_416, 0][1 := Clamp(0)] == [10_416, 0] by {
      Clamped();
    }
  }

  lemma Clamped()
    ensures Clamp(10_416) == 10_416 && Clamp(0) == 0
  {
  }

  lemma PassStart(step: nat)
    requires OnPlanet(Pair, 2)
    ensures FluxPrefix(Pair, Cells, step, 0) == Progress(Still, [0, 0])
  {
    FluxPrefixStart(Pair, Cells, step);
    assert seq(2, _ => ZeroDelta) == Still;
    assert FluxPrefix(Pair, Cells, step, 0).remainders == [0, 0] by {
      hide OnPlanet;
    }
    hide FluxPrefix;
  }

  lemma Contributes(step: nat, before: Progress, i: nat, work: Work)
    requires OnPlanet(Pair, 2) && i < 2 == |before.delta| == |before.remainders|
    requires CellFlux(Pair, Cells, step, Work(before.delta, before.remainders[i]), i) == work
    ensures ContributeOne(Pair, Cells, step, before, i)
            == Progress(work.delta, before.remainders[i := Clamp(work.remainder)])
  {
    hide CellFlux, Clamp;
  }

  lemma FirstCell(step: nat)
    requires OnPlanet(Pair, 2)
    ensures CellFlux(Pair, Cells, step, Work(Still, 0), 0) == Work([Out, Into], 10_416)
  {
    EastEdge(step);
    var east := Work([Out, Into], 10_416);
    NoExchange(east, 0);
    hide AmbientEdge, DrossEdge, ExchangeFlux, EdgeConductivity;
    assert EdgeFlux(Pair, Cells, step, east, 0, North) == east;
    assert EdgeFlux(Pair, Cells, step, east, 0, West) == east;
    assert EdgeFlux(Pair, Cells, step, east, 0, South) == east;
  }

  lemma SecondCell(step: nat, work: Work)
    requires OnPlanet(Pair, 2) && |work.delta| == 2
    ensures CellFlux(Pair, Cells, step, work, 1) == work
  {
    NoExchange(work, 1);
    hide AmbientEdge, DrossEdge, ExchangeFlux, EdgeConductivity;
    assert EdgeFlux(Pair, Cells, step, work, 1, East) == work;
    assert EdgeFlux(Pair, Cells, step, work, 1, North) == work;
    assert EdgeFlux(Pair, Cells, step, work, 1, West) == work;
    assert EdgeFlux(Pair, Cells, step, work, 1, South) == work;
  }

  /** Without Current nothing is exchanged with the depths. */
  lemma NoExchange(work: Work, i: nat)
    requires i < 2 && |work.delta| == 2
    ensures ExchangeFlux(Pair, Cells, work, i) == work
  {
    hide PourAlong;
    assert Cells[i].deep == Zero6 && Cells[i].ambient == Zero6;
    assert ExchangeCourse(Pair, Cells, i) == None;
  }

  lemma EastEdge(step: nat)
    ensures Pair.step(0, East).0 == 1
    ensures EdgeFlux(Pair, Cells, step, Work(Still, 0), 0, East) == Work([Out, Into], 10_416)
  {
    assert Pair.step(0, East) == (1, East);
    assert EdgeConductivity(Pair, 0, East) == 1_000;
    NoAmbientFlow(step);
    DrossFlow();
    hide AmbientEdge, DrossEdge, EdgeConductivity;
  }

  lemma {:induction false} NothingMoved(delta: seq<Delta>, from: nat, p: nat, to: nat, q: nat, n: nat)
    requires |delta| == 2 && from < 2 && to < 2 && p <= 12 && q <= 12 && n <= 6
    ensures TransferBands(Cells, delta, from, p, to, q, Zero6, n) == delta
    ensures TransferTotal(Cells, delta, from, p, to, q, Zero6, n) == 0
  {
    if n > 0 {
      NothingMoved(delta, from, p, to, q, n - 1);
      assert LimitedUnits(Cells, delta, from, p + n - 1, Zero6[n - 1]) == 0;
      hide LimitedUnits;
      ShiftNothing(delta, from, p + n - 1, to, q + n - 1);
    }
  }

  lemma ShiftNothing(delta: seq<Delta>, from: nat, p: nat, to: nat, q: nat)
    requires |delta| == 2 && from < 2 && to < 2 && p < 18 && q < 18
    ensures Shift(delta, from, p, to, q, 0) == delta
  {
    assert delta[from][p := delta[from][p]] == delta[from] && delta[to][q := delta[to][q]] == delta[to];
    assert Change(delta, from, p, 0) == delta && Change(delta, to, q, 0) == delta;
    hide Change;
  }

  lemma NoAmbientFlow(step: nat)
    ensures AmbientEdge(Pair, Cells, step, Work(Still, 0), 0, 1, 1_000) == Work(Still, 0)
  {
    var course := AmbientCourse(Pair, Cells, 0, 1, 1_000);
    assert Sum6(SideBands(Cells, course.from)) == 0;
    assert PourFlux(Cells, Work(Still, 0), course.from, course.to, 1_000, 16) == Flux(0, 0);
    NothingMoved(Still, course.from.cell, AMBIENT, course.to.cell, AMBIENT, 6);
    assert Proportional(SideBands(Cells, course.from), 0, 1) == Zero6;
    hide TransferBands, TransferTotal, SwapFlux, FluxOf, AmbientCourse;
  }

  lemma DrossFlow()
    ensures DrossEdge(Pair, Cells, Work(Still, 0), 0, 1, 1_000) == Work([Out, Into], 10_416)
  {
    var here, there := DrossSide(Pair, 0), DrossSide(Pair, 1);
    assert Sum6(SideBands(Cells, here)) == 75_136 && Sum6(SideBands(Cells, there)) == 65_535;
    assert Steeper(Pair, Cells, here, there);
    assert DrossConductivity(Pair, 0, 1, 1_000) == 1_000;
    var rotation := Xor(0, 1);
    assert DrossCourse(Pair, Cells, 0, 1, 1_000) == Course(here, there, 1_000, 96, rotation);
    HundredUnits();
    assert PourFlux(Cells, Work(Still, 0), here, there, 1_000, 96) == Flux(100, 10_416) by {
      hide FluxOf;
    }
    FiftyEach(rotation);
    FiftyMoved();
    hide *;
    PourIs(here, there, rotation);
    DrossIs(Course(here, there, 1_000, 96, rotation));
  }

  lemma DrossIs(course: Course)
    requires Charted(course, 2) && DrossCourse(Pair, Cells, 0, 1, 1_000) == course
    ensures DrossEdge(Pair, Cells, Work(Still, 0), 0, 1, 1_000)
            == Pour(Cells, Work(Still, 0), course.from, course.to, course.conductivity, course.divisor, course.rotation)
  {
    hide Pour, DrossCourse;
  }

  lemma PourIs(here: Side, there: Side, rotation: nat)
    requires here == Side(0, DROSS, 1_000) && there == Side(1, DROSS, 1_000)
    requires PourFlux(Cells, Work(Still, 0), here, there, 1_000, 96) == Flux(100, 10_416)
    requires Proportional(Foul.dross, 100, rotation) == [50, 50, 0, 0, 0, 0]
    requires TransferBands(Cells, Still, 0, DROSS, 1, DROSS, [50, 50, 0, 0, 0, 0], 6) == [Out, Into]
    ensures Pour(Cells, Work(Still, 0), here, there, 1_000, 96, rotation) == Work([Out, Into], 10_416)
  {
    assert SideBands(Cells, here) == Foul.dross;
    hide PourFlux, Proportional, TransferBands;
  }

  lemma HundredUnits()
    ensures FluxOf(75_136, 1_000, 65_535, 1_000, 1_000, 96, 0) == Flux(100, 10_416)
  {
    assert Excess(75_136, 1_000, 65_535, 1_000) == 9_601_000;
    assert FlowRate(9_601_000, 1_000, 1_000, 96) == 100_010_416;
  }

  lemma FiftyEach(rotation: nat)
    ensures Proportional(Foul.dross, 100, rotation) == [50, 50, 0, 0, 0, 0]
  {
    var floors := Shares(Foul.dross, 100);
    assert Sum6(Foul.dross) == 75_136;
    assert Share(100, 37_568, 75_136) == 50 && Share(100, 0, 75_136) == 0;
    assert floors == [50, 50, 0, 0, 0, 0];
    assert Sum6(floors) == 100;
    hide Shares;
    assert RotateIn(Foul.dross, floors, 0, rotation % 6, 6) == floors;
    hide RotateIn;
  }

  lemma FiftyMoved()
    ensures TransferBands(Cells, Still, 0, DROSS, 1, DROSS, [50, 50, 0, 0, 0, 0], 6) == [Out, Into]
  {
    var moved: Six := [50, 50, 0, 0, 0, 0];
    var one: seq<Delta> := [ZeroDelta[12 := -50], ZeroDelta[12 := 50]];
    assert TransferBands(Cells, Still, 0, DROSS, 1, DROSS, moved, 0) == Still;
    assert LimitedUnits(Cells, Still, 0, 12, 50) == 50;
    assert Shift(Still, 0, 12, 1, 12, 50) == one;
    assert TransferBands(Cells, Still, 0, DROSS, 1, DROSS, moved, 1) == one;
    assert LimitedUnits(Cells, one, 0, 13, 50) == 50;
    assert Shift(one, 0, 13, 1, 13, 50) == [Out, Into];
    assert TransferBands(Cells, Still, 0, DROSS, 1, DROSS, moved, 2) == [Out, Into];
    hide Shift;
    RestMoved(moved, 6);
  }

  /** The four empty bands move nothing more. */
  lemma {:induction false} RestMoved(moved: Six, n: nat)
    requires moved == [50, 50, 0, 0, 0, 0] && 2 <= n <= 6
    requires TransferBands(Cells, Still, 0, DROSS, 1, DROSS, moved, 2) == [Out, Into]
    ensures TransferBands(Cells, Still, 0, DROSS, 1, DROSS, moved, n) == [Out, Into]
  {
    if n > 2 {
      RestMoved(moved, n - 1);
      assert LimitedUnits(Cells, [Out, Into], 0, DROSS + n - 1, moved[n - 1]) == 0;
      ShiftNothing([Out, Into], 0, DROSS + n - 1, 1, DROSS + n - 1);
      hide Shift, LimitedUnits;
    }
  }

  // ----- the commit -----

  lemma CommitFails()
    ensures var r := ApplyFluxTo(Cells, [Out, Into], [10_416, 0], 2);
            !r.ok && DrossTotal(r.cells, 0) == DrossTotal(Cells, 0) - 50
  {
    var delta: seq<Delta> := [Out, Into];
    ApplyCellExact(Foul, Out, 10_416);
    ApplyCellExact(Full, Into, 0);
    assert !Fits(Full, Into, 12);
    assert CellFits(Foul, Out);
    StaysFull();
    hide ApplyCell;
    var first, second := ApplyCell(Foul, Out, 10_416), ApplyCell(Full, Into, 0);
    assert Held(first.cell, 12) == 37_518 by {
      assert MovedBy(Foul, Out, first.cell);
    }
    assert ApplyFluxTo(Cells, delta, [10_416, 0], 0) == Commit(Cells, true);
    assert ApplyFluxTo(Cells, delta, [10_416, 0], 1) == Commit([first.cell, Full], true);
    assert ApplyFluxTo(Cells, delta, [10_416, 0], 2) == Commit([first.cell, second.cell], false);
    PairTotal(first.cell, second.cell);
    PairTotal(Foul, Full);
  }

  /** The overflowing band is the third one written, after two that do not change. */
  lemma StaysFull()
    ensures Held(ApplyCell(Full, Into, 0).cell, 12) == U16_MAX
  {
    var one := ApplyBands(Full, Into, 1);
    assert BandAt(0) == 0 && BandAt(1) == 6 && BandAt(2) == 12;
    assert ApplyBands(Full, Into, 0) == Partly(Full, true);
    assert one.ok && Held(one.cell, 12) == U16_MAX;
    var two := ApplyBands(Full, Into, 2);
    assert two.ok && Held(two.cell, 12) == U16_MAX;
    assert ApplyBands(Full, Into, 3) == Partly(two.cell, false);
    StaysFailed(Full, Into, 3, 18);
  }

  lemma PairTotal(a: Cell, b: Cell)
    ensures DrossTotal([a, b], 0) == Held(a, 12) + Held(b, 12)
  {
    assert [a, b][..1] == [a];
    assert SumSeq([a], HeldOf(12)) == HeldOf(12)(a);
  }
}
