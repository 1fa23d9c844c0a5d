/** Whole simulation steps: what a completed step does, and how its work may be sliced. */
module GeographySteps {
  import opened Prelude
  import opened Transport
  import opened FluxCommit
  import opened Wakes

  const STEP_SECONDS: nat := 60

  datatype Geo = Geo(cells: seq<Cell>, wakes: seq<Wake>, sites: seq<Site>, completedSteps: nat,
                     dynamicTime: nat, manifestTime: nat)

  datatype StepEnd = StepEnd(geo: Geo, ok: bool)

  ghost predicate Settled(planet: Planet, g: Geo) {
    OnPlanet(planet, |g.cells|) && AllOnMap(g.wakes, |g.cells|)
  }

  /** One whole step: every cell contributes to the pass, the pass lands, the wakes decay. */
  function CompleteStep(planet: Planet, g: Geo): StepEnd
    requires Settled(planet, g)
  {
    var n, step := |g.cells|, g.completedSteps + 1;
    var pass := FluxPrefix(planet, g.cells, step, n);
    var commit := ApplyFluxTo(g.cells, pass.delta, pass.remainders, n);
    if !commit.ok then StepEnd(g.(cells := commit.cells), false)
    else
      var decayed := DecayTo(commit.cells, g.sites, g.wakes, |g.wakes|);
      StepEnd(Geo(decayed.cells, decayed.retained, decayed.sites, step, step * STEP_SECONDS, step * STEP_SECONDS), true)
  }

  // ----- conservation over steps -----

  /** Current and dross of one resonance in cells and wakes. */
  ghost function PlanetCurrent(g: Geo, slot: nat): int
    requires slot < 6
  {
    CurrentTotal(g.cells, slot) + SumSeq(g.wakes, ChargeOf(slot))
  }

  ghost function PlanetDross(g: Geo, slot: nat): int
    requires slot < 6
  {
    DrossTotal(g.cells, slot) + SumSeq(g.wakes, WakeDrossOf(slot))
  }

  ghost predicate Sound(planet: Planet, g: Geo) {
    OnPlanet(planet, |g.cells|) && WellFormedWakes(g.cells, g.wakes)
  }

  ghost predicate SamePlanet(before: Geo, after: Geo) {
    forall slot | 0 <= slot < 6 ::
      PlanetCurrent(after, slot) == PlanetCurrent(before, slot) && PlanetDross(after, slot) == PlanetDross(before, slot)
  }

  /** A step succeeds exactly when its pass overflows no band, and then keeps the planet's Current and dross of
      every resonance. */
  lemma StepConserves(planet: Planet, g: Geo)
    requires Sound(planet, g)
    ensures CompleteStep(planet, g).ok
            <==> NoOverflow(g.cells, FluxPrefix(planet, g.cells, g.completedSteps + 1, |g.cells|).delta)
    ensures CompleteStep(planet, g).ok ==>
              var after := CompleteStep(planet, g).geo;
              && Sound(planet, after) && SamePlanet(g, after)
              && after.completedSteps == g.completedSteps + 1
  {
    hide OnPlanet, FluxPrefix, ApplyFluxTo, DecayTo, WellFormedWakes, CurrentTotal, DrossTotal, SoundFlux, NoOverflow;
    WellFormedParts(g.cells, g.wakes);
    var n, step := |g.cells|, g.completedSteps + 1;
    var pass := FluxPrefix(planet, g.cells, step, n);
    PassSound(planet, g.cells, step, n);
    SoundFluxConserves(g.cells, pass.delta, pass.remainders);
    var commit := ApplyFluxTo(g.cells, pass.delta, pass.remainders, n);
    if commit.ok {
      WellFormedAgain(g.cells, commit.cells, g.wakes);
      DecayKeepsShape(commit.cells, g.sites, g.wakes, |g.wakes|);
      WakesKeepTotals(commit.cells, g.sites, g.wakes);
      hide AllRepresentable, AllOnMap;
    }
  }

  /** A completed step counts itself and a minute of geography time, in memory and in the manifest, and widens the
      recorded range of every cell by just its new ambient total. */
  lemma StepRecords(planet: Planet, g: Geo)
    requires Settled(planet, g) && CompleteStep(planet, g).ok
    ensures var after := CompleteStep(planet, g).geo;
            && after.completedSteps == g.completedSteps + 1
            && after.dynamicTime == after.manifestTime == 60 * (g.completedSteps + 1)
            && |after.cells| == |g.cells|
  {
    hide FluxPrefix, ApplyFluxTo, DecayTo, OnPlanet, AllOnMap;
  }

  lemma WellFormedParts(cells: seq<Cell>, wakes: seq<Wake>)
    requires WellFormedWakes(cells, wakes)
    ensures AllOnMap(wakes, |cells|) && AllRepresentable(cells)
  {
  }

  lemma WellFormedAgain(cells: seq<Cell>, after: seq<Cell>, wakes: seq<Wake>)
    requires WellFormedWakes(cells, wakes) && AllRepresentable(after) && |after| == |cells|
    ensures WellFormedWakes(after, wakes)
  {
    hide AllRepresentable, OnMap, Stranded;
  }

  lemma WakesKeepTotals(cells: seq<Cell>, sites: seq<Site>, wakes: seq<Wake>)
    requires WellFormedWakes(cells, wakes)
    ensures var st := DecayTo(cells, sites, wakes, |wakes|);
            forall slot | 0 <= slot < 6 ::
              && CurrentTotal(st.cells, slot) + SumSeq(st.retained, ChargeOf(slot))
                 == CurrentTotal(cells, slot) + SumSeq(wakes, ChargeOf(slot))
              && DrossTotal(st.cells, slot) + SumSeq(st.retained, WakeDrossOf(slot))
                 == DrossTotal(cells, slot) + SumSeq(wakes, WakeDrossOf(slot))
  {
    WellFormedParts(cells, wakes);
    assert Travelling(wakes);
    assert wakes[..|wakes|] == wakes;
    hide BandTotal, DecayTo, AllOnMap, AllRepresentable, Travelling, StrandedCharge, StrandedDross, ChargeOf,
         WakeDrossOf;
    forall slot | 0 <= slot < 6
      ensures var st := DecayTo(cells, sites, wakes, |wakes|);
              && CurrentTotal(st.cells, slot) + SumSeq(st.retained, ChargeOf(slot))
                 == CurrentTotal(cells, slot) + SumSeq(wakes, ChargeOf(slot))
              && DrossTotal(st.cells, slot) + SumSeq(st.retained, WakeDrossOf(slot))
                 == DrossTotal(cells, slot) + SumSeq(wakes, WakeDrossOf(slot))
    {
      DecayBalance(cells, sites, wakes, |wakes|, slot);
      TravellingLoseNothing(wakes, slot);
    }
  }

  ghost function Steps(planet: Planet, g: Geo, k: nat): StepEnd
    requires Settled(planet, g)
  {
    if k == 0 then StepEnd(g, true)
    else
      var before := Steps(planet, g, k - 1);
      if before.ok && Settled(planet, before.geo) then CompleteStep(planet, before.geo) else before
  }

  /** However many steps run, the planet's Current and dross of every resonance stay what they were. */
  lemma {:induction false} StepsConserve(planet: Planet, g: Geo, k: nat)
    requires Sound(planet, g) && Settled(planet, g)
    ensures Steps(planet, g, k).ok ==>
              && Sound(planet, Steps(planet, g, k).geo) && SamePlanet(g, Steps(planet, g, k).geo)
              && Steps(planet, g, k).geo.completedSteps == g.completedSteps + k
  {
    hide OnPlanet, CompleteStep, WellFormedWakes, PlanetCurrent, PlanetDross;
    if k > 0 {
      StepsConserve(planet, g, k - 1);
      var before := Steps(planet, g, k - 1);
      if before.ok {
        WellFormedParts(before.geo.cells, before.geo.wakes);
        StepConserves(planet, before.geo);
        hide AllRepresentable, AllOnMap;
      }
    }
  }

  // ----- slices -----

  /** `work` counts cells prepared and then cells computed, so a step is done at twice the cell count. */
  datatype SliceEnd = SliceEnd(geo: Geo, work: nat, processed: Option<nat>, completed: bool)

  ghost predicate WorkInRange(g: Geo, work: nat) {
    work < 2 * |g.cells| || work == 0
  }

  function Slice(planet: Planet, g: Geo, work: nat, seconds: nat, budget: nat): SliceEnd
    requires Settled(planet, g) && WorkInRange(g, work)
  {
    var n := |g.cells|;
    if seconds / STEP_SECONDS <= g.completedSteps then SliceEnd(g.(manifestTime := seconds), work, Some(0), false)
    else if work < n then
      var end := Min(work + Max(budget, 1), n);
      SliceEnd(g, end, Some(end - work), false)
    else
      var end := Min(work + Max(budget, 1), 2 * n);
      if end < 2 * n then SliceEnd(g, end, Some(end - work), false)
      else
        var step := CompleteStep(planet, g);
        SliceEnd(step.geo, 0, if step.ok then Some(end - work) else None, true)
  }

  /** Calls until the step completes; each call brings its own clock and its own budget. */
  function RunSlices(planet: Planet, g: Geo, work: nat, calls: seq<(nat, nat)>): Option<StepEnd>
    requires Settled(planet, g) && WorkInRange(g, work)
    decreases |calls|
  {
    if calls == [] then None
    else
      var end := Slice(planet, g, work, calls[0].0, calls[0].1);
      if end.completed then Some(StepEnd(end.geo, end.processed.Some?))
      else RunSlices(planet, end.geo, end.work, calls[1..])
  }

  ghost predicate Due(g: Geo, calls: seq<(nat, nat)>) {
    forall k | 0 <= k < |calls| :: g.completedSteps < calls[k].0 / STEP_SECONDS
  }

  /** However the work is sliced, a completed step leaves the same cells, remainders, wakes, sites and step count. */
  lemma {:induction false} SlicingIndependence(planet: Planet, g: Geo, work: nat, calls: seq<(nat, nat)>)
    requires Settled(planet, g) && WorkInRange(g, work) && Due(g, calls)
    ensures RunSlices(planet, g, work, calls).Some? ==>
              RunSlices(planet, g, work, calls) == Some(CompleteStep(planet, g))
    ensures |calls| > 2 * |g.cells| - work ==> RunSlices(planet, g, work, calls).Some?
    decreases |calls|
  {
    hide CompleteStep, Settled;
    if calls != [] {
      var end := Slice(planet, g, work, calls[0].0, calls[0].1);
      if !end.completed {
        assert end.geo == g && end.work > work;
        SlicingIndependence(planet, g, end.work, calls[1..]);
      }
    }
  }

  /** Two calls with a full budget, one to prepare and one to compute, complete the step. */
  lemma FullBudget(planet: Planet, g: Geo, seconds: nat)
    requires Settled(planet, g) && g.cells != [] && g.completedSteps < seconds / STEP_SECONDS
    ensures var n := |g.cells|;
            RunSlices(planet, g, 0, [(seconds, n), (seconds, n)]) == Some(CompleteStep(planet, g))
  {
    hide CompleteStep, Settled;
    var n := |g.cells|;
    var calls := [(seconds, n), (seconds, n)];
    var first := Slice(planet, g, 0, seconds, n);
    assert first == SliceEnd(g, n, Some(n), false);
    assert calls[1..] == [(seconds, n)];
    assert RunSlices(planet, g, n, calls[1..]).Some?;
    SlicingIndependence(planet, g, 0, calls);
  }
}
