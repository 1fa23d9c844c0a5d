/** The living sites of a planet, their cells and the boundary their harvests cross. */
module ArcaneEcologyClass {
  import opened Prelude
  import opened Bands
  import opened Transport
  import opened Pouring
  import opened EcologyModel
  import opened EcologyRuns

  datatype Advance = Advance(processed: nat, completedDays: nat, transpiration: map<nat, nat>)

  /** Water is only moved from the offer to the transpiration report. */
  ghost predicate WaterKept(offered: map<nat, nat>, water: map<nat, nat>, transpired: map<nat, nat>) {
    forall k :: Amount(water, k) + Amount(transpired, k) == Amount(offered, k)
  }

  lemma WaterMoved(offered: map<nat, nat>, water: map<nat, nat>, transpired: map<nat, nat>, at: nat, drunk: nat)
    requires WaterKept(offered, water, transpired) && drunk <= Amount(water, at)
    ensures WaterKept(offered, water[at := Amount(water, at) - drunk], transpired[at := Amount(transpired, at) + drunk])
    ensures drunk == 0 ==> WaterKept(offered, water[at := Amount(water, at)], transpired)
  {
    var w, t := water[at := Amount(water, at) - drunk], transpired[at := Amount(transpired, at) + drunk];
    forall k: nat ensures Amount(w, k) + Amount(t, k) == Amount(offered, k) {
      assert Amount(water, k) + Amount(transpired, k) == Amount(offered, k);
    }
    if drunk == 0 {
      var same := water[at := Amount(water, at)];
      forall k: nat ensures Amount(same, k) + Amount(transpired, k) == Amount(offered, k) {
        assert Amount(water, k) + Amount(transpired, k) == Amount(offered, k);
      }
    }
  }

  class ArcaneEcology {
    const sphere: Ecosphere
    const dropsItem: set<string>
    var cells: seq<Cell>
    var sites: seq<EcologySite>
    var boundary: Boundary
    var completedDays: nat
    var inProgressDay: nat
    var cursor: nat
    var eventSequence: nat

    function State(): EcologyState
      reads this
    {
      EcologyState(cells, sites, boundary, completedDays, inProgressDay, cursor, eventSequence)
    }

    ghost predicate Valid()
      reads this
    {
      Orderly(State())
    }

    constructor (sphere: Ecosphere, dropsItem: set<string>, cells: seq<Cell>, sites: seq<EcologySite>)
      requires Rooted(cells, sites)
      ensures Valid() && State() == EcologyState(cells, sites, Boundary(Zero6, Zero6), 0, 0, 0, 0)
    {
      this.sphere, this.dropsItem := sphere, dropsItem;
      this.cells, this.sites, boundary := cells, sites, Boundary(Zero6, Zero6);
      completedDays, inProgressDay, cursor, eventSequence := 0, 0, 0, 0;
    }

    /** One slice of a day. Successful or not, it is one step of an ecology run: on success every resonance's custody
        over cells and sites is what it was and the water missing from the offer is the water reported transpired; a
        failure has lost the units of the uptake that found its band full. */
    method AdvanceToward(climate: Climate, targetDay: nat, budget: nat, offered: map<nat, nat>)
      returns (r: Result<Advance, EcologyError>, water: map<nat, nat>)
      requires Valid()
      modifies this
      ensures Valid() && StepEnd(State(), r.Ok?) == DayStep(sphere, climate, old(State()), targetDay, budget, offered)
      ensures water == if DayDue(old(State()), targetDay)
                       then DayGrove(sphere, climate, old(State()), budget, offered).water else offered
      ensures BooksShort(old(State()), State(), DayStepLost(sphere, climate, old(State()), targetDay, budget, offered))
      ensures AllHardy(sphere.defs, old(sites)) ==> r.Ok? && AllHardy(sphere.defs, sites)
      ensures r.Ok? ==> KeepsBooks(old(State()), State()) && SameEverywhere(old(cells), old(sites), cells, sites)
      ensures r.Ok? ==> WaterKept(offered, water, r.value.transpiration) && r.value.completedDays == completedDays
      ensures r.Ok? ==>
                r.value.processed
                == if DayDue(old(State()), targetDay) then DayEnd(old(State()), budget) - DayStart(old(State())) else 0
      ensures r.Ok? && DayDue(old(State()), targetDay) ==>
                forall i | 0 <= i < |old(sites)| ::
                  if DayStart(old(State())) <= i < DayEnd(old(State()), budget)
                  then SiteLaw(sphere.defs, old(sites)[i], sites[i]) else sites[i] == old(sites)[i]
    {
      StateIs();
      DayLaws(sphere, climate, State(), targetDay, budget, offered);
      DayCases(sphere, climate, State(), targetDay, budget, offered) by { OrderlyParts(State()); }
      hide *;
      r, water := LiveSlice(climate, targetDay, budget, offered);
      StateIs();
    }

    /** The sites of one slice live their day in turn. */
    method LiveSlice(climate: Climate, targetDay: nat, budget: nat, offered: map<nat, nat>)
      returns (r: Result<Advance, EcologyError>, water: map<nat, nat>)
      requires Valid()
      modifies this
      ensures StepEnd(State(), r.Ok?) == DayStep(sphere, climate, old(State()), targetDay, budget, offered)
      ensures water == if DayDue(old(State()), targetDay)
                       then DayGrove(sphere, climate, old(State()), budget, offered).water else offered
      ensures r.Ok? ==> WaterKept(offered, water, r.value.transpiration) && r.value.completedDays == completedDays
      ensures r.Ok? ==>
                r.value.processed
                == if DayDue(old(State()), targetDay) then DayEnd(old(State()), budget) - DayStart(old(State())) else 0
    {
      ghost var st := State();
      StateIs();
      OrderlyParts(st);
      DayCases(sphere, climate, st, targetDay, budget, offered);
      hide *;
      water := offered;
      var transpired: map<nat, nat> := map[];
      NoWaterMoved(offered);
      if |sites| == 0 || completedDays >= targetDay {
        return Ok(Advance(0, completedDays, transpired)), water;
      }
      if inProgressDay == 0 {
        inProgressDay := completedDays + 1;
        cursor := 0;
      }
      var day, start := inProgressDay, cursor;
      var end: nat := Min(start + Max(budget, 1), |sites|);
      assert day == DayNumber(st) && start == DayStart(st) && end == DayEnd(st, budget);
      StartIs(st, offered);
      var lived;
      lived, water, transpired := LiveSites(start, end, climate, day, offered);
      StateIs();
      if !lived {
        return Err(BandOverflow), water;
      }
      CloseSlice(day, end);
      StateIs();
      r := Ok(Advance(end - start, completedDays, transpired));
    }

    /** Remember where the day stands, or that it is over. */
    method CloseSlice(day: nat, end: nat)
      modifies this`completedDays, this`inProgressDay, this`cursor
      ensures completedDays == if end == |sites| then day else old(completedDays)
      ensures inProgressDay == if end == |sites| then 0 else old(inProgressDay)
      ensures cursor == if end == |sites| then 0 else end
    {
      cursor := end;
      if end == |sites| {
        completedDays, inProgressDay, cursor := day, 0, 0;
      }
    }

    /** The sites from `start` up to `end` live their day, until one of them fails. */
    method LiveSites(start: nat, end: nat, climate: Climate, day: nat, offered: map<nat, nat>)
      returns (ok: bool, water: map<nat, nat>, transpired: map<nat, nat>)
      requires start <= end <= |sites| && Rooted(cells, sites)
      modifies this`cells, this`sites
      ensures Grove(cells, sites, water, ok)
              == LiveTo(sphere, climate, day, Grove(old(cells), old(sites), offered, true), start, end)
      ensures |sites| == |old(sites)| && WaterKept(offered, water, transpired)
    {
      hide *;
      ghost var g := Grove(cells, sites, offered, true);
      ok, water, transpired := true, offered, map[];
      NoWaterMoved(offered);
      LiveNothing(sphere, climate, day, g, start);
      var i := start;
      while i < end
        invariant start <= i <= end && |sites| == |g.sites|
        invariant Grove(cells, sites, water, true) == LiveTo(sphere, climate, day, g, start, i)
        invariant ok && Rooted(cells, sites) && WaterKept(offered, water, transpired)
      {
        LiveStep(sphere, climate, day, g, start, i + 1);
        RootedLives(sphere, climate, day, Grove(cells, sites, water, true), i);
        ok, water, transpired := LiveSite(i, climate, day, offered, water, transpired);
        i := i + 1;
        if !ok {
          StoppedAt(sphere, climate, day, g, start, i, end);
          return;
        }
      }
    }

    lemma StateIs()
      ensures State() == EcologyState(cells, sites, boundary, completedDays, inProgressDay, cursor, eventSequence)
      ensures Valid() <==> Orderly(State())
    {
      hide Orderly;
    }

    /** The next site lives its day: the water it drinks leaves the offer for the report. */
    method LiveSite(i: nat, climate: Climate, day: nat, ghost offered: map<nat, nat>, water: map<nat, nat>,
                    transpired: map<nat, nat>)
      returns (ok: bool, water': map<nat, nat>, transpired': map<nat, nat>)
      requires i < |sites| && sites[i].cell < |cells| && WaterKept(offered, water, transpired)
      modifies this`cells, this`sites
      ensures Grove(cells, sites, water', ok)
              == LiveAt(sphere, climate, day, Grove(old(cells), old(sites), water, true), i)
      ensures WaterKept(offered, water', transpired')
    {
      ghost var g := Grove(cells, sites, water, true);
      if sites[i].content in sphere.defs {
        LiveAtKnown(sphere, climate, day, g, i);
      } else {
        LiveAtUnknown(sphere, climate, day, g, i);
      }
      hide *;
      ok, water', transpired' := true, water, transpired;
      var site := sites[i];
      if site.content !in sphere.defs {
        sites := sites[i := site.(stage := Dormant)];
        return;
      }
      var at := site.cell;
      var site', cell', drunk;
      site', cell', drunk, ok := LiveDay(site, sphere.defs[site.content], climate(site, cells[at], day), cells[at], day,
                                         Amount(water, at));
      WaterMoved(offered, water, transpired, at, drunk);
      LessWater(Amount(water, at), drunk);
      water' := water[at := Amount(water, at) - drunk];
      if drunk != 0 {
        transpired' := transpired[at := Amount(transpired, at) + drunk];
      }
      cells := cells[at := cell'];
      sites := sites[i := site'];
    }

    /** The part of a ripe site that may be taken, and what that would do to it. */
    method PlanHarvest(block: nat, toolTier: nat) returns (plan: Option<HarvestPlan>)
      ensures forall i | 0 <= i < |sites| && sites[i].block == Some(block) && sites[i].stage == Mature
                         && (forall k | 0 <= k < i :: sites[k].block != Some(block) || sites[k].stage != Mature) ::
                var site := sites[i];
                && (plan.Some? <==>
                      && site.content in sphere.defs && site.content in dropsItem
                      && (sphere.defs[site.content].kind == Crystal ==>
                            sphere.defs[site.content].crystalStages <= site.crystalStage + 1))
                && (plan.Some? ==> plan.value == PlanOf(site, sphere.defs[site.content], toolTier))
      ensures plan.Some? ==> exists i | 0 <= i < |sites| :: sites[i].block == Some(block) && sites[i].stage == Mature
    {
      var i := 0;
      while i < |sites| && (sites[i].block != Some(block) || sites[i].stage != Mature)
        invariant 0 <= i <= |sites|
        invariant forall k | 0 <= k < i :: sites[k].block != Some(block) || sites[k].stage != Mature
      {
        i := i + 1;
      }
      hide PlanOf;
      if i == |sites| {
        return None;
      }
      if sites[i].content !in sphere.defs {
        return None;
      }
      var site, definition := sites[i], sphere.defs[sites[i].content];
      if definition.kind == Crystal && site.crystalStage < Saturating(definition.crystalStages, 1) {
        return None;
      }
      if site.content !in dropsItem {
        return None;
      }
      plan := Some(PlanOf(site, definition, toolTier));
    }

    method FindSite(id: nat) returns (i: nat)
      ensures i == FindId(sites, id, 0)
    {
      i := 0;
      while i < |sites| && sites[i].id != id
        invariant i <= |sites| && FindId(sites, id, 0) == FindId(sites, id, i)
      {
        i := i + 1;
      }
    }

    /** Carry out a plan. It succeeds exactly when it is allowed, and then custody falls by exactly what the boundary's
        net export rises by, resonance by resonance. Successful or not, it is one step of an ecology run: a failure has
        lost what was withdrawn before the short band, or withdrawn and not exported, and keeps the books exactly when
        that is nothing. */
    method ApplyHarvest(plan: HarvestPlan, day: nat) returns (r: Option<EcologyError>)
      requires Valid()
      modifies this`sites, this`boundary, this`eventSequence
      ensures Valid() && HarvestEnd(State(), r) == HarvestStep(sphere, old(State()), plan, day)
      ensures r.None? <==> HarvestAllowed(sphere, old(State()), plan)
      ensures BooksShort(old(State()), State(), HarvestLost(sphere, old(State()), plan))
      ensures KeepsBooks(old(State()), State()) <==> HarvestSpares(sphere, old(State()), plan)
      ensures r.None? ==>
                forall s | 0 <= s < 6 ::
                  && PlanetCustody(cells, sites, s)
                     == PlanetCustody(cells, old(sites), s) - plan.charge[s] - plan.dross[s]
                  && Net(boundary, s) == Net(old(boundary), s) + plan.charge[s] + plan.dross[s]
    {
      StateIs();
      HarvestLaws(sphere, State(), plan, day);
      hide *;
      r := CarryOut(plan, day);
      StateIs();
    }

    /** Withdraw, export, count; stop where the source stops. */
    method CarryOut(plan: HarvestPlan, day: nat) returns (r: Option<EcologyError>)
      modifies this`sites, this`boundary, this`eventSequence
      ensures HarvestEnd(State(), r) == HarvestStep(sphere, old(State()), plan, day)
    {
      ghost var st := State();
      StateIs();
      HarvestCases(sphere, st, plan, day);
      hide *;
      var i := FindSite(plan.site);
      if i == |sites| {
        return Some(SiteDisappeared);
      }
      if sites[i].content !in sphere.defs {
        return Some(ContentDisappeared);
      }
      r := Withdraw(i, sphere.defs[sites[i].content], plan, day);
      StateIs();
      if r.Some? {
        return;
      }
      var exported := ExportBands(SixPlus(plan.charge, plan.dross));
      StateIs();
      if !exported {
        return Some(BoundaryOverflow);
      }
      if eventSequence >= U64_MAX {
        return Some(SequenceOverflow);
      }
      eventSequence := eventSequence + 1;
      StateIs();
      r := None;
    }

    /** Take the planned units out of a site and settle what becomes of it, or stop at the first band that is short. */
    method Withdraw(i: nat, definition: EcologyDef, plan: HarvestPlan, day: nat) returns (r: Option<EcologyError>)
      requires i < |sites|
      modifies this`sites
      ensures sites == old(sites)[i := WithdrawnSite(old(sites)[i], definition, plan, day)]
      ensures r == if !Covers6(old(sites)[i].charge, plan.charge) then Some(ChargeTaken)
                   else if !Covers6(old(sites)[i].dross, plan.dross) then Some(DrossTaken) else None
    {
      hide DrawnUntil, Covers6, SixMinus, AfterHarvest;
      var site := sites[i];
      var charge, charged := CheckedTake(site.charge, plan.charge);
      if !charged {
        sites := sites[i := site.(charge := charge)];
        return Some(ChargeTaken);
      }
      DrawnAll(site.charge, plan.charge);
      var dross, drained := CheckedTake(site.dross, plan.dross);
      if !drained {
        sites := sites[i := site.(charge := charge, dross := dross)];
        return Some(DrossTaken);
      }
      sites := sites[i := AfterHarvest(site, definition, plan, day)];
      r := None;
    }

    /** An outbound transfer first cancels what came in before; a counter that would overflow is noticed after that. */
    method RecordExport(slot: nat, units: nat) returns (ok: bool)
      requires slot < 6
      modifies this`boundary
      ensures ok <==> ExportFits(old(boundary), slot, units)
      ensures ok ==> boundary == Exported(old(boundary), slot, units)
      ensures boundary.imported == old(boundary).imported[slot := Saturating(old(boundary).imported[slot], units)]
      ensures !ok ==> boundary.exported == old(boundary).exported
    {
      var cancelled := Min(boundary.imported[slot], units);
      var rest := units - cancelled;
      boundary := boundary.(imported := boundary.imported[slot := boundary.imported[slot] - cancelled]);
      ok := boundary.exported[slot] + rest <= U64_MAX;
      if ok {
        boundary := boundary.(exported := boundary.exported[slot := boundary.exported[slot] + rest]);
      }
    }

    /** An inbound transfer first closes outstanding exports. */
    method RecordImport(slot: nat, units: nat) returns (ok: bool)
      requires slot < 6
      modifies this`boundary
      ensures ok <==> old(boundary).imported[slot] + Saturating(units, old(boundary).exported[slot]) <= U64_MAX
      ensures ok ==> boundary == Imported(old(boundary), slot, units)
      ensures boundary.exported == old(boundary).exported[slot := Saturating(old(boundary).exported[slot], units)]
      ensures !ok ==> boundary.imported == old(boundary).imported
    {
      var cancelled := Min(boundary.exported[slot], units);
      var rest := units - cancelled;
      boundary := boundary.(exported := boundary.exported[slot := boundary.exported[slot] - cancelled]);
      ok := boundary.imported[slot] + rest <= U64_MAX;
      if ok {
        boundary := boundary.(imported := boundary.imported[slot := boundary.imported[slot] + rest]);
      }
    }

    /** Export six bands; stop at the first whose counter would overflow. */
    method ExportBands(units: Six) returns (ok: bool)
      modifies this`boundary
      ensures boundary == ExportedUntil(old(boundary), units) && (ok <==> BoundaryFits(old(boundary), units))
    {
      ghost var b, flags := boundary, ExportFlags(boundary, units);
      ghost var sums, rests := SixPlus(b.exported, SixMinus(units, b.imported)), SixMinus(b.imported, units);
      ExportSlots(b, units);
      hide Until, ExportFlags, Cancelled, SixPlus, SixMinus;
      for slot := 0 to 6
        invariant Through(flags, slot)
        invariant forall s | 0 <= s < 6 :: boundary.exported[s] == if s < slot then sums[s] else b.exported[s]
        invariant forall s | 0 <= s < 6 :: boundary.imported[s] == if s < slot then rests[s] else b.imported[s]
      {
        var recorded := RecordExport(slot, units[slot]);
        if !recorded {
          CancelledStop(flags, slot);
          UntilStopped(flags, sums, b.exported, slot, boundary.exported);
          UntilStopped(Cancelled(flags), rests, b.imported, slot + 1, boundary.imported);
          return false;
        }
      }
      CancelledAll(flags);
      UntilStopped(flags, sums, b.exported, 6, boundary.exported);
      UntilStopped(Cancelled(flags), rests, b.imported, 6, boundary.imported);
      ok := true;
    }

    method FindStandingSite(block: nat) returns (i: nat)
      ensures i == FindStanding(sites, block, 0)
    {
      i := 0;
      while i < |sites| && (sites[i].block != Some(block) || sites[i].stage == Harvested)
        invariant i <= |sites| && FindStanding(sites, block, 0) == FindStanding(sites, block, i)
      {
        i := i + 1;
      }
    }

    /** A block is torn down: its charge goes to its cell as its content disposes, what finds no room stays with the
        litter, and the books are kept whether or not the event counter can still count. */
    method ApplyDestructiveLoss(block: nat) returns (r: Result<bool, EcologyError>)
      requires Valid()
      modifies this`sites, this`cells, this`eventSequence
      ensures Valid() && LossEnd(State(), r) == LossStep(sphere, old(State()), block)
      ensures KeepsBooks(old(State()), State())
      ensures r == Ok(false) <==>
              forall i | 0 <= i < |old(sites)| ::
                old(sites)[i].block != Some(block) || old(sites)[i].stage == Harvested
    {
      ghost var st := State();
      StateIs();
      LossLaws(sphere, st, block);
      LossCases(sphere, st, block);
      hide *;
      var i := FindStandingSite(block);
      if i == |sites| {
        return Ok(false);
      }
      if sites[i].content !in sphere.defs {
        return Err(ContentDisappeared);
      }
      TearDown(i, sphere.defs[sites[i].content]);
      StateIs();
      if eventSequence >= U64_MAX {
        return Err(SequenceOverflow);
      }
      eventSequence := eventSequence + 1;
      StateIs();
      r := Ok(true);
    }

    /** One site loses its population and gives its charge to its cell, as far as there is room. */
    method TearDown(i: nat, definition: EcologyDef)
      requires i < |sites| && sites[i].cell < |cells|
      modifies this`cells, this`sites
      ensures var site := old(sites)[i];
              var lost := Destroyed(site, definition, old(cells)[site.cell],
                                    FoulsCell(sphere.dispositions, site.content));
              sites == old(sites)[i := lost.site] && cells == old(cells)[site.cell := lost.cell]
    {
      hide RoomFor, Absorbed, SameCustody, Sum6, SixMinus;
      var site := sites[i];
      var toDross := FoulsCell(sphere.dispositions, site.content);
      var site', cell' := DischargeAll(site, cells[site.cell], toDross);
      var seeds := if definition.kind == Crystal then 0 else Saturating(site'.seedBank, 2);
      site' := site'.(population := 0, seedBank := seeds, crystalStage := 0,
                      stage := if seeds == 0 then Harvested else Collapsed,
                      collapses := Min(site'.collapses + 1, U16_MAX));
      cells := cells[site.cell := cell'];
      sites := sites[i := site'];
    }
  }

  /** Checked subtraction of six bands; it stops at the first that is short. */
  method CheckedTake(stored: Six, taken: Six) returns (out: Six, ok: bool)
    ensures out == DrawnUntil(stored, taken) && (ok <==> Covers6(stored, taken))
    ensures ok ==> out == SixMinus(stored, taken)
  {
    ghost var flags, rest := CoverFlags(stored, taken), SixMinus(stored, taken);
    assert forall s | 0 <= s < 6 :: flags[s] <==> taken[s] <= stored[s];
    assert forall s | 0 <= s < 6 :: rest[s] == Saturating(stored[s], taken[s]);
    hide CoverFlags, SixMinus, Until;
    out := stored;
    for slot := 0 to 6
      invariant forall s | 0 <= s < 6 :: out[s] == if s < slot then rest[s] else stored[s]
      invariant Through(flags, slot)
    {
      if stored[slot] < taken[slot] {
        UntilStopped(flags, rest, stored, slot, out);
        return out, false;
      }
      out := out[slot := out[slot] - taken[slot]];
    }
    UntilStopped(flags, rest, stored, 6, out);
    ok := true;
  }

  lemma LessWater(water: nat, drunk: nat)
    requires drunk <= water
    ensures Saturating(water, drunk) == water - drunk
  {
  }

  lemma NoWaterMoved(offered: map<nat, nat>)
    ensures WaterKept(offered, offered, map[])
  {
  }

  lemma StartIs(st: EcologyState, offered: map<nat, nat>)
    ensures StartGrove(st, offered) == Grove(st.cells, st.sites, offered, true)
  {
  }

  /** What a slice promises, gathered from the laws of the run. */
  lemma DayLaws(e: Ecosphere, climate: Climate, st: EcologyState, targetDay: nat, budget: nat, offered: map<nat, nat>)
    requires Orderly(st)
    ensures var end := DayStep(e, climate, st, targetDay, budget, offered);
            && Orderly(end.state)
            && BooksShort(st, end.state, DayStepLost(e, climate, st, targetDay, budget, offered))
            && (end.ok ==>
                  KeepsBooks(st, end.state) && SameEverywhere(st.cells, st.sites, end.state.cells, end.state.sites))
            && (AllHardy(e.defs, st.sites) ==> end.ok && AllHardy(e.defs, end.state.sites))
            && (end.ok && DayDue(st, targetDay) ==>
                  forall i | 0 <= i < |st.sites| ::
                    if DayStart(st) <= i < DayEnd(st, budget)
                    then SiteLaw(e.defs, st.sites[i], end.state.sites[i]) else end.state.sites[i] == st.sites[i])
  {
    hide Orderly, BooksShort, KeepsBooks, PlanetShort, SiteLaw, AllHardy, LiveTo, LostTo, Rooted;
    OrderlyParts(st);
    DayStepLaw(e, climate, st, targetDay, budget, offered);
    StepParts(st, DayStep(e, climate, st, targetDay, budget, offered),
              DayStepLost(e, climate, st, targetDay, budget, offered));
    var end, lost :=
      DayStep(e, climate, st, targetDay, budget, offered), DayStepLost(e, climate, st, targetDay, budget, offered);
    KeepsIff(st, end.state, lost);
    if DayDue(st, targetDay) {
      var g := StartGrove(st, offered);
      LiveToLaw(e, climate, DayNumber(st), g, DayStart(st), DayEnd(st, budget));
      GroveIs(e, g, DayGrove(e, climate, st, budget, offered), lost);
    } else {
      PlanetStill(st.cells, st.sites);
    }
  }

  /** The ways a slice can end. */
  lemma DayCases(e: Ecosphere, climate: Climate, st: EcologyState, targetDay: nat, budget: nat, offered: map<nat, nat>)
    requires st.cursor <= |st.sites|
    ensures DayDue(st, targetDay) <==> |st.sites| != 0 && st.completedDays < targetDay
    ensures !DayDue(st, targetDay) ==> DayStep(e, climate, st, targetDay, budget, offered) == StepEnd(st, true)
    ensures DayStart(st) == if st.inProgressDay == 0 then 0 else st.cursor
    ensures DayNumber(st) == if st.inProgressDay == 0 then st.completedDays + 1 else st.inProgressDay
    ensures DayEnd(st, budget) == Min(DayStart(st) + Max(budget, 1), |st.sites|)
    ensures DayDue(st, targetDay) ==>
              var g := LiveTo(e, climate, DayNumber(st), StartGrove(st, offered), DayStart(st), DayEnd(st, budget));
              var lived := st.(cells := g.cells, sites := g.sites);
              && g == DayGrove(e, climate, st, budget, offered)
              && DayStep(e, climate, st, targetDay, budget, offered)
                 == if !g.ok then StepEnd(lived.(inProgressDay := DayNumber(st), cursor := DayStart(st)), false)
                    else if DayEnd(st, budget) == |st.sites|
                    then StepEnd(lived.(completedDays := DayNumber(st), inProgressDay := 0, cursor := 0), true)
                    else StepEnd(lived.(inProgressDay := DayNumber(st), cursor := DayEnd(st, budget)), true)
  {
    hide LiveTo;
  }

  lemma RootedLives(e: Ecosphere, climate: Climate, day: nat, g: Grove, i: nat)
    requires i < |g.sites| && Rooted(g.cells, g.sites)
    ensures g.sites[i].cell < |g.cells|
    ensures Rooted(LiveAt(e, climate, day, g, i).cells, LiveAt(e, climate, day, g, i).sites)
  {
    hide *;
    RootedAt(g.cells, g.sites, i);
    LiveAtLaw(e, climate, day, g, i);
    GroveIs(e, g, LiveAt(e, climate, day, g, i), LiveLost(e, climate, day, g, i));
  }

  /** Once a site has failed, the sites after it do not live their day. */
  lemma {:induction false} StoppedAt(e: Ecosphere, climate: Climate, day: nat, g: Grove, start: nat, mid: nat, end: nat)
    requires start <= mid <= end <= |g.sites| && !LiveTo(e, climate, day, g, start, mid).ok
    ensures LiveTo(e, climate, day, g, start, end) == LiveTo(e, climate, day, g, start, mid)
    decreases end
  {
    hide LiveAt;
    if mid < end {
      StoppedAt(e, climate, day, g, start, mid, end - 1);
      LiveAtStopped(e, climate, day, LiveTo(e, climate, day, g, start, end - 1), end - 1);
    }
  }

  lemma HarvestLaws(e: Ecosphere, st: EcologyState, plan: HarvestPlan, day: nat)
    requires Orderly(st)
    ensures var end := HarvestStep(e, st, plan, day);
            && Orderly(end.state) && BooksShort(st, end.state, HarvestLost(e, st, plan))
            && (KeepsBooks(st, end.state) <==> HarvestSpares(e, st, plan))
            && (end.error.None? <==> HarvestAllowed(e, st, plan))
            && end.state.cells == st.cells
            && (end.error.None? ==>
                  forall s | 0 <= s < 6 ::
                    && PlanetCustody(st.cells, end.state.sites, s)
                       == PlanetCustody(st.cells, st.sites, s) - plan.charge[s] - plan.dross[s]
                    && Net(end.state.boundary, s) == Net(st.boundary, s) + plan.charge[s] + plan.dross[s])
  {
    HarvestCells(e, st, plan, day);
    hide *;
    var end := HarvestStep(e, st, plan, day);
    HarvestStepLaw(e, st, plan, day);
    StepParts(st, StepEnd(end.state, end.error.None?), HarvestLost(e, st, plan));
    HarvestKeepsBooksIff(e, st, plan, day);
    HarvestAllowedIff(e, st, plan, day);
    if end.error.None? {
      forall s | 0 <= s < 6
        ensures PlanetCustody(st.cells, end.state.sites, s)
                == PlanetCustody(st.cells, st.sites, s) - plan.charge[s] - plan.dross[s]
        ensures Net(end.state.boundary, s) == Net(st.boundary, s) + plan.charge[s] + plan.dross[s]
      {
        HarvestMoves(e, st, plan, day, s);
      }
    }
  }

  lemma HarvestCells(e: Ecosphere, st: EcologyState, plan: HarvestPlan, day: nat)
    ensures HarvestStep(e, st, plan, day).state.cells == st.cells
  {
    hide FindId, WithdrawnSite, ExportedUntil, Covers6, BoundaryFits, PlanUnits;
  }

  /** The ways a harvest can end. */
  lemma HarvestCases(e: Ecosphere, st: EcologyState, plan: HarvestPlan, day: nat)
    ensures PlanUnits(plan) == SixPlus(plan.charge, plan.dross)
    ensures var at := FindId(st.sites, plan.site, 0);
            && (at == |st.sites| ==> HarvestStep(e, st, plan, day) == HarvestEnd(st, Some(SiteDisappeared)))
            && (at < |st.sites| && st.sites[at].content !in e.defs ==>
                  HarvestStep(e, st, plan, day) == HarvestEnd(st, Some(ContentDisappeared)))
            && (at < |st.sites| && st.sites[at].content in e.defs ==>
                  var site := st.sites[at];
                  var drawn := st.(sites := st.sites[at := WithdrawnSite(site, e.defs[site.content], plan, day)]);
                  var out := drawn.(boundary := ExportedUntil(st.boundary, PlanUnits(plan)));
                  HarvestStep(e, st, plan, day)
                  == if !Covers6(site.charge, plan.charge) then HarvestEnd(drawn, Some(ChargeTaken))
                     else if !Covers6(site.dross, plan.dross) then HarvestEnd(drawn, Some(DrossTaken))
                     else if !BoundaryFits(st.boundary, PlanUnits(plan)) then HarvestEnd(out, Some(BoundaryOverflow))
                     else if st.eventSequence >= U64_MAX then HarvestEnd(out, Some(SequenceOverflow))
                     else HarvestEnd(out.(eventSequence := st.eventSequence + 1), None))
  {
    hide FindId, WithdrawnSite, ExportedUntil, Covers6, BoundaryFits, SixPlus;
  }

  lemma ExportSlots(b: Boundary, units: Six)
    ensures var flags := ExportFlags(b, units);
            && (forall s | 0 <= s < 6 :: flags[s] <==> b.exported[s] + Saturating(units[s], b.imported[s]) <= U64_MAX)
            && (forall s | 0 <= s < 6 ::
                  SixPlus(b.exported, SixMinus(units, b.imported))[s]
                    == b.exported[s] + Saturating(units[s], b.imported[s]))
            && (forall s | 0 <= s < 6 :: SixMinus(b.imported, units)[s] == Saturating(b.imported[s], units[s]))
  {
    forall s | 0 <= s < 6
      ensures ExportFlags(b, units)[s] <==> b.exported[s] + Saturating(units[s], b.imported[s]) <= U64_MAX
      ensures SixPlus(b.exported, SixMinus(units, b.imported))[s] == b.exported[s] + Saturating(units[s], b.imported[s])
      ensures SixMinus(b.imported, units)[s] == Saturating(b.imported[s], units[s])
    {
      ExportFlag(b, units, s);
      SixSlots(units, b.imported, s);
      SixSlots(b.imported, units, s);
      SixSlots(b.exported, SixMinus(units, b.imported), s);
      hide ExportFlags, SixPlus, SixMinus;
    }
    hide ExportFlags, SixPlus, SixMinus;
  }

  lemma CancelledStop(flags: Flags, slot: nat)
    requires slot < 6 && Through(flags, slot) && !flags[slot]
    ensures Through(Cancelled(flags), slot + 1) && (slot + 1 < 6 ==> !Cancelled(flags)[slot + 1])
  {
    CancelledThrough(flags, slot);
    ThroughStep(flags, slot);
    if slot + 1 < 6 {
      assert Cancelled(flags)[slot + 1] == Through(flags, slot + 1);
    }
  }

  lemma CancelledAll(flags: Flags)
    requires Through(flags, 6)
    ensures Through(Cancelled(flags), 6)
  {
    CancelledThrough(flags, 5);
  }

  lemma LossLaws(e: Ecosphere, st: EcologyState, block: nat)
    requires Orderly(st)
    ensures var end := LossStep(e, st, block); Orderly(end.state) && KeepsBooks(st, end.state)
  {
    hide *;
    var end := LossStep(e, st, block);
    LossStepLaw(e, st, block);
    StepParts(st, StepEnd(end.state, end.result.Ok?), Zero6);
    KeepsIff(st, end.state, Zero6);
  }

  /** The ways a loss can end. */
  lemma LossCases(e: Ecosphere, st: EcologyState, block: nat)
    requires Orderly(st)
    ensures var at := FindStanding(st.sites, block, 0);
            && (at == |st.sites| ==> LossStep(e, st, block) == LossEnd(st, Ok(false)))
            && (at == |st.sites| <==>
                  forall i | 0 <= i < |st.sites| ::
                    st.sites[i].block != Some(block) || st.sites[i].stage == Harvested)
            && (at < |st.sites| && st.sites[at].content !in e.defs ==>
                  LossStep(e, st, block) == LossEnd(st, Err(ContentDisappeared)))
            && (at < |st.sites| ==> st.sites[at].cell < |st.cells|)
            && (at < |st.sites| && st.sites[at].content in e.defs ==>
                  var site := st.sites[at];
                  var lost := Destroyed(site, e.defs[site.content], st.cells[site.cell],
                                        FoulsCell(e.dispositions, site.content));
                  var torn := st.(cells := st.cells[site.cell := lost.cell], sites := st.sites[at := lost.site]);
                  LossStep(e, st, block)
                  == if st.eventSequence >= U64_MAX then LossEnd(torn, Err(SequenceOverflow))
                     else LossEnd(torn.(eventSequence := st.eventSequence + 1), Ok(true)))
  {
    OrderlyParts(st);
    var at := FindStanding(st.sites, block, 0);
    if at < |st.sites| {
      RootedAt(st.cells, st.sites, at);
    }
    hide Destroyed, Orderly, Rooted;
  }
}
