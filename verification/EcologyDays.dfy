/** Exactly when a day, and a whole run, keeps the books of the planet. */
module EcologyDays {
  import opened Prelude
  import opened Bands
  import opened Transport
  import opened Pouring
  import opened EcologyModel
  import opened EcologyRuns

  // ----- one site -----

  /** Every band of the site is a 32-bit number. */
  predicate Narrow(site: EcologySite) {
    forall s | 0 <= s < 6 :: site.charge[s] <= U32_MAX && site.dross[s] <= U32_MAX
  }

  /** Checked before the day: it is not favourable, or every band has room for what the organism will take up. */
  predicate RoomToFeed(site: EcologySite, definition: EcologyDef, weather: Weather, cell: Cell, water: nat) {
    Favourable(site, definition, weather, water) ==>
      var held := Eaten(site, definition.source == FromDross);
      var moved := FedBands(site, definition, cell, DailyUptake(site, definition, weather));
      forall s | 0 <= s < 6 :: held[s] + moved[s] <= U32_MAX
  }

  lemma AllFitIff(target: Six, moved: Six)
    ensures AllFit(target, moved) <==> forall s | 0 <= s < 6 :: target[s] + moved[s] <= U32_MAX
  {
    var flags := FitFlags(target, moved);
    assert forall s | 0 <= s < 6 :: flags[s] <==> target[s] + moved[s] <= U32_MAX;
    hide FitFlags;
  }

  /** Into 32-bit bands, nothing is lost exactly when every band has room. */
  lemma UnaddedIff(target: Six, moved: Six)
    requires forall s | 0 <= s < 6 :: target[s] <= U32_MAX
    ensures Unadded(target, moved) == Zero6 <==> AllFit(target, moved)
  {
    AllFitIff(target, moved);
    if AllFit(target, moved) {
      AddedAll(target, moved);
    } else {
      var k :| 0 <= k < 6 && U32_MAX < target[k] + moved[k];
      UntilSlot(FitFlags(target, moved), Zero6, moved, k);
      assert !FitFlags(target, moved)[k];
      assert Unadded(target, moved)[k] == moved[k] != 0;
    }
  }

  /** Resting and drinking change nothing an uptake depends on. */
  lemma FeedsAlike(site: EcologySite, definition: EcologyDef, weather: Weather, cell: Cell, water: nat)
    ensures var drunk := Drunk(Mineralized(site), definition);
            && drunk.charge == site.charge && drunk.dross == site.dross
            && FedBands(drunk, definition, cell, DailyUptake(drunk, definition, weather))
               == FedBands(site, definition, cell, DailyUptake(site, definition, weather))
            && Favourable(Mineralized(site), definition, weather, water) == Favourable(site, definition, weather, water)
  {
    MineralizedLaw(definition, site, weather, cell, water);
    hide Uptake, Sum6, WaterNeed, Stalled, Saturated, Favourable, DayLaw, Hardy;
  }

  lemma RoomIff(site: EcologySite, definition: EcologyDef, weather: Weather, cell: Cell, water: nat)
    ensures var drunk := Drunk(Mineralized(site), definition);
            RoomToFeed(site, definition, weather, cell, water)
            <==> (Favourable(Mineralized(site), definition, weather, water) ==>
                    AllFit(Eaten(drunk, definition.source == FromDross),
                           FedBands(drunk, definition, cell, DailyUptake(drunk, definition, weather))))
  {
    FeedsAlike(site, definition, weather, cell, water);
    var drunk := Drunk(Mineralized(site), definition);
    AllFitIff(Eaten(drunk, definition.source == FromDross),
              FedBands(drunk, definition, cell, DailyUptake(drunk, definition, weather)));
    hide Favourable, FedBands, Drunk, Mineralized, DailyUptake, AllFit;
  }

  /** A day can be finished exactly when there is room to feed. */
  lemma DayOkIff(site: EcologySite, definition: EcologyDef, weather: Weather, cell: Cell, day: nat, water: nat)
    ensures DayOf(site, definition, weather, cell, day, water).ok
            <==> RoomToFeed(site, definition, weather, cell, water)
  {
    hide *;
    var rested := Mineralized(site);
    RoomIff(site, definition, weather, cell, water);
    DayOfIs(site, definition, weather, cell, day, water);
    MorningOkIff(rested, definition, weather, cell, day, water);
    var morning := Morning(rested, definition, weather, cell, day, water);
    if morning.ok {
      var noon := Noon(morning.site, definition, weather, morning.cell, day);
      NoonLaw(definition, weather, morning.site, morning.cell, day);
      EveningLaw(definition, noon.site, noon.cell);
      PartIs(definition, noon.site, noon.cell, Evening(noon.site, definition, noon.cell));
    }
  }

  lemma MorningOkIff(rested: EcologySite, definition: EcologyDef, weather: Weather, cell: Cell, day: nat, water: nat)
    ensures var drunk := Drunk(rested, definition);
            Morning(rested, definition, weather, cell, day, water).ok
            <==> (Favourable(rested, definition, weather, water) ==>
                    AllFit(Eaten(drunk, definition.source == FromDross),
                           FedBands(drunk, definition, cell, DailyUptake(drunk, definition, weather))))
  {
    hide *;
    var drunk := Drunk(rested, definition);
    var uptake := DailyUptake(drunk, definition, weather);
    var fed := Fed(drunk, definition, cell, uptake);
    MorningWays(rested, definition, weather, cell, day, water);
    FlourishedIs(rested, definition, weather, cell, day);
    FedIs(drunk, definition, cell, uptake);
    EatenIs(drunk, definition.source == FromDross);
    DigestedLaw(definition, fed.site, fed.cell, day);
    PartIs(definition, fed.site, fed.cell, Digested(fed.site, definition, fed.cell, day));
    WitheredLaw(definition, rested, cell);
    PartIs(definition, rested, cell, Withered(rested, definition, cell));
  }

  lemma EatenIs(site: EcologySite, dross: bool)
    ensures Eaten(site, dross) == if dross then site.dross else site.charge
  {
  }

  lemma MorningWays(rested: EcologySite, definition: EcologyDef, weather: Weather, cell: Cell, day: nat, water: nat)
    ensures var r := Morning(rested, definition, weather, cell, day, water);
            if Favourable(rested, definition, weather, water)
            then r == Flourished(rested, definition, weather, cell, day)
            else r == Withered(rested, definition, cell) || r == Lived(rested, cell, true)
  {
    hide Favourable, Flourished, Withered, Stalled, Tick;
  }

  /** And only then does it lose nothing. */
  lemma DayLostIff(site: EcologySite, definition: EcologyDef, weather: Weather, cell: Cell, water: nat)
    requires Narrow(site)
    ensures DayLost(site, definition, weather, cell, water) == Zero6
            <==> RoomToFeed(site, definition, weather, cell, water)
  {
    var drunk := Drunk(Mineralized(site), definition);
    var dross := definition.source == FromDross;
    var uptake := DailyUptake(drunk, definition, weather);
    RoomIff(site, definition, weather, cell, water);
    FeedsAlike(site, definition, weather, cell, water);
    UnaddedIff(Eaten(drunk, dross), FedBands(drunk, definition, cell, uptake));
    hide Favourable, FedBands, Drunk, Mineralized, DailyUptake, AllFit, Unadded, RoomToFeed;
  }

  /** The custody of a site and its cell survives the day exactly when there is room to feed. */
  lemma DayKeepsCustodyIff(definition: EcologyDef, weather: Weather, site: EcologySite, cell: Cell, day: nat,
                           water: nat)
    requires Narrow(site) && site.waterDrawn <= U64_MAX
    ensures var r := DayOf(site, definition, weather, cell, day, water);
            SameCustody(site, cell, r.site, r.cell) <==> RoomToFeed(site, definition, weather, cell, water)
  {
    hide *;
    var r, lost := DayOf(site, definition, weather, cell, day, water), DayLost(site, definition, weather, cell, water);
    DayOfLaw(definition, weather, site, cell, day, water);
    DayLostIff(site, definition, weather, cell, water);
    SameIsShort(site, cell, r.site, r.cell);
    if SameCustody(site, cell, r.site, r.cell) {
      ShortOnce(site, cell, r.site, r.cell, lost);
    }
  }

  lemma ShortOnce(site: EcologySite, cell: Cell, site': EcologySite, cell': Cell, lost: Six)
    requires SameCustody(site, cell, site', cell') && ShortCustody(site, cell, site', cell', lost)
    ensures lost == Zero6
  {
    forall s | 0 <= s < 6 ensures lost[s] == Zero6[s] {
      assert Custody(site', cell', s) == Custody(site, cell, s);
    }
    hide Custody, Representable;
  }

  // ----- a slice of a day -----

  predicate FedAt(e: Ecosphere, climate: Climate, day: nat, g: Grove, i: nat)
    requires i < |g.sites|
  {
    var site := g.sites[i];
    site.content in e.defs && site.cell < |g.cells| ==>
      var cell := g.cells[site.cell];
      RoomToFeed(site, e.defs[site.content], climate(site, cell, day), cell, Amount(g.water, site.cell))
  }

  /** Every site of the slice finds room at its turn. */
  ghost predicate SliceFed(e: Ecosphere, climate: Climate, day: nat, g: Grove, start: nat, end: nat)
    requires start <= end <= |g.sites|
  {
    forall k: nat | start <= k < end :: FedAt(e, climate, day, LiveTo(e, climate, day, g, start, k), k)
  }

  ghost predicate AllNarrow(sites: seq<EcologySite>) {
    forall i | 0 <= i < |sites| :: Narrow(sites[i])
  }

  lemma SiteIff(e: Ecosphere, climate: Climate, day: nat, g: Grove, i: nat)
    requires i < |g.sites| && Rooted(g.cells, g.sites) && g.ok && Narrow(g.sites[i])
    ensures LiveAt(e, climate, day, g, i).ok <==> FedAt(e, climate, day, g, i)
    ensures LiveLost(e, climate, day, g, i) == Zero6 <==> FedAt(e, climate, day, g, i)
  {
    RootedAt(g.cells, g.sites, i);
    var site := g.sites[i];
    if site.content in e.defs {
      var cell, water := g.cells[site.cell], Amount(g.water, site.cell);
      var weather := climate(site, cell, day);
      LiveAtKnown(e, climate, day, g, i);
      DayOkIff(site, e.defs[site.content], weather, cell, day, water);
      DayLostIff(site, e.defs[site.content], weather, cell, water);
    } else {
      LiveAtUnknown(e, climate, day, g, i);
    }
    hide LiveAt, LiveLost, RoomToFeed, Narrow, Rooted, DayOf, DayLost, Amount;
  }

  lemma SliceStep(e: Ecosphere, climate: Climate, day: nat, g: Grove, start: nat, end: nat)
    requires start < end <= |g.sites|
    ensures SliceFed(e, climate, day, g, start, end)
            <==> && SliceFed(e, climate, day, g, start, end - 1)
                 && FedAt(e, climate, day, LiveTo(e, climate, day, g, start, end - 1), end - 1)
  {
    hide LiveTo, FedAt;
  }

  lemma SliceStart(e: Ecosphere, climate: Climate, day: nat, g: Grove, start: nat)
    requires start <= |g.sites|
    ensures SliceFed(e, climate, day, g, start, start)
  {
  }

  /** A slice reaches its end, and loses nothing, exactly when every site finds room at its turn. */
  lemma {:induction false} SliceIff(e: Ecosphere, climate: Climate, day: nat, g: Grove, start: nat, end: nat)
    requires start <= end <= |g.sites| && Rooted(g.cells, g.sites) && g.ok && AllNarrow(g.sites)
    ensures LiveTo(e, climate, day, g, start, end).ok <==> SliceFed(e, climate, day, g, start, end)
    ensures LostTo(e, climate, day, g, start, end) == Zero6 <==> SliceFed(e, climate, day, g, start, end)
    decreases end
  {
    hide *;
    if start == end {
      LiveNothing(e, climate, day, g, start);
      SliceStart(e, climate, day, g, start);
    } else {
      var before := LiveTo(e, climate, day, g, start, end - 1);
      SliceIff(e, climate, day, g, start, end - 1);
      SliceStep(e, climate, day, g, start, end);
      LiveStep(e, climate, day, g, start, end);
      LiveToLaw(e, climate, day, g, start, end - 1);
      GroveIs(e, g, before, LostTo(e, climate, day, g, start, end - 1));
      PlusZeroIff(LostTo(e, climate, day, g, start, end - 1), LiveLost(e, climate, day, before, end - 1));
      if before.ok {
        NarrowAt(g.sites, end - 1);
        SiteIff(e, climate, day, before, end - 1);
      } else {
        LiveAtStopped(e, climate, day, before, end - 1);
      }
    }
  }

  lemma NarrowAt(sites: seq<EcologySite>, i: nat)
    requires AllNarrow(sites) && i < |sites|
    ensures Narrow(sites[i])
  {
    hide Narrow;
  }

  /** Checked before the call: no day is due, or every site of the slice finds room at its turn. */
  ghost predicate DaySpares(e: Ecosphere, climate: Climate, st: EcologyState, targetDay: nat, budget: nat,
                            offered: map<nat, nat>)
    requires st.cursor <= |st.sites|
  {
    DayDue(st, targetDay) ==>
      SliceFed(e, climate, DayNumber(st), StartGrove(st, offered), DayStart(st), DayEnd(st, budget))
  }

  /** A slice of a day succeeds, and keeps custody plus net export of every resonance, exactly when it is spared. */
  lemma DayKeepsBooksIff(e: Ecosphere, climate: Climate, st: EcologyState, targetDay: nat, budget: nat,
                         offered: map<nat, nat>)
    requires Orderly(st) && AllNarrow(st.sites)
    ensures DayStep(e, climate, st, targetDay, budget, offered).ok
            <==> DaySpares(e, climate, st, targetDay, budget, offered)
    ensures KeepsBooks(st, DayStep(e, climate, st, targetDay, budget, offered).state)
            <==> DaySpares(e, climate, st, targetDay, budget, offered)
  {
    OrderlyParts(st);
    var end := DayStep(e, climate, st, targetDay, budget, offered);
    var lost := DayStepLost(e, climate, st, targetDay, budget, offered);
    var g := StartGrove(st, offered);
    if DayDue(st, targetDay) {
      SliceIff(e, climate, DayNumber(st), g, DayStart(st), DayEnd(st, budget));
    }
    assert lost == Zero6 <==> DaySpares(e, climate, st, targetDay, budget, offered) by {
      hide LiveTo, LostTo, SliceFed, Orderly, Rooted;
    }
    assert end.ok <==> DaySpares(e, climate, st, targetDay, budget, offered) by {
      hide LiveTo, LostTo, SliceFed, Orderly, Rooted;
    }
    hide *;
    DayStepLaw(e, climate, st, targetDay, budget, offered);
    StepParts(st, end, lost);
    KeepsIff(st, end.state, lost);
  }

  // ----- bands stay 32 bits wide -----

  lemma AddedNarrow(target: Six, moved: Six)
    requires forall s | 0 <= s < 6 :: target[s] <= U32_MAX
    ensures forall s | 0 <= s < 6 :: AddedUntil(target, moved)[s] <= U32_MAX
  {
    var flags := FitFlags(target, moved);
    assert forall s | 0 <= s < 6 :: flags[s] <==> target[s] + moved[s] <= U32_MAX;
    forall s | 0 <= s < 6 ensures AddedUntil(target, moved)[s] <= U32_MAX {
      UntilSlot(flags, SixPlus(target, moved), target, s);
      ThroughStep(flags, s);
      SixSlots(target, moved, s);
      hide Until, FitFlags, Through, SixPlus;
    }
    hide AddedUntil;
  }

  lemma MinusNarrow(a: Six, b: Six)
    ensures forall s | 0 <= s < 6 :: SixMinus(a, b)[s] <= a[s]
  {
  }

  lemma FedNarrow(site: EcologySite, definition: EcologyDef, cell: Cell, uptake: nat)
    requires Narrow(site)
    ensures Narrow(Fed(site, definition, cell, uptake).site)
  {
    FedIs(site, definition, cell, uptake);
    var moved := FedBands(site, definition, cell, uptake);
    AddedNarrow(site.charge, moved);
    AddedNarrow(site.dross, moved);
    hide Fed, FedBands, AddedUntil;
  }

  lemma SameNarrow(site: EcologySite, site': EcologySite)
    requires Narrow(site) && SameBands(site, site')
    ensures Narrow(site')
  {
    hide Nutrients;
  }

  lemma LessNarrow(site: EcologySite, site': EcologySite, moved: Six)
    requires Narrow(site) && site'.charge == SixMinus(site.charge, moved) && site'.dross == site.dross
    ensures Narrow(site')
  {
    MinusNarrow(site.charge, moved);
    hide SixMinus;
  }

  lemma DigestedNarrow(site: EcologySite, definition: EcologyDef, cell: Cell, day: nat)
    requires Narrow(site)
    ensures Narrow(Digested(site, definition, cell, day).site)
  {
    var released := Released(site, definition, cell);
    assert released.site
           == Discharged(site,
                         Poured(RoomFor(site.charge, cell.ambient), Min(definition.releasePerDay, Sum6(site.charge))));
    LessNarrow(site, released.site,
               Poured(RoomFor(site.charge, cell.ambient), Min(definition.releasePerDay, Sum6(site.charge))));
    SameNarrow(released.site, Grown(released.site, definition));
    hide Released, Grown, Narrow, Tick, SameBands, SixMinus;
  }

  lemma WitheredNarrow(site: EcologySite, definition: EcologyDef, cell: Cell)
    requires Narrow(site)
    ensures Narrow(Withered(site, definition, cell).site)
  {
    var lost := PopulationLost(site, definition);
    SameNarrow(site, lost);
    var r := CollapsedInto(lost, definition, cell);
    LessNarrow(lost, r.site, RoomFor(lost.charge, Pool(cell, definition.kind == Crystal)));
    hide Narrow, PopulationLost, CollapsedInto, SixMinus;
  }

  lemma MorningNarrow(rested: EcologySite, definition: EcologyDef, weather: Weather, cell: Cell, day: nat, water: nat)
    requires Narrow(rested)
    ensures Narrow(Morning(rested, definition, weather, cell, day, water).site)
  {
    var drunk := Drunk(rested, definition);
    assert Narrow(drunk) by { hide WaterNeed, Saturated; }
    hide *;
    var uptake := DailyUptake(drunk, definition, weather);
    var fed := Fed(drunk, definition, cell, uptake);
    MorningWays(rested, definition, weather, cell, day, water);
    FlourishedIs(rested, definition, weather, cell, day);
    FedNarrow(drunk, definition, cell, uptake);
    DigestedNarrow(fed.site, definition, fed.cell, day);
    WitheredNarrow(rested, definition, cell);
  }

  lemma NoonNarrow(site: EcologySite, definition: EcologyDef, weather: Weather, cell: Cell, day: nat)
    requires Narrow(site)
    ensures Narrow(Noon(site, definition, weather, cell, day).site)
  {
    WitheredNarrow(site, definition, cell);
    hide Withered, Narrow, Wilting, Tick;
  }

  lemma EveningNarrow(site: EcologySite, definition: EcologyDef, cell: Cell)
    requires Narrow(site)
    ensures Narrow(Evening(site, definition, cell).site)
  {
    WitheredNarrow(site, definition, cell);
    hide Withered, Narrow, DrossLimit, Sum6;
  }

  /** No day makes a band outgrow 32 bits. */
  lemma DayNarrow(site: EcologySite, definition: EcologyDef, weather: Weather, cell: Cell, day: nat, water: nat)
    requires Narrow(site)
    ensures Narrow(DayOf(site, definition, weather, cell, day, water).site)
  {
    var rested := Mineralized(site);
    SameNarrow(site, rested);
    hide *;
    DayOfIs(site, definition, weather, cell, day, water);
    MorningNarrow(rested, definition, weather, cell, day, water);
    var morning := Morning(rested, definition, weather, cell, day, water);
    var noon := Noon(morning.site, definition, weather, morning.cell, day);
    NoonNarrow(morning.site, definition, weather, morning.cell, day);
    EveningNarrow(noon.site, definition, noon.cell);
  }

  lemma PutNarrow(sites: seq<EcologySite>, i: nat, site: EcologySite)
    requires AllNarrow(sites) && i < |sites| && Narrow(site)
    ensures AllNarrow(sites[i := site])
  {
    hide Narrow;
  }

  lemma LiveAtNarrow(e: Ecosphere, climate: Climate, day: nat, g: Grove, i: nat)
    requires i < |g.sites| && AllNarrow(g.sites)
    ensures AllNarrow(LiveAt(e, climate, day, g, i).sites)
  {
    NarrowAt(g.sites, i);
    var site := g.sites[i];
    if g.ok && site.content in e.defs && site.cell < |g.cells| {
      LiveAtKnown(e, climate, day, g, i);
      var cell, water := g.cells[site.cell], Amount(g.water, site.cell);
      var weather := climate(site, cell, day);
      DayNarrow(site, e.defs[site.content], weather, cell, day, water);
      PutNarrow(g.sites, i, DayOf(site, e.defs[site.content], weather, cell, day, water).site);
    } else {
      assert Narrow(site.(stage := Dormant));
      PutNarrow(g.sites, i, site.(stage := Dormant));
    }
    hide AllNarrow, Narrow, DayOf, Amount, Drinks;
  }

  lemma {:induction false} LiveToNarrow(e: Ecosphere, climate: Climate, day: nat, g: Grove, start: nat, end: nat)
    requires start <= end <= |g.sites| && AllNarrow(g.sites)
    ensures AllNarrow(LiveTo(e, climate, day, g, start, end).sites)
    decreases end
  {
    hide AllNarrow, LiveAt;
    if start < end {
      LiveToNarrow(e, climate, day, g, start, end - 1);
      LiveAtNarrow(e, climate, day, LiveTo(e, climate, day, g, start, end - 1), end - 1);
    }
  }

  lemma WithdrawnNarrow(site: EcologySite, definition: EcologyDef, plan: HarvestPlan, day: nat)
    requires Narrow(site)
    ensures Narrow(WithdrawnSite(site, definition, plan, day))
  {
    var after := WithdrawnSite(site, definition, plan, day);
    AfterHarvestKeeps(site, definition, plan, day);
    MinusNarrow(site.charge, plan.charge);
    MinusNarrow(site.dross, plan.dross);
    forall s | 0 <= s < 6
      ensures DrawnUntil(site.charge, plan.charge)[s] <= site.charge[s]
      ensures DrawnUntil(site.dross, plan.dross)[s] <= site.dross[s]
    {
      DrawnSlot(site.charge, plan.charge, s);
      DrawnSlot(site.dross, plan.dross, s);
      hide DrawnUntil, TakenUntil;
    }
    hide AfterHarvest, Covers6, DrawnUntil, SixMinus;
  }

  lemma DestroyedNarrow(site: EcologySite, definition: EcologyDef, cell: Cell, toDross: bool)
    requires Narrow(site)
    ensures Narrow(Destroyed(site, definition, cell, toDross).site)
  {
    LessNarrow(site, Destroyed(site, definition, cell, toDross).site, RoomFor(site.charge, Pool(cell, toDross)));
    hide Narrow, SixMinus, RoomFor, Absorbed;
  }

  /** No call makes a band outgrow 32 bits. */
  lemma StepNarrow(e: Ecosphere, st: EcologyState, op: EcologyOp)
    requires Orderly(st) && AllNarrow(st.sites)
    ensures AllNarrow(Step(e, st, op).state.sites)
  {
    OrderlyParts(st);
    match op
    case Day(climate, targetDay, budget, offered) =>
      hide AllNarrow, LiveTo, Orderly, Rooted;
      if DayDue(st, targetDay) {
        LiveToNarrow(e, climate, DayNumber(st), StartGrove(st, offered), DayStart(st), DayEnd(st, budget));
      }
    case Harvest(plan, day) =>
      hide AllNarrow, WithdrawnSite, Orderly, Rooted, FindId, ExportedUntil, Covers6, BoundaryFits, PlanUnits;
      var at := FindId(st.sites, plan.site, 0);
      if at < |st.sites| && st.sites[at].content in e.defs {
        NarrowAt(st.sites, at);
        WithdrawnNarrow(st.sites[at], e.defs[st.sites[at].content], plan, day);
        PutNarrow(st.sites, at, WithdrawnSite(st.sites[at], e.defs[st.sites[at].content], plan, day));
      }
    case Loss(block) =>
      hide AllNarrow, Destroyed, Orderly, Rooted, FindStanding;
      var at := FindStanding(st.sites, block, 0);
      if at < |st.sites| && st.sites[at].content in e.defs && st.sites[at].cell < |st.cells| {
        var site := st.sites[at];
        NarrowAt(st.sites, at);
        var toDross := FoulsCell(e.dispositions, site.content);
        DestroyedNarrow(site, e.defs[site.content], st.cells[site.cell], toDross);
        PutNarrow(st.sites, at, Destroyed(site, e.defs[site.content], st.cells[site.cell], toDross).site);
      }
  }

  // ----- runs -----

  ghost predicate StepSpares(e: Ecosphere, st: EcologyState, op: EcologyOp)
    requires st.cursor <= |st.sites|
  {
    match op
    case Day(climate, targetDay, budget, offered) => DaySpares(e, climate, st, targetDay, budget, offered)
    case Harvest(plan, _) => HarvestSpares(e, st, plan)
    case Loss(_) => true
  }

  /** Each call keeps the books exactly when it is spared. */
  lemma StepKeepsBooksIff(e: Ecosphere, st: EcologyState, op: EcologyOp)
    requires Orderly(st) && AllNarrow(st.sites)
    ensures KeepsBooks(st, Step(e, st, op).state) <==> StepSpares(e, st, op)
    ensures StepLost(e, st, op) == Zero6 <==> StepSpares(e, st, op)
  {
    OrderlyParts(st);
    StepKeepsBooks(e, st, op);
    StepParts(st, Step(e, st, op), StepLost(e, st, op));
    KeepsIff(st, Step(e, st, op).state, StepLost(e, st, op));
    match op
    case Day(climate, targetDay, budget, offered) =>
      DayKeepsBooksIff(e, climate, st, targetDay, budget, offered);
      hide DaySpares, DayStep, KeepsBooks, StepLaw, Orderly;
    case Harvest(plan, day) =>
      HarvestKeepsBooksIff(e, st, plan, day);
      hide HarvestSpares, HarvestStep, KeepsBooks, StepLaw, Orderly;
    case Loss(_) =>
      hide KeepsBooks, StepLaw, Orderly, LossStep;
  }

  ghost predicate RunSpares(e: Ecosphere, st: EcologyState, ops: seq<EcologyOp>) {
    ops != [] ==>
      var before := Run(e, st, ops[..|ops| - 1]);
      && RunSpares(e, st, ops[..|ops| - 1]) && before.cursor <= |before.sites|
      && StepSpares(e, before, ops[|ops| - 1])
  }

  /** A run of days, harvests and losses keeps custody plus net export of every resonance exactly when each of its calls
      is spared at its turn: what one call loses, no later call brings back. */
  lemma {:induction false} RunKeepsBooksIff(e: Ecosphere, st: EcologyState, ops: seq<EcologyOp>)
    requires Orderly(st) && AllNarrow(st.sites)
    ensures KeepsBooks(st, Run(e, st, ops)) <==> RunSpares(e, st, ops)
    ensures RunLost(e, st, ops) == Zero6 <==> RunSpares(e, st, ops)
    ensures AllNarrow(Run(e, st, ops).sites)
  {
    hide *;
    RunKeepsBooks(e, st, ops);
    KeepsIff(st, Run(e, st, ops), RunLost(e, st, ops));
    if ops == [] {
      RunNothing(e, st);
    } else {
      var front, op := ops[..|ops| - 1], ops[|ops| - 1];
      RunKeepsBooksIff(e, st, front);
      RunKeepsBooks(e, st, front);
      var before := Run(e, st, front);
      OrderlyParts(before);
      RunStep(e, st, ops);
      StepKeepsBooksIff(e, before, op);
      StepNarrow(e, before, op);
      PlusZeroIff(RunLost(e, st, front), StepLost(e, before, op));
    }
  }

  lemma RunNothing(e: Ecosphere, st: EcologyState)
    ensures Run(e, st, []) == st && RunLost(e, st, []) == Zero6 && RunSpares(e, st, [])
  {
  }

  lemma RunStep(e: Ecosphere, st: EcologyState, ops: seq<EcologyOp>)
    requires ops != []
    requires var before := Run(e, st, ops[..|ops| - 1]); before.cursor <= |before.sites|
    ensures var front, op := ops[..|ops| - 1], ops[|ops| - 1];
            var before := Run(e, st, front);
            && Run(e, st, ops) == Step(e, before, op).state
            && RunLost(e, st, ops) == SixPlus(RunLost(e, st, front), StepLost(e, before, op))
            && (RunSpares(e, st, ops) <==> RunSpares(e, st, front) && StepSpares(e, before, op))
  {
    hide Step, StepLost, StepSpares, SixPlus;
  }

  // ----- an input that loses units -----

  /** A species that may hold more than a 32-bit band can, and a site whose first band is full. */
  lemma FailedDayLoses() returns (e: Ecosphere, climate: Climate, st: EcologyState)
    ensures Orderly(st) && AllNarrow(st.sites)
    ensures var end := DayStep(e, climate, st, 1, 1, map[]);
            !end.ok && !KeepsBooks(st, end.state)
  {
    var definition := EcologyDef(Organism, FromAmbient, Fruit, U32_MAX + 10, 5, 0, Zero6, 0, 0, 0, 1, 0, 0);
    var site := EcologySite(7, "base:rainbell", 0, Some(3), Mature, 1, 2, 1, 0, Zero6[0 := U32_MAX], Zero6,
                            0, 0, 0, 0, 0, 0, 0);
    var cell := Cell(Zero6, Zero6[0 := 10], Zero6, 0, 0, 0, 0);
    e := Ecosphere(map["base:rainbell" := definition], map[]);
    climate := (_, _, _) => Weather(false, false, true, true, true, false, false);
    st := EcologyState([cell], [site], Boundary(Zero6, Zero6), 0, 0, 0, 0);
    PlainCell(cell);
    assert Rooted(st.cells, st.sites) && InCounters(st.boundary) && AllNarrow(st.sites) by {
      hide Representable;
    }
    assert Orderly(st) by {
      hide Rooted, InCounters;
    }
    NoRoomLeft(site, definition, cell);
    assert !FedAt(e, climate, 1, StartGrove(st, map[]), 0) by {
      hide RoomToFeed;
    }
    SliceNotFed(e, climate, st);
    hide *;
    DayKeepsBooksIff(e, climate, st, 1, 1, map[]);
  }

  lemma SliceNotFed(e: Ecosphere, climate: Climate, st: EcologyState)
    requires |st.sites| == 1 && st.completedDays == st.inProgressDay == st.cursor == 0
    requires !FedAt(e, climate, 1, StartGrove(st, map[]), 0)
    ensures !DaySpares(e, climate, st, 1, 1, map[])
  {
    hide FedAt;
    LiveNothing(e, climate, 1, StartGrove(st, map[]), 0);
    assert DayEnd(st, 1) == 1 && DayStart(st) == 0 && DayNumber(st) == 1 && DayDue(st, 1);
    hide LiveTo;
    assert !FedAt(e, climate, 1, LiveTo(e, climate, 1, StartGrove(st, map[]), 0, 0), 0);
  }

  lemma PlainCell(cell: Cell)
    requires cell == Cell(Zero6, Zero6[0 := 10], Zero6, 0, 0, 0, 0)
    ensures Representable(cell)
  {
  }

  /** Five units are wanted, only the first resonance can give them, and its band is full. */
  lemma NoRoomLeft(site: EcologySite, definition: EcologyDef, cell: Cell)
    requires definition == EcologyDef(Organism, FromAmbient, Fruit, U32_MAX + 10, 5, 0, Zero6, 0, 0, 0, 1, 0, 0)
    requires site == EcologySite(7, "base:rainbell", 0, Some(3), Mature, 1, 2, 1, 0, Zero6[0 := U32_MAX], Zero6,
                                 0, 0, 0, 0, 0, 0, 0)
    requires cell == Cell(Zero6, Zero6[0 := 10], Zero6, 0, 0, 0, 0)
    ensures !RoomToFeed(site, definition, Weather(false, false, true, true, true, false, false), cell, 0)
  {
    var weather := Weather(false, false, true, true, true, false, false);
    assert Sum6(site.charge) == U32_MAX && Sum6(cell.ambient) == 10;
    assert site.content != "base:stormvine" by { assert |site.content| != |"base:stormvine"|; }
    var uptake := DailyUptake(site, definition, weather);
    assert uptake == 5;
    var moved := FedBands(site, definition, cell, uptake);
    UptakeExact(cell.ambient, definition.weights, 5);
    hide Uptake;
    assert Sum6(moved) == 5;
    assert forall s | 1 <= s < 6 :: moved[s] == 0;
    assert Eaten(site, false)[0] + moved[0] == U32_MAX + 5;
  }
}
