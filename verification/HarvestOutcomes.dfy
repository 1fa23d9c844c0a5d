/** The outcome of a harvest, of a collapse and of a destructive loss on the fields of a site and its cell. */
module HarvestOutcomes {
  import opened Prelude
  import opened Bands
  import opened Transport
  import opened EcologyModel
  import opened EcologyRuns
  import opened DayOutcomes

  /** The part of its units a ripe site may give: a quarter of a fruiting one, half of a coppice, all of what is
      felled. */
  lemma PlanShares(site: EcologySite, definition: EcologyDef, toolTier: nat)
    ensures var plan := PlanOf(site, definition, toolTier);
            var part := match definition.harvest
                        case Fruit => 4
                        case Prune => 3
                        case Spore => 3
                        case Coppice => 2
                        case SeedPreserving => if definition.kind == Crystal then 1 else 3
                        case Destructive => 1;
            && plan.site == site.id
            && (forall s | 0 <= s < 6 ::
                plan.charge[s] == site.charge[s] / part && plan.dross[s] == site.dross[s] / part)
            && (plan.leavesBud <==>
                  && definition.kind == Crystal && definition.harvest == SeedPreserving
                  && definition.preservingTier <= toolTier)
            && (plan.destructive <==>
                  definition.harvest == Destructive || (definition.kind == Crystal && !plan.leavesBud))
  {
  }

  /** A site after its harvest. A crystal keeps only a bud, if it was left one; anything else has lost a seed, or, when
      felled, an individual and two seeds, and recovers unless nothing is left to recover from. */
  lemma HarvestOutcome(site: EcologySite, definition: EcologyDef, plan: HarvestPlan, day: nat)
    requires Covers6(site.charge, plan.charge) && Covers6(site.dross, plan.dross)
    ensures var after := AfterHarvest(site, definition, plan, day);
            var seeds := if plan.destructive && definition.harvest == Destructive && site.population != 0
                         then Saturating(site.seedBank, 3)
                         else if plan.destructive then Saturating(site.seedBank, 2) else Saturating(site.seedBank, 1);
            var people := if plan.destructive then Saturating(site.population, 1) else site.population;
            && (forall s | 0 <= s < 6 ::
                  after.charge[s] + plan.charge[s] == site.charge[s] && after.dross[s] + plan.dross[s] == site.dross[s])
            && after.harvests == Min(site.harvests + 1, U32_MAX) && after.lastHarvestDay == day
            && (if definition.kind == Crystal && plan.leavesBud then
                  && after.crystalStage == 1 && after.population == 1 && after.stage == Recovering
                  && after.seedBank == seeds
                else if definition.kind == Crystal then
                  && after.crystalStage == 0 && after.population == 0 && after.seedBank == 0 && after.stage == Harvested
                else
                  && after.population == people && after.seedBank == seeds
                  && after.stage == (if people == 0 || seeds == 0 then Collapsed else Recovering)
                  && after.collapses == if people == 0 || seeds == 0 then Min(site.collapses + 1, U16_MAX)
                                        else site.collapses)
  {
    CoversSlots(site.charge, plan.charge);
    CoversSlots(site.dross, plan.dross);
    AfterHarvestKeeps(site, definition, plan, day);
    forall s | 0 <= s < 6
      ensures SixMinus(site.charge, plan.charge)[s] + plan.charge[s] == site.charge[s]
      ensures SixMinus(site.dross, plan.dross)[s] + plan.dross[s] == site.dross[s]
    {
    }
    hide SixMinus, Covers6;
  }

  /** Charge on its way into a pool of 16-bit bands: what finds room, band by band. */
  function Room(charge: nat, held: nat): nat {
    Min(charge, Saturating(65_535, held))
  }

  /** A crystal that collapses fouls its cell, anything else gives its charge back as ambient Current; what finds
      no room stays with the site. */
  lemma CollapseOutcome(site: EcologySite, definition: EcologyDef, cell: Cell)
    ensures var r := CollapsedInto(site, definition, cell);
            && r.site.stage == Collapsed && r.site.dross == site.dross && r.site.population == site.population
            && r.site.collapses == Min(site.collapses + 1, 65_535)
            && forall s | 0 <= s < 6 ::
                 var pool := if definition.kind == Crystal then cell.dross[s] else cell.ambient[s];
                 && r.site.charge[s] == site.charge[s] - Room(site.charge[s], pool)
                 && r.cell.dross[s]
                    == cell.dross[s] + (if definition.kind == Crystal then Room(site.charge[s], pool) else 0)
                 && r.cell.ambient[s]
                    == cell.ambient[s] + (if definition.kind == Crystal then 0 else Room(site.charge[s], pool))
  {
  }

  /** The last individual takes its site down. */
  lemma LastDies(site: EcologySite, definition: EcologyDef, cell: Cell)
    requires site.population == 1
    ensures var r := Withered(site, definition, cell);
            && r.site.population == 0 && r.site.stage == Collapsed
            && forall s | 0 <= s < 6 ::
                 var pool := if definition.kind == Crystal then cell.dross[s] else cell.ambient[s];
                 && r.site.charge[s] == site.charge[s] - Room(site.charge[s], pool)
                 && r.cell.dross[s]
                    == cell.dross[s] + (if definition.kind == Crystal then Room(site.charge[s], pool) else 0)
                 && r.cell.ambient[s]
                    == cell.ambient[s] + (if definition.kind == Crystal then 0 else Room(site.charge[s], pool))
  {
    var lost := PopulationLost(site, definition);
    CollapseOutcome(lost, definition, cell);
    hide CollapsedInto, PopulationLost;
  }

  /** A torn-down site: nobody left, two seeds fewer or none in a crystal, its charge in the pool its content
      disposes. */
  lemma LossOutcome(site: EcologySite, definition: EcologyDef, cell: Cell, dispositions: map<string, Disposition>)
    ensures var fouls := site.content in dispositions && dispositions[site.content] != ToAmbient;
            var seeds := if definition.kind == Crystal then 0 else Saturating(site.seedBank, 2);
            var r := Destroyed(site, definition, cell, FoulsCell(dispositions, site.content));
            && r.site.population == 0 && r.site.seedBank == seeds && r.site.crystalStage == 0
            && r.site.stage == (if seeds == 0 then Harvested else Collapsed)
            && r.site.collapses == Min(site.collapses + 1, U16_MAX) && r.site.dross == site.dross
            && forall s | 0 <= s < 6 ::
                 var pool := if fouls then cell.dross[s] else cell.ambient[s];
                 && r.site.charge[s] == site.charge[s] - Room(site.charge[s], pool)
                 && r.cell.dross[s] == cell.dross[s] + (if fouls then Room(site.charge[s], pool) else 0)
                 && r.cell.ambient[s] == cell.ambient[s] + (if fouls then 0 else Room(site.charge[s], pool))
  {
  }

  /** Every known site of a slice lives its own day: in the weather of its cell as the sites before it left it, with the
      water they left, on the day of the slice. */
  lemma SiteLivesItsDay(e: Ecosphere, climate: Climate, day: nat, g: Grove, start: nat, k: nat)
    requires start <= k < |g.sites| && Rooted(g.cells, g.sites) && g.ok && g.sites[k].content in e.defs
    ensures var turn := LiveTo(e, climate, day, g, start, k);
            var after := LiveTo(e, climate, day, g, start, k + 1);
            var site := g.sites[k];
            turn.ok ==>
              && site.cell < |turn.cells| && turn.sites[k] == site
              && var cell, water := turn.cells[site.cell], if site.cell in turn.water then turn.water[site.cell] else 0;
              var lived := DayOf(site, e.defs[site.content], climate(site, cell, day), cell, day, water);
              && after.sites[k] == lived.site && after.cells == turn.cells[site.cell := lived.cell]
              && after.ok == lived.ok
              && after.water
                 == turn.water[site.cell :=
                                 if Good(site, e.defs[site.content], climate(site, cell, day), water)
                                 then Saturating(water, Thirst(e.defs[site.content], site)) else water]
  {
    hide *;
    var turn := LiveTo(e, climate, day, g, start, k);
    LiveToLaw(e, climate, day, g, start, k);
    GroveIs(e, g, turn, LostTo(e, climate, day, g, start, k));
    LiveStep(e, climate, day, g, start, k + 1);
    if turn.ok {
      var site := g.sites[k];
      RootedAt(turn.cells, turn.sites, k);
      LiveAtKnown(e, climate, day, turn, k);
      var cell, water := turn.cells[site.cell], Amount(turn.water, site.cell);
      AmountIs(turn.water, site.cell);
      DrinksIs(site, e.defs[site.content], climate(site, cell, day), day, water);
      KeptWater(water);
    }
  }

  lemma AmountIs(m: map<nat, nat>, k: nat)
    ensures Amount(m, k) == if k in m then m[k] else 0
  {
  }

  lemma KeptWater(water: nat)
    ensures Saturating(water, 0) == water
  {
  }

  lemma DrinksIs(site: EcologySite, definition: EcologyDef, weather: Weather, day: nat, water: nat)
    ensures Drinks(site, definition, weather, water)
            == if Good(site, definition, weather, water) then Thirst(definition, site) else 0
  {
    ConditionsAre(site, definition, weather, day, water);
    MineralizedLaw(definition, site, weather, Cell(Zero6, Zero6, Zero6, 0, 0, 0, 0), water);
    hide Favourable, Good, WaterNeed, Thirst, Mineralized, DayLaw;
  }
}
