/** The outcome of a day on a site's own fields: growth, seeds, deaths, water and feeding. */
module DayOutcomes {
  import opened Prelude
  import opened Bands
  import opened Transport
  import opened Pouring
  import opened EcologyModel

  // ----- what a day depends on -----

  predicate RegrowthDay(definition: EcologyDef, day: nat) {
    if definition.regrowthDays == 0 then true else day % definition.regrowthDays == 0
  }

  /** The water a population needs. */
  function Thirst(definition: EcologyDef, site: EcologySite): nat {
    var all := definition.waterPerDay * (if site.population == 0 then 1 else site.population);
    if all > U64_MAX then U64_MAX else all
  }

  predicate Good(site: EcologySite, definition: EcologyDef, weather: Weather, water: nat) {
    && weather.suitable && weather.seasonal && Thirst(definition, site) <= water && site.seedBank != 0
    && !(definition.kind == Crystal && weather.blocked)
    && !(definition.source == FromHeart && !weather.heartAlive)
    && !(definition.source != FromDross && weather.seep)
  }

  predicate Scarred(definition: EcologyDef, weather: Weather) {
    definition.source != FromDross && definition.kind != FiniteMineral && weather.scar
  }

  function Tolerated(definition: EcologyDef, population: nat): nat {
    var all := definition.drossTolerance * (if population == 0 then 1 else population);
    if all > U64_MAX then U64_MAX else all
  }

  /** Detritus that returns to the soil at the start of every day. */
  function Returned(site: EcologySite): nat {
    (site.detritus + 15) / 16
  }

  function Soil(site: EcologySite): nat {
    if site.soil + Returned(site) > U32_MAX then U32_MAX else site.soil + Returned(site)
  }

  /** What a new individual costs. */
  function Cost(definition: EcologyDef): nat {
    var all := definition.nutrientPerDay * (if definition.regrowthDays == 0 then 1 else definition.regrowthDays);
    if all > U32_MAX then U32_MAX else all
  }

  predicate Grows(site: EcologySite, definition: EcologyDef, weather: Weather, day: nat, water: nat) {
    && Good(site, definition, weather, water) && RegrowthDay(definition, day)
    && site.population < site.carryingCapacity && Cost(definition) <= Soil(site)
  }

  /** An unfavourable regrowth day, when dross does not stall the site. */
  predicate Starves(site: EcologySite, definition: EcologyDef, weather: Weather, day: nat, water: nat) {
    && !Good(site, definition, weather, water) && !(definition.source != FromDross && weather.seep)
    && RegrowthDay(definition, day) && site.population != 0
  }

  lemma ConditionsAre(site: EcologySite, definition: EcologyDef, weather: Weather, day: nat, water: nat)
    ensures Favourable(Mineralized(site), definition, weather, water) == Good(site, definition, weather, water)
    ensures Tick(definition, day) == RegrowthDay(definition, day)
    ensures Stalled(definition, weather) == (definition.source != FromDross && weather.seep)
    ensures Wilting(definition, weather) == Scarred(definition, weather)
    ensures WaterNeed(definition, site) == WaterNeed(definition, Mineralized(site)) == Thirst(definition, site)
    ensures Mineralized(site) == site.(detritus := site.detritus - Returned(site), soil := Soil(site))
  {
    assert day % 1 == 0;
  }

  lemma LimitIs(definition: EcologyDef, site: EcologySite)
    ensures DrossLimit(definition, site) == Tolerated(definition, site.population)
  {
  }

  // ----- parts of a day -----

  /** One individual fewer: its share of the biomass becomes detritus, and the last one takes the site down. */
  ghost predicate OneFewer(site: EcologySite, definition: EcologyDef, after: EcologySite) {
    && site.population != 0 && after.population == site.population - 1
    && site.biomass / site.population <= site.biomass
    && after.biomass == site.biomass - site.biomass / site.population
    && after.detritus == Min(site.detritus + site.biomass / site.population, U32_MAX)
    && after.seedBank == (if definition.harvest == Destructive then Saturating(site.seedBank, 1) else site.seedBank)
    && after.stage == (if site.population == 1 then Collapsed else site.stage)
    && after.soil == site.soil && after.dross == site.dross && after.crystalStage == site.crystalStage
    && after.carryingCapacity == site.carryingCapacity && after.waterDrawn == site.waterDrawn
    && (1 < site.population ==> after.charge == site.charge)
  }

  lemma WitheredIs(site: EcologySite, definition: EcologyDef, cell: Cell)
    requires site.population != 0
    ensures var r := Withered(site, definition, cell);
            r.ok && OneFewer(site, definition, r.site) && (1 < site.population ==> r.cell == cell)
  {
    BiomassShare(site.biomass, site.population);
    var lost := PopulationLost(site, definition);
    var r := CollapsedInto(lost, definition, cell);
    assert r.ok && r.site == lost.(charge := r.site.charge, stage := Collapsed, collapses := r.site.collapses);
    hide CollapsedInto;
  }

  /** What a favourable day leaves beyond the bands. */
  ghost predicate Thrives(site: EcologySite, definition: EcologyDef, day: nat, after: EcologySite) {
    var awake := if site.stage == Collapsed && site.seedBank != 0 then Recovering else site.stage;
    && after.carryingCapacity == site.carryingCapacity && after.detritus == site.detritus
    && (if !RegrowthDay(definition, day) then
          && after.population == site.population && after.seedBank == site.seedBank && after.soil == site.soil
          && after.biomass == site.biomass && after.stage == site.stage && after.crystalStage == site.crystalStage
        else if site.population < site.carryingCapacity && site.seedBank != 0 then
          if Cost(definition) <= site.soil then
            && after.population == site.population + 1 && after.seedBank == site.seedBank - 1
            && after.soil == site.soil - Cost(definition)
            && after.biomass == Min(site.biomass + Cost(definition), U32_MAX)
            && after.stage == (if site.population + 1 >= site.carryingCapacity / 2 then Mature else Recovering)
            && (definition.kind != Crystal ==> after.crystalStage == site.crystalStage)
            && (definition.kind == Crystal ==> after.crystalStage == Earned(definition, Sum6(after.charge)))
          else
            && after.population == site.population && after.seedBank == site.seedBank && after.soil == site.soil
            && after.biomass == site.biomass && after.stage == awake && after.crystalStage == site.crystalStage
        else
          && after.population == site.population && after.soil == site.soil && after.biomass == site.biomass
          && after.stage == awake && after.crystalStage == site.crystalStage
          && after.seedBank == if site.population == 0 then site.seedBank
                               else Min(Min(site.seedBank + 1, U16_MAX), Min(site.carryingCapacity * 3, U16_MAX)))
  }

  /** The stage a crystal's charge has earned, one byte wide and below its last. */
  function Earned(definition: EcologyDef, charge: nat): nat {
    var room := Max(definition.chargeCapacity / Max(definition.crystalStages, 1), 1);
    Max(Min(charge / room % 256, Saturating(definition.crystalStages, 1)), 1)
  }

  lemma EarnedIs(definition: EcologyDef, charge: nat)
    ensures CrystalStage(definition, charge) == Earned(definition, charge)
  {
  }

  lemma GrownThrives(site: EcologySite, definition: EcologyDef, day: nat)
    requires RegrowthDay(definition, day)
    ensures Thrives(site, definition, day, Grown(site, definition))
  {
    EarnedIs(definition, Sum6(site.charge));
    hide CrystalStage, Earned, Sum6, RegrowthDay;
  }

  /** Drinking, feeding and releasing change nothing that growth depends on. */
  lemma FlourishedThrives(site: EcologySite, definition: EcologyDef, weather: Weather, cell: Cell, day: nat, water: nat)
    requires Flourished(site, definition, weather, cell, day).ok
    ensures var r := Flourished(site, definition, weather, cell, day);
            && Thrives(site, definition, day, r.site)
            && r.site.waterDrawn == Min(site.waterDrawn + Thirst(definition, site), U64_MAX)
  {
    ConditionsAre(site, definition, weather, day, water);
    FlourishedIs(site, definition, weather, cell, day);
    var drunk := Drunk(site, definition);
    var uptake := DailyUptake(drunk, definition, weather);
    var fed := Fed(drunk, definition, cell, uptake);
    FedKeeps(drunk, definition, cell, uptake);
    assert fed.ok;
    var released := Released(fed.site, definition, fed.cell);
    ReleasedIs(fed.site, definition, fed.cell);
    var r := Flourished(site, definition, weather, cell, day);
    assert r.site == if Tick(definition, day) then Grown(released.site, definition) else released.site by {
      hide Fed, Released, Grown, Tick;
    }
    if Tick(definition, day) {
      GrownThrives(released.site, definition, day);
    }
    ThrivesAlike(site, released.site, definition, day, r.site);
    hide Flourished, Fed, FedBands, Released, Grown, DailyUptake, Thrives, Good, Thirst;
  }

  lemma ReleasedIs(site: EcologySite, definition: EcologyDef, cell: Cell)
    ensures var r := Released(site, definition, cell); r.ok && r.site == site.(charge := r.site.charge)
  {
    hide Poured, RoomFor, Sum6;
  }

  lemma ThrivesAlike(site: EcologySite, fed: EcologySite, definition: EcologyDef, day: nat, after: EcologySite)
    requires fed == site.(charge := fed.charge, dross := fed.dross, waterDrawn := fed.waterDrawn)
    requires if RegrowthDay(definition, day) then Thrives(fed, definition, day, after) else after == fed
    ensures Thrives(site, definition, day, after)
  {
    hide Cost, Earned, RegrowthDay, Sum6;
  }

  // ----- the whole day -----

  /** The population after each part of the day. */
  function Noonday(site: EcologySite, definition: EcologyDef, weather: Weather, day: nat, water: nat): nat {
    if Grows(site, definition, weather, day, water) then site.population + 1
    else if Starves(site, definition, weather, day, water) then site.population - 1
    else site.population
  }

  function Afternoon(site: EcologySite, definition: EcologyDef, weather: Weather, day: nat, water: nat): nat {
    var p := Noonday(site, definition, weather, day, water);
    if Scarred(definition, weather) && RegrowthDay(definition, day) && p != 0 then p - 1 else p
  }

  /** How many live on: one more on a favourable regrowth day with room and soil, one fewer on an unfavourable one; one
      fewer more under a Scar on a regrowth day, and one fewer more on any day that ends with more dross than is
      tolerated. Whoever is last leaves the site collapsed. */
  lemma DayPopulation(site: EcologySite, definition: EcologyDef, weather: Weather, cell: Cell, day: nat, water: nat)
    requires DayOf(site, definition, weather, cell, day, water).ok
    ensures var after := DayOf(site, definition, weather, cell, day, water).site;
            var p := Afternoon(site, definition, weather, day, water);
            && after.population
               == (if p != 0 && Sum6(after.dross) > Tolerated(definition, p) then p - 1 else p)
            && (after.population == 0 && (site.population != 0 || p != 0) ==> after.stage == Collapsed)
  {
    hide *;
    var morning, noon := DayParts(site, definition, weather, cell, day, water);
    var after := DayOf(site, definition, weather, cell, day, water).site;
    PopulationFollows(site, definition, weather, day, water, morning, noon, after);
  }

  /** The three parts of a day that can be finished, and what each does to the site. */
  ghost predicate MorningDone(site: EcologySite, definition: EcologyDef, weather: Weather, day: nat, water: nat,
                              after: EcologySite)
  {
    var rested := site.(detritus := site.detritus - Returned(site), soil := Soil(site));
    if Good(site, definition, weather, water) then
      && Thrives(rested, definition, day, after)
      && after.waterDrawn == Min(site.waterDrawn + Thirst(definition, site), U64_MAX)
    else if Starves(site, definition, weather, day, water) then OneFewer(rested, definition, after)
    else after == rested
  }

  ghost predicate NoonDone(site: EcologySite, definition: EcologyDef, weather: Weather, day: nat, after: EcologySite) {
    if Scarred(definition, weather) && RegrowthDay(definition, day) && site.population != 0
    then OneFewer(site, definition, after) else after == site
  }

  ghost predicate EveningDone(site: EcologySite, definition: EcologyDef, after: EcologySite) {
    if site.population != 0 && Sum6(site.dross) > Tolerated(definition, site.population)
    then OneFewer(site, definition, after) else after == site
  }

  lemma MorningIs(site: EcologySite, definition: EcologyDef, weather: Weather, cell: Cell, day: nat, water: nat)
    requires Morning(Mineralized(site), definition, weather, cell, day, water).ok
    ensures MorningDone(site, definition, weather, day, water,
                        Morning(Mineralized(site), definition, weather, cell, day, water).site)
  {
    ConditionsAre(site, definition, weather, day, water);
    var rested := Mineralized(site);
    if Good(site, definition, weather, water) {
      FlourishedThrives(rested, definition, weather, cell, day, water);
      assert Thirst(definition, rested) == Thirst(definition, site);
    } else if site.population != 0 {
      WitheredIs(rested, definition, cell);
    }
    hide Good, Flourished, Withered, Favourable, Thrives, OneFewer, Mineralized, Tick, RegrowthDay, Stalled, Thirst,
         Returned, Soil;
  }

  lemma NoonIs(site: EcologySite, definition: EcologyDef, weather: Weather, cell: Cell, day: nat)
    ensures var r := Noon(site, definition, weather, cell, day);
            r.ok && NoonDone(site, definition, weather, day, r.site)
  {
    ConditionsAre(site, definition, weather, day, 0);
    if site.population != 0 {
      WitheredIs(site, definition, cell);
    }
    hide Withered, OneFewer, Tick, RegrowthDay, Wilting, Scarred, Good, Favourable, Mineralized;
  }

  lemma EveningIs(site: EcologySite, definition: EcologyDef, cell: Cell)
    ensures var r := Evening(site, definition, cell); r.ok && EveningDone(site, definition, r.site)
  {
    LimitIs(definition, site);
    if site.population != 0 {
      WitheredIs(site, definition, cell);
    }
    hide Withered, OneFewer, DrossLimit, Tolerated, Sum6;
  }

  lemma DayParts(site: EcologySite, definition: EcologyDef, weather: Weather, cell: Cell, day: nat, water: nat)
    returns (morning: EcologySite, noon: EcologySite)
    requires DayOf(site, definition, weather, cell, day, water).ok
    ensures MorningDone(site, definition, weather, day, water, morning)
    ensures NoonDone(morning, definition, weather, day, noon)
    ensures EveningDone(noon, definition, DayOf(site, definition, weather, cell, day, water).site)
  {
    hide *;
    DayOfIs(site, definition, weather, cell, day, water);
    var first := Morning(Mineralized(site), definition, weather, cell, day, water);
    MorningIs(site, definition, weather, cell, day, water);
    var second := Noon(first.site, definition, weather, first.cell, day);
    NoonIs(first.site, definition, weather, first.cell, day);
    EveningIs(second.site, definition, second.cell);
    morning, noon := first.site, second.site;
  }

  lemma PopulationFollows(site: EcologySite, definition: EcologyDef, weather: Weather, day: nat, water: nat,
                          morning: EcologySite, noon: EcologySite, after: EcologySite)
    requires MorningDone(site, definition, weather, day, water, morning)
             && NoonDone(morning, definition, weather, day, noon)
    requires EveningDone(noon, definition, after)
    ensures var p := Afternoon(site, definition, weather, day, water);
            && after.population
               == (if p != 0 && Sum6(after.dross) > Tolerated(definition, p) then p - 1 else p)
            && (after.population == 0 && (site.population != 0 || p != 0) ==> after.stage == Collapsed)
  {
    hide Thirst, RegrowthDay, Scarred, Tolerated, Sum6, Cost, Earned, Returned, Soil;
    assert Good(site, definition, weather, water) ==> site.seedBank != 0;
    hide Good;
    assert morning.population == Noonday(site, definition, weather, day, water);
    assert noon.population == Afternoon(site, definition, weather, day, water);
  }

  /** A day of growth that nothing spoils: the new individual costs one seed and its nutrients, which move from soil to
      biomass, and the site is mature exactly from half its capacity on. */
  lemma DayGrows(site: EcologySite, definition: EcologyDef, weather: Weather, cell: Cell, day: nat, water: nat)
    requires var r := DayOf(site, definition, weather, cell, day, water);
             r.ok && Sum6(r.site.dross) <= Tolerated(definition, site.population + 1)
    requires Grows(site, definition, weather, day, water) && !Scarred(definition, weather)
    ensures var after := DayOf(site, definition, weather, cell, day, water).site;
            && after.population == site.population + 1 && after.seedBank == site.seedBank - 1
            && after.soil == Soil(site) - Cost(definition)
            && after.biomass == Min(site.biomass + Cost(definition), U32_MAX)
            && (after.stage == Mature <==> site.population + 1 >= site.carryingCapacity / 2)
            && (after.stage == Mature || after.stage == Recovering)
            && after.detritus == site.detritus - Returned(site)
            && (definition.kind == Crystal ==> after.crystalStage == Earned(definition, Sum6(after.charge)))
            && after.waterDrawn == Min(site.waterDrawn + Thirst(definition, site), U64_MAX)
  {
    var morning, noon := DayParts(site, definition, weather, cell, day, water);
    var after := DayOf(site, definition, weather, cell, day, water).site;
    hide DayOf, Sum6, Tolerated, Cost, Earned, Thirst, RegrowthDay, Scarred, Returned, Soil;
    assert noon == morning && morning.population == site.population + 1;
    assert noon.dross == after.dross;
    assert after == noon;
  }

  /** A regrowth day at capacity adds one seed, up to three times the capacity; a site that cannot afford an individual
      only wakes. */
  lemma DaySeeds(site: EcologySite, definition: EcologyDef, weather: Weather, cell: Cell, day: nat, water: nat)
    requires var r := DayOf(site, definition, weather, cell, day, water);
             r.ok && Sum6(r.site.dross) <= Tolerated(definition, site.population)
    requires Good(site, definition, weather, water) && RegrowthDay(definition, day) && !Scarred(definition, weather)
    requires !Grows(site, definition, weather, day, water) && site.population != 0
    ensures var after := DayOf(site, definition, weather, cell, day, water).site;
            && after.population == site.population && after.soil == Soil(site) && after.biomass == site.biomass
            && after.stage == (if site.stage == Collapsed then Recovering else site.stage)
            && after.seedBank == if site.population < site.carryingCapacity then site.seedBank
                                 else Min(Min(site.seedBank + 1, U16_MAX), Min(site.carryingCapacity * 3, U16_MAX))
  {
    var morning, noon := DayParts(site, definition, weather, cell, day, water);
    var after := DayOf(site, definition, weather, cell, day, water).site;
    assert site.seedBank != 0;
    hide DayOf, Sum6, Tolerated, Cost, Earned, Thirst, RegrowthDay, Scarred, Returned, Soil;
    assert noon == morning && morning.population == site.population;
    assert noon.dross == after.dross;
    assert after == noon;
  }

  /** A day that harms a site once, by the season, the Scar or its dross: one individual fewer, whose share of the
      biomass has become detritus, and a collapse if it was the last. */
  lemma DayHarms(site: EcologySite, definition: EcologyDef, weather: Weather, cell: Cell, day: nat, water: nat)
    requires DayOf(site, definition, weather, cell, day, water).ok && site.population != 0
    requires !Good(site, definition, weather, water)
    requires DayOf(site, definition, weather, cell, day, water).site.population == site.population - 1
    ensures OneFewer(site.(detritus := site.detritus - Returned(site), soil := Soil(site)), definition,
                     DayOf(site, definition, weather, cell, day, water).site)
  {
    var morning, noon := DayParts(site, definition, weather, cell, day, water);
    hide DayOf, Sum6, Tolerated, Cost, Thirst, RegrowthDay, Scarred, Returned, Soil, Good;
  }

  // ----- feeding -----

  /** What an organism asks for on a favourable day. */
  function Asked(site: EcologySite, definition: EcologyDef, weather: Weather): nat {
    var rate := if site.content == "base:stormvine" && !weather.storming then 0 else definition.uptakePerDay;
    var wanted := Min(rate * (if site.population == 0 then 1 else site.population),
                      Saturating(definition.chargeCapacity, Sum6(site.charge)));
    if definition.source == FromDross
    then Min(wanted, Saturating(Tolerated(definition, site.population), Sum6(site.dross))) else wanted
  }

  /** How much charge a site gives back: its daily release, as far as it has charge and its cell has room. */
  function GivenBack(definition: EcologyDef, charge: Six, ambient: Six): nat {
    Min(Min(definition.releasePerDay, Sum6(charge)), Sum6(RoomFor(charge, ambient)))
  }

  /** The morning of a favourable day moves exactly what is asked for, or all there is, from the cell's pool into the
      organism, and then gives its daily release back to the cell. */
  lemma DayFeeds(site: EcologySite, definition: EcologyDef, weather: Weather, cell: Cell, day: nat, water: nat)
    returns (fed: Six)
    requires Good(site, definition, weather, water)
    requires Morning(Mineralized(site), definition, weather, cell, day, water).ok
    ensures var r := Morning(Mineralized(site), definition, weather, cell, day, water);
            var pool := if definition.source == FromDross then cell.dross else cell.ambient;
            var charge := if definition.source == FromDross then site.charge else SixPlus(site.charge, fed);
            var ambient := if definition.source == FromDross then cell.ambient else SixMinus(cell.ambient, fed);
            && Sum6(fed) == Min(Asked(site, definition, weather), Sum6(pool))
            && (forall s | 0 <= s < 6 :: fed[s] <= pool[s])
            && r.site.dross == (if definition.source == FromDross then SixPlus(site.dross, fed) else site.dross)
            && r.cell.dross == (if definition.source == FromDross then SixMinus(cell.dross, fed) else cell.dross)
            && Sum6(r.site.charge) == Sum6(charge) - GivenBack(definition, charge, ambient)
            && Sum6(r.cell.ambient) == Sum6(ambient) + GivenBack(definition, charge, ambient)
  {
    hide *;
    var rested := Mineralized(site);
    ConditionsAre(site, definition, weather, day, water);
    FavourableMorning(rested, definition, weather, cell, day, water);
    FlourishedIs(rested, definition, weather, cell, day);
    var drunk := Drunk(rested, definition);
    var uptake := DailyUptake(drunk, definition, weather);
    fed := FedBands(drunk, definition, cell, uptake);
    FedExactly(site, definition, weather, cell);
    var taken := Fed(drunk, definition, cell, uptake);
    FedInto(site, definition, weather, cell);
    ReleaseExactly(taken.site, definition, taken.cell);
    DigestedBands(taken.site, definition, taken.cell, day);
  }

  lemma FavourableMorning(rested: EcologySite, definition: EcologyDef, weather: Weather, cell: Cell, day: nat,
                          water: nat)
    requires Favourable(rested, definition, weather, water)
    ensures Morning(rested, definition, weather, cell, day, water) == Flourished(rested, definition, weather, cell, day)
  {
    hide Flourished, Favourable;
  }

  lemma FedExactly(site: EcologySite, definition: EcologyDef, weather: Weather, cell: Cell)
    ensures var drunk := Drunk(Mineralized(site), definition);
            var fed := FedBands(drunk, definition, cell, DailyUptake(drunk, definition, weather));
            var pool := if definition.source == FromDross then cell.dross else cell.ambient;
            Sum6(fed) == Min(Asked(site, definition, weather), Sum6(pool)) && forall s | 0 <= s < 6 :: fed[s] <= pool[s]
  {
    var drunk := Drunk(Mineralized(site), definition);
    var uptake := DailyUptake(drunk, definition, weather);
    LimitIs(definition, drunk);
    assert Wanted(drunk, definition, uptake) == Asked(site, definition, weather) by {
      hide Tolerated, DrossLimit, Sum6, WaterNeed;
    }
    var pool := Pool(cell, definition.source == FromDross);
    UptakeExact(pool, definition.weights, Asked(site, definition, weather));
    hide Uptake, Wanted, Asked, Sum6, DailyUptake, Drunk, Mineralized;
  }

  lemma FedInto(site: EcologySite, definition: EcologyDef, weather: Weather, cell: Cell)
    ensures var drunk := Drunk(Mineralized(site), definition);
            var uptake := DailyUptake(drunk, definition, weather);
            var fed := FedBands(drunk, definition, cell, uptake);
            var r := Fed(drunk, definition, cell, uptake);
            r.ok ==>
              && r.site.charge == (if definition.source == FromDross then site.charge else SixPlus(site.charge, fed))
              && r.site.dross == (if definition.source == FromDross then SixPlus(site.dross, fed) else site.dross)
              && r.cell.ambient
                 == (if definition.source == FromDross then cell.ambient else SixMinus(cell.ambient, fed))
              && r.cell.dross == (if definition.source == FromDross then SixMinus(cell.dross, fed) else cell.dross)
  {
    var drunk := Drunk(Mineralized(site), definition);
    assert drunk.charge == site.charge && drunk.dross == site.dross by { hide WaterNeed, Saturated; }
    var uptake := DailyUptake(drunk, definition, weather);
    var fed := FedBands(drunk, definition, cell, uptake);
    FedIs(drunk, definition, cell, uptake);
    if Fed(drunk, definition, cell, uptake).ok {
      AddedAll(if definition.source == FromDross then drunk.dross else drunk.charge, fed);
    }
    hide Fed, FedBands, AddedUntil, SixPlus, SixMinus, DailyUptake, Drunk, Mineralized, AllFit;
  }

  lemma ReleaseExactly(site: EcologySite, definition: EcologyDef, cell: Cell)
    ensures var r := Released(site, definition, cell);
            && Sum6(r.site.charge) == Sum6(site.charge) - GivenBack(definition, site.charge, cell.ambient)
            && Sum6(r.cell.ambient) == Sum6(cell.ambient) + GivenBack(definition, site.charge, cell.ambient)
            && r.site.dross == site.dross && r.cell.dross == cell.dross
  {
    var caps, amount := RoomFor(site.charge, cell.ambient), Min(definition.releasePerDay, Sum6(site.charge));
    PouredExact(caps, amount);
    var moved := Poured(caps, amount);
    forall s | 0 <= s < 6 ensures moved[s] <= site.charge[s] {
      RoomSlot(site.charge, cell.ambient, s);
    }
    LeftAndAdded(site.charge, cell.ambient, moved);
    hide RoomFor, Poured, Sum6, SixPlus, SixMinus;
  }

  lemma LeftAndAdded(held: Six, into: Six, moved: Six)
    requires forall s | 0 <= s < 6 :: moved[s] <= held[s]
    ensures Sum6(SixMinus(held, moved)) == Sum6(held) - Sum6(moved)
    ensures Sum6(SixPlus(into, moved)) == Sum6(into) + Sum6(moved)
  {
  }

  lemma DigestedBands(site: EcologySite, definition: EcologyDef, cell: Cell, day: nat)
    ensures var r, released := Digested(site, definition, cell, day), Released(site, definition, cell);
            && r.cell == released.cell && r.site.charge == released.site.charge && r.site.dross == released.site.dross
  {
    hide Released, Grown, Tick;
  }
}
