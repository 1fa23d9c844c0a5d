/** Living sites: one organism, its cell and its day. */
module EcologyModel {
  import opened Prelude
  import opened Bands
  import opened Transport
  import opened Pouring

  datatype Stage = Dormant | Establishing | Mature | Recovering | Collapsed | Harvested

  datatype Kind = Organism | Crystal | FiniteMineral

  datatype Source = FromAmbient | FromHeart | FromDross

  datatype HarvestClass = Fruit | Prune | Coppice | Spore | SeedPreserving | Destructive

  datatype Disposition = ToAmbient | ToDross | ToScar

  datatype EcologyDef = EcologyDef(
    kind: Kind, source: Source, harvest: HarvestClass, chargeCapacity: nat, uptakePerDay: nat, releasePerDay: nat,
    weights: Six, drossTolerance: nat, waterPerDay: nat, nutrientPerDay: nat, regrowthDays: nat,
    crystalStages: nat, preservingTier: nat)

  /** `cell` is the index of the planet cell below the site; `block` is its block once materialized. */
  datatype EcologySite = EcologySite(
    id: nat, content: string, cell: nat, block: Option<nat>, stage: Stage, population: nat, carryingCapacity: nat,
    seedBank: nat, crystalStage: nat, charge: Six, dross: Six, soil: nat, biomass: nat, detritus: nat,
    waterDrawn: nat, lastHarvestDay: nat, harvests: nat, collapses: nat)

  /** Everything about a site's surroundings that its day depends on. */
  datatype Weather = Weather(seep: bool, scar: bool, suitable: bool, seasonal: bool, heartAlive: bool,
                             storming: bool, blocked: bool)

  /** A site and its cell after some part of a day, and whether that part could be finished. */
  datatype Lived = Lived(site: EcologySite, cell: Cell, ok: bool)

  // ----- custody -----

  function Custody(site: EcologySite, cell: Cell, slot: nat): nat
    requires slot < 6
  {
    cell.ambient[slot] + cell.dross[slot] + site.charge[slot] + site.dross[slot]
  }

  /** Units only moved between the site and the two mutable pools of its cell; nothing else in the cell changed. */
  ghost predicate SameCustody(site: EcologySite, cell: Cell, site': EcologySite, cell': Cell) {
    && (forall slot | 0 <= slot < 6 :: Custody(site', cell', slot) == Custody(site, cell, slot))
    && cell' == cell.(ambient := cell'.ambient, dross := cell'.dross)
    && site'.cell == site.cell && site'.id == site.id && site'.content == site.content && site'.block == site.block
    && (Representable(cell) ==> Representable(cell'))
  }

  /** As `SameCustody`, except for the units of `lost` that have left the cell and not reached the site. */
  ghost predicate ShortCustody(site: EcologySite, cell: Cell, site': EcologySite, cell': Cell, lost: Six) {
    && (forall slot | 0 <= slot < 6 :: Custody(site', cell', slot) + lost[slot] == Custody(site, cell, slot))
    && cell' == cell.(ambient := cell'.ambient, dross := cell'.dross)
    && site'.cell == site.cell && site'.id == site.id && site'.content == site.content && site'.block == site.block
    && (Representable(cell) ==> Representable(cell'))
  }

  lemma SameIsShort(site: EcologySite, cell: Cell, site': EcologySite, cell': Cell)
    ensures SameCustody(site, cell, site', cell') <==> ShortCustody(site, cell, site', cell', Zero6)
  {
    hide Custody, Representable;
  }

  lemma ShortTrans(a: EcologySite, x: Cell, b: EcologySite, y: Cell, c: EcologySite, z: Cell, lost: Six)
    requires SameCustody(a, x, b, y) && ShortCustody(b, y, c, z, lost)
    ensures ShortCustody(a, x, c, z, lost)
  {
    hide Custody, Representable;
  }

  function Nutrients(site: EcologySite): nat {
    site.soil + site.biomass + site.detritus
  }

  /** What an audit demands of a site: the limits of its species. */
  ghost predicate Thriving(definition: EcologyDef, site: EcologySite) {
    && site.population <= site.carryingCapacity
    && Sum6(site.charge) <= definition.chargeCapacity
    && (definition.kind == Crystal ==> site.crystalStage < definition.crystalStages)
  }

  /** The dross an organism of this population tolerates. */
  function DrossLimit(definition: EcologyDef, site: EcologySite): nat {
    Min(definition.drossTolerance * Max(site.population, 1), U64_MAX)
  }

  /** Neither pool of the site can ever outgrow a 32-bit band. */
  ghost predicate Hardy(definition: EcologyDef, site: EcologySite) {
    && site.population <= site.carryingCapacity
    && Sum6(site.charge) <= definition.chargeCapacity <= U32_MAX
    && Sum6(site.dross) <= U32_MAX
    && definition.drossTolerance * Max(site.carryingCapacity, 1) <= U32_MAX
  }

  lemma HardyLimit(definition: EcologyDef, site: EcologySite)
    requires Hardy(definition, site)
    ensures DrossLimit(definition, site) <= U32_MAX
  {
    Monotone(definition.drossTolerance, Max(site.population, 1), Max(site.carryingCapacity, 1));
  }

  /** What a day may change in a site, beyond its bands. */
  ghost predicate SameBands(site: EcologySite, site': EcologySite) {
    && site'.charge == site.charge && site'.dross == site.dross
    && site'.cell == site.cell && site'.id == site.id && site'.content == site.content && site'.block == site.block
    && site'.carryingCapacity == site.carryingCapacity && site'.waterDrawn == site.waterDrawn
    && (Nutrients(site) <= U32_MAX ==> Nutrients(site') == Nutrients(site))
  }

  lemma SameBandsCustody(site: EcologySite, site': EcologySite, cell: Cell)
    requires SameBands(site, site')
    ensures SameCustody(site, cell, site', cell)
  {
    hide Nutrients, Representable;
  }

  lemma CustodyTrans(a: EcologySite, x: Cell, b: EcologySite, y: Cell, c: EcologySite, z: Cell)
    requires SameCustody(a, x, b, y) && SameCustody(b, y, c, z)
    ensures SameCustody(a, x, c, z)
  {
    hide Custody, Representable;
  }

  // ----- nutrients and population -----

  /** A sixteenth of the detritus, rounded up, returns to the soil. */
  function Mineralized(site: EcologySite): (r: EcologySite)
    ensures SameBands(site, r) && r.population == site.population && r.seedBank == site.seedBank
    ensures r.crystalStage == site.crystalStage && (site.detritus != 0 ==> r.detritus < site.detritus)
  {
    var moved := (site.detritus + 15) / 16;
    site.(detritus := site.detritus - moved, soil := Min(site.soil + moved, U32_MAX))
  }

  function PopulationLost(site: EcologySite, definition: EcologyDef): (r: EcologySite)
    ensures SameBands(site, r) && r.population == Saturating(site.population, 1) && r.crystalStage == site.crystalStage
    ensures r.stage == site.stage && r.collapses == site.collapses && r.soil == site.soil
    ensures site.population == 1 ==> r.biomass == 0
  {
    if site.population == 0 then site
    else
      BiomassShare(site.biomass, site.population);
      var nutrients := site.biomass / site.population;
      site.(population := site.population - 1, biomass := site.biomass - nutrients,
            detritus := Min(site.detritus + nutrients, U32_MAX),
            seedBank := if definition.harvest == Destructive then Saturating(site.seedBank, 1) else site.seedBank)
  }

  lemma BiomassShare(biomass: nat, population: nat)
    requires 0 < population
    ensures biomass / population <= biomass
    ensures population == 1 ==> biomass / population == biomass
  {
    var q := biomass / population;
    assert biomass == population * q + biomass % population;
    Monotone(q, 1, population);
    assert q * population == population * q;
  }

  // ----- moving a site's charge out -----

  function RoomFor(charge: Six, held: Six): Six {
    [Min(charge[0], Saturating(U16_MAX, held[0])), Min(charge[1], Saturating(U16_MAX, held[1])),
     Min(charge[2], Saturating(U16_MAX, held[2])), Min(charge[3], Saturating(U16_MAX, held[3])),
     Min(charge[4], Saturating(U16_MAX, held[4])), Min(charge[5], Saturating(U16_MAX, held[5]))]
  }

  /** Charge leaves a site band by band into one pool of its cell; what finds no room stays. */
  function Discharged(site: EcologySite, moved: Six): EcologySite {
    site.(charge := SixMinus(site.charge, moved))
  }

  function Absorbed(cell: Cell, moved: Six, toDross: bool): Cell {
    if toDross then cell.(dross := SixPlus(cell.dross, moved)) else cell.(ambient := SixPlus(cell.ambient, moved))
  }

  function Pool(cell: Cell, toDross: bool): Six {
    if toDross then cell.dross else cell.ambient
  }

  lemma RoomSlot(charge: Six, held: Six, slot: nat)
    requires slot < 6
    ensures RoomFor(charge, held)[slot] == Min(charge[slot], Saturating(U16_MAX, held[slot]))
  {
  }

  lemma DischargeKeeps(site: EcologySite, cell: Cell, moved: Six, toDross: bool)
    requires forall s | 0 <= s < 6 :: moved[s] <= RoomFor(site.charge, Pool(cell, toDross))[s]
    ensures SameCustody(site, cell, Discharged(site, moved), Absorbed(cell, moved, toDross))
    ensures Sum6(Discharged(site, moved).charge) <= Sum6(site.charge)
  {
    var site', cell' := Discharged(site, moved), Absorbed(cell, moved, toDross);
    forall s | 0 <= s < 6
      ensures Custody(site', cell', s) == Custody(site, cell, s)
      ensures site'.charge[s] <= site.charge[s]
    {
      RoomSlot(site.charge, Pool(cell, toDross), s);
      hide RoomFor;
    }
    if Representable(cell) {
      AbsorbedFits(cell, site.charge, moved, toDross);
    }
    hide Custody, Representable, RoomFor;
  }

  lemma AbsorbedFits(cell: Cell, charge: Six, moved: Six, toDross: bool)
    requires Representable(cell) && forall s | 0 <= s < 6 :: moved[s] <= RoomFor(charge, Pool(cell, toDross))[s]
    ensures Representable(Absorbed(cell, moved, toDross))
  {
    var after := Absorbed(cell, moved, toDross);
    forall band | 0 <= band < 18 ensures Held(after, band) <= U16_MAX {
      assert Held(cell, band) <= U16_MAX;
      assert Held(cell, 6 + band % 6) <= U16_MAX && Held(cell, 12 + band % 6) <= U16_MAX;
      RoomSlot(charge, Pool(cell, toDross), band % 6);
      hide RoomFor;
    }
  }

  function Released(site: EcologySite, definition: EcologyDef, cell: Cell): Lived {
    var moved := Poured(RoomFor(site.charge, cell.ambient), Min(definition.releasePerDay, Sum6(site.charge)));
    Lived(Discharged(site, moved), Absorbed(cell, moved, false), true)
  }

  lemma ReleasedKeeps(site: EcologySite, definition: EcologyDef, cell: Cell)
    ensures var r := Released(site, definition, cell);
            SameCustody(site, cell, r.site, r.cell) && Sum6(r.site.charge) <= Sum6(site.charge)
  {
    assert Pool(cell, false) == cell.ambient;
    var caps, amount := RoomFor(site.charge, cell.ambient), Min(definition.releasePerDay, Sum6(site.charge));
    PouredExact(caps, amount);
    DischargeKeeps(site, cell, Poured(caps, amount), false);
    hide SameCustody, Poured, RoomFor, Sum6, Discharged, Absorbed;
  }

  function CollapsedInto(site: EcologySite, definition: EcologyDef, cell: Cell): Lived {
    var toDross := definition.kind == Crystal;
    var moved := RoomFor(site.charge, Pool(cell, toDross));
    Lived(Discharged(site, moved).(stage := Collapsed, collapses := Min(site.collapses + 1, U16_MAX)),
          Absorbed(cell, moved, toDross), true)
  }

  lemma CollapsedKeeps(site: EcologySite, definition: EcologyDef, cell: Cell)
    ensures var r := CollapsedInto(site, definition, cell);
            && SameCustody(site, cell, r.site, r.cell) && Sum6(r.site.charge) <= Sum6(site.charge)
            && Nutrients(r.site) == Nutrients(site)
  {
    var toDross := definition.kind == Crystal;
    var moved := RoomFor(site.charge, Pool(cell, toDross));
    DischargeKeeps(site, cell, moved, toDross);
    var r := CollapsedInto(site, definition, cell);
    hide SameCustody, RoomFor, Sum6, Absorbed;
    SameBandsCustody(Discharged(site, moved), r.site, r.cell);
    CustodyTrans(site, cell, Discharged(site, moved), r.cell, r.site, r.cell);
  }

  /** A daily release fills the ambient bands in order, as far as there is charge, room and allowance. */
  method ReleaseCharge(site: EcologySite, definition: EcologyDef, cell: Cell) returns (site': EcologySite, cell': Cell)
    ensures Lived(site', cell', true) == Released(site, definition, cell)
    ensures SameCustody(site, cell, site', cell') && Sum6(site'.charge) <= Sum6(site.charge)
  {
    ReleasedKeeps(site, definition, cell);
    hide SameCustody, RoomFor, Poured, Sum6;
    var moved, _ := PourInto(RoomFor(site.charge, cell.ambient), Min(definition.releasePerDay, Sum6(site.charge)));
    site', cell' := Discharged(site, moved), Absorbed(cell, moved, false);
  }

  /** A collapsing crystal fouls its cell, anything else gives its charge back as ambient Current. */
  method Collapse(site: EcologySite, definition: EcologyDef, cell: Cell) returns (site': EcologySite, cell': Cell)
    ensures Lived(site', cell', true) == CollapsedInto(site, definition, cell)
    ensures SameCustody(site, cell, site', cell') && Sum6(site'.charge) <= Sum6(site.charge)
    ensures Nutrients(site') == Nutrients(site)
  {
    CollapsedKeeps(site, definition, cell);
    hide SameCustody, RoomFor, Sum6, Nutrients;
    site', cell' := DischargeAll(site, cell, definition.kind == Crystal);
    site' := site'.(stage := Collapsed, collapses := Min(site.collapses + 1, U16_MAX));
  }

  method DischargeAll(site: EcologySite, cell: Cell, toDross: bool) returns (site': EcologySite, cell': Cell)
    ensures var moved := RoomFor(site.charge, Pool(cell, toDross));
            site' == Discharged(site, moved) && cell' == Absorbed(cell, moved, toDross)
    ensures SameCustody(site, cell, site', cell') && Sum6(site'.charge) <= Sum6(site.charge)
  {
    hide *;
    ghost var goal := RoomFor(site.charge, Pool(cell, toDross));
    DischargeKeeps(site, cell, goal, toDross);
    var charge, pool := EmptyInto(site.charge, Pool(cell, toDross));
    site', cell' := site.(charge := charge), if toDross then cell.(dross := pool) else cell.(ambient := pool);
    AbsorbedIs(site, cell, goal, toDross);
  }

  lemma AbsorbedIs(site: EcologySite, cell: Cell, moved: Six, toDross: bool)
    ensures Discharged(site, moved) == site.(charge := SixMinus(site.charge, moved))
    ensures Absorbed(cell, moved, toDross)
            == if toDross then cell.(dross := SixPlus(Pool(cell, toDross), moved))
               else cell.(ambient := SixPlus(Pool(cell, toDross), moved))
  {
    hide SixPlus, SixMinus;
  }

  method EmptyInto(charge: Six, held: Six) returns (charge': Six, held': Six)
    ensures charge' == SixMinus(charge, RoomFor(charge, held)) && held' == SixPlus(held, RoomFor(charge, held))
  {
    ghost var goal := RoomFor(charge, held);
    charge', held' := charge, held;
    for slot := 0 to 6
      invariant forall s | 0 <= s < 6 :: charge'[s] == if s < slot then Saturating(charge[s], goal[s]) else charge[s]
      invariant forall s | 0 <= s < 6 :: held'[s] == if s < slot then held[s] + goal[s] else held[s]
    {
      RoomSlot(charge, held, slot);
      hide RoomFor;
      var moved := Min(charge'[slot], Saturating(U16_MAX, held'[slot]));
      charge' := charge'[slot := charge'[slot] - moved];
      held' := held'[slot := held'[slot] + moved];
    }
    hide RoomFor;
  }

  // ----- uptake -----

  /** Checked 32-bit addition of six bands, left where it stops. */
  function AddedUntil(target: Six, moved: Six): Six {
    Until(FitFlags(target, moved), SixPlus(target, moved), target)
  }

  predicate AllFit(target: Six, moved: Six) {
    Through(FitFlags(target, moved), 6)
  }

  /** Units that never arrive: everything from the first band that overflows on. */
  function Unadded(target: Six, moved: Six): Six {
    Until(FitFlags(target, moved), Zero6, moved)
  }

  lemma AddedSlot(target: Six, moved: Six, slot: nat)
    requires slot < 6
    ensures AddedUntil(target, moved)[slot] + Unadded(target, moved)[slot] == target[slot] + moved[slot]
    ensures AddedUntil(target, moved)[slot] <= target[slot] + moved[slot]
  {
    var flags := FitFlags(target, moved);
    UntilSlot(flags, SixPlus(target, moved), target, slot);
    UntilSlot(flags, Zero6, moved, slot);
    SixSlots(target, moved, slot);
    hide Until, FitFlags, Through, SixPlus;
  }

  lemma AddedAll(target: Six, moved: Six)
    requires AllFit(target, moved)
    ensures AddedUntil(target, moved) == SixPlus(target, moved) && Unadded(target, moved) == Zero6
  {
    UntilAll(FitFlags(target, moved), SixPlus(target, moved), target);
    UntilAll(FitFlags(target, moved), Zero6, moved);
    hide Until, FitFlags, SixPlus;
  }

  /** The loop stops at the first band that overflows, and its band and those after it stay as they were. */
  method AddBands(target: Six, moved: Six) returns (out: Six, ok: bool)
    ensures ok <==> AllFit(target, moved)
    ensures ok <==> forall s | 0 <= s < 6 :: target[s] + moved[s] <= U32_MAX
    ensures out == AddedUntil(target, moved)
  {
    out := target;
    ghost var flags := FitFlags(target, moved);
    assert forall s | 0 <= s < 6 :: flags[s] <==> target[s] + moved[s] <= U32_MAX;
    ghost var sum := SixPlus(target, moved);
    assert forall s | 0 <= s < 6 :: sum[s] == target[s] + moved[s];
    hide FitFlags, Until;
    for slot := 0 to 6
      invariant forall s | 0 <= s < 6 :: out[s] == if s < slot then sum[s] else target[s]
      invariant Through(flags, slot)
    {
      if out[slot] + moved[slot] > U32_MAX {
        UntilStopped(flags, sum, target, slot, out);
        return out, false;
      }
      out := out[slot := out[slot] + moved[slot]];
    }
    UntilStopped(flags, sum, target, 6, out);
    ok := true;
  }

  /** The pool a species feeds on and what it wants of it. */
  function Wanted(site: EcologySite, definition: EcologyDef, uptake: nat): nat {
    if definition.source == FromDross then Min(uptake, Saturating(DrossLimit(definition, site), Sum6(site.dross)))
    else uptake
  }

  function FedBands(site: EcologySite, definition: EcologyDef, cell: Cell, uptake: nat): Six {
    Uptake(Pool(cell, definition.source == FromDross), definition.weights, Wanted(site, definition, uptake))
  }

  function Eaten(site: EcologySite, dross: bool): Six {
    if dross then site.dross else site.charge
  }

  /** The organism takes up ambient Current, or dross as far as it tolerates more. Units that find their band full
      have left the cell already. */
  function Fed(site: EcologySite, definition: EcologyDef, cell: Cell, uptake: nat): Lived {
    var dross := definition.source == FromDross;
    var moved := FedBands(site, definition, cell, uptake);
    if dross then
      Lived(site.(dross := AddedUntil(site.dross, moved)), cell.(dross := SixMinus(cell.dross, moved)),
            AllFit(site.dross, moved))
    else
      Lived(site.(charge := AddedUntil(site.charge, moved)), cell.(ambient := SixMinus(cell.ambient, moved)),
            AllFit(site.charge, moved))
  }

  /** What an uptake takes out of the cell and does not put into the site. */
  function FedLost(site: EcologySite, definition: EcologyDef, cell: Cell, uptake: nat): Six {
    Unadded(Eaten(site, definition.source == FromDross), FedBands(site, definition, cell, uptake))
  }

  lemma FedKeeps(site: EcologySite, definition: EcologyDef, cell: Cell, uptake: nat)
    ensures var r := Fed(site, definition, cell, uptake);
            && ShortCustody(site, cell, r.site, r.cell, FedLost(site, definition, cell, uptake))
            && r.site == site.(charge := r.site.charge, dross := r.site.dross)
            && (r.ok ==> FedLost(site, definition, cell, uptake) == Zero6)
  {
    hide *;
    var dross := definition.source == FromDross;
    var moved := FedBands(site, definition, cell, uptake);
    FedTakes(site, definition, cell, uptake);
    TakenCustody(site, cell, moved, dross);
    FedIs(site, definition, cell, uptake);
    if Fed(site, definition, cell, uptake).ok {
      AddedAll(Eaten(site, dross), moved);
    }
  }

  lemma FedTakes(site: EcologySite, definition: EcologyDef, cell: Cell, uptake: nat)
    ensures var pool := Pool(cell, definition.source == FromDross);
            var moved := FedBands(site, definition, cell, uptake);
            TakenFrom(pool, moved, SixMinus(pool, moved)) && Sum6(moved) <= Wanted(site, definition, uptake)
  {
    hide Uptake, Wanted, SixMinus, Sum6, TakenFrom, Pool;
    UptakeExact(Pool(cell, definition.source == FromDross), definition.weights, Wanted(site, definition, uptake));
  }

  lemma FedIs(site: EcologySite, definition: EcologyDef, cell: Cell, uptake: nat)
    ensures var dross := definition.source == FromDross;
            var moved := FedBands(site, definition, cell, uptake);
            var eaten := if dross then site.dross else site.charge;
            var r := Fed(site, definition, cell, uptake);
            && FedLost(site, definition, cell, uptake) == Unadded(eaten, moved) && eaten == Eaten(site, dross)
            && r.ok == AllFit(eaten, moved)
            && r.site == (if dross then site.(dross := AddedUntil(site.dross, moved))
                          else site.(charge := AddedUntil(site.charge, moved)))
            && r.cell == (if dross then cell.(dross := SixMinus(cell.dross, moved))
                          else cell.(ambient := SixMinus(cell.ambient, moved)))
  {
    hide FedBands, AddedUntil, Unadded, AllFit, SixMinus;
  }

  lemma FedBounds(site: EcologySite, definition: EcologyDef, cell: Cell, uptake: nat)
    requires uptake <= Saturating(definition.chargeCapacity, Sum6(site.charge))
    ensures var r := Fed(site, definition, cell, uptake);
            && (r.ok ==> Sum6(r.site.charge) <= Max(definition.chargeCapacity, Sum6(site.charge)))
            && (r.ok ==> Sum6(r.site.dross) <= Max(DrossLimit(definition, site), Sum6(site.dross)))
            && (Hardy(definition, site) ==> r.ok)
  {
    hide *;
    var dross := definition.source == FromDross;
    var moved := FedBands(site, definition, cell, uptake);
    FedTakes(site, definition, cell, uptake);
    FedIs(site, definition, cell, uptake);
    AddedBands(Eaten(site, dross), moved);
    WantedBounds(site, definition, uptake);
    if AllFit(Eaten(site, dross), moved) {
      AddedAll(Eaten(site, dross), moved);
    } else {
      NoRoom(Eaten(site, dross), moved);
    }
  }

  lemma WantedBounds(site: EcologySite, definition: EcologyDef, uptake: nat)
    requires uptake <= Saturating(definition.chargeCapacity, Sum6(site.charge))
    ensures var wanted := Wanted(site, definition, uptake);
            if definition.source == FromDross then
              && Sum6(site.dross) + wanted <= Max(DrossLimit(definition, site), Sum6(site.dross))
              && Sum6(site.charge) <= Max(definition.chargeCapacity, Sum6(site.charge))
              && (Hardy(definition, site) ==> Sum6(site.dross) + wanted <= U32_MAX)
            else
              && Sum6(site.charge) + wanted <= Max(definition.chargeCapacity, Sum6(site.charge))
              && Sum6(site.dross) <= Max(DrossLimit(definition, site), Sum6(site.dross))
              && (Hardy(definition, site) ==> Sum6(site.charge) + wanted <= U32_MAX)
  {
    hide Sum6, DrossLimit;
    if Hardy(definition, site) {
      HardyLimit(definition, site);
    }
  }

  lemma NoRoom(target: Six, moved: Six)
    requires !AllFit(target, moved)
    ensures U32_MAX < Sum6(target) + Sum6(moved)
  {
    AddedBands(target, moved);
  }

  method TakeUp(site: EcologySite, definition: EcologyDef, cell: Cell, uptake: nat)
    returns (site': EcologySite, cell': Cell, ok: bool)
    ensures Lived(site', cell', ok) == Fed(site, definition, cell, uptake)
  {
    hide Uptake, AddedUntil, AllFit, SixMinus, DrossLimit;
    if definition.source == FromDross {
      var wanted := Min(uptake, Saturating(DrossLimit(definition, site), Sum6(site.dross)));
      var left, moved := TakeWeighted(cell.dross, definition.weights, wanted);
      var dross;
      dross, ok := AddBands(site.dross, moved);
      site', cell' := site.(dross := dross), cell.(dross := left);
    } else {
      var left, moved := TakeWeighted(cell.ambient, definition.weights, uptake);
      var charge;
      charge, ok := AddBands(site.charge, moved);
      site', cell' := site.(charge := charge), cell.(ambient := left);
    }
  }

  lemma AddedBands(target: Six, moved: Six)
    ensures Sum6(SixPlus(target, moved)) == Sum6(target) + Sum6(moved)
    ensures forall s | 0 <= s < 6 :: target[s] + moved[s] <= Sum6(target) + Sum6(moved)
  {
  }

  lemma TakenCustody(site: EcologySite, cell: Cell, moved: Six, dross: bool)
    requires TakenFrom(Pool(cell, dross), moved, SixMinus(Pool(cell, dross), moved))
    ensures dross ==>
              ShortCustody(site, cell, site.(dross := AddedUntil(site.dross, moved)),
                           cell.(dross := SixMinus(cell.dross, moved)),
                           Unadded(site.dross, moved))
    ensures !dross ==>
              ShortCustody(site, cell, site.(charge := AddedUntil(site.charge, moved)),
                           cell.(ambient := SixMinus(cell.ambient, moved)), Unadded(site.charge, moved))
  {
    var left := SixMinus(Pool(cell, dross), moved);
    forall slot | 0 <= slot < 6
      ensures AddedUntil(Eaten(site, dross), moved)[slot] + Unadded(Eaten(site, dross), moved)[slot]
              == Eaten(site, dross)[slot] + moved[slot]
    {
      AddedSlot(Eaten(site, dross), moved, slot);
    }
    hide SixMinus, AddedUntil, Unadded;
    if Representable(cell) {
      LessRepresentable(cell, left, moved, dross);
    }
    hide Representable;
  }

  lemma LessRepresentable(cell: Cell, left: Six, moved: Six, dross: bool)
    requires Representable(cell) && TakenFrom(Pool(cell, dross), moved, left)
    ensures Representable(if dross then cell.(dross := left) else cell.(ambient := left))
  {
    var cell' := if dross then cell.(dross := left) else cell.(ambient := left);
    forall band | 0 <= band < 18 ensures Held(cell', band) <= U16_MAX {
      assert Held(cell, band) <= U16_MAX;
    }
  }

  // ----- the day of one site -----

  function Tick(definition: EcologyDef, day: nat): bool {
    day % Max(definition.regrowthDays, 1) == 0
  }

  function WaterNeed(definition: EcologyDef, site: EcologySite): nat {
    Min(definition.waterPerDay * Max(site.population, 1), U64_MAX)
  }

  function CrystalStage(definition: EcologyDef, charge: nat): nat {
    var stageCapacity := definition.chargeCapacity / Max(definition.crystalStages, 1);
    var earned := charge / Max(stageCapacity, 1) % 0x100;
    Max(Min(earned, Saturating(definition.crystalStages, 1)), 1)
  }

  /** Growth on a regrowth day: a new individual if the soil can feed it, or else a seed. */
  function Grown(site: EcologySite, definition: EcologyDef): (r: EcologySite)
    ensures SameBands(site, r)
    ensures site.population <= site.carryingCapacity ==> r.population <= r.carryingCapacity
    ensures r.population == site.population || r.population == site.population + 1
    ensures r.population != site.population ==>
              site.soil >= definition.nutrientPerDay * Max(definition.regrowthDays, 1) || site.soil >= U32_MAX
    ensures definition.kind == Crystal && 2 <= definition.crystalStages
            && site.crystalStage < definition.crystalStages ==>
              r.crystalStage < definition.crystalStages
  {
    var awake := if site.stage == Collapsed && site.seedBank != 0 then site.(stage := Recovering) else site;
    if awake.population < awake.carryingCapacity && awake.seedBank != 0 then
      var nutrients := Min(definition.nutrientPerDay * Max(definition.regrowthDays, 1), U32_MAX);
      if awake.soil >= nutrients then
        var population := awake.population + 1;
        awake.(soil := awake.soil - nutrients, biomass := Min(awake.biomass + nutrients, U32_MAX),
               population := population, seedBank := awake.seedBank - 1,
               stage := if population >= awake.carryingCapacity / 2 then Mature else Recovering,
               crystalStage := if definition.kind == Crystal then CrystalStage(definition, Sum6(awake.charge))
                               else awake.crystalStage)
      else awake
    else if awake.population != 0 then
      awake.(seedBank := Min(Min(awake.seedBank + 1, U16_MAX), Min(awake.carryingCapacity * 3, U16_MAX)))
    else awake
  }

  /** What one day does to a site and its cell, whatever the weather. */
  ghost predicate DayLaw(definition: EcologyDef, site: EcologySite, cell: Cell, site': EcologySite, cell': Cell) {
    && SameCustody(site, cell, site', cell')
    && site'.carryingCapacity == site.carryingCapacity
    && (Nutrients(site) <= U32_MAX ==> Nutrients(site') == Nutrients(site))
    && (Thriving(definition, site) && (definition.kind == Crystal ==> 2 <= definition.crystalStages) ==>
          Thriving(definition, site'))
    && (Hardy(definition, site) ==> Hardy(definition, site'))
  }

  lemma DayLawTrans(definition: EcologyDef, a: EcologySite, x: Cell, b: EcologySite, y: Cell, c: EcologySite, z: Cell)
    requires DayLaw(definition, a, x, b, y) && DayLaw(definition, b, y, c, z)
    ensures DayLaw(definition, a, x, c, z)
  {
    CustodyTrans(a, x, b, y, c, z);
    hide SameCustody, Nutrients, Thriving, Hardy;
  }

  lemma DayLawBands(definition: EcologyDef, site: EcologySite, site': EcologySite, cell: Cell)
    requires SameBands(site, site')
    requires site.population <= site.carryingCapacity ==> site'.population <= site'.carryingCapacity
    requires definition.kind == Crystal && 2 <= definition.crystalStages
             && site.crystalStage < definition.crystalStages ==>
               site'.crystalStage < definition.crystalStages
    ensures DayLaw(definition, site, cell, site', cell)
  {
    SameBandsCustody(site, site', cell);
    hide SameCustody, Nutrients, Sum6;
  }

  lemma DayLawMoved(definition: EcologyDef, site: EcologySite, cell: Cell, site': EcologySite, cell': Cell)
    requires SameCustody(site, cell, site', cell')
             && Sum6(site'.charge) <= Max(definition.chargeCapacity, Sum6(site.charge))
    requires site'.carryingCapacity == site.carryingCapacity && site'.population == site.population
    requires site'.crystalStage == site.crystalStage && Nutrients(site') == Nutrients(site) && site'.dross == site.dross
    ensures DayLaw(definition, site, cell, site', cell')
  {
    hide SameCustody, Nutrients, Sum6;
  }

  function Withered(site: EcologySite, definition: EcologyDef, cell: Cell): Lived {
    var lost := PopulationLost(site, definition);
    if lost.population == 0 then CollapsedInto(lost, definition, cell) else Lived(lost, cell, true)
  }

  /** What holds of one part of a day that could be finished. */
  ghost predicate PartLaw(definition: EcologyDef, site: EcologySite, cell: Cell, r: Lived) {
    r.ok && DayLaw(definition, site, cell, r.site, r.cell) && r.site.waterDrawn == site.waterDrawn
  }

  lemma WitheredLaw(definition: EcologyDef, site: EcologySite, cell: Cell)
    ensures PartLaw(definition, site, cell, Withered(site, definition, cell))
  {
    var lost := PopulationLost(site, definition);
    DayLawBands(definition, site, lost, cell);
    if lost.population == 0 {
      CollapsedKeeps(lost, definition, cell);
      var r := CollapsedInto(lost, definition, cell);
      assert r.ok && r.site == lost.(charge := r.site.charge, stage := r.site.stage, collapses := r.site.collapses);
      hide DayLaw, Nutrients, Sum6, SameCustody, CollapsedInto, PopulationLost;
      DayLawMoved(definition, lost, cell, r.site, r.cell);
      DayLawTrans(definition, site, cell, lost, cell, r.site, r.cell);
    } else {
      hide DayLaw, CollapsedInto;
    }
  }

  /** One individual dies; the last one takes the site down with it. */
  method Wither(site: EcologySite, definition: EcologyDef, cell: Cell) returns (site': EcologySite, cell': Cell)
    ensures Lived(site', cell', true) == Withered(site, definition, cell)
    ensures site'.population == Saturating(site.population, 1)
    ensures site'.population == 0 ==> site'.stage == Collapsed
    ensures site'.population != 0 ==> cell' == cell
  {
    hide SameCustody, Sum6, Nutrients;
    site', cell' := PopulationLost(site, definition), cell;
    if site'.population == 0 {
      site', cell' := Collapse(site', definition, cell);
    }
  }

  /** The seed can sprout: the season, the habitat, water and its source allow it and dross does not stall it. */
  predicate Favourable(site: EcologySite, definition: EcologyDef, weather: Weather, water: nat) {
    && weather.suitable && weather.seasonal
    && (WaterNeed(definition, site) == 0 || WaterNeed(definition, site) <= water)
    && (definition.kind == Crystal ==> !weather.blocked)
    && site.seedBank != 0
    && (definition.source == FromHeart ==> weather.heartAlive)
    && !Stalled(definition, weather)
  }

  predicate Stalled(definition: EcologyDef, weather: Weather) {
    definition.source != FromDross && weather.seep
  }

  predicate Wilting(definition: EcologyDef, weather: Weather) {
    definition.source != FromDross && definition.kind != FiniteMineral && weather.scar
  }

  function DailyUptake(site: EcologySite, definition: EcologyDef, weather: Weather): nat {
    var rate := if site.content == "base:stormvine" && !weather.storming then 0 else definition.uptakePerDay;
    Min(rate * Max(site.population, 1), Saturating(definition.chargeCapacity, Sum6(site.charge)))
  }

  function Saturated(a: nat, b: nat): nat {
    Min(a + b, U64_MAX)
  }

  function Drunk(site: EcologySite, definition: EcologyDef): EcologySite {
    site.(waterDrawn := Saturated(site.waterDrawn, WaterNeed(definition, site)))
  }

  /** After feeding: release, and grow on a regrowth day. */
  function Digested(site: EcologySite, definition: EcologyDef, cell: Cell, day: nat): Lived {
    var released := Released(site, definition, cell);
    if Tick(definition, day) then released.(site := Grown(released.site, definition)) else released
  }

  function Flourished(site: EcologySite, definition: EcologyDef, weather: Weather, cell: Cell, day: nat): Lived {
    var drunk := Drunk(site, definition);
    var fed := Fed(drunk, definition, cell, DailyUptake(drunk, definition, weather));
    if fed.ok then Digested(fed.site, definition, fed.cell, day) else fed
  }

  function Morning(site: EcologySite, definition: EcologyDef, weather: Weather, cell: Cell, day: nat, water: nat): Lived
  {
    if Favourable(site, definition, weather, water) then Flourished(site, definition, weather, cell, day)
    else if !Stalled(definition, weather) && Tick(definition, day) && site.population != 0
    then Withered(site, definition, cell)
    else Lived(site, cell, true)
  }

  function Noon(site: EcologySite, definition: EcologyDef, weather: Weather, cell: Cell, day: nat): Lived {
    if Wilting(definition, weather) && Tick(definition, day) && site.population != 0
    then Withered(site, definition, cell) else Lived(site, cell, true)
  }

  function Evening(site: EcologySite, definition: EcologyDef, cell: Cell): Lived {
    if site.population != 0 && Sum6(site.dross) > DrossLimit(definition, site)
    then Withered(site, definition, cell) else Lived(site, cell, true)
  }

  /** The whole day of a site in its cell; an uptake that fails ends it. */
  function DayOf(site: EcologySite, definition: EcologyDef, weather: Weather, cell: Cell, day: nat, water: nat): Lived {
    var morning := Morning(Mineralized(site), definition, weather, cell, day, water);
    if !morning.ok then morning
    else
      var noon := Noon(morning.site, definition, weather, morning.cell, day);
      Evening(noon.site, definition, noon.cell)
  }

  /** The units a day loses: those of a failed uptake. */
  function DayLost(site: EcologySite, definition: EcologyDef, weather: Weather, cell: Cell, water: nat): Six {
    if Favourable(Mineralized(site), definition, weather, water) then
      var drunk := Drunk(Mineralized(site), definition);
      FedLost(drunk, definition, cell, DailyUptake(drunk, definition, weather))
    else Zero6
  }

  lemma DrinkLaw(definition: EcologyDef, site: EcologySite, cell: Cell)
    ensures DayLaw(definition, site, cell, Drunk(site, definition), cell)
    ensures Hardy(definition, site) ==> Hardy(definition, Drunk(site, definition))
  {
    hide Representable, Sum6, WaterNeed, Saturated;
  }

  lemma UptakeWithin(site: EcologySite, definition: EcologyDef, weather: Weather)
    ensures DailyUptake(site, definition, weather) <= Saturating(definition.chargeCapacity, Sum6(site.charge))
  {
  }

  lemma FedLaw(definition: EcologyDef, site: EcologySite, cell: Cell, uptake: nat)
    requires uptake <= Saturating(definition.chargeCapacity, Sum6(site.charge))
    ensures var r := Fed(site, definition, cell, uptake);
            && (r.ok ==> PartLaw(definition, site, cell, r))
            && (Hardy(definition, site) ==> r.ok)
            && r.site.waterDrawn == site.waterDrawn
  {
    hide *;
    var r := Fed(site, definition, cell, uptake);
    FedKeeps(site, definition, cell, uptake);
    FedBounds(site, definition, cell, uptake);
    if r.ok {
      SameIsShort(site, cell, r.site, r.cell);
      TakenLaw(definition, site, cell, r);
    }
  }

  lemma TakenLaw(definition: EcologyDef, site: EcologySite, cell: Cell, r: Lived)
    requires r.ok && SameCustody(site, cell, r.site, r.cell)
    requires Sum6(r.site.charge) <= Max(definition.chargeCapacity, Sum6(site.charge))
    requires Sum6(r.site.dross) <= Max(DrossLimit(definition, site), Sum6(site.dross))
    requires r.site == site.(charge := r.site.charge, dross := r.site.dross)
    ensures PartLaw(definition, site, cell, r)
  {
    hide SameCustody, Sum6;
    if Hardy(definition, site) {
      HardyLimit(definition, site);
    }
  }

  lemma DigestedLaw(definition: EcologyDef, site: EcologySite, cell: Cell, day: nat)
    ensures PartLaw(definition, site, cell, Digested(site, definition, cell, day))
  {
    var released := Released(site, definition, cell);
    ReleasedKeeps(site, definition, cell);
    assert released.ok && released.site == site.(charge := released.site.charge);
    hide Released, Grown, SameCustody, Sum6;
    DayLawMoved(definition, site, cell, released.site, released.cell);
    GrownLaw(definition, released.site, released.cell);
    DayLawTrans(definition, site, cell, released.site, released.cell, Grown(released.site, definition), released.cell);
    hide DayLaw;
  }

  lemma GrownLaw(definition: EcologyDef, site: EcologySite, cell: Cell)
    ensures DayLaw(definition, site, cell, Grown(site, definition), cell)
    ensures Grown(site, definition).waterDrawn == site.waterDrawn
  {
    DayLawBands(definition, site, Grown(site, definition), cell);
    hide Grown, DayLaw, Nutrients;
  }

  /** A favourable day: units are lost only by an uptake that fails, and otherwise the law of the day holds. */
  lemma FlourishedLaw(definition: EcologyDef, weather: Weather, site: EcologySite, cell: Cell, day: nat)
    ensures var r := Flourished(site, definition, weather, cell, day);
            var drunk := Drunk(site, definition);
            && (r.ok ==> DayLaw(definition, site, cell, r.site, r.cell))
            && (Hardy(definition, site) ==> r.ok)
            && r.site.waterDrawn == drunk.waterDrawn
            && ShortCustody(site, cell, r.site, r.cell,
                            FedLost(drunk, definition, cell, DailyUptake(drunk, definition, weather)))
            && (r.ok ==> FedLost(drunk, definition, cell, DailyUptake(drunk, definition, weather)) == Zero6)
  {
    hide *;
    var drunk := Drunk(site, definition);
    var uptake := DailyUptake(drunk, definition, weather);
    var fed := Fed(drunk, definition, cell, uptake);
    DrinkLaw(definition, site, cell);
    LawKeeps(definition, site, cell, drunk, cell);
    UptakeWithin(drunk, definition, weather);
    FedLaw(definition, drunk, cell, uptake);
    FedKeeps(drunk, definition, cell, uptake);
    FlourishedIs(site, definition, weather, cell, day);
    if fed.ok {
      var r := Digested(fed.site, definition, fed.cell, day);
      DigestedLaw(definition, fed.site, fed.cell, day);
      PartIs(definition, drunk, cell, fed);
      PartIs(definition, fed.site, fed.cell, r);
      DayLawTrans(definition, site, cell, drunk, cell, fed.site, fed.cell);
      DayLawTrans(definition, site, cell, fed.site, fed.cell, r.site, r.cell);
      LawKeeps(definition, site, cell, r.site, r.cell);
      SameIsShort(site, cell, r.site, r.cell);
    } else {
      ShortTrans(site, cell, drunk, cell, fed.site, fed.cell, FedLost(drunk, definition, cell, uptake));
    }
  }

  lemma FlourishedIs(site: EcologySite, definition: EcologyDef, weather: Weather, cell: Cell, day: nat)
    ensures var drunk := Drunk(site, definition);
            var fed := Fed(drunk, definition, cell, DailyUptake(drunk, definition, weather));
            Flourished(site, definition, weather, cell, day)
            == if fed.ok then Digested(fed.site, definition, fed.cell, day) else fed
  {
    hide Fed, Digested, Drunk, DailyUptake;
  }

  lemma LawKeeps(definition: EcologyDef, site: EcologySite, cell: Cell, site': EcologySite, cell': Cell)
    requires DayLaw(definition, site, cell, site', cell')
    ensures SameCustody(site, cell, site', cell')
  {
    hide SameCustody, Nutrients, Thriving, Hardy;
  }

  lemma PartIs(definition: EcologyDef, site: EcologySite, cell: Cell, r: Lived)
    requires PartLaw(definition, site, cell, r)
    ensures r.ok && DayLaw(definition, site, cell, r.site, r.cell) && r.site.waterDrawn == site.waterDrawn
  {
    hide DayLaw;
  }

  /** A favourable day: drink, take up, release, and grow on a regrowth day. */
  method Flourish(site: EcologySite, definition: EcologyDef, weather: Weather, cell: Cell, day: nat)
    returns (site': EcologySite, cell': Cell, ok: bool)
    ensures Lived(site', cell', ok) == Flourished(site, definition, weather, cell, day)
  {
    hide Fed, Released, Grown, SameCustody, Sum6, DailyUptake, WaterNeed, Tick;
    site' := site.(waterDrawn := Saturated(site.waterDrawn, WaterNeed(definition, site)));
    site', cell', ok := TakeUp(site', definition, cell, DailyUptake(site', definition, weather));
    if !ok {
      return;
    }
    site', cell' := ReleaseCharge(site', definition, cell');
    if Tick(definition, day) {
      site' := Grown(site', definition);
    }
  }

  lemma MineralizedLaw(definition: EcologyDef, site: EcologySite, weather: Weather, cell: Cell, water: nat)
    ensures DayLaw(definition, site, cell, Mineralized(site), cell) && Mineralized(site).waterDrawn == site.waterDrawn
    ensures Favourable(Mineralized(site), definition, weather, water) == Favourable(site, definition, weather, water)
    ensures WaterNeed(definition, Mineralized(site)) == WaterNeed(definition, site)
    ensures Hardy(definition, site) ==> Hardy(definition, Mineralized(site))
  {
    DayLawBands(definition, site, Mineralized(site), cell);
    hide DayLaw, Nutrients, Sum6;
  }

  lemma PartNothing(definition: EcologyDef, site: EcologySite, cell: Cell)
    ensures PartLaw(definition, site, cell, Lived(site, cell, true))
  {
    DayLawBands(definition, site, site, cell);
    hide DayLaw;
  }

  lemma NoonLaw(definition: EcologyDef, weather: Weather, site: EcologySite, cell: Cell, day: nat)
    ensures PartLaw(definition, site, cell, Noon(site, definition, weather, cell, day))
  {
    WitheredLaw(definition, site, cell);
    PartNothing(definition, site, cell);
    hide PartLaw, Withered, Wilting, Tick;
  }

  lemma EveningLaw(definition: EcologyDef, site: EcologySite, cell: Cell)
    ensures PartLaw(definition, site, cell, Evening(site, definition, cell))
  {
    WitheredLaw(definition, site, cell);
    PartNothing(definition, site, cell);
    hide PartLaw, Withered, DrossLimit, Sum6;
  }

  function Drinks(site: EcologySite, definition: EcologyDef, weather: Weather, water: nat): nat {
    if Favourable(site, definition, weather, water) then WaterNeed(definition, site) else 0
  }

  lemma MorningLaw(definition: EcologyDef, weather: Weather, site: EcologySite, cell: Cell, day: nat, water: nat)
    requires site.waterDrawn <= U64_MAX
    ensures var r := Morning(Mineralized(site), definition, weather, cell, day, water);
            && (r.ok ==> DayLaw(definition, site, cell, r.site, r.cell))
            && (Hardy(definition, site) ==> r.ok)
            && r.site.waterDrawn == Saturated(site.waterDrawn, Drinks(site, definition, weather, water))
            && ShortCustody(site, cell, r.site, r.cell, DayLost(site, definition, weather, cell, water))
            && (r.ok ==> DayLost(site, definition, weather, cell, water) == Zero6)
  {
    hide *;
    var rested := Mineralized(site);
    MineralizedLaw(definition, site, weather, cell, water);
    LawKeeps(definition, site, cell, rested, cell);
    MorningIs(rested, site, definition, weather, cell, day, water);
    var r := Morning(rested, definition, weather, cell, day, water);
    if Favourable(rested, definition, weather, water) {
      FlourishedLaw(definition, weather, rested, cell, day);
      DrunkIs(rested, definition);
      if r.ok {
        DayLawTrans(definition, site, cell, rested, cell, r.site, r.cell);
      }
      ShortTrans(site, cell, rested, cell, r.site, r.cell, DayLost(site, definition, weather, cell, water));
    } else {
      WitheredLaw(definition, rested, cell);
      PartNothing(definition, rested, cell);
      PartIs(definition, rested, cell, r);
      DayLawTrans(definition, site, cell, rested, cell, r.site, r.cell);
      LawKeeps(definition, site, cell, r.site, r.cell);
      SameIsShort(site, cell, r.site, r.cell);
      SaturatedNothing(site.waterDrawn);
    }
  }

  lemma DrunkIs(site: EcologySite, definition: EcologyDef)
    ensures Drunk(site, definition).waterDrawn == Saturated(site.waterDrawn, WaterNeed(definition, site))
  {
    hide Saturated, WaterNeed;
  }

  lemma SaturatedNothing(a: nat)
    requires a <= U64_MAX
    ensures Saturated(a, 0) == a
  {
  }

  lemma MorningIs(rested: EcologySite, site: EcologySite, definition: EcologyDef, weather: Weather, cell: Cell,
                  day: nat, water: nat)
    requires rested == Mineralized(site)
    requires Favourable(rested, definition, weather, water) == Favourable(site, definition, weather, water)
    ensures var r := Morning(rested, definition, weather, cell, day, water);
            var drunk := Drunk(rested, definition);
            if Favourable(rested, definition, weather, water) then
              && r == Flourished(rested, definition, weather, cell, day)
              && DayLost(site, definition, weather, cell, water)
                 == FedLost(drunk, definition, cell, DailyUptake(drunk, definition, weather))
              && Drinks(site, definition, weather, water) == WaterNeed(definition, site)
            else
              && (r == Withered(rested, definition, cell) || r == Lived(rested, cell, true))
              && DayLost(site, definition, weather, cell, water) == Zero6
              && Drinks(site, definition, weather, water) == 0
  {
    hide Favourable, Flourished, Withered, Stalled, Tick, FedLost, Drunk, DailyUptake, WaterNeed, Mineralized;
  }

  /** One site's day. Units move only between the site and its cell, except those a failed uptake loses; nutrients move
      between its pools; it drinks either nothing or exactly its need; species limits hold on; and it cannot fail while
      32-bit bands suffice. */
  lemma DayOfLaw(definition: EcologyDef, weather: Weather, site: EcologySite, cell: Cell, day: nat, water: nat)
    requires site.waterDrawn <= U64_MAX
    ensures var r := DayOf(site, definition, weather, cell, day, water);
            && (r.ok ==> DayLaw(definition, site, cell, r.site, r.cell))
            && (Hardy(definition, site) ==> r.ok)
            && r.site.waterDrawn == Saturated(site.waterDrawn, Drinks(site, definition, weather, water))
            && ShortCustody(site, cell, r.site, r.cell, DayLost(site, definition, weather, cell, water))
            && (r.ok ==> DayLost(site, definition, weather, cell, water) == Zero6)
  {
    hide *;
    MorningLaw(definition, weather, site, cell, day, water);
    DayOfIs(site, definition, weather, cell, day, water);
    var morning := Morning(Mineralized(site), definition, weather, cell, day, water);
    if morning.ok {
      var noon := Noon(morning.site, definition, weather, morning.cell, day);
      var r := Evening(noon.site, definition, noon.cell);
      NoonLaw(definition, weather, morning.site, morning.cell, day);
      EveningLaw(definition, noon.site, noon.cell);
      PartIs(definition, morning.site, morning.cell, noon);
      PartIs(definition, noon.site, noon.cell, r);
      DayLawTrans(definition, site, cell, morning.site, morning.cell, noon.site, noon.cell);
      DayLawTrans(definition, site, cell, noon.site, noon.cell, r.site, r.cell);
      LawKeeps(definition, site, cell, r.site, r.cell);
      SameIsShort(site, cell, r.site, r.cell);
    }
  }

  lemma DayOfIs(site: EcologySite, definition: EcologyDef, weather: Weather, cell: Cell, day: nat, water: nat)
    ensures var morning := Morning(Mineralized(site), definition, weather, cell, day, water);
            var noon := Noon(morning.site, definition, weather, morning.cell, day);
            DayOf(site, definition, weather, cell, day, water)
            == if morning.ok then Evening(noon.site, definition, noon.cell) else morning
  {
    hide Morning, Noon, Evening, Mineralized;
  }

  /** The day, step by step. */
  method LiveDay(site: EcologySite, definition: EcologyDef, weather: Weather, cell: Cell, day: nat, water: nat)
    returns (site': EcologySite, cell': Cell, drunk: nat, ok: bool)
    ensures Lived(site', cell', ok) == DayOf(site, definition, weather, cell, day, water)
    ensures drunk == Drinks(site, definition, weather, water) <= water
  {
    MineralizedLaw(definition, site, weather, cell, water);
    DrinksWithin(site, definition, weather, water);
    DayOfIs(site, definition, weather, cell, day, water);
    hide Favourable, Flourished, Withered, Stalled, Wilting, Tick, Sum6, DrossLimit, Mineralized, DayOf, WaterNeed,
         DayLaw, Hardy;
    drunk, ok := 0, true;
    site', cell' := Mineralized(site), cell;
    if Favourable(site', definition, weather, water) {
      drunk := WaterNeed(definition, site');
      site', cell', ok := Flourish(site', definition, weather, cell', day);
      if !ok {
        return;
      }
    } else if !Stalled(definition, weather) && Tick(definition, day) && site'.population != 0 {
      site', cell' := Wither(site', definition, cell');
    }
    if Wilting(definition, weather) && Tick(definition, day) && site'.population != 0 {
      site', cell' := Wither(site', definition, cell');
    }
    if site'.population != 0 && Sum6(site'.dross) > DrossLimit(definition, site') {
      site', cell' := Wither(site', definition, cell');
    }
  }

  lemma DrinksWithin(site: EcologySite, definition: EcologyDef, weather: Weather, water: nat)
    ensures Drinks(site, definition, weather, water) <= water
  {
  }
}
