/** The planet's ecology as a state machine: days, harvests and losses, what each does and what each may lose. */
module EcologyRuns {
  import opened Prelude
  import opened Bands
  import opened Transport
  import opened Pouring
  import opened EcologyModel

  datatype EcologyError =
    | BandOverflow | SiteDisappeared | ContentDisappeared | ChargeTaken | DrossTaken | BoundaryOverflow
    | SequenceOverflow

  datatype HarvestPlan = HarvestPlan(site: nat, charge: Six, dross: Six, destructive: bool, leavesBud: bool)

  /** What content says about species and about the ruin of their blocks. */
  datatype Ecosphere = Ecosphere(defs: map<string, EcologyDef>, dispositions: map<string, Disposition>)

  type Climate = (EcologySite, Cell, nat) -> Weather

  function Amount(m: map<nat, nat>, k: nat): nat {
    if k in m then m[k] else 0
  }

  // ----- custody over the planet -----

  ghost function SiteUnits(slot: nat): EcologySite -> int
    requires slot < 6
  {
    (s: EcologySite) => s.charge[slot] + s.dross[slot]
  }

  ghost function PlanetCustody(cells: seq<Cell>, sites: seq<EcologySite>, slot: nat): int
    requires slot < 6
  {
    BandTotal(cells, AMBIENT + slot) + BandTotal(cells, DROSS + slot) + SumSeq(sites, SiteUnits(slot))
  }

  /** Custody of every resonance has fallen by exactly `lost`; cells changed only in their two mutable pools. */
  ghost predicate PlanetShort(cells: seq<Cell>, sites: seq<EcologySite>, cells': seq<Cell>, sites': seq<EcologySite>,
                              lost: Six)
  {
    && |cells'| == |cells| && |sites'| == |sites|
    && (forall slot | 0 <= slot < 6 ::
        PlanetCustody(cells', sites', slot) + lost[slot] == PlanetCustody(cells, sites, slot))
    && (forall i | 0 <= i < |cells| :: cells'[i] == cells[i].(ambient := cells'[i].ambient, dross := cells'[i].dross))
  }

  ghost predicate SameEverywhere(cells: seq<Cell>, sites: seq<EcologySite>, cells': seq<Cell>, sites': seq<EcologySite>)
  {
    PlanetShort(cells, sites, cells', sites', Zero6)
  }

  ghost predicate Rooted(cells: seq<Cell>, sites: seq<EcologySite>) {
    && AllRepresentable(cells)
    && forall i | 0 <= i < |sites| :: sites[i].cell < |cells| && sites[i].waterDrawn <= U64_MAX
  }

  lemma SitePut(cells: seq<Cell>, sites: seq<EcologySite>, i: nat, site': EcologySite, cell': Cell, slot: nat)
    requires i < |sites| && sites[i].cell < |cells| && slot < 6
    ensures PlanetCustody(cells[sites[i].cell := cell'], sites[i := site'], slot)
            == PlanetCustody(cells, sites, slot) - Custody(sites[i], cells[sites[i].cell], slot)
               + Custody(site', cell', slot)
  {
    SumSeqPut(cells, sites[i].cell, cell', HeldOf(AMBIENT + slot));
    SumSeqPut(cells, sites[i].cell, cell', HeldOf(DROSS + slot));
    SumSeqPut(sites, i, site', SiteUnits(slot));
  }

  lemma SiteMoved(cells: seq<Cell>, sites: seq<EcologySite>, i: nat, site': EcologySite, cell': Cell, lost: Six)
    requires i < |sites| && sites[i].cell < |cells|
    requires ShortCustody(sites[i], cells[sites[i].cell], site', cell', lost)
    ensures PlanetShort(cells, sites, cells[sites[i].cell := cell'], sites[i := site'], lost)
  {
    var at := sites[i].cell;
    forall slot | 0 <= slot < 6
      ensures PlanetCustody(cells[at := cell'], sites[i := site'], slot) + lost[slot]
              == PlanetCustody(cells, sites, slot)
    {
      SitePut(cells, sites, i, site', cell', slot);
      hide PlanetCustody, Custody;
      assert Custody(site', cell', slot) + lost[slot] == Custody(sites[i], cells[at], slot);
    }
    hide PlanetCustody, Custody, Representable;
  }

  lemma PlanetTrans(a: seq<Cell>, x: seq<EcologySite>, b: seq<Cell>, y: seq<EcologySite>, c: seq<Cell>,
                    z: seq<EcologySite>,
                    first: Six, second: Six)
    requires PlanetShort(a, x, b, y, first) && PlanetShort(b, y, c, z, second)
    ensures PlanetShort(a, x, c, z, SixPlus(first, second))
  {
    forall slot | 0 <= slot < 6
      ensures PlanetCustody(c, z, slot) + SixPlus(first, second)[slot] == PlanetCustody(a, x, slot)
    {
      SixSlots(first, second, slot);
      hide PlanetCustody, SixPlus;
    }
    hide PlanetCustody, SixPlus;
  }

  lemma PlanetStill(cells: seq<Cell>, sites: seq<EcologySite>)
    ensures PlanetShort(cells, sites, cells, sites, Zero6)
  {
    hide PlanetCustody;
  }

  lemma PlusNothing(a: Six)
    ensures SixPlus(a, Zero6) == a && SixPlus(Zero6, a) == a
  {
  }

  lemma StillRooted(cells: seq<Cell>, sites: seq<EcologySite>, i: nat, site': EcologySite, cell': Cell, lost: Six)
    requires Rooted(cells, sites) && i < |sites| && sites[i].cell < |cells|
    requires ShortCustody(sites[i], cells[sites[i].cell], site', cell', lost) && site'.waterDrawn <= U64_MAX
    ensures Rooted(cells[sites[i].cell := cell'], sites[i := site'])
  {
    assert Representable(cells[sites[i].cell]);
    hide Custody, Representable;
  }

  lemma RootedAt(cells: seq<Cell>, sites: seq<EcologySite>, i: nat)
    requires Rooted(cells, sites) && i < |sites|
    ensures sites[i].cell < |cells| && sites[i].waterDrawn <= U64_MAX
  {
  }

  /** What a day may do to one site of a known species; an unknown one only goes dormant. */
  ghost predicate SiteLaw(defs: map<string, EcologyDef>, site: EcologySite, site': EcologySite) {
    if site.content !in defs then site' == site.(stage := Dormant)
    else
      var definition := defs[site.content];
      && site'.content == site.content && site'.cell == site.cell && site'.id == site.id
      && (Nutrients(site) <= U32_MAX ==> Nutrients(site') == Nutrients(site))
      && (Thriving(definition, site) && (definition.kind == Crystal ==> 2 <= definition.crystalStages) ==>
            Thriving(definition, site'))
      && (Hardy(definition, site) ==> Hardy(definition, site'))
      && (site'.waterDrawn == site.waterDrawn
          || site'.waterDrawn == Min(site.waterDrawn + WaterNeed(definition, site), U64_MAX))
  }

  ghost predicate AllHardy(defs: map<string, EcologyDef>, sites: seq<EcologySite>) {
    forall i | 0 <= i < |sites| && sites[i].content in defs :: Hardy(defs[sites[i].content], sites[i])
  }

  // ----- the days of many sites -----

  /** Everything a day works on, and whether it is still going. */
  datatype Grove = Grove(cells: seq<Cell>, sites: seq<EcologySite>, water: map<nat, nat>, ok: bool)

  function LiveAt(e: Ecosphere, climate: Climate, day: nat, g: Grove, i: nat): (r: Grove)
    requires i < |g.sites|
    ensures |r.sites| == |g.sites| && |r.cells| == |g.cells|
  {
    var site := g.sites[i];
    if !g.ok then g
    else if site.content !in e.defs then g.(sites := g.sites[i := site.(stage := Dormant)])
    else if site.cell >= |g.cells| then g
    else
      var definition, cell, water := e.defs[site.content], g.cells[site.cell], Amount(g.water, site.cell);
      var weather := climate(site, cell, day);
      var lived := DayOf(site, definition, weather, cell, day, water);
      Grove(g.cells[site.cell := lived.cell], g.sites[i := lived.site],
            g.water[site.cell := Saturating(water, Drinks(site, definition, weather, water))], lived.ok)
  }

  /** The sites from `start` up to `end` live their day, one after the other, until one fails. */
  function LiveTo(e: Ecosphere, climate: Climate, day: nat, g: Grove, start: nat, end: nat): (r: Grove)
    requires start <= end <= |g.sites|
    ensures |r.sites| == |g.sites| && |r.cells| == |g.cells|
  {
    if start == end then g else LiveAt(e, climate, day, LiveTo(e, climate, day, g, start, end - 1), end - 1)
  }

  /** Slicing a day does not change it. */
  lemma {:induction false} LiveInSlices(e: Ecosphere, climate: Climate, day: nat, g: Grove, start: nat, mid: nat,
                                        end: nat)
    requires start <= mid <= end <= |g.sites|
    ensures LiveTo(e, climate, day, LiveTo(e, climate, day, g, start, mid), mid, end)
            == LiveTo(e, climate, day, g, start, end)
    decreases end
  {
    hide LiveAt;
    if mid < end {
      LiveInSlices(e, climate, day, g, start, mid, end - 1);
    }
  }

  /** The units one site's day loses. */
  function LiveLost(e: Ecosphere, climate: Climate, day: nat, g: Grove, i: nat): Six
    requires i < |g.sites|
  {
    var site := g.sites[i];
    if !g.ok || site.content !in e.defs || site.cell >= |g.cells| then Zero6
    else
      var cell := g.cells[site.cell];
      DayLost(site, e.defs[site.content], climate(site, cell, day), cell, Amount(g.water, site.cell))
  }

  function LostTo(e: Ecosphere, climate: Climate, day: nat, g: Grove, start: nat, end: nat): Six
    requires start <= end <= |g.sites|
  {
    if start == end then Zero6
    else SixPlus(LostTo(e, climate, day, g, start, end - 1),
                 LiveLost(e, climate, day, LiveTo(e, climate, day, g, start, end - 1), end - 1))
  }

  /** What one site's day, finished or not, does to the planet. */
  ghost predicate GroveLaw(e: Ecosphere, g: Grove, r: Grove, lost: Six) {
    && PlanetShort(g.cells, g.sites, r.cells, r.sites, lost) && Rooted(r.cells, r.sites)
    && (r.ok ==> g.ok && lost == Zero6)
    && (g.ok && AllHardy(e.defs, g.sites) ==> r.ok && AllHardy(e.defs, r.sites))
  }

  lemma LiveAtLaw(e: Ecosphere, climate: Climate, day: nat, g: Grove, i: nat)
    requires i < |g.sites| && Rooted(g.cells, g.sites)
    ensures var r := LiveAt(e, climate, day, g, i);
            && GroveLaw(e, g, r, LiveLost(e, climate, day, g, i))
            && (r.ok ==> SiteLaw(e.defs, g.sites[i], r.sites[i]))
            && r.sites == g.sites[i := r.sites[i]]
  {
    hide *;
    RootedAt(g.cells, g.sites, i);
    var site := g.sites[i];
    if !g.ok {
      LiveAtStopped(e, climate, day, g, i);
      PlanetStill(g.cells, g.sites);
      GroveStill(e, g);
    } else if site.content !in e.defs {
      LiveAtUnknown(e, climate, day, g, i);
      DormantLaw(e, g, i);
    } else {
      var definition, cell, water := e.defs[site.content], g.cells[site.cell], Amount(g.water, site.cell);
      var weather := climate(site, cell, day);
      var lived := DayOf(site, definition, weather, cell, day, water);
      var lost := DayLost(site, definition, weather, cell, water);
      LiveAtKnown(e, climate, day, g, i);
      DayOfLaw(definition, weather, site, cell, day, water);
      SaturatedWithin(site.waterDrawn, Drinks(site, definition, weather, water));
      SiteMoved(g.cells, g.sites, i, lived.site, lived.cell, lost);
      StillRooted(g.cells, g.sites, i, lived.site, lived.cell, lost);
      HardyAt(e.defs, g.sites, i);
      if lived.ok {
        SiteLawFrom(e.defs, site, cell, lived, weather, water);
        HardyPut(e.defs, g.sites, i, lived.site);
      }
      GroveFrom(e, g, LiveAt(e, climate, day, g, i), lost);
    }
  }

  lemma GroveStill(e: Ecosphere, g: Grove)
    requires Rooted(g.cells, g.sites) && !g.ok && PlanetShort(g.cells, g.sites, g.cells, g.sites, Zero6)
    ensures GroveLaw(e, g, g, Zero6)
  {
    hide Rooted, PlanetShort, AllHardy;
  }

  lemma GroveFrom(e: Ecosphere, g: Grove, r: Grove, lost: Six)
    requires g.ok && PlanetShort(g.cells, g.sites, r.cells, r.sites, lost) && Rooted(r.cells, r.sites)
    requires r.ok ==> lost == Zero6
    requires AllHardy(e.defs, g.sites) ==> r.ok && AllHardy(e.defs, r.sites)
    ensures GroveLaw(e, g, r, lost)
  {
    hide Rooted, PlanetShort, AllHardy;
  }

  lemma SaturatedWithin(a: nat, b: nat)
    ensures Saturated(a, b) <= U64_MAX
  {
  }

  lemma LiveAtStopped(e: Ecosphere, climate: Climate, day: nat, g: Grove, i: nat)
    requires i < |g.sites| && !g.ok
    ensures LiveAt(e, climate, day, g, i) == g && LiveLost(e, climate, day, g, i) == Zero6
            && g.sites[i := g.sites[i]] == g.sites
  {
    hide DayOf, DayLost, Drinks;
  }

  lemma LiveAtUnknown(e: Ecosphere, climate: Climate, day: nat, g: Grove, i: nat)
    requires i < |g.sites| && g.ok && g.sites[i].content !in e.defs
    ensures LiveAt(e, climate, day, g, i) == g.(sites := g.sites[i := g.sites[i].(stage := Dormant)])
    ensures LiveLost(e, climate, day, g, i) == Zero6
  {
    hide DayOf, DayLost, Drinks;
  }

  lemma LiveAtKnown(e: Ecosphere, climate: Climate, day: nat, g: Grove, i: nat)
    requires i < |g.sites| && g.ok && g.sites[i].content in e.defs && g.sites[i].cell < |g.cells|
    ensures var site := g.sites[i];
            var definition, cell, water := e.defs[site.content], g.cells[site.cell], Amount(g.water, site.cell);
            var weather := climate(site, cell, day);
            var lived := DayOf(site, definition, weather, cell, day, water);
            && LiveAt(e, climate, day, g, i)
               == Grove(g.cells[site.cell := lived.cell], g.sites[i := lived.site],
                        g.water[site.cell := Saturating(water, Drinks(site, definition, weather, water))], lived.ok)
            && LiveLost(e, climate, day, g, i) == DayLost(site, definition, weather, cell, water)
  {
    hide DayOf, DayLost, Drinks, Amount;
  }

  lemma DormantLaw(e: Ecosphere, g: Grove, i: nat)
    requires Rooted(g.cells, g.sites) && i < |g.sites| && g.ok && g.sites[i].content !in e.defs
    ensures var dormant := g.sites[i].(stage := Dormant);
            SiteLaw(e.defs, g.sites[i], dormant) && GroveLaw(e, g, g.(sites := g.sites[i := dormant]), Zero6)
  {
    var dormant := g.sites[i].(stage := Dormant);
    var at := g.sites[i].cell;
    assert ShortCustody(g.sites[i], g.cells[at], dormant, g.cells[at], Zero6) by {
      hide Representable;
    }
    SiteMoved(g.cells, g.sites, i, dormant, g.cells[at], Zero6);
    assert g.cells[at := g.cells[at]] == g.cells;
    hide AllRepresentable, PlanetShort, Hardy;
  }

  lemma HardyAt(defs: map<string, EcologyDef>, sites: seq<EcologySite>, i: nat)
    requires i < |sites| && sites[i].content in defs
    ensures AllHardy(defs, sites) ==> Hardy(defs[sites[i].content], sites[i])
  {
    hide Hardy;
  }

  lemma HardyPut(defs: map<string, EcologyDef>, sites: seq<EcologySite>, i: nat, site': EcologySite)
    requires i < |sites| && sites[i].content in defs && SiteLaw(defs, sites[i], site')
    ensures AllHardy(defs, sites) ==> AllHardy(defs, sites[i := site'])
  {
    hide Hardy, Thriving, Nutrients;
  }

  lemma SiteLawFrom(defs: map<string, EcologyDef>, site: EcologySite, cell: Cell, lived: Lived, weather: Weather,
                    water: nat)
    requires site.content in defs && DayLaw(defs[site.content], site, cell, lived.site, lived.cell)
             && site.waterDrawn <= U64_MAX
    requires lived.site.waterDrawn == Saturated(site.waterDrawn, Drinks(site, defs[site.content], weather, water))
    ensures SiteLaw(defs, site, lived.site)
  {
    hide Hardy, Thriving, Nutrients, Favourable, Custody, Representable, WaterNeed;
  }

  /** What a slice of a day does, whether or not it reaches its end. */
  lemma {:induction false} LiveToLaw(e: Ecosphere, climate: Climate, day: nat, g: Grove, start: nat, end: nat)
    requires start <= end <= |g.sites| && Rooted(g.cells, g.sites) && g.ok
    ensures var r := LiveTo(e, climate, day, g, start, end);
            && GroveLaw(e, g, r, LostTo(e, climate, day, g, start, end))
            && (r.ok ==> forall k | start <= k < end :: SiteLaw(e.defs, g.sites[k], r.sites[k]))
            && (forall k | 0 <= k < |g.sites| && !(start <= k < end) :: r.sites[k] == g.sites[k])
    decreases end
  {
    hide *;
    if start == end {
      PlanetStill(g.cells, g.sites);
      LiveNothing(e, climate, day, g, start);
      GroveFrom(e, g, g, Zero6);
    } else {
      LiveToLaw(e, climate, day, g, start, end - 1);
      var before := LiveTo(e, climate, day, g, start, end - 1);
      var r := LiveTo(e, climate, day, g, start, end);
      GroveIs(e, g, before, LostTo(e, climate, day, g, start, end - 1));
      LiveAtLaw(e, climate, day, before, end - 1);
      LiveStep(e, climate, day, g, start, end);
      GroveTrans(e, g, before, r, LostTo(e, climate, day, g, start, end - 1),
                 LiveLost(e, climate, day, before, end - 1));
      GroveIs(e, before, r, LiveLost(e, climate, day, before, end - 1));
    }
  }

  lemma GroveIs(e: Ecosphere, g: Grove, r: Grove, lost: Six)
    requires GroveLaw(e, g, r, lost)
    ensures Rooted(r.cells, r.sites) && (r.ok ==> g.ok && lost == Zero6)
    ensures PlanetShort(g.cells, g.sites, r.cells, r.sites, lost)
    ensures g.ok && AllHardy(e.defs, g.sites) ==> r.ok && AllHardy(e.defs, r.sites)
  {
    hide Rooted, PlanetShort, AllHardy;
  }

  lemma LiveNothing(e: Ecosphere, climate: Climate, day: nat, g: Grove, start: nat)
    requires start <= |g.sites|
    ensures LiveTo(e, climate, day, g, start, start) == g && LostTo(e, climate, day, g, start, start) == Zero6
  {
  }

  lemma LiveStep(e: Ecosphere, climate: Climate, day: nat, g: Grove, start: nat, end: nat)
    requires start < end <= |g.sites|
    ensures var before := LiveTo(e, climate, day, g, start, end - 1);
            && LiveTo(e, climate, day, g, start, end) == LiveAt(e, climate, day, before, end - 1)
            && LostTo(e, climate, day, g, start, end)
               == SixPlus(LostTo(e, climate, day, g, start, end - 1), LiveLost(e, climate, day, before, end - 1))
  {
    hide LiveAt, LiveLost, SixPlus;
  }

  lemma GroveTrans(e: Ecosphere, a: Grove, b: Grove, c: Grove, first: Six, second: Six)
    requires GroveLaw(e, a, b, first) && GroveLaw(e, b, c, second)
    ensures GroveLaw(e, a, c, SixPlus(first, second))
  {
    PlanetTrans(a.cells, a.sites, b.cells, b.sites, c.cells, c.sites, first, second);
    PlusNothing(first);
    hide PlanetShort, Rooted, AllHardy, SixPlus;
  }

  // ----- a slice of a day -----

  datatype EcologyState = EcologyState(cells: seq<Cell>, sites: seq<EcologySite>, boundary: Boundary,
                                       completedDays: nat,
                                       inProgressDay: nat, cursor: nat, eventSequence: nat)

  ghost predicate Orderly(st: EcologyState) {
    Rooted(st.cells, st.sites) && st.cursor <= |st.sites| && st.eventSequence <= U64_MAX && InCounters(st.boundary)
  }

  function DayStart(st: EcologyState): nat {
    if st.inProgressDay == 0 then 0 else st.cursor
  }

  function DayNumber(st: EcologyState): nat {
    if st.inProgressDay == 0 then st.completedDays + 1 else st.inProgressDay
  }

  function DayEnd(st: EcologyState, budget: nat): nat {
    Min(DayStart(st) + Max(budget, 1), |st.sites|)
  }

  predicate DayDue(st: EcologyState, targetDay: nat) {
    st.sites != [] && st.completedDays < targetDay
  }

  function StartGrove(st: EcologyState, offered: map<nat, nat>): Grove {
    Grove(st.cells, st.sites, offered, true)
  }

  function DayGrove(e: Ecosphere, climate: Climate, st: EcologyState, budget: nat, offered: map<nat, nat>): Grove
    requires st.cursor <= |st.sites|
  {
    LiveTo(e, climate, DayNumber(st), StartGrove(st, offered), DayStart(st), DayEnd(st, budget))
  }

  datatype StepEnd = StepEnd(state: EcologyState, ok: bool)

  function DayStep(e: Ecosphere, climate: Climate, st: EcologyState, targetDay: nat, budget: nat,
                   offered: map<nat, nat>): StepEnd
    requires st.cursor <= |st.sites|
  {
    if !DayDue(st, targetDay) then StepEnd(st, true)
    else
      var g, end := DayGrove(e, climate, st, budget, offered), DayEnd(st, budget);
      var lived := st.(cells := g.cells, sites := g.sites);
      if !g.ok then StepEnd(lived.(inProgressDay := DayNumber(st), cursor := DayStart(st)), false)
      else if end == |st.sites|
      then StepEnd(lived.(completedDays := DayNumber(st), inProgressDay := 0, cursor := 0), true)
      else StepEnd(lived.(inProgressDay := DayNumber(st), cursor := end), true)
  }

  function DayStepLost(e: Ecosphere, climate: Climate, st: EcologyState, targetDay: nat, budget: nat,
                       offered: map<nat, nat>): Six
    requires st.cursor <= |st.sites|
  {
    if !DayDue(st, targetDay) then Zero6
    else LostTo(e, climate, DayNumber(st), StartGrove(st, offered), DayStart(st), DayEnd(st, budget))
  }

  // ----- harvests -----

  function Divisor(definition: EcologyDef): nat {
    match definition.harvest
    case Fruit => 4
    case Prune => 3
    case Spore => 3
    case Coppice => 2
    case SeedPreserving => if definition.kind != Crystal then 3 else 1
    case Destructive => 1
  }

  function DividedSix(s: Six, divisor: nat): Six
    requires 0 < divisor
  {
    [s[0] / divisor, s[1] / divisor, s[2] / divisor, s[3] / divisor, s[4] / divisor, s[5] / divisor]
  }

  function PlanOf(site: EcologySite, definition: EcologyDef, toolTier: nat): HarvestPlan {
    var leavesBud := definition.kind == Crystal && definition.harvest == SeedPreserving
                     && definition.preservingTier <= toolTier;
    HarvestPlan(site.id, DividedSix(site.charge, Divisor(definition)), DividedSix(site.dross, Divisor(definition)),
                definition.harvest == Destructive || (definition.kind == Crystal && !leavesBud), leavesBud)
  }

  /** Every unit of `taken` is still in the site. */
  predicate Covers6(stored: Six, taken: Six) {
    Through(CoverFlags(stored, taken), 6)
  }

  lemma CoversSlots(stored: Six, taken: Six)
    ensures Covers6(stored, taken) <==> forall s | 0 <= s < 6 :: taken[s] <= stored[s]
  {
    var flags := CoverFlags(stored, taken);
    assert forall s | 0 <= s < 6 :: flags[s] <==> taken[s] <= stored[s];
    hide CoverFlags;
  }

  lemma DividedWithin(s: Six, divisor: nat)
    requires 0 < divisor
    ensures Covers6(s, DividedSix(s, divisor))
  {
    CoversSlots(s, DividedSix(s, divisor));
    forall k | 0 <= k < 6 ensures s[k] / divisor <= s[k] {
      QuotientWithin(s[k], divisor);
    }
    hide Covers6;
  }

  lemma QuotientWithin(a: nat, divisor: nat)
    requires 0 < divisor
    ensures a / divisor <= a
  {
    BiomassShare(a, divisor);
  }

  predicate FoulsCell(dispositions: map<string, Disposition>, content: string) {
    content in dispositions && dispositions[content] != ToAmbient
  }

  /** A torn-down site: its charge, as far as there is room, is in its cell, and what is left is litter. */
  function Destroyed(site: EcologySite, definition: EcologyDef, cell: Cell, toDross: bool): Lived {
    var moved := RoomFor(site.charge, Pool(cell, toDross));
    var seeds := if definition.kind == Crystal then 0 else Saturating(site.seedBank, 2);
    Lived(Discharged(site, moved).(population := 0, seedBank := seeds, crystalStage := 0,
                                   stage := if seeds == 0 then Harvested else Collapsed,
                                   collapses := Min(site.collapses + 1, U16_MAX)),
          Absorbed(cell, moved, toDross), true)
  }

  /** What becomes of a site after a harvest. */
  function AfterHarvest(site: EcologySite, definition: EcologyDef, plan: HarvestPlan, day: nat): EcologySite {
    var counted := site.(charge := SixMinus(site.charge, plan.charge), dross := SixMinus(site.dross, plan.dross),
                         harvests := Min(site.harvests + 1, U32_MAX), lastHarvestDay := day);
    var cut := if plan.destructive then
                 var lost := PopulationLost(counted, definition);
                 lost.(seedBank := Saturating(lost.seedBank, 2))
               else counted.(seedBank := Saturating(counted.seedBank, 1));
    if definition.kind == Crystal then
      if plan.leavesBud then cut.(crystalStage := 1, population := 1, stage := Recovering)
      else cut.(crystalStage := 0, population := 0, seedBank := 0, stage := Harvested)
    else if cut.population == 0 || cut.seedBank == 0 then
      cut.(stage := Collapsed, collapses := Min(cut.collapses + 1, U16_MAX))
    else cut.(stage := Recovering)
  }

  /** Checked subtraction, left where it stops, and what it took out. */
  function DrawnUntil(stored: Six, taken: Six): Six {
    Until(CoverFlags(stored, taken), SixMinus(stored, taken), stored)
  }

  function TakenUntil(stored: Six, taken: Six): Six {
    Until(CoverFlags(stored, taken), taken, Zero6)
  }

  lemma DrawnSlot(stored: Six, taken: Six, slot: nat)
    requires slot < 6
    ensures DrawnUntil(stored, taken)[slot] + TakenUntil(stored, taken)[slot] == stored[slot]
  {
    var flags := CoverFlags(stored, taken);
    UntilSlot(flags, SixMinus(stored, taken), stored, slot);
    UntilSlot(flags, taken, Zero6, slot);
    SixSlots(stored, taken, slot);
    assert flags[slot] <==> taken[slot] <= stored[slot];
    ThroughStep(flags, slot);
    hide Until, CoverFlags, Through, SixMinus;
  }

  lemma DrawnAll(stored: Six, taken: Six)
    requires Covers6(stored, taken)
    ensures DrawnUntil(stored, taken) == SixMinus(stored, taken) && TakenUntil(stored, taken) == taken
  {
    UntilAll(CoverFlags(stored, taken), SixMinus(stored, taken), stored);
    UntilAll(CoverFlags(stored, taken), taken, Zero6);
    hide Until, CoverFlags, SixMinus;
  }

  /** A site after its units have been withdrawn, as far as it held them. */
  function WithdrawnSite(site: EcologySite, definition: EcologyDef, plan: HarvestPlan, day: nat): EcologySite {
    if !Covers6(site.charge, plan.charge) then site.(charge := DrawnUntil(site.charge, plan.charge))
    else if !Covers6(site.dross, plan.dross)
    then site.(charge := SixMinus(site.charge, plan.charge), dross := DrawnUntil(site.dross, plan.dross))
    else AfterHarvest(site, definition, plan, day)
  }

  function WithdrawnUnits(site: EcologySite, plan: HarvestPlan): Six {
    if !Covers6(site.charge, plan.charge) then TakenUntil(site.charge, plan.charge)
    else if !Covers6(site.dross, plan.dross) then SixPlus(plan.charge, TakenUntil(site.dross, plan.dross))
    else PlanUnits(plan)
  }

  function PlanUnits(plan: HarvestPlan): Six {
    SixPlus(plan.charge, plan.dross)
  }

  predicate SiteHolds(site: EcologySite, plan: HarvestPlan) {
    Covers6(site.charge, plan.charge) && Covers6(site.dross, plan.dross)
  }

  lemma AfterHarvestKeeps(site: EcologySite, definition: EcologyDef, plan: HarvestPlan, day: nat)
    ensures var after := AfterHarvest(site, definition, plan, day);
            && after.charge == SixMinus(site.charge, plan.charge) && after.dross == SixMinus(site.dross, plan.dross)
            && after.cell == site.cell && after.id == site.id && after.content == site.content
            && after.block == site.block
            && after.waterDrawn == site.waterDrawn && after.stage != Mature
            && (Nutrients(site) <= U32_MAX ==> Nutrients(after) == Nutrients(site))
  {
    hide SixMinus, PopulationLost;
  }

  /** A plan never takes more than its site holds, and a harvested site is no longer ripe. */
  lemma PlanStillThere(site: EcologySite, definition: EcologyDef, toolTier: nat, day: nat)
    ensures var plan := PlanOf(site, definition, toolTier);
            && Covers6(site.charge, plan.charge) && Covers6(site.dross, plan.dross)
            && AfterHarvest(site, definition, plan, day).stage != Mature
  {
    DividedWithin(site.charge, Divisor(definition));
    DividedWithin(site.dross, Divisor(definition));
    AfterHarvestKeeps(site, definition, PlanOf(site, definition, toolTier), day);
    hide DividedSix, AfterHarvest, Covers6;
  }

  /** What is withdrawn leaves the site, whether the withdrawal is finished or not. */
  lemma WithdrawnCustody(site: EcologySite, definition: EcologyDef, cell: Cell, plan: HarvestPlan, day: nat)
    ensures ShortCustody(site, cell, WithdrawnSite(site, definition, plan, day), cell, WithdrawnUnits(site, plan))
    ensures WithdrawnSite(site, definition, plan, day).waterDrawn == site.waterDrawn
  {
    AfterHarvestKeeps(site, definition, plan, day);
    var after, units := WithdrawnSite(site, definition, plan, day), WithdrawnUnits(site, plan);
    forall slot | 0 <= slot < 6
      ensures after.charge[slot] + after.dross[slot] + units[slot] == site.charge[slot] + site.dross[slot]
    {
      WithdrawnSlot(site, definition, plan, day, slot);
    }
    hide WithdrawnUnits, AfterHarvest, Covers6, DrawnUntil, SixMinus, Representable;
  }

  lemma WithdrawnSlot(site: EcologySite, definition: EcologyDef, plan: HarvestPlan, day: nat, slot: nat)
    requires slot < 6
    ensures var after, units := WithdrawnSite(site, definition, plan, day), WithdrawnUnits(site, plan);
            after.charge[slot] + after.dross[slot] + units[slot] == site.charge[slot] + site.dross[slot]
  {
    AfterHarvestKeeps(site, definition, plan, day);
    DrawnSlot(site.charge, plan.charge, slot);
    DrawnSlot(site.dross, plan.dross, slot);
    SixSlots(plan.charge, plan.dross, slot);
    SixSlots(plan.charge, TakenUntil(site.dross, plan.dross), slot);
    if Covers6(site.charge, plan.charge) {
      DrawnAll(site.charge, plan.charge);
    }
    if Covers6(site.dross, plan.dross) {
      DrawnAll(site.dross, plan.dross);
    }
    hide AfterHarvest, Covers6, DrawnUntil, TakenUntil, SixMinus, SixPlus;
  }

  function FindId(sites: seq<EcologySite>, id: nat, from: nat): (i: nat)
    requires from <= |sites|
    ensures from <= i <= |sites| && (i < |sites| ==> sites[i].id == id) && forall k | from <= k < i :: sites[k].id != id
    decreases |sites| - from
  {
    if from == |sites| || sites[from].id == id then from else FindId(sites, id, from + 1)
  }

  /** The boundary has a 64-bit counter to spare for every band. */
  predicate BoundaryFits(b: Boundary, units: Six) {
    Through(ExportFlags(b, units), 6)
  }

  datatype HarvestEnd = HarvestEnd(state: EcologyState, error: Option<EcologyError>)

  /** A harvest as far as it gets: withdraw, export, count. */
  function HarvestStep(e: Ecosphere, st: EcologyState, plan: HarvestPlan, day: nat): HarvestEnd {
    var at := FindId(st.sites, plan.site, 0);
    if at == |st.sites| then HarvestEnd(st, Some(SiteDisappeared))
    else if st.sites[at].content !in e.defs then HarvestEnd(st, Some(ContentDisappeared))
    else
      var site := st.sites[at];
      var drawn := st.(sites := st.sites[at := WithdrawnSite(site, e.defs[site.content], plan, day)]);
      if !Covers6(site.charge, plan.charge) then HarvestEnd(drawn, Some(ChargeTaken))
      else if !Covers6(site.dross, plan.dross) then HarvestEnd(drawn, Some(DrossTaken))
      else
        var out := drawn.(boundary := ExportedUntil(st.boundary, PlanUnits(plan)));
        if !BoundaryFits(st.boundary, PlanUnits(plan)) then HarvestEnd(out, Some(BoundaryOverflow))
        else if st.eventSequence >= U64_MAX then HarvestEnd(out, Some(SequenceOverflow))
        else HarvestEnd(out.(eventSequence := st.eventSequence + 1), None)
  }

  /** The units a harvest loses: withdrawn before a short band, or withdrawn and not exported. */
  function HarvestLost(e: Ecosphere, st: EcologyState, plan: HarvestPlan): Six {
    var at := FindId(st.sites, plan.site, 0);
    if at == |st.sites| || st.sites[at].content !in e.defs then Zero6
    else if !SiteHolds(st.sites[at], plan) then WithdrawnUnits(st.sites[at], plan)
    else SixMinus(PlanUnits(plan), Accounted(st.boundary, PlanUnits(plan)))
  }

  /** What a harvest needs, all checkable before it. */
  predicate HarvestAllowed(e: Ecosphere, st: EcologyState, plan: HarvestPlan) {
    var at := FindId(st.sites, plan.site, 0);
    && at < |st.sites| && st.sites[at].content in e.defs && SiteHolds(st.sites[at], plan)
    && BoundaryFits(st.boundary, PlanUnits(plan)) && st.eventSequence < U64_MAX
  }

  lemma HarvestAllowedIff(e: Ecosphere, st: EcologyState, plan: HarvestPlan, day: nat)
    ensures HarvestStep(e, st, plan, day).error.None? <==> HarvestAllowed(e, st, plan)
  {
    hide FindId, WithdrawnSite, ExportedUntil, Covers6, BoundaryFits, PlanUnits;
  }

  /** A harvest that succeeds moves exactly the plan's units from custody over the boundary. */
  lemma HarvestMoves(e: Ecosphere, st: EcologyState, plan: HarvestPlan, day: nat, slot: nat)
    requires Orderly(st) && HarvestAllowed(e, st, plan) && slot < 6
    ensures var after := HarvestStep(e, st, plan, day).state;
            && PlanetCustody(after.cells, after.sites, slot) + PlanUnits(plan)[slot]
               == PlanetCustody(st.cells, st.sites, slot)
            && Net(after.boundary, slot) == Net(st.boundary, slot) + PlanUnits(plan)[slot]
            && PlanUnits(plan)[slot] == plan.charge[slot] + plan.dross[slot]
            && (Canonical(st.boundary) ==> Canonical(after.boundary))
  {
    var at := FindId(st.sites, plan.site, 0);
    var site := st.sites[at];
    OrderlyParts(st);
    RootedAt(st.cells, st.sites, at);
    var cell, definition := st.cells[site.cell], e.defs[site.content];
    var after := WithdrawnSite(site, definition, plan, day);
    var drawn := st.(sites := st.sites[at := after]);
    hide *;
    HarvestAllowedIff(e, st, plan, day);
    HarvestAllowedParts(e, st, plan);
    WithdrawnCustody(site, definition, cell, plan, day);
    SiteMoved(st.cells, st.sites, at, after, cell, WithdrawnUnits(site, plan));
    assert st.cells[site.cell := cell] == st.cells;
    HarvestExports(e, st, plan, day, drawn, after);
    ExportedUntilNet(st.boundary, PlanUnits(plan), slot);
    FullyAccounted(st.boundary, PlanUnits(plan));
    ExportedCanonical(st.boundary, PlanUnits(plan));
    PlanetShortAt(st.cells, st.sites, drawn.cells, drawn.sites, PlanUnits(plan), slot);
    PlanUnitsAt(plan, slot);
  }

  lemma HarvestAllowedParts(e: Ecosphere, st: EcologyState, plan: HarvestPlan)
    requires HarvestAllowed(e, st, plan)
    ensures var at := FindId(st.sites, plan.site, 0);
            at < |st.sites| && st.sites[at].content in e.defs && SiteHolds(st.sites[at], plan)
    ensures BoundaryFits(st.boundary, PlanUnits(plan)) && st.eventSequence < U64_MAX
  {
    hide FindId, SiteHolds, BoundaryFits, PlanUnits;
  }

  lemma FullyAccounted(b: Boundary, units: Six)
    requires BoundaryFits(b, units)
    ensures Accounted(b, units) == units
  {
    var flags := ExportFlags(b, units);
    UntilAll(flags, units, Until(Cancelled(flags), SixMinus(units, SixMinus(units, b.imported)), Zero6));
    hide Until, ExportFlags, Cancelled;
  }

  lemma PlanetShortAt(cells: seq<Cell>, sites: seq<EcologySite>, cells': seq<Cell>, sites': seq<EcologySite>, lost: Six,
                      slot: nat)
    requires PlanetShort(cells, sites, cells', sites', lost) && slot < 6
    ensures PlanetCustody(cells', sites', slot) + lost[slot] == PlanetCustody(cells, sites, slot)
  {
    hide PlanetCustody;
  }

  lemma PlanUnitsAt(plan: HarvestPlan, slot: nat)
    requires slot < 6
    ensures PlanUnits(plan)[slot] == plan.charge[slot] + plan.dross[slot]
  {
  }

  // ----- losses -----

  function FindStanding(sites: seq<EcologySite>, block: nat, from: nat): (i: nat)
    requires from <= |sites|
    ensures from <= i <= |sites|
    ensures i < |sites| ==> sites[i].block == Some(block) && sites[i].stage != Harvested
    ensures forall k | from <= k < i :: sites[k].block != Some(block) || sites[k].stage == Harvested
    decreases |sites| - from
  {
    if from == |sites| || (sites[from].block == Some(block) && sites[from].stage != Harvested) then from
    else FindStanding(sites, block, from + 1)
  }

  datatype LossEnd = LossEnd(state: EcologyState, result: Result<bool, EcologyError>)

  function LossStep(e: Ecosphere, st: EcologyState, block: nat): LossEnd {
    var at := FindStanding(st.sites, block, 0);
    if at == |st.sites| then LossEnd(st, Ok(false))
    else if st.sites[at].content !in e.defs then LossEnd(st, Err(ContentDisappeared))
    else if st.sites[at].cell >= |st.cells| then LossEnd(st, Ok(false))
    else
      var site := st.sites[at];
      var lost := Destroyed(site, e.defs[site.content], st.cells[site.cell], FoulsCell(e.dispositions, site.content));
      var torn := st.(cells := st.cells[site.cell := lost.cell], sites := st.sites[at := lost.site]);
      if st.eventSequence >= U64_MAX then LossEnd(torn, Err(SequenceOverflow))
      else LossEnd(torn.(eventSequence := st.eventSequence + 1), Ok(true))
  }

  lemma DestroyedKeeps(site: EcologySite, definition: EcologyDef, cell: Cell, toDross: bool)
    ensures var lost := Destroyed(site, definition, cell, toDross);
            && SameCustody(site, cell, lost.site, lost.cell) && lost.site.waterDrawn == site.waterDrawn
            && Nutrients(lost.site) == Nutrients(site)
  {
    var moved := RoomFor(site.charge, Pool(cell, toDross));
    DischargeKeeps(site, cell, moved, toDross);
    var left, lost := Discharged(site, moved), Destroyed(site, definition, cell, toDross);
    hide SameCustody, RoomFor, Absorbed, Sum6;
    SameBandsCustody(left, left.(population := lost.site.population), lost.cell);
    DestroyedCustody(site, cell, left, lost.site, lost.cell);
  }

  lemma DestroyedCustody(site: EcologySite, cell: Cell, left: EcologySite, litter: EcologySite, cell': Cell)
    requires SameCustody(site, cell, left, cell')
    requires litter == left.(population := litter.population, seedBank := litter.seedBank,
                             crystalStage := litter.crystalStage, stage := litter.stage, collapses := litter.collapses)
    ensures SameCustody(site, cell, litter, cell')
  {
    hide Representable;
  }

  // ----- the books -----

  /** Custody and net export together, per resonance. */
  ghost function Books(st: EcologyState, slot: nat): int
    requires slot < 6
  {
    PlanetCustody(st.cells, st.sites, slot) + Net(st.boundary, slot)
  }

  ghost predicate BooksShort(before: EcologyState, after: EcologyState, lost: Six) {
    forall slot | 0 <= slot < 6 :: Books(after, slot) + lost[slot] == Books(before, slot)
  }

  ghost predicate KeepsBooks(before: EcologyState, after: EcologyState) {
    forall slot | 0 <= slot < 6 :: Books(after, slot) == Books(before, slot)
  }

  datatype EcologyOp =
    | Day(climate: Climate, targetDay: nat, budget: nat, offered: map<nat, nat>)
    | Harvest(plan: HarvestPlan, day: nat)
    | Loss(block: nat)

  /** One call, successful or not. */
  function Step(e: Ecosphere, st: EcologyState, op: EcologyOp): StepEnd
    requires st.cursor <= |st.sites|
  {
    match op
    case Day(climate, targetDay, budget, offered) => DayStep(e, climate, st, targetDay, budget, offered)
    case Harvest(plan, day) => var end := HarvestStep(e, st, plan, day); StepEnd(end.state, end.error.None?)
    case Loss(block) => var end := LossStep(e, st, block); StepEnd(end.state, end.result.Ok?)
  }

  function StepLost(e: Ecosphere, st: EcologyState, op: EcologyOp): Six
    requires st.cursor <= |st.sites|
  {
    match op
    case Day(climate, targetDay, budget, offered) => DayStepLost(e, climate, st, targetDay, budget, offered)
    case Harvest(plan, _) => HarvestLost(e, st, plan)
    case Loss(_) => Zero6
  }

  ghost predicate StepLaw(st: EcologyState, end: StepEnd, lost: Six) {
    Orderly(end.state) && BooksShort(st, end.state, lost) && (end.ok ==> lost == Zero6)
  }

  lemma BooksFrom(before: EcologyState, after: EcologyState, lost: Six)
    requires PlanetShort(before.cells, before.sites, after.cells, after.sites, lost)
             && after.boundary == before.boundary
    ensures BooksShort(before, after, lost)
  {
    hide PlanetCustody, Net;
  }

  lemma DayStepLaw(e: Ecosphere, climate: Climate, st: EcologyState, targetDay: nat, budget: nat,
                   offered: map<nat, nat>)
    requires Orderly(st)
    ensures StepLaw(st, DayStep(e, climate, st, targetDay, budget, offered),
                    DayStepLost(e, climate, st, targetDay, budget, offered))
  {
    var g := StartGrove(st, offered);
    if DayDue(st, targetDay) {
      LiveToLaw(e, climate, DayNumber(st), g, DayStart(st), DayEnd(st, budget));
      var lost := LostTo(e, climate, DayNumber(st), g, DayStart(st), DayEnd(st, budget));
      hide Rooted, PlanetShort, LiveTo, LostTo, BooksShort, AllHardy, InCounters;
      BooksFrom(st, DayStep(e, climate, st, targetDay, budget, offered).state, lost);
    } else {
      PlanetStill(st.cells, st.sites);
      BooksFrom(st, st, Zero6);
    }
  }

  lemma ExportedInCounters(b: Boundary, units: Six)
    requires InCounters(b)
    ensures InCounters(ExportedUntil(b, units))
  {
    var flags := ExportFlags(b, units);
    forall s | 0 <= s < 6 ensures ExportedUntil(b, units).exported[s] <= U64_MAX {
      UntilSlot(flags, SixPlus(b.exported, SixMinus(units, b.imported)), b.exported, s);
      ExportFlag(b, units, s);
      ThroughStep(flags, s);
      SixSlots(units, b.imported, s);
      SixSlots(b.exported, SixMinus(units, b.imported), s);
      hide Until, Cancelled, Through, SixMinus, SixPlus, ExportFlags;
    }
  }

  lemma HarvestStepLaw(e: Ecosphere, st: EcologyState, plan: HarvestPlan, day: nat)
    requires Orderly(st)
    ensures var end := HarvestStep(e, st, plan, day);
            && StepLaw(st, StepEnd(end.state, end.error.None?), HarvestLost(e, st, plan))
            && (end.error == Some(SequenceOverflow) ==> HarvestLost(e, st, plan) == Zero6)
  {
    hide *;
    var at := FindId(st.sites, plan.site, 0);
    OrderlyParts(st);
    if at == |st.sites| || st.sites[at].content !in e.defs {
      HarvestNothing(e, st, plan, day);
      PlanetStill(st.cells, st.sites);
      BooksFrom(st, st, Zero6);
      StepLawIs(st, StepEnd(st, false), Zero6);
    } else {
      var site := st.sites[at];
      RootedAt(st.cells, st.sites, at);
      var cell := st.cells[site.cell];
      var after := WithdrawnSite(site, e.defs[site.content], plan, day);
      WithdrawnCustody(site, e.defs[site.content], cell, plan, day);
      SiteMoved(st.cells, st.sites, at, after, cell, WithdrawnUnits(site, plan));
      StillRooted(st.cells, st.sites, at, after, cell, WithdrawnUnits(site, plan));
      assert st.cells[site.cell := cell] == st.cells;
      var drawn := st.(sites := st.sites[at := after]);
      if SiteHolds(site, plan) {
        HarvestExports(e, st, plan, day, drawn, after);
        var out := HarvestStep(e, st, plan, day).state;
        ExportedBooks(st, drawn, out, WithdrawnUnits(site, plan), HarvestLost(e, st, plan));
        if BoundaryFits(st.boundary, PlanUnits(plan)) {
          AllAccounted(st.boundary, PlanUnits(plan));
        }
        ExportedInCounters(st.boundary, PlanUnits(plan));
        OrderlyAgain(st, out);
        var end := HarvestStep(e, st, plan, day);
        StepLawIs(st, StepEnd(end.state, end.error.None?), HarvestLost(e, st, plan));
      } else {
        HarvestShort(e, st, plan, day, drawn, after);
        BooksFrom(st, drawn, WithdrawnUnits(site, plan));
        OrderlyAgain(st, drawn);
        StepLawIs(st, StepEnd(drawn, false), WithdrawnUnits(site, plan));
      }
    }
  }

  lemma OrderlyParts(st: EcologyState)
    requires Orderly(st)
    ensures Rooted(st.cells, st.sites) && st.cursor <= |st.sites| && InCounters(st.boundary)
            && st.eventSequence <= U64_MAX
  {
    hide Rooted, InCounters;
  }

  lemma OrderlyAgain(st: EcologyState, after: EcologyState)
    requires Orderly(st) && Rooted(after.cells, after.sites) && |after.sites| == |st.sites| && after.cursor == st.cursor
    requires InCounters(after.boundary) && after.eventSequence <= U64_MAX
    ensures Orderly(after)
  {
    hide Rooted, InCounters;
  }

  lemma StepLawIs(st: EcologyState, end: StepEnd, lost: Six)
    requires Orderly(end.state) && BooksShort(st, end.state, lost) && (end.ok ==> lost == Zero6)
    ensures StepLaw(st, end, lost)
  {
    hide Orderly, BooksShort;
  }

  lemma HarvestNothing(e: Ecosphere, st: EcologyState, plan: HarvestPlan, day: nat)
    requires var at := FindId(st.sites, plan.site, 0); at == |st.sites| || st.sites[at].content !in e.defs
    ensures HarvestStep(e, st, plan, day).state == st && HarvestLost(e, st, plan) == Zero6
    ensures HarvestStep(e, st, plan, day).error.Some? && HarvestStep(e, st, plan, day).error != Some(SequenceOverflow)
  {
    hide FindId, WithdrawnSite, WithdrawnUnits, ExportedUntil, Accounted, Covers6, BoundaryFits, PlanUnits;
  }

  lemma HarvestShort(e: Ecosphere, st: EcologyState, plan: HarvestPlan, day: nat, drawn: EcologyState,
                     after: EcologySite)
    requires var at := FindId(st.sites, plan.site, 0);
             && at < |st.sites| && st.sites[at].content in e.defs && !SiteHolds(st.sites[at], plan)
             && after == WithdrawnSite(st.sites[at], e.defs[st.sites[at].content], plan, day)
             && drawn == st.(sites := st.sites[at := after])
    ensures var at := FindId(st.sites, plan.site, 0);
            && HarvestStep(e, st, plan, day).state == drawn
            && HarvestLost(e, st, plan) == WithdrawnUnits(st.sites[at], plan)
            && HarvestStep(e, st, plan, day).error.Some?
            && HarvestStep(e, st, plan, day).error != Some(SequenceOverflow)
  {
    hide FindId, WithdrawnSite, WithdrawnUnits, ExportedUntil, Accounted, Covers6, BoundaryFits, PlanUnits;
  }

  lemma HarvestExports(e: Ecosphere, st: EcologyState, plan: HarvestPlan, day: nat, drawn: EcologyState,
                       after: EcologySite)
    requires var at := FindId(st.sites, plan.site, 0);
             && at < |st.sites| && st.sites[at].content in e.defs && SiteHolds(st.sites[at], plan)
             && after == WithdrawnSite(st.sites[at], e.defs[st.sites[at].content], plan, day)
             && drawn == st.(sites := st.sites[at := after])
    requires st.eventSequence <= U64_MAX
    ensures var at := FindId(st.sites, plan.site, 0);
            var end := HarvestStep(e, st, plan, day);
            && end.state
               == drawn.(boundary := ExportedUntil(st.boundary, PlanUnits(plan)),
                         eventSequence := end.state.eventSequence)
            && end.state.eventSequence <= U64_MAX
            && WithdrawnUnits(st.sites[at], plan) == PlanUnits(plan)
            && HarvestLost(e, st, plan) == SixMinus(PlanUnits(plan), Accounted(st.boundary, PlanUnits(plan)))
            && (BoundaryFits(st.boundary, PlanUnits(plan)) <==> end.error.None? || end.error == Some(SequenceOverflow))
            && (end.error.None? <==> BoundaryFits(st.boundary, PlanUnits(plan)) && st.eventSequence < U64_MAX)
  {
    hide FindId, WithdrawnSite, ExportedUntil, Accounted, Covers6, BoundaryFits, PlanUnits, SixMinus;
  }

  lemma AllAccounted(b: Boundary, units: Six)
    requires BoundaryFits(b, units)
    ensures SixMinus(units, Accounted(b, units)) == Zero6
  {
    FullyAccounted(b, units);
    hide Accounted;
  }

  /** What was withdrawn and not exported is what the books miss. */
  lemma ExportedBooks(st: EcologyState, drawn: EcologyState, out: EcologyState, units: Six, lost: Six)
    requires PlanetShort(st.cells, st.sites, drawn.cells, drawn.sites, units)
    requires out == drawn.(boundary := ExportedUntil(st.boundary, units), eventSequence := out.eventSequence)
    requires lost == SixMinus(units, Accounted(st.boundary, units))
    ensures BooksShort(st, out, lost)
  {
    forall slot | 0 <= slot < 6 ensures Books(out, slot) + lost[slot] == Books(st, slot) {
      ExportedUntilNet(st.boundary, units, slot);
      SixSlots(units, Accounted(st.boundary, units), slot);
      hide PlanetCustody, Net, Accounted, ExportedUntil, SixMinus;
    }
    hide Books, Accounted, ExportedUntil, SixMinus;
  }

  lemma LossStepLaw(e: Ecosphere, st: EcologyState, block: nat)
    requires Orderly(st)
    ensures var end := LossStep(e, st, block); StepLaw(st, StepEnd(end.state, end.result.Ok?), Zero6)
  {
    hide *;
    var at := FindStanding(st.sites, block, 0);
    var end := LossStep(e, st, block);
    OrderlyParts(st);
    if at == |st.sites| || st.sites[at].content !in e.defs {
      LossNothing(e, st, block);
      PlanetStill(st.cells, st.sites);
      BooksFrom(st, st, Zero6);
      StepLawIs(st, StepEnd(st, end.result.Ok?), Zero6);
    } else {
      RootedAt(st.cells, st.sites, at);
      var site := st.sites[at];
      var cell := st.cells[site.cell];
      var lost := Destroyed(site, e.defs[site.content], cell, FoulsCell(e.dispositions, site.content));
      LossTears(e, st, block);
      DestroyedKeeps(site, e.defs[site.content], cell, FoulsCell(e.dispositions, site.content));
      SameIsShort(site, cell, lost.site, lost.cell);
      SiteMoved(st.cells, st.sites, at, lost.site, lost.cell, Zero6);
      StillRooted(st.cells, st.sites, at, lost.site, lost.cell, Zero6);
      BooksFrom(st, end.state, Zero6);
      OrderlyAgain(st, end.state);
      StepLawIs(st, StepEnd(end.state, end.result.Ok?), Zero6);
    }
  }

  lemma LossNothing(e: Ecosphere, st: EcologyState, block: nat)
    requires var at := FindStanding(st.sites, block, 0); at == |st.sites| || st.sites[at].content !in e.defs
    ensures LossStep(e, st, block).state == st
  {
    hide FindStanding, Destroyed;
  }

  lemma LossTears(e: Ecosphere, st: EcologyState, block: nat)
    requires var at := FindStanding(st.sites, block, 0);
             at < |st.sites| && st.sites[at].content in e.defs && st.sites[at].cell < |st.cells|
    requires st.eventSequence <= U64_MAX
    ensures var at := FindStanding(st.sites, block, 0);
            var site := st.sites[at];
            var lost := Destroyed(site, e.defs[site.content], st.cells[site.cell],
                                  FoulsCell(e.dispositions, site.content));
            var end := LossStep(e, st, block);
            && end.state == st.(cells := st.cells[site.cell := lost.cell], sites := st.sites[at := lost.site],
                                eventSequence := end.state.eventSequence)
            && end.state.eventSequence <= U64_MAX
            && (if st.eventSequence < U64_MAX
                then end.result == Ok(true) && end.state.eventSequence == st.eventSequence + 1
                else end.result == Err(SequenceOverflow) && end.state.eventSequence == st.eventSequence)
  {
    hide FindStanding, Destroyed;
  }

  /** Every call keeps the ecology in order and loses exactly what is listed, which is nothing when it succeeds. */
  lemma StepKeepsBooks(e: Ecosphere, st: EcologyState, op: EcologyOp)
    requires Orderly(st)
    ensures StepLaw(st, Step(e, st, op), StepLost(e, st, op))
  {
    match op
    case Day(climate, targetDay, budget, offered) =>
      DayStepLaw(e, climate, st, targetDay, budget, offered);
      hide StepLaw, DayStep, DayStepLost;
    case Harvest(plan, day) =>
      HarvestStepLaw(e, st, plan, day);
      hide StepLaw, HarvestStep, HarvestLost;
    case Loss(block) =>
      LossStepLaw(e, st, block);
      hide StepLaw, LossStep;
  }

  // ----- runs -----

  ghost function Run(e: Ecosphere, st: EcologyState, ops: seq<EcologyOp>): EcologyState {
    if ops == [] then st
    else
      var before := Run(e, st, ops[..|ops| - 1]);
      if before.cursor <= |before.sites| then Step(e, before, ops[|ops| - 1]).state else before
  }

  /** All calls of a run succeeded. */
  ghost predicate RunOk(e: Ecosphere, st: EcologyState, ops: seq<EcologyOp>) {
    ops != [] ==>
      var before := Run(e, st, ops[..|ops| - 1]);
      RunOk(e, st, ops[..|ops| - 1]) && before.cursor <= |before.sites| && Step(e, before, ops[|ops| - 1]).ok
  }

  ghost function RunLost(e: Ecosphere, st: EcologyState, ops: seq<EcologyOp>): Six {
    if ops == [] then Zero6
    else
      var before := Run(e, st, ops[..|ops| - 1]);
      SixPlus(RunLost(e, st, ops[..|ops| - 1]),
              if before.cursor <= |before.sites| then StepLost(e, before, ops[|ops| - 1]) else Zero6)
  }

  lemma BooksTrans(a: EcologyState, b: EcologyState, c: EcologyState, first: Six, second: Six)
    requires BooksShort(a, b, first) && BooksShort(b, c, second)
    ensures BooksShort(a, c, SixPlus(first, second))
  {
    forall slot | 0 <= slot < 6 ensures Books(c, slot) + SixPlus(first, second)[slot] == Books(a, slot) {
      SixSlots(first, second, slot);
      hide Books, SixPlus;
    }
    hide Books, SixPlus;
  }

  lemma BooksStill(st: EcologyState)
    ensures BooksShort(st, st, Zero6)
  {
    hide Books;
  }

  lemma StepParts(st: EcologyState, end: StepEnd, lost: Six)
    requires StepLaw(st, end, lost)
    ensures Orderly(end.state) && BooksShort(st, end.state, lost) && (end.ok ==> lost == Zero6)
  {
    hide Orderly, BooksShort;
  }

  /** Over every run of days, harvests and losses, whatever the weather, the plans and the failures among them, custody
      plus net export of every resonance falls by exactly what the failed calls lost, so a run of successful calls
      keeps it. */
  lemma {:induction false} RunKeepsBooks(e: Ecosphere, st: EcologyState, ops: seq<EcologyOp>)
    requires Orderly(st)
    ensures Orderly(Run(e, st, ops)) && BooksShort(st, Run(e, st, ops), RunLost(e, st, ops))
    ensures RunOk(e, st, ops) ==> RunLost(e, st, ops) == Zero6 && KeepsBooks(st, Run(e, st, ops))
  {
    hide Orderly, Step, StepLost, Books, StepLaw, SixPlus;
    if ops == [] {
      BooksStill(st);
    } else {
      var front := ops[..|ops| - 1];
      RunKeepsBooks(e, st, front);
      var before := Run(e, st, front);
      OrderlyParts(before);
      StepKeepsBooks(e, before, ops[|ops| - 1]);
      var end, lost := Step(e, before, ops[|ops| - 1]), StepLost(e, before, ops[|ops| - 1]);
      StepParts(before, end, lost);
      BooksTrans(st, before, end.state, RunLost(e, st, front), lost);
      PlusNothing(RunLost(e, st, front));
    }
  }

  // ----- exactly when a harvest keeps the books -----

  /** Nothing is taken before the first band that is short. */
  predicate NothingBefore(stored: Six, taken: Six) {
    TakenUntil(stored, taken) == Zero6
  }

  /** Checked before the call: the plan names no known site; or its first short band comes before any unit is taken; or
      the site holds everything and no counter is full. */
  predicate HarvestSpares(e: Ecosphere, st: EcologyState, plan: HarvestPlan) {
    var at := FindId(st.sites, plan.site, 0);
    if at == |st.sites| || st.sites[at].content !in e.defs then true
    else if !Covers6(st.sites[at].charge, plan.charge) then NothingBefore(st.sites[at].charge, plan.charge)
    else if !Covers6(st.sites[at].dross, plan.dross)
    then plan.charge == Zero6 && NothingBefore(st.sites[at].dross, plan.dross)
    else BoundaryFits(st.boundary, PlanUnits(plan))
  }

  lemma PlusZeroIff(a: Six, b: Six)
    ensures SixPlus(a, b) == Zero6 <==> a == Zero6 && b == Zero6
  {
    var sum := SixPlus(a, b);
    assert forall s | 0 <= s < 6 :: sum[s] == a[s] + b[s];
    hide SixPlus;
    if sum == Zero6 {
      assert forall s | 0 <= s < 6 :: sum[s] == 0;
    }
  }

  lemma MinusZeroIff(units: Six, part: Six)
    requires forall s | 0 <= s < 6 :: part[s] <= units[s]
    ensures SixMinus(units, part) == Zero6 <==> part == units
  {
    var rest := SixMinus(units, part);
    assert forall s | 0 <= s < 6 :: rest[s] == units[s] - part[s];
    hide SixMinus;
    if rest == Zero6 {
      assert forall s | 0 <= s < 6 :: rest[s] == 0;
    }
  }

  /** A harvest, successful or not, keeps the books exactly when it is spared. */
  lemma HarvestKeepsBooksIff(e: Ecosphere, st: EcologyState, plan: HarvestPlan, day: nat)
    requires Orderly(st)
    ensures KeepsBooks(st, HarvestStep(e, st, plan, day).state) <==> HarvestSpares(e, st, plan)
  {
    hide *;
    var end, lost := HarvestStep(e, st, plan, day), HarvestLost(e, st, plan);
    HarvestStepLaw(e, st, plan, day);
    StepParts(st, StepEnd(end.state, end.error.None?), lost);
    LostNothingIff(e, st, plan);
    KeepsIff(st, end.state, lost);
  }

  lemma KeepsIff(before: EcologyState, after: EcologyState, lost: Six)
    requires BooksShort(before, after, lost)
    ensures KeepsBooks(before, after) <==> lost == Zero6
  {
    hide Books;
    if KeepsBooks(before, after) {
      forall s | 0 <= s < 6 ensures lost[s] == Zero6[s] {
        assert Books(after, s) + lost[s] == Books(before, s);
      }
    }
  }

  lemma LostNothingIff(e: Ecosphere, st: EcologyState, plan: HarvestPlan)
    requires Orderly(st)
    ensures HarvestLost(e, st, plan) == Zero6 <==> HarvestSpares(e, st, plan)
  {
    OrderlyParts(st);
    var units := PlanUnits(plan);
    AccountedIff(st.boundary, units);
    forall s | 0 <= s < 6 ensures Accounted(st.boundary, units)[s] <= units[s] {
      ExportedUntilNet(st.boundary, units, s);
    }
    MinusZeroIff(units, Accounted(st.boundary, units));
    var at := FindId(st.sites, plan.site, 0);
    if at < |st.sites| {
      PlusZeroIff(plan.charge, TakenUntil(st.sites[at].dross, plan.dross));
    }
    hide Orderly, FindId, Accounted, ExportFlags, Through, TakenUntil, SixPlus, SixMinus, Covers6, PlanUnits;
  }

  /** Two inputs that lose units. A plan that asks for one unit too many of the second resonance has emptied the first;
      a boundary whose counter is full is noticed when the site has already given everything. */
  lemma FailedHarvestLoses()
    returns (e: Ecosphere, st: EcologyState, full: EcologyState, greedy: HarvestPlan, fair: HarvestPlan)
    ensures Orderly(st) && Orderly(full)
    ensures HarvestStep(e, st, greedy, 1).error == Some(ChargeTaken)
            && !KeepsBooks(st, HarvestStep(e, st, greedy, 1).state)
    ensures HarvestStep(e, full, fair, 1).error == Some(BoundaryOverflow)
            && !KeepsBooks(full, HarvestStep(e, full, fair, 1).state)
  {
    var definition := EcologyDef(Organism, FromAmbient, Destructive, 10, 0, 0, Zero6, 0, 0, 0, 1, 0, 0);
    var site :=
      EcologySite(7, "base:rainbell", 0, Some(3), Mature, 2, 2, 1, 0, Zero6[0 := 5], Zero6, 0, 0, 0, 0, 0, 0, 0);
    var cell := Cell(Zero6, Zero6, Zero6, 0, 0, 0, 0);
    e := Ecosphere(map["base:rainbell" := definition], map[]);
    st := EcologyState([cell], [site], Boundary(Zero6, Zero6), 0, 0, 0, 0);
    full := st.(boundary := Boundary(Zero6[0 := U64_MAX], Zero6));
    greedy := HarvestPlan(7, Zero6[0 := 5][1 := 1], Zero6, true, false);
    fair := HarvestPlan(7, Zero6[0 := 5], Zero6, true, false);
    EmptyCell(cell);
    assert Rooted(st.cells, st.sites) && InCounters(st.boundary) && InCounters(full.boundary) by {
      hide Representable;
    }
    assert FindId(st.sites, 7, 0) == 0;
    GreedyPlan(site.charge, greedy.charge);
    FairPlan(site, fair);
    FullCounter(full.boundary, fair);
    hide *;
    OneSite(st, full);
    FailsShort(e, st, greedy, site);
    FailsFull(e, full, fair, site);
    HarvestKeepsBooksIff(e, st, greedy, 1);
    HarvestKeepsBooksIff(e, full, fair, 1);
  }

  lemma OneSite(st: EcologyState, full: EcologyState)
    requires Rooted(st.cells, st.sites) && st.cursor == 0 && st.eventSequence == 0
    requires InCounters(st.boundary) && InCounters(full.boundary) && full == st.(boundary := full.boundary)
    ensures Orderly(st) && Orderly(full)
  {
    hide Rooted, InCounters;
  }

  lemma FailsShort(e: Ecosphere, st: EcologyState, plan: HarvestPlan, site: EcologySite)
    requires FindId(st.sites, plan.site, 0) == 0 && st.sites == [site] && site.content in e.defs
    requires !Covers6(site.charge, plan.charge) && !NothingBefore(site.charge, plan.charge)
    ensures HarvestStep(e, st, plan, 1).error == Some(ChargeTaken) && !HarvestSpares(e, st, plan)
  {
    hide FindId, WithdrawnSite, ExportedUntil, Covers6, NothingBefore, BoundaryFits, PlanUnits;
  }

  lemma FailsFull(e: Ecosphere, st: EcologyState, plan: HarvestPlan, site: EcologySite)
    requires FindId(st.sites, plan.site, 0) == 0 && st.sites == [site] && site.content in e.defs
    requires Covers6(site.charge, plan.charge) && Covers6(site.dross, plan.dross)
    requires !BoundaryFits(st.boundary, PlanUnits(plan))
    ensures HarvestStep(e, st, plan, 1).error == Some(BoundaryOverflow) && !HarvestSpares(e, st, plan)
  {
    hide FindId, WithdrawnSite, ExportedUntil, Covers6, NothingBefore, BoundaryFits, PlanUnits;
  }

  lemma EmptyCell(cell: Cell)
    requires cell == Cell(Zero6, Zero6, Zero6, 0, 0, 0, 0)
    ensures Representable(cell)
  {
  }

  lemma GreedyPlan(stored: Six, taken: Six)
    requires stored == Zero6[0 := 5] && taken == Zero6[0 := 5][1 := 1]
    ensures !Covers6(stored, taken) && !NothingBefore(stored, taken)
  {
    CoversSlots(stored, taken);
    UntilSlot(CoverFlags(stored, taken), taken, Zero6, 0);
    assert CoverFlags(stored, taken)[0];
    assert TakenUntil(stored, taken)[0] == 5;
  }

  lemma FairPlan(site: EcologySite, plan: HarvestPlan)
    requires site.charge == plan.charge && site.dross == plan.dross
    ensures Covers6(site.charge, plan.charge) && Covers6(site.dross, plan.dross)
  {
    CoversSlots(site.charge, plan.charge);
    CoversSlots(site.dross, plan.dross);
  }

  lemma FullCounter(b: Boundary, plan: HarvestPlan)
    requires b == Boundary(Zero6[0 := U64_MAX], Zero6) && plan.charge[0] == 5
    ensures !BoundaryFits(b, PlanUnits(plan))
  {
    SixSlots(plan.charge, plan.dross, 0);
    ExportFlag(b, PlanUnits(plan), 0);
    hide SixPlus, ExportFlags;
  }
}
