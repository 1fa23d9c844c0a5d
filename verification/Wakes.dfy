/** Wakes carry Current and dross along a path and give them back to the cells they pass. */
module Wakes {
  import opened Prelude
  import opened Bands
  import opened Transport

  datatype Wake = Wake(id: nat, siteId: nat, path: seq<nat>, cursor: nat, charge: Six, dross: Six, decay: nat)

  datatype Site = Site(id: nat, active: bool)

  /** Off the end of its path a wake is dropped, whatever it still carries. */
  predicate Stranded(wake: Wake) {
    |wake.path| <= wake.cursor
  }

  ghost predicate OnMap(wake: Wake, n: nat) {
    forall k | 0 <= k < |wake.path| :: wake.path[k] < n
  }

  ghost predicate AllOnMap(wakes: seq<Wake>, n: nat) {
    forall i | 0 <= i < |wakes| :: OnMap(wakes[i], n)
  }

  function Released(units: nat, decay: nat, held: nat): (r: nat)
    ensures r <= units && r <= decay && (held <= U16_MAX ==> held + r <= U16_MAX)
  {
    Min(Min(units, decay), Max(U16_MAX - held, 0))
  }

  /** What the cell holds in each band after a release into it. */
  function Received(held: Six, units: Six, decay: nat): Six {
    [held[0] + Released(units[0], decay, held[0]), held[1] + Released(units[1], decay, held[1]),
     held[2] + Released(units[2], decay, held[2]), held[3] + Released(units[3], decay, held[3]),
     held[4] + Released(units[4], decay, held[4]), held[5] + Released(units[5], decay, held[5])]
  }

  /** What the wake keeps in each band after that release. */
  function Kept(held: Six, units: Six, decay: nat): Six {
    [units[0] - Released(units[0], decay, held[0]), units[1] - Released(units[1], decay, held[1]),
     units[2] - Released(units[2], decay, held[2]), units[3] - Released(units[3], decay, held[3]),
     units[4] - Released(units[4], decay, held[4]), units[5] - Released(units[5], decay, held[5])]
  }

  lemma ReleaseKeepsUnits(held: Six, units: Six, decay: nat, slot: nat)
    requires slot < 6
    ensures Received(held, units, decay)[slot] + Kept(held, units, decay)[slot] == held[slot] + units[slot]
    ensures held[slot] <= U16_MAX ==> Received(held, units, decay)[slot] <= U16_MAX
  {
  }

  function DecayedCell(cell: Cell, wake: Wake): Cell {
    cell.(ambient := Received(cell.ambient, wake.charge, wake.decay),
          dross := Received(cell.dross, wake.dross, wake.decay))
  }

  function DecayedWake(cell: Cell, wake: Wake): Wake {
    wake.(charge := Kept(cell.ambient, wake.charge, wake.decay), dross := Kept(cell.dross, wake.dross, wake.decay),
          cursor := Min(wake.cursor + 1, Max(|wake.path| - 1, 0)))
  }

  /** Every band of a wake gives its cell as much as the wake decays, as it has and as the cell has room for; then the
      wake moves on, but not past the end of its path. */
  lemma DecayReleases(cell: Cell, wake: Wake, slot: nat)
    requires slot < 6 && cell.ambient[slot] <= 65_535 && cell.dross[slot] <= 65_535
    ensures var after, left := DecayedCell(cell, wake), DecayedWake(cell, wake);
            var charge := Min(Min(wake.charge[slot], wake.decay), 65_535 - cell.ambient[slot]);
            var foul := Min(Min(wake.dross[slot], wake.decay), 65_535 - cell.dross[slot]);
            && after.ambient[slot] == cell.ambient[slot] + charge && left.charge[slot] + charge == wake.charge[slot]
            && after.dross[slot] == cell.dross[slot] + foul && left.dross[slot] + foul == wake.dross[slot]
            && left.cursor == (if wake.cursor + 1 < |wake.path| then wake.cursor + 1
                               else if wake.path == [] then 0 else |wake.path| - 1)
            && left.path == wake.path && left.id == wake.id
  {
  }

  predicate Spent(wake: Wake) {
    wake.charge == Zero6 && wake.dross == Zero6
  }

  function Deactivate(sites: seq<Site>, id: nat): seq<Site> {
    if sites == [] then []
    else if sites[0].id == id then [sites[0].(active := false)] + sites[1..]
    else [sites[0]] + Deactivate(sites[1..], id)
  }

  datatype WakeState = WakeState(cells: seq<Cell>, retained: seq<Wake>, sites: seq<Site>)

  function DecayOne(st: WakeState, wake: Wake): (r: WakeState)
    requires OnMap(wake, |st.cells|)
    ensures |r.cells| == |st.cells|
  {
    if Stranded(wake) then st
    else
      var at := wake.path[wake.cursor];
      var cell, left := DecayedCell(st.cells[at], wake), DecayedWake(st.cells[at], wake);
      if !Spent(left) then WakeState(st.cells[at := cell], st.retained + [left], st.sites)
      else WakeState(st.cells[at := cell.(wakeId := 0)], st.retained, Deactivate(st.sites, wake.siteId))
  }

  function DecayTo(cells: seq<Cell>, sites: seq<Site>, wakes: seq<Wake>, k: nat): (r: WakeState)
    requires AllOnMap(wakes, |cells|) && k <= |wakes|
    ensures |r.cells| == |cells|
  {
    if k == 0 then WakeState(cells, [], sites)
    else
      assert OnMap(wakes[k - 1], |cells|);
      DecayOne(DecayTo(cells, sites, wakes, k - 1), wakes[k - 1])
  }

  /** One wake in turn: it decays into the cell under its cursor, stays while it carries anything, and otherwise leaves
      the cell unmarked and its site inactive; off its path it is dropped. */
  lemma DecayTurn(st: WakeState, wake: Wake)
    requires OnMap(wake, |st.cells|)
    ensures var r := DecayOne(st, wake);
            if |wake.path| <= wake.cursor then r == st
            else
              var at := wake.path[wake.cursor];
              && at < |st.cells|
              && var left := DecayedWake(st.cells[at], wake);
              if left.charge != Zero6 || left.dross != Zero6 then
                && r.retained == st.retained + [left] && r.sites == st.sites
                && r.cells == st.cells[at := DecayedCell(st.cells[at], wake)]
              else
                && r.retained == st.retained && r.cells == st.cells[at := DecayedCell(st.cells[at], wake).(wakeId := 0)]
                && |r.sites| == |st.sites|
                && forall i | 0 <= i < |st.sites| ::
                     r.sites[i] == if st.sites[i].id == wake.siteId
                       && (forall k | 0 <= k < i :: st.sites[k].id != wake.siteId)
                                   then st.sites[i].(active := false) else st.sites[i]
  {
    DeactivateIs(st.sites, wake.siteId);
    hide DecayedCell, DecayedWake, Deactivate;
  }

  predicate FirstWith(sites: seq<Site>, id: nat, i: nat) {
    i < |sites| && sites[i].id == id && forall k | 0 <= k < i :: sites[k].id != id
  }

  lemma FirstLater(sites: seq<Site>, id: nat, i: nat)
    requires sites != [] && sites[0].id != id && 0 < i < |sites|
    ensures FirstWith(sites, id, i) <==> FirstWith(sites[1..], id, i - 1)
  {
    var rest := sites[1..];
    assert forall k | 0 <= k < |rest| :: rest[k] == sites[k + 1];
    if FirstWith(rest, id, i - 1) {
      forall k | 0 <= k < i ensures sites[k].id != id {
        if k > 0 {
          assert rest[k - 1] == sites[k];
        }
      }
    }
  }

  lemma {:induction false} DeactivateIs(sites: seq<Site>, id: nat)
    ensures |Deactivate(sites, id)| == |sites|
    ensures forall i | 0 <= i < |sites| ::
              Deactivate(sites, id)[i] == if FirstWith(sites, id, i) then sites[i].(active := false) else sites[i]
  {
    if sites != [] && sites[0].id != id {
      DeactivateIs(sites[1..], id);
      forall i | 0 <= i < |sites|
        ensures Deactivate(sites, id)[i] == if FirstWith(sites, id, i) then sites[i].(active := false) else sites[i]
      {
        if i > 0 {
          FirstLater(sites, id, i);
        }
      }
    }
  }

  // ----- conservation -----

  ghost function ChargeOf(slot: nat): Wake -> int
    requires slot < 6
  {
    (w: Wake) => w.charge[slot]
  }

  ghost function WakeDrossOf(slot: nat): Wake -> int
    requires slot < 6
  {
    (w: Wake) => w.dross[slot]
  }

  ghost function StrandedCharge(slot: nat): Wake -> int
    requires slot < 6
  {
    (w: Wake) => if Stranded(w) then w.charge[slot] else 0
  }

  ghost function StrandedDross(slot: nat): Wake -> int
    requires slot < 6
  {
    (w: Wake) => if Stranded(w) then w.dross[slot] else 0
  }

  ghost predicate WakeBalance(cells: seq<Cell>, wakes: seq<Wake>, st: WakeState, slot: nat)
    requires slot < 6
  {
    && BandTotal(st.cells, DEEP + slot) == BandTotal(cells, DEEP + slot)
    && BandTotal(st.cells, AMBIENT + slot) + SumSeq(st.retained, ChargeOf(slot)) + SumSeq(wakes, StrandedCharge(slot))
       == BandTotal(cells, AMBIENT + slot) + SumSeq(wakes, ChargeOf(slot))
    && BandTotal(st.cells, DROSS + slot) + SumSeq(st.retained, WakeDrossOf(slot)) + SumSeq(wakes, StrandedDross(slot))
       == BandTotal(cells, DROSS + slot) + SumSeq(wakes, WakeDrossOf(slot))
  }

  /** One wake's change to one planet-wide band: `sign` is what it gives back there. */
  lemma DecayedBand(st: WakeState, wake: Wake, band: nat)
    requires OnMap(wake, |st.cells|) && band < 18 && !Stranded(wake)
    ensures var cell := st.cells[wake.path[wake.cursor]];
            BandTotal(DecayOne(st, wake).cells, band)
            == BandTotal(st.cells, band) - Held(cell, band) + Held(DecayedCell(cell, wake), band)
  {
    var at := wake.path[wake.cursor];
    var cell, left := DecayedCell(st.cells[at], wake), DecayedWake(st.cells[at], wake);
    assert Held(cell.(wakeId := 0), band) == Held(cell, band);
    hide DecayedCell, DecayedWake, Held, Spent, Deactivate;
    SumSeqPut(st.cells, at, cell, HeldOf(band));
    SumSeqPut(st.cells, at, cell.(wakeId := 0), HeldOf(band));
  }

  /** Nothing is lost when a spent wake is dropped. */
  lemma DecayedRetained(st: WakeState, wake: Wake, slot: nat)
    requires OnMap(wake, |st.cells|) && slot < 6 && !Stranded(wake)
    ensures var left := DecayedWake(st.cells[wake.path[wake.cursor]], wake);
            && SumSeq(DecayOne(st, wake).retained, ChargeOf(slot))
               == SumSeq(st.retained, ChargeOf(slot)) + left.charge[slot]
            && SumSeq(DecayOne(st, wake).retained, WakeDrossOf(slot))
               == SumSeq(st.retained, WakeDrossOf(slot)) + left.dross[slot]
  {
    var left := DecayedWake(st.cells[wake.path[wake.cursor]], wake);
    hide DecayedCell, DecayedWake, Deactivate;
    SumSeqSnoc(st.retained, left, ChargeOf(slot));
    SumSeqSnoc(st.retained, left, WakeDrossOf(slot));
  }

  lemma DecayedParts(cell: Cell, wake: Wake, slot: nat)
    requires slot < 6
    ensures Held(DecayedCell(cell, wake), DEEP + slot) == Held(cell, DEEP + slot)
    ensures Held(DecayedCell(cell, wake), AMBIENT + slot) + DecayedWake(cell, wake).charge[slot]
            == Held(cell, AMBIENT + slot) + wake.charge[slot]
    ensures Held(DecayedCell(cell, wake), DROSS + slot) + DecayedWake(cell, wake).dross[slot]
            == Held(cell, DROSS + slot) + wake.dross[slot]
  {
    hide Received, Kept;
    ReleaseKeepsUnits(cell.ambient, wake.charge, wake.decay, slot);
    ReleaseKeepsUnits(cell.dross, wake.dross, wake.decay, slot);
  }

  lemma WakeSums(wakes: seq<Wake>, k: nat, slot: nat)
    requires k < |wakes| && slot < 6
    ensures SumSeq(wakes[..k + 1], ChargeOf(slot)) == SumSeq(wakes[..k], ChargeOf(slot)) + wakes[k].charge[slot]
    ensures SumSeq(wakes[..k + 1], WakeDrossOf(slot)) == SumSeq(wakes[..k], WakeDrossOf(slot)) + wakes[k].dross[slot]
    ensures SumSeq(wakes[..k + 1], StrandedCharge(slot))
            == SumSeq(wakes[..k], StrandedCharge(slot)) + if Stranded(wakes[k]) then wakes[k].charge[slot] else 0
    ensures SumSeq(wakes[..k + 1], StrandedDross(slot))
            == SumSeq(wakes[..k], StrandedDross(slot)) + if Stranded(wakes[k]) then wakes[k].dross[slot] else 0
  {
    SumSeqTake(wakes, k, ChargeOf(slot));
    SumSeqTake(wakes, k, WakeDrossOf(slot));
    SumSeqTake(wakes, k, StrandedCharge(slot));
    SumSeqTake(wakes, k, StrandedDross(slot));
  }

  lemma DecayOneBalance(cells: seq<Cell>, wakes: seq<Wake>, k: nat, st: WakeState, slot: nat)
    requires k < |wakes| && slot < 6 && OnMap(wakes[k], |st.cells|)
    requires WakeBalance(cells, wakes[..k], st, slot)
    ensures WakeBalance(cells, wakes[..k + 1], DecayOne(st, wakes[k]), slot)
  {
    WakeSums(wakes, k, slot);
    hide BandTotal, Held, DecayedCell, DecayedWake, Spent, Deactivate;
    var wake := wakes[k];
    if !Stranded(wake) {
      DecayedRetained(st, wake, slot);
      DecayedBand(st, wake, DEEP + slot);
      DecayedBand(st, wake, AMBIENT + slot);
      DecayedBand(st, wake, DROSS + slot);
      DecayedParts(st.cells[wake.path[wake.cursor]], wake, slot);
      hide DecayOne, ChargeOf, WakeDrossOf, StrandedCharge, StrandedDross;
    }
  }

  /** Decay moves units from wakes to cells and loses exactly what stranded wakes carry. */
  lemma {:induction false} DecayBalance(cells: seq<Cell>, sites: seq<Site>, wakes: seq<Wake>, k: nat, slot: nat)
    requires AllOnMap(wakes, |cells|) && k <= |wakes| && slot < 6
    ensures WakeBalance(cells, wakes[..k], DecayTo(cells, sites, wakes, k), slot)
  {
    hide BandTotal, DecayOne;
    if k > 0 {
      DecayBalance(cells, sites, wakes, k - 1, slot);
      assert OnMap(wakes[k - 1], |cells|);
      DecayOneBalance(cells, wakes, k - 1, DecayTo(cells, sites, wakes, k - 1), slot);
    }
  }

  /** All wakes off their path are empty in one resonance. */
  ghost predicate StrandedEmpty(wakes: seq<Wake>, slot: nat)
    requires slot < 6
  {
    forall i | 0 <= i < |wakes| && Stranded(wakes[i]) :: wakes[i].charge[slot] == 0 && wakes[i].dross[slot] == 0
  }

  lemma {:induction false} StrandedSums(wakes: seq<Wake>, slot: nat)
    requires slot < 6
    ensures 0 <= SumSeq(wakes, StrandedCharge(slot)) && 0 <= SumSeq(wakes, StrandedDross(slot))
    ensures StrandedEmpty(wakes, slot)
            <==> SumSeq(wakes, StrandedCharge(slot)) == 0 && SumSeq(wakes, StrandedDross(slot)) == 0
  {
    if wakes != [] {
      var front, last := wakes[..|wakes| - 1], wakes[|wakes| - 1];
      StrandedSums(front, slot);
      assert forall i | 0 <= i < |front| :: front[i] == wakes[i];
      if StrandedEmpty(front, slot) && (Stranded(last) ==> last.charge[slot] == 0 && last.dross[slot] == 0) {
        forall i | 0 <= i < |wakes| && Stranded(wakes[i])
          ensures wakes[i].charge[slot] == 0 && wakes[i].dross[slot] == 0
        {
          assert i < |front| ==> wakes[i] == front[i];
        }
      }
    }
  }

  /** Decay keeps a resonance over cells and wakes exactly when the wakes it drops carry none of it. */
  lemma DecayKeepsIff(cells: seq<Cell>, sites: seq<Site>, wakes: seq<Wake>, slot: nat)
    requires AllOnMap(wakes, |cells|) && slot < 6
    ensures var st := DecayTo(cells, sites, wakes, |wakes|);
            StrandedEmpty(wakes, slot)
            <==> && BandTotal(st.cells, AMBIENT + slot) + SumSeq(st.retained, ChargeOf(slot))
                    == BandTotal(cells, AMBIENT + slot) + SumSeq(wakes, ChargeOf(slot))
                 && BandTotal(st.cells, DROSS + slot) + SumSeq(st.retained, WakeDrossOf(slot))
                    == BandTotal(cells, DROSS + slot) + SumSeq(wakes, WakeDrossOf(slot))
  {
    hide BandTotal, DecayTo, StrandedEmpty, ChargeOf, WakeDrossOf, StrandedCharge, StrandedDross, AllOnMap;
    assert wakes[..|wakes|] == wakes;
    DecayBalance(cells, sites, wakes, |wakes|, slot);
    StrandedSums(wakes, slot);
  }

  ghost predicate Travelling(wakes: seq<Wake>) {
    forall i | 0 <= i < |wakes| :: !Stranded(wakes[i])
  }

  lemma {:induction false} TravellingLoseNothing(wakes: seq<Wake>, slot: nat)
    requires Travelling(wakes) && slot < 6
    ensures SumSeq(wakes, StrandedCharge(slot)) == SumSeq(wakes, StrandedDross(slot)) == 0
  {
    if wakes != [] {
      TravellingLoseNothing(wakes[..|wakes| - 1], slot);
    }
  }

  ghost predicate WellFormedWakes(cells: seq<Cell>, wakes: seq<Wake>) {
    AllOnMap(wakes, |cells|) && Travelling(wakes) && AllRepresentable(cells)
  }

  /** Wakes that are on their path stay on it, keep to the map and keep every band in range. */
  lemma {:induction false} DecayKeepsShape(cells: seq<Cell>, sites: seq<Site>, wakes: seq<Wake>, k: nat)
    requires WellFormedWakes(cells, wakes) && k <= |wakes|
    ensures WellFormedWakes(DecayTo(cells, sites, wakes, k).cells, DecayTo(cells, sites, wakes, k).retained)
  {
    hide AllRepresentable, DecayOne, OnMap;
    if k > 0 {
      DecayKeepsShape(cells, sites, wakes, k - 1);
      assert OnMap(wakes[k - 1], |cells|) && !Stranded(wakes[k - 1]);
      DecayOneKeepsShape(DecayTo(cells, sites, wakes, k - 1), wakes[k - 1]);
    }
  }

  lemma DecayOneKeepsShape(st: WakeState, wake: Wake)
    requires WellFormedWakes(st.cells, st.retained) && OnMap(wake, |st.cells|) && !Stranded(wake)
    ensures WellFormedWakes(DecayOne(st, wake).cells, DecayOne(st, wake).retained)
  {
    var at := wake.path[wake.cursor];
    assert Representable(st.cells[at]);
    DecayedRepresentable(st.cells[at], wake);
    hide DecayedCell, Representable, Received, Kept, Deactivate;
  }

  lemma DecayedRepresentable(cell: Cell, wake: Wake)
    requires Representable(cell)
    ensures Representable(DecayedCell(cell, wake)) && Representable(DecayedCell(cell, wake).(wakeId := 0))
  {
    var after := DecayedCell(cell, wake);
    forall band | 0 <= band < 18 ensures Held(after, band) <= U16_MAX && Held(after.(wakeId := 0), band) <= U16_MAX {
      assert Held(cell, band) <= U16_MAX;
      var slot := band % 6;
      ReleaseKeepsUnits(cell.ambient, wake.charge, wake.decay, slot);
      ReleaseKeepsUnits(cell.dross, wake.dross, wake.decay, slot);
      hide Received, Kept;
    }
  }
}
