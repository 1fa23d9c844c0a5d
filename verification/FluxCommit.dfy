/** Committing a finished pass: every delta lands in its cell, band by band. */
module FluxCommit {
  import opened Prelude
  import opened Bands
  import opened Transport

  // ----- one cell -----

  datatype Partly = Partly(cell: Cell, ok: bool)

  /** The order the bands are written in: deep, ambient and dross of slot 0, then of slot 1, and so on. */
  function BandAt(t: nat): (band: nat)
    requires t < 18
    ensures band < 18
  {
    t % 3 * 6 + t / 3
  }

  function TurnOf(band: nat): nat
    requires band < 18
  {
    band % 6 * 3 + band / 6
  }

  lemma TurnIsInverse(band: nat, t: nat)
    requires band < 18 && t < 18
    ensures BandAt(t) < 18 && TurnOf(band) < 18
    ensures BandAt(t) == band <==> TurnOf(band) == t
  {
  }

  predicate Fits(cell: Cell, change: Delta, band: nat)
    requires band < 18
  {
    0 <= Held(cell, band) + change[band] <= U16_MAX
  }

  predicate CellFits(cell: Cell, change: Delta) {
    forall band | 0 <= band < 18 :: Fits(cell, change, band)
  }

  /** The cell after the first `t` bands in order; it stops at the first that leaves the 16-bit range. */
  function ApplyBands(cell: Cell, change: Delta, t: nat): Partly
    requires t <= 18
  {
    if t == 0 then Partly(cell, true)
    else
      var before := ApplyBands(cell, change, t - 1);
      if before.ok then ApplyBand(before.cell, change, BandAt(t - 1)) else before
  }

  function ApplyBand(cell: Cell, change: Delta, band: nat): Partly
    requires band < 18
  {
    if Fits(cell, change, band) then Partly(PutBand(cell, band, Held(cell, band) + change[band]), true)
    else Partly(cell, false)
  }

  function Finish(cell: Cell, remainder: int): Cell {
    var ambient := Min(Sum6(cell.ambient), U16_MAX);
    cell.(historicalMin := Min(cell.historicalMin, ambient), historicalMax := Max(cell.historicalMax, ambient),
          remainder := Clamp(remainder))
  }

  function ApplyCell(cell: Cell, change: Delta, remainder: int): Partly {
    var part := ApplyBands(cell, change, 18);
    if part.ok then Partly(Finish(part.cell, remainder), true) else part
  }

  ghost predicate Landed(cell: Cell, change: Delta, t: nat, after: Cell) {
    forall band | 0 <= band < 18 :: Held(after, band) == Held(cell, band) + if TurnOf(band) < t then change[band] else 0
  }

  lemma LandOne(cell: Cell, change: Delta, t: nat, after: Cell)
    requires t < 18 && Landed(cell, change, t, after) && Fits(after, change, BandAt(t))
    ensures Landed(cell, change, t + 1, ApplyBand(after, change, BandAt(t)).cell)
  {
    var at := BandAt(t);
    forall band | 0 <= band < 18
      ensures Held(ApplyBand(after, change, at).cell, band)
              == Held(cell, band) + if TurnOf(band) < t + 1 then change[band] else 0
    {
      PutBandHeld(after, at, Held(after, at) + change[at], band);
      TurnIsInverse(band, t);
      assert Held(after, band) == Held(cell, band) + if TurnOf(band) < t then change[band] else 0;
      hide Held, PutBand, TurnOf, BandAt;
    }
    hide *;
  }

  lemma LandedSame(cell: Cell, change: Delta, t: nat, after: Cell)
    requires t < 18 && Landed(cell, change, t, after)
    ensures Fits(after, change, BandAt(t)) <==> Fits(cell, change, BandAt(t))
  {
    TurnIsInverse(BandAt(t), t);
    hide TurnOf, BandAt, Held;
  }

  ghost predicate FitsUntil(cell: Cell, change: Delta, t: nat)
    requires t <= 18
  {
    forall j | 0 <= j < t :: Fits(cell, change, BandAt(j))
  }

  lemma {:induction false} ApplyBandsLands(cell: Cell, change: Delta, t: nat)
    requires t <= 18
    ensures ApplyBands(cell, change, t).ok <==> FitsUntil(cell, change, t)
    ensures ApplyBands(cell, change, t).ok ==> Landed(cell, change, t, ApplyBands(cell, change, t).cell)
  {
    hide *;
    if t == 0 {
      NothingLanded(cell, change);
    } else {
      ApplyBandsLands(cell, change, t - 1);
      ApplyBandsStep(cell, change, t);
      FitsUntilStep(cell, change, t);
      var before := ApplyBands(cell, change, t - 1);
      if before.ok {
        LandedSame(cell, change, t - 1, before.cell);
        if Fits(before.cell, change, BandAt(t - 1)) {
          LandOne(cell, change, t - 1, before.cell);
        }
      }
    }
  }

  lemma NothingLanded(cell: Cell, change: Delta)
    ensures ApplyBands(cell, change, 0) == Partly(cell, true) && FitsUntil(cell, change, 0)
            && Landed(cell, change, 0, cell)
  {
    hide Held, TurnOf, Fits;
  }

  lemma ApplyBandsStep(cell: Cell, change: Delta, t: nat)
    requires 0 < t <= 18
    ensures var before := ApplyBands(cell, change, t - 1);
            && (!before.ok ==> ApplyBands(cell, change, t) == before)
            && (before.ok ==> ApplyBands(cell, change, t) == ApplyBand(before.cell, change, BandAt(t - 1)))
            && (before.ok ==> (ApplyBands(cell, change, t).ok <==> Fits(before.cell, change, BandAt(t - 1))))
  {
    hide Fits, PutBand, Held, BandAt;
  }

  lemma FitsUntilStep(cell: Cell, change: Delta, t: nat)
    requires 0 < t <= 18
    ensures FitsUntil(cell, change, t) <==> FitsUntil(cell, change, t - 1) && Fits(cell, change, BandAt(t - 1))
  {
    hide Fits, BandAt;
  }

  lemma EveryTurn(cell: Cell, change: Delta)
    ensures CellFits(cell, change) <==> FitsUntil(cell, change, 18)
  {
    forall band | 0 <= band < 18 ensures TurnOf(band) < 18 && BandAt(TurnOf(band)) == band {
      TurnIsInverse(band, TurnOf(band));
    }
    hide Fits, BandAt, TurnOf;
    if FitsUntil(cell, change, 18) {
      forall band | 0 <= band < 18 ensures Fits(cell, change, band) {
        var j := TurnOf(band);
        assert Fits(cell, change, BandAt(j));
      }
    }
  }

  /** A successful cell moves every band by exactly its delta; it succeeds when every band stays in range. */
  ghost predicate MovedBy(cell: Cell, change: Delta, after: Cell) {
    forall band | 0 <= band < 18 :: Held(after, band) == Held(cell, band) + change[band]
  }

  lemma ApplyCellExact(cell: Cell, change: Delta, remainder: int)
    ensures ApplyCell(cell, change, remainder).ok <==> CellFits(cell, change)
    ensures ApplyCell(cell, change, remainder).ok ==> MovedBy(cell, change, ApplyCell(cell, change, remainder).cell)
  {
    ApplyBandsLands(cell, change, 18);
    EveryTurn(cell, change);
    hide Fits, CellFits, FitsUntil, ApplyBands, BandAt;
    var part := ApplyBands(cell, change, 18);
    if part.ok {
      LandedAll(cell, change, part.cell);
      FinishKeepsBands(part.cell, remainder);
    }
    hide Landed, Held, Finish;
  }

  lemma LandedAll(cell: Cell, change: Delta, after: Cell)
    requires Landed(cell, change, 18, after)
    ensures MovedBy(cell, change, after)
  {
    hide Held;
  }

  lemma FinishKeepsBands(cell: Cell, remainder: int)
    ensures forall band | 0 <= band < 18 :: Held(Finish(cell, remainder), band) == Held(cell, band)
  {
  }

  /** What a committed cell records besides its bands. */
  lemma FinishRecords(cell: Cell, change: Delta, remainder: int)
    requires ApplyCell(cell, change, remainder).ok
    ensures var after := ApplyCell(cell, change, remainder).cell;
            var ambient := if Sum6(after.ambient) > 65_535 then 65_535 else Sum6(after.ambient);
            && after.historicalMin == (if ambient < cell.historicalMin then ambient else cell.historicalMin)
            && after.historicalMax == (if ambient > cell.historicalMax then ambient else cell.historicalMax)
            && after.remainder == (if remainder < 0 then 0 else if remainder > 999_999 then 999_999 else remainder)
            && after.wakeId == cell.wakeId
  {
    var part := ApplyBands(cell, change, 18);
    BandsOnly(cell, change, 18);
    hide ApplyBands, Sum6;
  }

  lemma {:induction false} BandsOnly(cell: Cell, change: Delta, t: nat)
    requires t <= 18
    ensures var r := ApplyBands(cell, change, t).cell;
            && r.historicalMin == cell.historicalMin && r.historicalMax == cell.historicalMax && r.wakeId == cell.wakeId
  {
    if t > 0 {
      BandsOnly(cell, change, t - 1);
      hide BandAt, Held;
    }
  }

  // ----- all cells -----

  datatype Commit = Commit(cells: seq<Cell>, ok: bool)

  function ApplyFluxTo(cells: seq<Cell>, delta: seq<Delta>, remainders: seq<int>, k: nat): (r: Commit)
    requires |cells| == |delta| == |remainders| && k <= |cells|
    ensures |r.cells| == |cells|
  {
    if k == 0 then Commit(cells, true)
    else
      var before := ApplyFluxTo(cells, delta, remainders, k - 1);
      if !before.ok then before
      else
        var part := ApplyCell(before.cells[k - 1], delta[k - 1], remainders[k - 1]);
        Commit(before.cells[k - 1 := part.cell], part.ok)
  }

  ghost predicate CommittedTo(cells: seq<Cell>, delta: seq<Delta>, after: seq<Cell>, k: nat) {
    && |after| == |cells| == |delta|
    && (forall i | 0 <= i < |cells| && i < k :: MovedBy(cells[i], delta[i], after[i]))
    && (forall i | k <= i < |cells| :: after[i] == cells[i])
  }

  ghost predicate FitsTo(cells: seq<Cell>, delta: seq<Delta>, k: nat)
    requires |cells| == |delta|
  {
    forall i | 0 <= i < |cells| && i < k :: CellFits(cells[i], delta[i])
  }

  lemma {:induction false} ApplyFluxExact(cells: seq<Cell>, delta: seq<Delta>, remainders: seq<int>, k: nat)
    requires |cells| == |delta| == |remainders| && k <= |cells|
    ensures ApplyFluxTo(cells, delta, remainders, k).ok <==> FitsTo(cells, delta, k)
    ensures ApplyFluxTo(cells, delta, remainders, k).ok ==>
              CommittedTo(cells, delta, ApplyFluxTo(cells, delta, remainders, k).cells, k)
  {
    hide CellFits, MovedBy, ApplyCell;
    if k > 0 {
      ApplyFluxExact(cells, delta, remainders, k - 1);
      ApplyCellExact(cells[k - 1], delta[k - 1], remainders[k - 1]);
    }
  }

  lemma CommittedTotal(cells: seq<Cell>, delta: seq<Delta>, after: seq<Cell>, band: nat)
    requires band < 18 && CommittedTo(cells, delta, after, |cells|)
    ensures BandTotal(after, band) == BandTotal(cells, band) + ChangeTotal(delta, band)
  {
    forall i | 0 <= i < |after| ensures HeldOf(band)(after[i]) == HeldOf(band)(cells[i]) + ChangeOf(band)(delta[i]) {
      assert MovedBy(cells[i], delta[i], after[i]);
    }
    hide CommittedTo;
    SumSeqPointwise(after, HeldOf(band), cells, HeldOf(band), delta, ChangeOf(band));
  }

  /** Current (deep and ambient) and dross of one resonance over the whole planet. */
  ghost function CurrentTotal(cells: seq<Cell>, slot: nat): int
    requires slot < 6
  {
    BandTotal(cells, DEEP + slot) + BandTotal(cells, AMBIENT + slot)
  }

  ghost function DrossTotal(cells: seq<Cell>, slot: nat): int
    requires slot < 6
  {
    BandTotal(cells, DROSS + slot)
  }

  ghost predicate SameTotals(before: seq<Cell>, after: seq<Cell>) {
    forall slot | 0 <= slot < 6 ::
      CurrentTotal(after, slot) == CurrentTotal(before, slot) && DrossTotal(after, slot) == DrossTotal(before, slot)
  }

  ghost predicate NoOverflow(cells: seq<Cell>, delta: seq<Delta>)
    requires |cells| == |delta|
  {
    forall i, band | 0 <= i < |cells| && 0 <= band < 18 :: Held(cells[i], band) + delta[i][band] <= U16_MAX
  }

  /** A sound pass never fails by underflow: it commits exactly when no band would pass the 16-bit limit, and
      then keeps Current and dross of every resonance. */
  lemma SoundFluxConserves(cells: seq<Cell>, delta: seq<Delta>, remainders: seq<int>)
    requires SoundFlux(cells, delta) && |cells| == |delta| == |remainders|
    ensures ApplyFluxTo(cells, delta, remainders, |cells|).ok <==> NoOverflow(cells, delta)
    ensures ApplyFluxTo(cells, delta, remainders, |cells|).ok ==>
              var after := ApplyFluxTo(cells, delta, remainders, |cells|).cells;
              AllRepresentable(after) && SameTotals(cells, after)
  {
    assert Backed(cells, delta) && Balanced(delta);
    hide *;
    var r := ApplyFluxTo(cells, delta, remainders, |cells|);
    ApplyFluxExact(cells, delta, remainders, |cells|);
    OnlyOverflow(cells, delta);
    if r.ok {
      StillRepresentable(cells, delta, r.cells);
      BalancedKeepsTotals(cells, delta, r.cells);
    }
  }

  lemma BalancedKeepsTotals(cells: seq<Cell>, delta: seq<Delta>, after: seq<Cell>)
    requires Balanced(delta) && CommittedTo(cells, delta, after, |cells|)
    ensures SameTotals(cells, after)
  {
    hide CommittedTo, BandTotal, ChangeTotal;
    forall slot | 0 <= slot < 6
      ensures CurrentTotal(after, slot) == CurrentTotal(cells, slot)
              && DrossTotal(after, slot) == DrossTotal(cells, slot)
    {
      assert BalancedSlot(delta, slot);
      CommittedTotal(cells, delta, after, DEEP + slot);
      CommittedTotal(cells, delta, after, AMBIENT + slot);
      CommittedTotal(cells, delta, after, DROSS + slot);
    }
  }

  lemma OnlyOverflow(cells: seq<Cell>, delta: seq<Delta>)
    requires Backed(cells, delta) && |cells| == |delta|
    ensures FitsTo(cells, delta, |cells|) <==> NoOverflow(cells, delta)
  {
    hide Held, Representable;
    forall i, band | 0 <= i < |cells| && 0 <= band < 18
      ensures Fits(cells[i], delta[i], band) <==> Held(cells[i], band) + delta[i][band] <= U16_MAX
    {
      assert BackedBy(cells[i], delta[i]);
    }
    if FitsTo(cells, delta, |cells|) {
      forall i, band | 0 <= i < |cells| && 0 <= band < 18 ensures Held(cells[i], band) + delta[i][band] <= U16_MAX {
        assert CellFits(cells[i], delta[i]);
        assert Fits(cells[i], delta[i], band);
      }
    }
    hide Fits;
  }

  lemma StillRepresentable(cells: seq<Cell>, delta: seq<Delta>, after: seq<Cell>)
    requires |cells| == |delta| && FitsTo(cells, delta, |cells|) && CommittedTo(cells, delta, after, |cells|)
    ensures AllRepresentable(after)
  {
    hide Held;
    forall i | 0 <= i < |after| ensures Representable(after[i]) {
      assert CellFits(cells[i], delta[i]) && MovedBy(cells[i], delta[i], after[i]);
      forall band | 0 <= band < 18 ensures Held(after[i], band) <= U16_MAX {
        assert Fits(cells[i], delta[i], band);
      }
    }
  }

  lemma {:induction false} StaysFailed(cell: Cell, change: Delta, s: nat, t: nat)
    requires s <= t <= 18 && !ApplyBands(cell, change, s).ok
    ensures ApplyBands(cell, change, t) == ApplyBands(cell, change, s)
  {
    if s < t {
      StaysFailed(cell, change, s, t - 1);
    }
  }

  lemma PairTotal(a: Cell, b: Cell)
    ensures DrossTotal([a, b], 0) == Held(a, 12) + Held(b, 12)
  {
    assert [a, b][..1] == [a];
    assert SumSeq([a], HeldOf(12)) == HeldOf(12)(a);
  }
}
