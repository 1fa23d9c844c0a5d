/** The dross a transaction generates, measured on the accounts themselves. */
module DrossBalance {
  import opened Prelude
  import opened CurrentUnits
  import opened LedgerModel
  import opened LedgerLaws
  import opened Staging

  /** The accounts that hold explicit dross. */
  function Foul(a: Accounts): Accounts {
    map o | o in a && (o.Dross? || o.ItemDross? || o.AlchemyDross? || o.Scar?) :: a[o]
  }

  function FoulMoves(ms: seq<ArcaneMove>): seq<ArcaneMove> {
    if ms == [] then []
    else
      var front, m := FoulMoves(ms[..|ms| - 1]), ms[|ms| - 1];
      if m.owner.Dross? || m.owner.ItemDross? || m.owner.AlchemyDross? || m.owner.Scar? then front + [m] else front
  }

  lemma {:induction false} UnitsAreTotals(ms: seq<ArcaneMove>)
    ensures UnitsMoved(ms, true) == Total(Mixture(FoulMoves(ms)))
  {
    hide Plus, Total;
    EmptyIffZero(Empty);
    if ms != [] {
      var front, m := ms[..|ms| - 1], ms[|ms| - 1];
      UnitsAreTotals(front);
      OwnedSnoc(FoulMoves(front), m, m.owner);
      TotalPlus(Mixture(FoulMoves(front)), m.current);
    }
  }

  lemma {:induction false} FoulDebits(a: Accounts, ms: seq<ArcaneMove>)
    requires DebitAll(a, ms).Some?
    ensures DebitAll(Foul(a), FoulMoves(ms)) == Some(Foul(DebitAll(a, ms).value))
  {
    hide Covers, Minus;
    if ms != [] {
      var front, m := ms[..|ms| - 1], ms[|ms| - 1];
      FoulDebits(a, front);
      var b := DebitAll(a, front).value;
      var foul := FoulMoves(front);
      assert Foul(Debit(b, m)) == if m.owner in Foul(b) then Debit(Foul(b), m) else Foul(b);
      assert (foul + [m])[..|foul|] == foul;
    }
  }

  lemma {:induction false} FoulCredits(a: Accounts, ms: seq<ArcaneMove>)
    requires CreditAll(a, ms).Some?
    ensures CreditAll(Foul(a), FoulMoves(ms)) == Some(Foul(CreditAll(a, ms).value))
  {
    hide Plus, Total, Credited;
    if ms != [] {
      var front, m := ms[..|ms| - 1], ms[|ms| - 1];
      FoulCredits(a, front);
      var b := CreditAll(a, front).value;
      var foul := FoulMoves(front);
      assert (foul + [m])[..|foul|] == foul;
      var next := Credited(Opened(b, m), m);
      FoulPut(b, m.owner, next);
      if m.owner.Dross? || m.owner.ItemDross? || m.owner.AlchemyDross? || m.owner.Scar? {
        assert Opened(Foul(b), m) == Opened(b, m);
      }
    }
  }

  lemma FoulPut(b: Accounts, o: Owner, next: Account)
    ensures Foul(b[o := next])
            == if o.Dross? || o.ItemDross? || o.AlchemyDross? || o.Scar? then Foul(b)[o := next] else Foul(b)
  {
  }

  lemma FoulSettled(a: Accounts, touched: set<Owner>)
    ensures Foul(Settle(a, touched)) == Settle(Foul(a), touched)
  {
  }

  /** What a transaction that leaves the geography alone has generated is exactly what explicit dross has gained over
      all accounts, and nothing when it has lost. */
  lemma DrossGeneratedIs(s: LedgerState, tx: Transaction)
    requires Applies(s, tx)
    ensures DrossGenerated(tx)
            == if exists m :: (m in tx.debits || m in tx.credits) && m.owner == Geography then 0
               else Max(GrandTotal(Foul(After(s, tx).accounts)) - GrandTotal(Foul(s.accounts)), 0)
  {
    hide *;
    AppliedParts(s, tx);
    GeographyTouched(tx);
    FoulGains(s.accounts, tx);
    GeneratedIs(tx);
  }

  lemma GeneratedIs(tx: Transaction)
    ensures DrossGenerated(tx)
            == if Geography in Touched(tx) then 0
               else Max(UnitsMoved(tx.credits, true) - UnitsMoved(tx.debits, true), 0)
  {
    hide UnitsMoved, Touched;
  }

  /** Explicit dross gains what its credits bring and loses what its debits take. */
  lemma FoulGains(a: Accounts, tx: Transaction)
    requires Moved(a, tx).Some?
    ensures GrandTotal(Foul(Settle(Moved(a, tx).value, Touched(tx)))) + UnitsMoved(tx.debits, true)
            == GrandTotal(Foul(a)) + UnitsMoved(tx.credits, true)
  {
    assert DebitAll(a, tx.debits).Some? && CreditAll(DebitAll(a, tx.debits).value, tx.credits) == Moved(a, tx) by {
      hide DebitAll, CreditAll;
    }
    hide *;
    var b := DebitAll(a, tx.debits).value;
    UnitsAreTotals(tx.debits);
    UnitsAreTotals(tx.credits);
    FoulDebits(a, tx.debits);
    FoulCredits(b, tx.credits);
    DebitAllTotals(Foul(a), FoulMoves(tx.debits), Root);
    CreditAllLaw(Foul(b), FoulMoves(tx.credits), Root);
    FoulSettled(Moved(a, tx).value, Touched(tx));
    SettleLaw(Foul(Moved(a, tx).value), Touched(tx), Deep, Root);
  }

  lemma GeographyTouched(tx: Transaction)
    ensures Geography in Touched(tx) <==> exists m :: (m in tx.debits || m in tx.credits) && m.owner == Geography
  {
  }
}
