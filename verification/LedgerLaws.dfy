/** What every applied transaction does to balances, versions and planet-wide totals. */
module LedgerLaws {
  import opened Prelude
  import opened CurrentUnits
  import opened LedgerModel

  // ----- movements -----

  lemma OwnedSnoc(ms: seq<ArcaneMove>, m: ArcaneMove, o: Owner)
    ensures Owned(ms + [m], o) == if m.owner == o then Plus(Owned(ms, o), m.current) else Owned(ms, o)
    ensures Mixture(ms + [m]) == Plus(Mixture(ms), m.current)
  {
    assert (ms + [m])[..|ms|] == ms;
  }

  lemma {:induction false} OwnedAbsent(ms: seq<ArcaneMove>, o: Owner)
    requires o !in Owners(ms)
    ensures Owned(ms, o) == Empty
  {
    if ms != [] {
      OwnedAbsent(ms[..|ms| - 1], o);
    }
  }

  /** With each owner debited at most once, an owner's movements are a single movement. */
  lemma {:induction false} OwnedOnce(ms: seq<ArcaneMove>, i: nat)
    requires i < |ms|
    requires forall j, k | 0 <= j < k < |ms| :: ms[j].owner != ms[k].owner
    ensures Owned(ms, ms[i].owner) == ms[i].current
  {
    var last := |ms| - 1;
    var front := ms[..last];
    if i == last {
      OwnedAbsent(front, ms[i].owner);
      SameUnits(Plus(Empty, ms[i].current), ms[i].current);
    } else {
      OwnedOnce(front, i);
    }
  }

  // ----- debits -----

  ghost predicate Covered(a: Accounts, ms: seq<ArcaneMove>) {
    forall m | m in ms :: m.owner in a && Covers(a[m.owner].current, Owned(ms, m.owner))
  }

  /** All debits go through exactly when each owner can pay the sum of its own debits. */
  lemma {:induction false} DebitAllIff(a: Accounts, ms: seq<ArcaneMove>)
    ensures DebitAll(a, ms).Some? <==> Covered(a, ms)
    ensures DebitAll(a, ms).Some? ==>
              var b := DebitAll(a, ms).value;
              && b.Keys == a.Keys
              && forall o | o in a ::
                   && b[o] == a[o].(current := b[o].current)
                   && Plus(b[o].current, Owned(ms, o)) == a[o].current
  {
    hide Plus, Minus, Put, Single, Total;
    if ms == [] {
      forall o | o in a ensures Plus(a[o].current, Empty) == a[o].current {
        SameUnits(Plus(a[o].current, Empty), a[o].current);
      }
    } else {
      var front, m := ms[..|ms| - 1], ms[|ms| - 1];
      DebitAllIff(a, front);
      assert ms == front + [m];
      forall o ensures Owned(ms, o) == if m.owner == o then Plus(Owned(front, o), m.current) else Owned(front, o) {
        OwnedSnoc(front, m, o);
      }
      if DebitAll(a, front).Some? {
        DebitStep(a, DebitAll(a, front).value, front, m);
      } else {
        var bad :| bad in front && !(bad.owner in a && Covers(a[bad.owner].current, Owned(front, bad.owner)));
        assert bad in ms;
        if bad.owner in a && Covers(a[bad.owner].current, Owned(ms, bad.owner)) {
          assert false;
        }
      }
    }
  }

  lemma DebitStep(a: Accounts, b: Accounts, front: seq<ArcaneMove>, m: ArcaneMove)
    requires DebitAll(a, front) == Some(b) && Covered(a, front)
    requires b.Keys == a.Keys
    requires forall o | o in a ::
               b[o] == a[o].(current := b[o].current) && Plus(b[o].current, Owned(front, o)) == a[o].current
    ensures m.owner in b && Covers(b[m.owner].current, m.current) <==> Covered(a, front + [m])
    ensures m.owner in b && Covers(b[m.owner].current, m.current) ==>
              forall o | o in a ::
                && Debit(b, m)[o] == a[o].(current := Debit(b, m)[o].current)
                && Plus(Debit(b, m)[o].current, Owned(front + [m], o)) == a[o].current
  {
    hide Plus, Minus, Put, Single, Total;
    var ms := front + [m];
    forall o ensures Owned(ms, o) == if m.owner == o then Plus(Owned(front, o), m.current) else Owned(front, o) {
      OwnedSnoc(front, m, o);
    }
    assert m in ms;
    if m.owner in b && Covers(b[m.owner].current, m.current) {
      CoversBoth(a[m.owner].current, b[m.owner].current, Owned(front, m.owner), m.current);
      forall k | k in ms ensures k.owner in a && Covers(a[k.owner].current, Owned(ms, k.owner)) {
        assert k in front || k == m;
      }
    } else if Covered(a, ms) {
      CoversBoth(a[m.owner].current, b[m.owner].current, Owned(front, m.owner), m.current);
      assert false;
    }
  }

  lemma CoversBoth(whole: Current, left: Current, first: Current, second: Current)
    requires Plus(left, first) == whole
    ensures Covers(left, second) <==> Covers(whole, Plus(first, second))
    ensures Covers(left, second) ==> Plus(Minus(left, second), Plus(first, second)) == whole
  {
    hide Plus, Minus;
    assert forall n :: UnitsOf(left, n) + UnitsOf(first, n) == UnitsOf(whole, n) by {
      assert forall n :: UnitsOf(Plus(left, first), n) == UnitsOf(left, n) + UnitsOf(first, n);
    }
    if Covers(left, second) {
      SameUnits(Plus(Minus(left, second), Plus(first, second)), whole);
    } else {
      var n :| UnitsOf(second, n) > UnitsOf(left, n);
      assert UnitsOf(Plus(first, second), n) > UnitsOf(whole, n);
    }
  }

  lemma {:induction false} DebitAllTotals(a: Accounts, ms: seq<ArcaneMove>, r: Resonance)
    requires DebitAll(a, ms).Some?
    ensures BandTotal(DebitAll(a, ms).value, r) + UnitsOf(Mixture(ms), r) == BandTotal(a, r)
    ensures GrandTotal(DebitAll(a, ms).value) + Total(Mixture(ms)) == GrandTotal(a)
  {
    hide Plus, Minus, Put, Single, Total;
    if ms == [] {
      EmptyIffZero(Empty);
    } else {
      var front, m := ms[..|ms| - 1], ms[|ms| - 1];
      DebitAllTotals(a, front, r);
      var b := DebitAll(a, front).value;
      var next := b[m.owner].(current := Minus(b[m.owner].current, m.current));
      MinusPlus(b[m.owner].current, m.current);
      TotalPlus(Mixture(front), m.current);
      SumMapPut(b, BandWeight(r), m.owner, next);
      SumMapPut(b, AccountWeight(), m.owner, next);
    }
  }

  // ----- credits -----

  lemma {:induction false} CreditAllLaw(a: Accounts, ms: seq<ArcaneMove>, r: Resonance)
    requires CreditAll(a, ms).Some?
    ensures CreditAll(a, ms).value.Keys == a.Keys + Owners(ms)
    ensures BandTotal(CreditAll(a, ms).value, r) == BandTotal(a, r) + UnitsOf(Mixture(ms), r)
    ensures GrandTotal(CreditAll(a, ms).value) == GrandTotal(a) + Total(Mixture(ms))
  {
    hide Plus, Minus, Put, Single, Total, SumMap;
    if ms == [] {
      EmptyIffZero(Empty);
    } else {
      var front, m := ms[..|ms| - 1], ms[|ms| - 1];
      CreditAllLaw(a, front, r);
      var b := CreditAll(a, front).value;
      var next := Credited(Opened(b, m), m);
      EmptyIffZero(Empty);
      TotalPlus(Opened(b, m).current, m.current);
      TotalPlus(Mixture(front), m.current);
      SumMapPut(b, BandWeight(r), m.owner, next);
      SumMapPut(b, AccountWeight(), m.owner, next);
      assert Owners(ms) == Owners(front) + {m.owner};
    }
  }

  lemma {:induction false} CreditAllBalances(a: Accounts, ms: seq<ArcaneMove>, o: Owner)
    requires CreditAll(a, ms).Some?
    ensures CurrentOf(CreditAll(a, ms).value, o) == Plus(CurrentOf(a, o), Owned(ms, o))
    ensures VersionOf(CreditAll(a, ms).value, o) == VersionOf(a, o)
    ensures o !in Owners(ms) ==> (o in CreditAll(a, ms).value <==> o in a)
    ensures o !in Owners(ms) && o in a ==> CreditAll(a, ms).value[o] == a[o]
  {
    hide Plus, Minus, Put, Single, Total;
    if ms == [] {
      SameUnits(Plus(CurrentOf(a, o), Empty), CurrentOf(a, o));
    } else {
      var front, m := ms[..|ms| - 1], ms[|ms| - 1];
      CreditAllBalances(a, front, o);
      assert ms == front + [m];
      OwnedSnoc(front, m, o);
      if m.owner == o {
        PlusAssociative(CurrentOf(a, o), Owned(front, o), m.current);
      }
    }
  }

  lemma PlusAssociative(a: Current, b: Current, c: Current)
    ensures Plus(Plus(a, b), c) == Plus(a, Plus(b, c))
  {
    SameUnits(Plus(Plus(a, b), c), Plus(a, Plus(b, c)));
  }

  /** No credit can overflow while the planet-wide total would stay within `u64`. */
  lemma {:induction false} CreditAllFits(a: Accounts, ms: seq<ArcaneMove>)
    requires GrandTotal(a) + Total(Mixture(ms)) <= U64_MAX
    ensures CreditAll(a, ms).Some?
  {
    hide Plus, Minus, Put, Single, Total;
    if ms != [] {
      var front, m := ms[..|ms| - 1], ms[|ms| - 1];
      TotalPlus(Mixture(front), m.current);
      CreditAllFits(a, front);
      CreditAllLaw(a, front, Resonance(""));
      var b := CreditAll(a, front).value;
      EmptyIffZero(Empty);
      if m.owner in b {
        SumMapMember(b, AccountWeight(), m.owner);
      }
    }
  }

  // ----- transforms -----

  /** Transforms keep the scalar total and move each resonance by its declared net. */
  lemma {:induction false} TransformedLaw(c: Current, ts: seq<ResonanceTransform>, r: Resonance)
    requires Transformed(c, ts).Some?
    ensures Total(Transformed(c, ts).value) == Total(c)
    ensures UnitsOf(Transformed(c, ts).value, r) == UnitsOf(c, r) + TransformNet(ts, r)
  {
    hide Plus, Minus, Put, Single, Total;
    if ts != [] {
      var front, t := ts[..|ts| - 1], ts[|ts| - 1];
      TransformedLaw(c, front, r);
      TransformStepTotal(Transformed(c, front).value, t);
    }
  }

  lemma TransformStepTotal(c: Current, t: ResonanceTransform)
    requires t.units <= UnitsOf(c, t.from)
    ensures Total(TransformStep(c, t)) == Total(c)
  {
    hide Plus, Minus, Put, Single, Total;
    TotalPut(c, t.from, UnitsOf(c, t.from) - t.units);
    TotalSingle(t.to, t.units);
    TotalPlus(Put(c, t.from, UnitsOf(c, t.from) - t.units), Single(t.to, t.units));
  }

  // ----- settling -----

  lemma SettleLaw(a: Accounts, touched: set<Owner>, o: Owner, r: Resonance)
    ensures CurrentOf(Settle(a, touched), o) == CurrentOf(a, o)
    ensures o in touched ==>
              (o in Settle(a, touched) <==> CurrentOf(a, o) != Empty)
              && (o in Settle(a, touched) ==> Settle(a, touched)[o].version == VersionOf(a, o) + 1)
    ensures o !in touched ==>
              (o in Settle(a, touched) <==> o in a) && (o in a ==> Settle(a, touched)[o] == a[o])
    ensures BandTotal(Settle(a, touched), r) == BandTotal(a, r)
    ensures GrandTotal(Settle(a, touched)) == GrandTotal(a)
  {
    EmptyIffZero(Empty);
    SumMapSame(a, Settle(a, touched), BandWeight(r));
    SumMapSame(a, Settle(a, touched), AccountWeight());
  }

  // ----- whole transactions -----

  /** Validation examines each debit alone; application adds them up. On a ledger whose total fits, an accepted
      transaction applies exactly when every owner can pay all its debits together and no touched version is
      exhausted. */
  lemma AppliesIff(s: LedgerState, tx: Transaction)
    requires Fits(s) && Accepts(s, tx)
    ensures Applies(s, tx) <==>
              Covered(s.accounts, tx.debits) && VersionsBelowMaximum(s.accounts, Touched(tx))
  {
    DebitAllIff(s.accounts, tx.debits);
    if DebitAll(s.accounts, tx.debits).Some? {
      DebitAllTotals(s.accounts, tx.debits, Resonance(""));
      TransformedLaw(Mixture(tx.debits), tx.transforms, Resonance(""));
      CreditAllFits(DebitAll(s.accounts, tx.debits).value, tx.credits);
    }
  }

  /** The shape every constructor builds: no owner is debited twice. */
  ghost predicate DebitsOnce(tx: Transaction) {
    forall j, k | 0 <= j < k < |tx.debits| :: tx.debits[j].owner != tx.debits[k].owner
  }

  lemma AcceptedOnceApplies(s: LedgerState, tx: Transaction)
    requires Fits(s) && Accepts(s, tx) && DebitsOnce(tx)
    requires VersionsBelowMaximum(s.accounts, Touched(tx))
    ensures Applies(s, tx)
  {
    forall m | m in tx.debits
      ensures m.owner in s.accounts && Covers(s.accounts[m.owner].current, Owned(tx.debits, m.owner))
    {
      var i :| 0 <= i < |tx.debits| && tx.debits[i] == m;
      OwnedOnce(tx.debits, i);
      assert DebitAvailable(s, m);
    }
    AppliesIff(s, tx);
  }

  lemma DebitBalances(a: Accounts, ms: seq<ArcaneMove>, o: Owner)
    requires DebitAll(a, ms).Some?
    ensures Plus(CurrentOf(DebitAll(a, ms).value, o), Owned(ms, o)) == CurrentOf(a, o)
    ensures VersionOf(DebitAll(a, ms).value, o) == VersionOf(a, o)
    ensures o in DebitAll(a, ms).value <==> o in a
    ensures o !in Owners(ms) && o in a ==> DebitAll(a, ms).value[o] == a[o]
  {
    hide Plus, Minus, Put, Single, Total, DebitAll;
    DebitAllIff(a, ms);
    if o !in Owners(ms) {
      OwnedAbsent(ms, o);
      SameUnits(Plus(CurrentOf(DebitAll(a, ms).value, o), Empty), CurrentOf(DebitAll(a, ms).value, o));
    }
  }

  lemma MovedBalances(a: Accounts, tx: Transaction, o: Owner)
    requires Moved(a, tx).Some?
    ensures Plus(CurrentOf(Moved(a, tx).value, o), Owned(tx.debits, o)) == Plus(CurrentOf(a, o), Owned(tx.credits, o))
    ensures VersionOf(Moved(a, tx).value, o) == VersionOf(a, o)
    ensures o !in Touched(tx) ==> (o in Moved(a, tx).value <==> o in a)
    ensures o !in Touched(tx) && o in a ==> Moved(a, tx).value[o] == a[o]
  {
    hide Plus, Minus, Put, Single, Total, DebitAll, CreditAll, Owned;
    var b := DebitAll(a, tx.debits).value;
    DebitBalances(a, tx.debits, o);
    CreditAllBalances(b, tx.credits, o);
    Shuffle(CurrentOf(Moved(a, tx).value, o), CurrentOf(b, o), Owned(tx.debits, o), CurrentOf(a, o),
            Owned(tx.credits, o));
  }

  /** Balance sheet of one applied transaction, owner by owner. */
  lemma AppliedBalances(s: LedgerState, tx: Transaction, o: Owner)
    requires Applies(s, tx)
    ensures var t := After(s, tx);
            && Plus(CurrentOf(t.accounts, o), Owned(tx.debits, o))
               == Plus(CurrentOf(s.accounts, o), Owned(tx.credits, o))
            && (o in Touched(tx) ==>
                  (o in t.accounts <==> CurrentOf(t.accounts, o) != Empty)
                  && (o in t.accounts ==> t.accounts[o].version == VersionOf(s.accounts, o) + 1))
            && (o !in Touched(tx) ==>
                  (o in t.accounts <==> o in s.accounts)
                  && (o in s.accounts ==> t.accounts[o] == s.accounts[o]))
  {
    hide Plus, Minus, Put, Single, Total, Moved, Settle, Provenance, Accepts;
    MovedBalances(s.accounts, tx, o);
    SettleLaw(Moved(s.accounts, tx).value, Touched(tx), o, Resonance(""));
  }

  lemma Shuffle(after: Current, mid: Current, out: Current, before: Current, into: Current)
    requires after == Plus(mid, into) && Plus(mid, out) == before
    ensures Plus(after, out) == Plus(before, into)
  {
    hide Plus;
    forall n ensures UnitsOf(Plus(after, out), n) == UnitsOf(Plus(before, into), n) {
      assert UnitsOf(Plus(mid, out), n) == UnitsOf(mid, n) + UnitsOf(out, n);
    }
    SameUnits(Plus(after, out), Plus(before, into));
  }

  lemma MovedTotals(a: Accounts, tx: Transaction, r: Resonance)
    requires Moved(a, tx).Some?
    ensures BandTotal(Moved(a, tx).value, r) + UnitsOf(Mixture(tx.debits), r)
            == BandTotal(a, r) + UnitsOf(Mixture(tx.credits), r)
    ensures GrandTotal(Moved(a, tx).value) + Total(Mixture(tx.debits)) == GrandTotal(a) + Total(Mixture(tx.credits))
  {
    hide Plus, Total, DebitAll, CreditAll, BandTotal, GrandTotal, Mixture;
    DebitAllTotals(a, tx.debits, r);
    CreditAllLaw(DebitAll(a, tx.debits).value, tx.credits, r);
  }

  lemma BalancedTotals(tx: Transaction, r: Resonance)
    requires Balanced(tx)
    ensures UnitsOf(Mixture(tx.credits), r) == UnitsOf(Mixture(tx.debits), r) + TransformNet(tx.transforms, r)
    ensures Total(Mixture(tx.credits)) == Total(Mixture(tx.debits))
  {
    hide Total, Mixture, Transformed, TransformNet;
    TransformedLaw(Mixture(tx.debits), tx.transforms, r);
  }

  lemma AppliedParts(s: LedgerState, tx: Transaction)
    requires Applies(s, tx)
    ensures Moved(s.accounts, tx).Some? && Balanced(tx)
    ensures After(s, tx).accounts == Settle(Moved(s.accounts, tx).value, Touched(tx))
    ensures After(s, tx).attribution == Provenance(s.attribution, tx)
    ensures After(s, tx).genesisTotal == s.genesisTotal
    ensures After(s, tx).externalAdjustment == s.externalAdjustment
    ensures After(s, tx).registry == s.registry
  {
    hide Moved, Settle, Provenance, EvictedReceipts, KeepNewest, ReceiptFor, ReadsNameTouched, ReadsCurrent,
         Authorized, Balanced, Registered, DebitAvailable, CreditAllowed, VersionsBelowMaximum, OriginFits, Blank,
         LinkedWellFormed, SequenceContinues, GrandTotal;
  }

  /** One applied transaction keeps the grand total and moves each resonance's planet-wide total by exactly the declared
      transforms. */
  lemma AppliedConserves(s: LedgerState, tx: Transaction, r: Resonance)
    requires Applies(s, tx)
    ensures GrandTotal(After(s, tx).accounts) == GrandTotal(s.accounts)
    ensures BandTotal(After(s, tx).accounts, r) == BandTotal(s.accounts, r) + TransformNet(tx.transforms, r)
  {
    hide *;
    AppliedParts(s, tx);
    MovedTotals(s.accounts, tx, r);
    SettleLaw(Moved(s.accounts, tx).value, Touched(tx), Deep, r);
    BalancedTotals(tx, r);
  }

  const Root: Resonance := Resonance("base:root")
  const Tide: Resonance := Resonance("base:tide")

  function TwiceDebited(): Transaction {
    Transaction(TransactionId(7, 1), [AccountRead(Deep, 1), AccountRead(Geography, 0)],
                [ArcaneMove(Deep, Single(Root, 6), None), ArcaneMove(Deep, Single(Root, 6), None)],
                [ArcaneMove(Geography, Single(Root, 12), None)],
                [], System, "transfer", "base:transfer", [])
  }

  function TenInDeep(): LedgerState {
    LedgerState(10, {Root}, map[Deep := Account(Single(Root, 10), 1, None)], 0, map[], map[], [], 0, 10, [])
  }

  lemma TwiceDebitedMixtures()
    ensures Mixture(TwiceDebited().debits) == Single(Root, 12) == Owned(TwiceDebited().debits, Deep)
    ensures Mixture(TwiceDebited().credits) == Single(Root, 12)
  {
    hide Plus, Put, Single;
    var half := ArcaneMove(Deep, Single(Root, 6), None);
    assert TwiceDebited().debits == [half] + [half];
    assert [half] == [] + [half];
    OwnedSnoc([half], half, Deep);
    OwnedSnoc([], half, Deep);
    SameUnits(Plus(Empty, Single(Root, 6)), Single(Root, 6));
    SameUnits(Plus(Single(Root, 6), Single(Root, 6)), Single(Root, 12));
    var into := ArcaneMove(Geography, Single(Root, 12), None);
    assert TwiceDebited().credits == [] + [into];
    OwnedSnoc([], into, Deep);
    SameUnits(Plus(Empty, Single(Root, 12)), Single(Root, 12));
  }

  lemma TwiceDebitedReads()
    ensures Touched(TwiceDebited()) == {Deep, Geography}
    ensures ReadsNameTouched(TwiceDebited()) && ReadsCurrent(TenInDeep(), TwiceDebited())
  {
    hide Single;
    var tx := TwiceDebited();
    assert tx.debits[0].owner == Deep && tx.credits[0].owner == Geography;
    assert tx.readSet[0].owner == Deep && tx.readSet[1].owner == Geography;
  }

  lemma TwiceDebitedMoves()
    ensures forall m | m in TwiceDebited().debits :: DebitAvailable(TenInDeep(), m)
    ensures forall m | m in TwiceDebited().credits :: CreditAllowed(TenInDeep(), TwiceDebited(), m)
    ensures Balanced(TwiceDebited()) && Registered(TenInDeep(), TwiceDebited())
    ensures Fits(TenInDeep())
  {
    hide Plus, Put, Total, Owned, Mixture;
    TwiceDebitedMixtures();
    TotalSingle(Root, 6);
    TotalSingle(Root, 10);
    TotalSingle(Root, 12);
    var s := TenInDeep();
    SumMapPick(s.accounts, AccountWeight(), Deep);
    assert s.accounts - {Deep} == map[];
  }

  /** A transaction that names one owner in two debits can pass validation and still fail to apply: each debit is
      affordable alone, the two together are not. */
  lemma TwiceDebitedPassesValidation()
    ensures var s, tx := TenInDeep(), TwiceDebited();
            && Fits(s) && Accepts(s, tx) && VersionsBelowMaximum(s.accounts, Touched(tx))
            && !Applies(s, tx)
  {
    hide Plus, Put, Total, Owned, Mixture, ReadsNameTouched, ReadsCurrent, Blank, Touched, DebitAll, CreditAll;
    var s, tx := TenInDeep(), TwiceDebited();
    TwiceDebitedAccepted();
    assert tx.debits[0] in tx.debits && tx.debits[0].owner == Deep;
    assert !Covered(s.accounts, tx.debits) by {
      TwiceDebitedMixtures();
      assert UnitsOf(Single(Root, 12), Root) == 12 && UnitsOf(Single(Root, 10), Root) == 10;
    }
    AppliesIff(s, tx);
  }

  lemma TwiceDebitedForm()
    ensures var s, tx := TenInDeep(), TwiceDebited();
            && SequenceContinues(s, tx.id) && OriginFits(s, tx.id)
            && !Blank(tx.reason) && !Blank(tx.contentId)
            && LinkedWellFormed(tx)
            && (forall o :: MayTouch(s, tx, o))
            && VersionOf(s.accounts, Deep) == 1 && VersionOf(s.accounts, Geography) == 0
  {
    assert 't' in TwiceDebited().reason && 'b' in TwiceDebited().contentId;
  }

  lemma TwiceDebitedAccepted()
    ensures var s, tx := TenInDeep(), TwiceDebited();
            Fits(s) && Accepts(s, tx) && VersionsBelowMaximum(s.accounts, Touched(tx))
  {
    hide *;
    var s, tx := TenInDeep(), TwiceDebited();
    TwiceDebitedForm();
    TwiceDebitedReads();
    TwiceDebitedMoves();
    assert |Touched(tx)| == |{Deep, Geography}| == 2;
    AcceptsFrom(s, tx);
  }

  lemma AcceptsFrom(s: LedgerState, tx: Transaction)
    requires SequenceContinues(s, tx.id) && OriginFits(s, tx.id) && !Blank(tx.reason) && !Blank(tx.contentId)
    requires |Touched(tx)| == 2 && ReadsNameTouched(tx) && ReadsCurrent(s, tx)
    requires forall o :: MayTouch(s, tx, o)
    requires forall m | m in tx.debits :: DebitAvailable(s, m)
    requires forall m | m in tx.credits :: CreditAllowed(s, tx, m)
    requires Balanced(tx) && Registered(s, tx) && LinkedWellFormed(tx)
    requires forall o | o in Touched(tx) :: VersionOf(s.accounts, o) <= 1
    ensures Accepts(s, tx) && VersionsBelowMaximum(s.accounts, Touched(tx))
  {
    hide Touched, SequenceContinues, OriginFits, Blank, ReadsNameTouched, ReadsCurrent, MayTouch, DebitAvailable,
         CreditAllowed, Balanced, Registered, LinkedWellFormed, VersionOf;
  }
}
