/** Which ledgers may stand in a snapshot: what every call leaves of the accounts a reader insists on. */
module Snapshots {
  import opened Prelude
  import opened CurrentUnits
  import opened LedgerModel
  import opened LedgerLaws
  import opened LedgerRuns

  lemma {:induction false} OwnedWithin(ms: seq<ArcaneMove>, o: Owner, r: Resonance)
    ensures UnitsOf(Owned(ms, o), r) <= UnitsOf(Mixture(ms), r)
  {
    if ms != [] {
      OwnedWithin(ms[..|ms| - 1], o, r);
    }
  }

  lemma AccountWithin(a: Accounts, o: Owner)
    requires o in a
    ensures Total(a[o].current) <= GrandTotal(a)
  {
    SumMapPick(a, AccountWeight(), o);
    hide Total;
  }

  lemma RegisteredMixture(s: LedgerState, tx: Transaction)
    requires Applies(s, tx)
    ensures forall r | r !in s.registry :: UnitsOf(Mixture(tx.credits), r) == 0
  {
    assert Registered(s, tx) by {
      hide Moved, VersionsBelowMaximum, ReadsNameTouched, ReadsCurrent, Authorized, DebitAvailable, CreditAllowed,
           Balanced, Registered, OriginFits, SequenceContinues, LinkedWellFormed, Blank;
    }
    hide Applies, Mixture;
  }

  /** An applied transaction never leaves an empty, oversized or unregistered account behind. */
  lemma AppliedKeepsAccounts(s: LedgerState, tx: Transaction)
    requires Applies(s, tx) && Fits(s) && AccountsSound(s)
    ensures AccountsSound(After(s, tx))
  {
    var t := After(s, tx);
    AppliedParts(s, tx);
    AppliedConserves(s, tx, Root);
    RegisteredMixture(s, tx);
    assert GrandTotal(t.accounts) <= U64_MAX;
    forall o | o in t.accounts ensures AccountSound(t.registry, t.accounts[o]) {
      AppliedBalances(s, tx, o);
      AccountWithin(t.accounts, o);
      AccountStaysSound(s, tx, t, o);
    }
    hide *;
    AllSound(t);
  }

  lemma AllSound(t: LedgerState)
    requires forall o | o in t.accounts :: AccountSound(t.registry, t.accounts[o])
    ensures AccountsSound(t)
  {
    hide AccountSound;
  }

  lemma AccountStaysSound(s: LedgerState, tx: Transaction, t: LedgerState, o: Owner)
    requires AccountsSound(s) && o in t.accounts && t.registry == s.registry
    requires Total(t.accounts[o].current) <= U64_MAX
    requires o !in Touched(tx) ==> o in s.accounts && t.accounts[o] == s.accounts[o]
    requires o in Touched(tx) ==> t.accounts[o].current != Empty
    requires forall r | r !in s.registry :: UnitsOf(Mixture(tx.credits), r) == 0
    requires Plus(CurrentOf(t.accounts, o), Owned(tx.debits, o)) == Plus(CurrentOf(s.accounts, o), Owned(tx.credits, o))
    ensures AccountSound(t.registry, t.accounts[o])
  {
    if o in s.accounts {
      assert AccountSound(s.registry, s.accounts[o]);
    }
    hide Total, Touched, Owned, Mixture, AccountsSound, Plus;
    var now, old' := CurrentOf(t.accounts, o), CurrentOf(s.accounts, o);
    var paid, got := Owned(tx.debits, o), Owned(tx.credits, o);
    forall r | r in now.parts ensures r in s.registry {
      OwnedWithin(tx.credits, o, r);
      assert UnitsOf(Plus(now, paid), r) == UnitsOf(now, r) + UnitsOf(paid, r);
      assert UnitsOf(Plus(old', got), r) == UnitsOf(old', r) + UnitsOf(got, r);
      assert UnitsOf(now, r) > 0;
    }
  }

  /** The adjustment takes everything Deep holds. */
  ghost predicate Drains(s: LedgerState, op: LedgerOp)
    requires op.AdjustDeep?
  {
    Deep in s.accounts && Total(s.accounts[Deep].current) + op.delta == 0
  }

  /** An allowed adjustment keeps the accounts sound exactly when it leaves something in Deep. */
  lemma AdjustKeepsAccountsIff(s: LedgerState, op: LedgerOp)
    requires op.AdjustDeep? && AdjustAllowed(s, op) && AccountsSound(s)
    ensures AccountsSound(Adjusted(s, op)) <==> !Drains(s, op)
  {
    AdjustedDeep(s, op);
    var t := Adjusted(s, op);
    EmptyIffZero(t.accounts[Deep].current);
    hide AdjustAllowed, Adjusted, Total;
    forall o | o in t.accounts && o != Deep ensures AccountSound(t.registry, t.accounts[o]) {
      assert AccountSound(s.registry, s.accounts[o]);
    }
    hide AccountSound;
  }

  lemma AdjustedDeep(s: LedgerState, op: LedgerOp)
    requires op.AdjustDeep? && AdjustAllowed(s, op) && AccountsSound(s)
    ensures var t := Adjusted(s, op);
            && Deep in s.accounts && t.registry == s.registry && t.accounts.Keys == s.accounts.Keys
            && (forall o | o in s.accounts && o != Deep :: t.accounts[o] == s.accounts[o])
            && Total(t.accounts[Deep].current) == Total(s.accounts[Deep].current) + op.delta
            && (AccountSound(t.registry, t.accounts[Deep]) <==> t.accounts[Deep].current != Empty)
  {
    hide *;
    AllowedDeep(s, op);
    AdjustedIs(s, op);
    SoundAt(s, Deep);
    var deep := s.accounts[Deep];
    var units := UnitsOf(deep.current, op.resonance) + op.delta;
    TotalPut(deep.current, op.resonance, units);
    DeepStaysSound(s.registry, deep, Adjusted(s, op).accounts[Deep], op.resonance, units);
  }

  lemma SoundAt(s: LedgerState, o: Owner)
    requires AccountsSound(s) && o in s.accounts
    ensures AccountSound(s.registry, s.accounts[o]) && Total(s.accounts[o].current) <= U64_MAX
  {
    hide Total;
  }

  lemma AllowedDeep(s: LedgerState, op: LedgerOp)
    requires op.AdjustDeep? && AdjustAllowed(s, op)
    ensures Deep in s.accounts && op.resonance in s.registry
    ensures 0 <= UnitsOf(s.accounts[Deep].current, op.resonance) + op.delta
    ensures 0 < op.delta ==> Total(s.accounts[Deep].current) + op.delta <= U64_MAX
  {
    hide Total, GrandTotal, Blank, UnitsOf;
  }

  lemma AdjustedIs(s: LedgerState, op: LedgerOp)
    requires op.AdjustDeep? && AdjustAllowed(s, op)
    ensures Deep in s.accounts && 0 <= UnitsOf(s.accounts[Deep].current, op.resonance) + op.delta
    ensures var t, deep := Adjusted(s, op), s.accounts[Deep];
            && t.registry == s.registry && t.accounts.Keys == s.accounts.Keys
            && (forall o | o in s.accounts && o != Deep :: t.accounts[o] == s.accounts[o])
            && t.accounts[Deep].current
               == Put(deep.current, op.resonance, UnitsOf(deep.current, op.resonance) + op.delta)
  {
    AllowedDeep(s, op);
    hide AdjustAllowed, GrandTotal, Put, UnitsOf;
  }

  lemma DeepStaysSound(registry: set<Resonance>, deep: Account, next: Account, r: Resonance, units: nat)
    requires AccountSound(registry, deep) && r in registry
    requires next.current == Put(deep.current, r, units) && Total(next.current) <= U64_MAX
    ensures AccountSound(registry, next) <==> next.current != Empty
  {
    assert Put(deep.current, r, units).parts.Keys <= deep.current.parts.Keys + {r};
    hide Put, Total;
  }

  /** A call keeps the accounts sound, unless it is an adjustment that takes the last unit out of Deep. */
  lemma StepKeepsAccountsIff(s: LedgerState, op: LedgerOp)
    requires Fits(s) && AccountsSound(s) && Step(s, op).Some?
    ensures AccountsSound(Step(s, op).value) <==> !(op.AdjustDeep? && Drains(s, op))
  {
    match op
    case Transact(tx) =>
      hide AccountsSound, Applies, After, Fits;
      if TakesEffect(s, tx) {
        AppliedKeepsAccounts(s, tx);
      }
    case AdjustDeep(_, _, _, _) =>
      hide AccountsSound, AdjustAllowed, Adjusted, Fits, Drains;
      AdjustKeepsAccountsIff(s, op);
  }

  /** No adjustment of the run empties Deep. */
  ghost predicate LeavesDeep(s: LedgerState, ops: seq<LedgerOp>) {
    forall i | 0 <= i < |ops| && Run(s, ops[..i]).Some? ::
        !(ops[i].AdjustDeep? && Drains(Run(s, ops[..i]).value, ops[i]))
  }

  /** Over any such run the accounts stay fit for a snapshot. */
  lemma {:induction false} RunKeepsAccounts(s: LedgerState, ops: seq<LedgerOp>)
    requires Sound(s) && AccountsSound(s) && Run(s, ops).Some? && LeavesDeep(s, ops)
    ensures AccountsSound(Run(s, ops).value)
  {
    hide Sound, AccountsSound, Step, Drains;
    if ops != [] {
      var front := ops[..|ops| - 1];
      forall i | 0 <= i < |front| && Run(s, front[..i]).Some?
        ensures !(front[i].AdjustDeep? && Drains(Run(s, front[..i]).value, front[i]))
      {
        assert front[..i] == ops[..i];
      }
      RunKeepsAccounts(s, front);
      RunSound(s, front);
      SoundFits(Run(s, front).value);
      StepKeepsAccountsIff(Run(s, front).value, ops[|ops| - 1]);
    }
  }

  lemma SoundFits(s: LedgerState)
    requires Sound(s)
    ensures Fits(s) && Conserved(s)
  {
    hide Fits, Conserved;
  }

  function LastUnits(): LedgerState {
    LedgerState(5, {Root}, map[Deep := Account(Single(Root, 5), 1, None)], 0, map[], map[], [], 0, 5, [])
  }

  /** An input of that kind: a sound ledger of five units in Deep, all of them taken out. */
  lemma DrainedDeep()
    ensures var s, op := LastUnits(), AdjustDeep("operator", true, Root, -5);
            && Sound(s) && AccountsSound(s) && AdjustAllowed(s, op)
            && Conserved(Adjusted(s, op)) && !AccountsSound(Adjusted(s, op))
  {
    var s, op := LastUnits(), AdjustDeep("operator", true, Root, -5);
    TotalSingle(Root, 5);
    SumMapPick(s.accounts, AccountWeight(), Deep);
    assert s.accounts - {Deep} == map[];
    assert GrandTotal(s.accounts) == 5;
    GenesisSound(5, s.registry, s.accounts);
    assert op.actor[0] == 'o' && op.actor[0] in op.actor && !WhiteSpace('o');
    assert AccountsSound(s) by {
      EmptyIffZero(Single(Root, 5));
      hide GrandTotal, Total;
    }
    assert AdjustAllowed(s, op) by {
      hide GrandTotal, Total;
    }
    hide *;
    AdjustKeepsAccountsIff(s, op);
    AllowedEnds(s, op);
    SoundFits(s);
    FiveDrained(s, op);
  }

  lemma FiveDrained(s: LedgerState, op: LedgerOp)
    requires s == LastUnits() && op == AdjustDeep("operator", true, Root, -5)
    ensures Drains(s, op)
  {
    TotalSingle(Root, 5);
    hide Total;
  }
}
