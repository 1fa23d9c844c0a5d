/** What validation protects: whose accounts a transaction may lower, stale reads, and the identity of an account. */
module Permissions {
  import opened Prelude
  import opened CurrentUnits
  import opened LedgerModel
  import opened LedgerLaws
  import opened LedgerRuns

  lemma EffectiveParts(s: LedgerState, tx: Transaction)
    requires TakesEffect(s, tx)
    ensures Applies(s, tx) && Authorized(s, tx) && ReadsNameTouched(tx) && ReadsCurrent(s, tx)
    ensures 1 <= |Touched(tx)| <= MAX_TRANSACTION_ACCOUNTS && OriginFits(s, tx.id)
    ensures LinkedWellFormed(tx) && !Blank(tx.reason) && !Blank(tx.contentId)
    ensures forall m | m in tx.credits :: CreditAllowed(s, tx, m)
    ensures exists o :: o in Touched(tx)
  {
    hide Moved, VersionsBelowMaximum, Authorized, ReadsNameTouched, ReadsCurrent, CreditAllowed, DebitAvailable,
         Balanced, Registered, OriginFits, SequenceContinues, LinkedWellFormed, Blank, Duplicate, Touched;
    assert Touched(tx) != {};
  }

  /** Whatever takes effect is signed and sized: a reason and a content that are not blank, one to 128 owners, and at
      most 16 linked mutations that each name a subsystem and an operation and change something. */
  lemma EffectiveIsNamed(s: LedgerState, tx: Transaction)
    requires TakesEffect(s, tx)
    ensures (exists c | c in tx.reason :: !WhiteSpace(c)) && (exists c | c in tx.contentId :: !WhiteSpace(c))
    ensures 1 <= |(set m | m in tx.debits + tx.credits :: m.owner)| <= MAX_TRANSACTION_ACCOUNTS
    ensures |tx.linked| <= MAX_LINKED_MUTATIONS
    ensures forall l | l in tx.linked ::
              l.subsystem != "" && l.operationId != 0 && l.beforeChecksum != l.afterChecksum
  {
    EffectiveParts(s, tx);
    TouchedAre(tx);
    hide TakesEffect, WhiteSpace;
  }

  lemma TouchedAre(tx: Transaction)
    ensures Touched(tx) == set m | m in tx.debits + tx.credits :: m.owner
  {
  }

  // ----- authority -----

  /** An owner that is not debited loses nothing. */
  lemma NotDebited(s: LedgerState, tx: Transaction, o: Owner)
    requires Applies(s, tx) && o !in Owners(tx.debits)
    ensures Covers(CurrentOf(After(s, tx).accounts, o), CurrentOf(s.accounts, o))
  {
    hide Applies, After, Plus;
    AppliedBalances(s, tx, o);
    OwnedAbsent(tx.debits, o);
    var now, was := CurrentOf(After(s, tx).accounts, o), CurrentOf(s.accounts, o);
    forall r ensures UnitsOf(was, r) <= UnitsOf(now, r) {
      assert UnitsOf(Plus(now, Empty), r) == UnitsOf(Plus(was, Owned(tx.credits, o)), r);
    }
    assert forall r :: UnitsOf(was, r) <= UnitsOf(now, r);
  }

  /** A player's transaction lowers no account but that player's own. */
  lemma PlayerSparesOthers(s: LedgerState, tx: Transaction, player: nat, o: Owner)
    requires TakesEffect(s, tx) && tx.authority == PlayerAuthority(player) && o != Player(player)
    ensures Covers(CurrentOf(After(s, tx).accounts, o), CurrentOf(s.accounts, o))
  {
    EffectiveParts(s, tx);
    assert o in Owners(tx.debits) ==> o in Touched(tx) && MayTouch(s, tx, o);
    assert o !in Owners(tx.debits);
    hide *;
    NotDebited(s, tx, o);
  }

  /** A mod's transaction changes only working accounts that are new or carry its own identity. */
  lemma ModSparesOthers(s: LedgerState, tx: Transaction, modId: string, o: Owner)
    requires TakesEffect(s, tx) && tx.authority == ModAuthority(modId)
    requires Applies(s, tx) && (o in s.accounts || o in After(s, tx).accounts)
    requires o in s.accounts && o in After(s, tx).accounts ==> s.accounts[o] != After(s, tx).accounts[o]
    ensures o.Working? && (o !in s.accounts || s.accounts[o].contentId == Some("mod:" + modId))
    ensures exists c | c in modId :: !WhiteSpace(c)
  {
    hide *;
    EffectiveParts(s, tx);
    if o in Touched(tx) {
      ModMayTouch(s, tx, modId, o);
    } else {
      AppliedBalances(s, tx, o);
    }
  }

  lemma ModMayTouch(s: LedgerState, tx: Transaction, modId: string, o: Owner)
    requires Authorized(s, tx) && o in Touched(tx) && tx.authority == ModAuthority(modId)
    ensures o.Working? && (o !in s.accounts || s.accounts[o].contentId == Some("mod:" + modId))
    ensures exists c | c in modId :: !WhiteSpace(c)
  {
    assert MayTouch(s, tx, o);
    hide Touched, WhiteSpace, Authorized;
  }

  /** An operator's transaction takes effect only in development and under a name. */
  lemma OperatorNeedsDevelopment(s: LedgerState, tx: Transaction, actor: string, development: bool)
    requires TakesEffect(s, tx) && tx.authority == Operator(actor, development)
    ensures development && exists c | c in actor :: !WhiteSpace(c)
  {
    EffectiveParts(s, tx);
    var o :| o in Touched(tx);
    assert MayTouch(s, tx, o);
  }

  /** Everything of the run that takes effect was submitted by other players. */
  predicate OthersOnly(ops: seq<LedgerOp>, player: nat) {
    forall i | 0 <= i < |ops| ::
      ops[i].Transact? && ops[i].tx.authority.PlayerAuthority? && ops[i].tx.authority.player != player
  }

  lemma CoversChain(a: Current, b: Current, c: Current)
    requires Covers(a, b) && Covers(b, c)
    ensures Covers(a, c)
  {
    forall r ensures UnitsOf(c, r) <= UnitsOf(a, r) {
      assert UnitsOf(c, r) <= UnitsOf(b, r) <= UnitsOf(a, r);
    }
  }

  /** Whatever the other players submit, a player's account never loses a unit. */
  lemma {:induction false} RunSparesPlayer(s: LedgerState, ops: seq<LedgerOp>, player: nat)
    requires Run(s, ops).Some? && OthersOnly(ops, player)
    ensures Covers(CurrentOf(Run(s, ops).value.accounts, Player(player)), CurrentOf(s.accounts, Player(player)))
  {
    hide TakesEffect, After, Applies;
    if ops != [] {
      var front, op := ops[..|ops| - 1], ops[|ops| - 1];
      RunSparesPlayer(s, front, player);
      var t := Run(s, front).value;
      if TakesEffect(t, op.tx) {
        PlayerSparesOthers(t, op.tx, op.tx.authority.player, Player(player));
        EffectiveParts(t, op.tx);
        CoversChain(CurrentOf(After(t, op.tx).accounts, Player(player)), CurrentOf(t.accounts, Player(player)),
                    CurrentOf(s.accounts, Player(player)));
      }
    }
  }

  // ----- stale reads -----

  /** A transaction that takes effect has read every account it moves at its present version. */
  lemma ReadsArePresent(s: LedgerState, tx: Transaction, m: ArcaneMove)
    requires TakesEffect(s, tx) && (m in tx.debits || m in tx.credits)
    ensures exists i :: 0 <= i < |tx.readSet| && tx.readSet[i].owner == m.owner
              && tx.readSet[i].expectedVersion == if m.owner in s.accounts then s.accounts[m.owner].version else 0
  {
    EffectiveParts(s, tx);
    assert m.owner in Touched(tx);
    hide TakesEffect, Applies, Touched, Authorized;
    var i :| 0 <= i < |tx.readSet| && tx.readSet[i].owner == m.owner;
  }

  /** Two transactions that have read one account at the same version do not both take effect, one after the other,
      unless the first has closed an account that was never settled before. */
  lemma SecondReaderFails(s: LedgerState, first: Transaction, second: Transaction, a: ArcaneMove, b: ArcaneMove,
                          read: AccountRead)
    requires TakesEffect(s, first) && Applies(s, first)
    requires (a in first.debits || a in first.credits) && (b in second.debits || b in second.credits)
    requires a.owner == b.owner == read.owner && read in first.readSet && read in second.readSet
    requires read.owner in After(s, first).accounts || 0 < read.expectedVersion
    ensures !TakesEffect(After(s, first), second)
  {
    hide *;
    TouchedMoves(first, a);
    AppliedBalances(s, first, read.owner);
    ReadAtVersion(s, first, a, read);
    ReadAtVersion(After(s, first), second, b, read);
    Versions(s, After(s, first), read.owner);
  }

  lemma TouchedMoves(tx: Transaction, m: ArcaneMove)
    requires m in tx.debits || m in tx.credits
    ensures m.owner in Touched(tx)
  {
  }

  lemma Versions(s: LedgerState, t: LedgerState, o: Owner)
    ensures VersionOf(s.accounts, o) == if o in s.accounts then s.accounts[o].version else 0
    ensures VersionOf(t.accounts, o) == if o in t.accounts then t.accounts[o].version else 0
  {
  }

  lemma ReadAtVersion(s: LedgerState, tx: Transaction, m: ArcaneMove, read: AccountRead)
    requires (m in tx.debits || m in tx.credits) && read in tx.readSet && read.owner == m.owner
    ensures TakesEffect(s, tx) ==>
              read.expectedVersion == if m.owner in s.accounts then s.accounts[m.owner].version else 0
  {
    if TakesEffect(s, tx) {
      EffectiveParts(s, tx);
      ReadsArePresent(s, tx, m);
      ReadOnce(tx, read);
    }
    hide TakesEffect, Applies, Touched, Authorized, ReadsNameTouched, ReadsCurrent;
  }

  lemma ReadOnce(tx: Transaction, read: AccountRead)
    requires ReadsNameTouched(tx) && read in tx.readSet
    ensures forall i | 0 <= i < |tx.readSet| && tx.readSet[i].owner == read.owner :: tx.readSet[i] == read
  {
    var k :| 0 <= k < |tx.readSet| && tx.readSet[k] == read;
  }

  // ----- the identity of an account -----

  /** The first identity that the movements of an owner name. */
  function FirstName(ms: seq<ArcaneMove>, o: Owner): Option<string> {
    if ms == [] then None
    else
      var front, m := FirstName(ms[..|ms| - 1], o), ms[|ms| - 1];
      if front.Some? then front else if m.owner == o then m.contentId else None
  }

  lemma {:induction false} CreditAllNames(a: Accounts, ms: seq<ArcaneMove>, o: Owner)
    requires CreditAll(a, ms).Some? && forall m | m in ms :: m.current != Empty
    ensures o in Owners(ms) ==>
              var b := CreditAll(a, ms).value;
              && o in b && b[o].current != Empty
              && b[o].contentId
                 == if o in a && a[o].current != Empty && a[o].contentId.Some? then a[o].contentId else FirstName(ms, o)
    ensures o !in Owners(ms) ==> FirstName(ms, o) == None
  {
    hide Plus, Total;
    if ms != [] {
      var front, m := ms[..|ms| - 1], ms[|ms| - 1];
      CreditAllNames(a, front, o);
      assert Owners(ms) == Owners(front) + {m.owner} by { assert ms == front + [m]; }
      var b := CreditAll(a, front).value;
      CreditAllBalances(a, front, o);
      assert m in ms;
      PlusNotEmpty(Opened(b, m).current, m.current);
    }
  }

  lemma PlusNotEmpty(a: Current, b: Current)
    requires b != Empty
    ensures Plus(a, b) != Empty
  {
    TotalPlus(a, b);
    EmptyIffZero(b);
    EmptyIffZero(Plus(a, b));
    hide Plus, Total;
  }

  lemma SettledName(a: Accounts, touched: set<Owner>, o: Owner)
    ensures o in Settle(a, touched) ==> o in a && Settle(a, touched)[o].contentId == a[o].contentId
  {
  }

  /** Who an account belongs to after a transaction: what it was, while some of its old units are left under that name
      or nothing was credited; otherwise the first identity its credits name. */
  lemma IdentityLaw(s: LedgerState, tx: Transaction, o: Owner)
    requires TakesEffect(s, tx) && Applies(s, tx) && o in After(s, tx).accounts
    ensures var now := After(s, tx).accounts[o].contentId;
            if o !in Owners(tx.credits) then o in s.accounts && now == s.accounts[o].contentId
            else if o in s.accounts && s.accounts[o].contentId.Some? && Owned(tx.debits, o) != s.accounts[o].current
            then now == s.accounts[o].contentId
            else now == FirstName(tx.credits, o)
  {
    EffectiveParts(s, tx);
    assert forall m | m in tx.credits :: m.current != Empty by {
      hide Applies, TakesEffect, Owned, Total;
      forall m | m in tx.credits ensures m.current != Empty {
        assert CreditAllowed(s, tx, m);
      }
    }
    AppliedParts(s, tx);
    var b := DebitAll(s.accounts, tx.debits).value;
    DebitAllIff(s.accounts, tx.debits);
    CreditAllNames(b, tx.credits, o);
    CreditAllBalances(b, tx.credits, o);
    SettledName(Moved(s.accounts, tx).value, Touched(tx), o);
    if o in s.accounts {
      EmptiedIff(b[o].current, Owned(tx.debits, o), s.accounts[o].current);
    }
    hide Applies, TakesEffect, DebitAll, CreditAll, Settle, Touched, Owned, Plus, FirstName, Covered, CreditAllowed,
    After;
  }

  lemma EmptiedIff(left: Current, paid: Current, was: Current)
    requires Plus(left, paid) == was
    ensures left == Empty <==> paid == was
  {
    TotalPlus(left, paid);
    EmptyIffZero(left);
    if left == Empty {
      SameUnits(Plus(Empty, paid), paid);
    }
    hide Total;
  }

  /** Another identity is credited only to an account that is debited in full. */
  lemma NameClashNeedsFullDebit(s: LedgerState, tx: Transaction, m: ArcaneMove, name: string)
    requires TakesEffect(s, tx) && m in tx.credits && m.contentId == Some(name)
    requires m.owner in s.accounts && s.accounts[m.owner].contentId != Some(name)
    ensures Owned(tx.debits, m.owner) == s.accounts[m.owner].current
  {
    EffectiveParts(s, tx);
    assert CreditAllowed(s, tx, m);
  }

  // ----- a payment goes through -----

  function Payment(s: LedgerState, authority: Authority, from: Owner, to: Owner, c: Current, origin: nat): Transaction {
    Transaction(TransactionId(origin, HighWater(s, origin) + 1),
                [AccountRead(from, VersionOf(s.accounts, from)), AccountRead(to, VersionOf(s.accounts, to))],
                [ArcaneMove(from, c, None)], [ArcaneMove(to, c, None)], [], authority, "transfer", "base:transfer", [])
  }

  /** An authority that may take Current out of `from` and give it to anyone. */
  predicate MayPay(authority: Authority, from: Owner) {
    || authority.System? || authority.SystemForPlayer?
    || (authority.PlayerAuthority? && from == Player(authority.player))
    || (authority.Operator? && authority.development && exists c | c in authority.actor :: !WhiteSpace(c))
  }

  /** A plain payment by anyone entitled to it takes effect and arrives in full. */
  lemma PaymentTakesEffect(s: LedgerState, authority: Authority, from: Owner, to: Owner, c: Current, origin: nat)
    requires Fits(s) && MayPay(authority, from) && from != to && s.lastDeltaSeq < U64_MAX
    requires from in s.accounts && Covers(s.accounts[from].current, c) && c != Empty && c.parts.Keys <= s.registry
    requires VersionOf(s.accounts, from) < U64_MAX && VersionOf(s.accounts, to) < U64_MAX
    requires HighWater(s, origin) < U64_MAX && (origin in s.highWater || |s.highWater| < MAX_TRANSACTION_HISTORY)
    ensures var tx := Payment(s, authority, from, to, c, origin);
            && TakesEffect(s, tx) && Applies(s, tx)
            && Plus(CurrentOf(After(s, tx).accounts, from), c) == CurrentOf(s.accounts, from)
            && CurrentOf(After(s, tx).accounts, to) == Plus(CurrentOf(s.accounts, to), c)
  {
    hide *;
    var tx := Payment(s, authority, from, to, c, origin);
    PaymentForm(s, authority, from, to, c, origin);
    PaymentMoves(s, authority, from, to, c, origin);
    PaymentAccepted(s, tx, from, to);
    PaymentCovered(s, tx, from, to, c);
    AppliesIff(s, tx);
    Effective(s, tx);
    AppliedBalances(s, tx, from);
    AppliedBalances(s, tx, to);
    PlusEmpty(CurrentOf(s.accounts, from));
    PlusEmpty(CurrentOf(After(s, tx).accounts, to));
  }

  lemma PlusEmpty(c: Current)
    ensures Plus(c, Empty) == c
  {
    SameUnits(Plus(c, Empty), c);
  }

  lemma Effective(s: LedgerState, tx: Transaction)
    requires Applies(s, tx) && s.lastDeltaSeq < U64_MAX && !Duplicate(s, tx.id)
    ensures TakesEffect(s, tx)
  {
    hide Applies, Duplicate;
  }

  lemma PaymentForm(s: LedgerState, authority: Authority, from: Owner, to: Owner, c: Current, origin: nat)
    requires MayPay(authority, from) && from != to
    requires HighWater(s, origin) < U64_MAX && (origin in s.highWater || |s.highWater| < MAX_TRANSACTION_HISTORY)
    ensures var tx := Payment(s, authority, from, to, c, origin);
            && SequenceContinues(s, tx.id) && OriginFits(s, tx.id) && !Duplicate(s, tx.id)
            && !Blank(tx.reason) && !Blank(tx.contentId) && LinkedWellFormed(tx)
            && Touched(tx) == {from, to} && Owners(tx.debits) == {from}
            && ReadsNameTouched(tx) && ReadsCurrent(s, tx)
            && MayTouch(s, tx, from) && MayTouch(s, tx, to)
  {
    PaymentReads(s, authority, from, to, c, origin);
    var tx := Payment(s, authority, from, to, c, origin);
    assert 't' in tx.reason && 'b' in tx.contentId;
    hide VersionOf, ReadsNameTouched, ReadsCurrent, Touched, Owners, Covers;
  }

  lemma PaymentReads(s: LedgerState, authority: Authority, from: Owner, to: Owner, c: Current, origin: nat)
    requires from != to
    ensures var tx := Payment(s, authority, from, to, c, origin);
            && Touched(tx) == {from, to} && Owners(tx.debits) == {from}
            && ReadsNameTouched(tx) && ReadsCurrent(s, tx)
  {
    var tx := Payment(s, authority, from, to, c, origin);
    assert tx.debits[0].owner == from && tx.credits[0].owner == to;
    assert tx.readSet[0].owner == from && tx.readSet[1].owner == to;
    assert |{from, to}| == 2;
    hide VersionOf;
  }

  lemma PaymentMoves(s: LedgerState, authority: Authority, from: Owner, to: Owner, c: Current, origin: nat)
    requires Fits(s) && from in s.accounts && Covers(s.accounts[from].current, c) && c != Empty && from != to
    requires c.parts.Keys <= s.registry
    ensures var tx := Payment(s, authority, from, to, c, origin);
            && Mixture(tx.debits) == Mixture(tx.credits) == Owned(tx.debits, from) == Owned(tx.credits, to) == c
            && Owned(tx.debits, to) == Owned(tx.credits, from) == Empty
            && Balanced(tx) && Registered(s, tx)
            && (forall m | m in tx.debits :: DebitAvailable(s, m))
            && (forall m | m in tx.credits :: CreditAllowed(s, tx, m))
  {
    var tx := Payment(s, authority, from, to, c, origin);
    hide Payment, Total, Plus, GrandTotal;
    assert tx.debits == [] + [ArcaneMove(from, c, None)] && tx.credits == [] + [ArcaneMove(to, c, None)]
           && tx.transforms
              == [] by { assert tx == Payment(s, authority, from, to, c, origin);
                        PaymentParts(s, authority, from, to, c, origin); }
    OwnedSnoc([], ArcaneMove(from, c, None), from);
    OwnedSnoc([], ArcaneMove(from, c, None), to);
    OwnedSnoc([], ArcaneMove(to, c, None), from);
    OwnedSnoc([], ArcaneMove(to, c, None), to);
    EmptyPlus(c);
    WithinAccount(s, from, c);
    hide Mixture, Owned, Covers;
  }

  lemma PaymentParts(s: LedgerState, authority: Authority, from: Owner, to: Owner, c: Current, origin: nat)
    ensures var tx := Payment(s, authority, from, to, c, origin);
            && tx.debits == [ArcaneMove(from, c, None)] && tx.credits == [ArcaneMove(to, c, None)]
            && tx.transforms == []
  {
  }

  lemma EmptyPlus(c: Current)
    ensures Plus(Empty, c) == c
  {
    SameUnits(Plus(Empty, c), c);
  }

  lemma WithinAccount(s: LedgerState, from: Owner, c: Current)
    requires Fits(s) && from in s.accounts && Covers(s.accounts[from].current, c)
    ensures Total(c) <= U64_MAX
  {
    var held := s.accounts[from].current;
    SameUnits(Plus(Minus(held, c), c), held);
    TotalPlus(Minus(held, c), c);
    SumMapPick(s.accounts, AccountWeight(), from);
    hide Total, Minus, Plus;
  }

  lemma PaymentAccepted(s: LedgerState, tx: Transaction, from: Owner, to: Owner)
    requires SequenceContinues(s, tx.id) && OriginFits(s, tx.id) && !Blank(tx.reason) && !Blank(tx.contentId)
    requires LinkedWellFormed(tx) && Touched(tx) == {from, to} && from != to
    requires ReadsNameTouched(tx) && ReadsCurrent(s, tx) && MayTouch(s, tx, from) && MayTouch(s, tx, to)
    requires forall m | m in tx.debits :: DebitAvailable(s, m)
    requires forall m | m in tx.credits :: CreditAllowed(s, tx, m)
    requires Balanced(tx) && Registered(s, tx)
    requires VersionOf(s.accounts, from) < U64_MAX && VersionOf(s.accounts, to) < U64_MAX
    ensures Accepts(s, tx) && VersionsBelowMaximum(s.accounts, Touched(tx))
  {
    hide *;
    PairSize(from, to);
    PairAuthorized(s, tx, from, to);
    AcceptsOf(s, tx);
  }

  lemma PairSize(from: Owner, to: Owner)
    requires from != to
    ensures |{from, to}| == 2
  {
  }

  lemma PairAuthorized(s: LedgerState, tx: Transaction, from: Owner, to: Owner)
    requires Touched(tx) == {from, to} && MayTouch(s, tx, from) && MayTouch(s, tx, to)
    requires VersionOf(s.accounts, from) < U64_MAX && VersionOf(s.accounts, to) < U64_MAX
    ensures Authorized(s, tx) && VersionsBelowMaximum(s.accounts, Touched(tx))
  {
    hide MayTouch, Touched, VersionOf;
  }

  lemma AcceptsOf(s: LedgerState, tx: Transaction)
    requires SequenceContinues(s, tx.id) && OriginFits(s, tx.id) && !Blank(tx.reason) && !Blank(tx.contentId)
    requires |Touched(tx)| == 2 && ReadsNameTouched(tx) && ReadsCurrent(s, tx) && Authorized(s, tx)
    requires forall m | m in tx.debits :: DebitAvailable(s, m)
    requires forall m | m in tx.credits :: CreditAllowed(s, tx, m)
    requires Balanced(tx) && Registered(s, tx) && LinkedWellFormed(tx)
    ensures Accepts(s, tx)
  {
    hide Touched, SequenceContinues, OriginFits, Blank, ReadsNameTouched, ReadsCurrent, Authorized, DebitAvailable,
         CreditAllowed, Balanced, Registered, LinkedWellFormed;
  }

  lemma PaymentCovered(s: LedgerState, tx: Transaction, from: Owner, to: Owner, c: Current)
    requires from in s.accounts && Covers(s.accounts[from].current, c) && Owned(tx.debits, from) == c
    requires Owners(tx.debits) == {from}
    ensures Covered(s.accounts, tx.debits)
  {
    forall m | m in tx.debits ensures m.owner == from {
      assert m.owner in Owners(tx.debits);
    }
    hide Owned, Covers;
  }
}
