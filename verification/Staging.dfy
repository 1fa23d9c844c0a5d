/** The staged write set of one transaction, and the sums taken after it is written. */
module Staging {
  import opened Prelude
  import opened CurrentUnits
  import opened LedgerModel
  import opened LedgerLaws

  type Stage = map<Owner, Option<Account>>

  function Lookup(a: Accounts, o: Owner): Option<Account> {
    if o in a then Some(a[o]) else None
  }

  /** The accounts of the touched owners, absent ones included. */
  function Staged(a: Accounts, touched: set<Owner>): Stage {
    map o | o in touched :: Lookup(a, o)
  }

  lemma SameLookup(a: Accounts, b: Accounts)
    requires forall o :: Lookup(a, o) == Lookup(b, o)
    ensures a == b
  {
    forall o ensures o in a <==> o in b {
      assert Lookup(a, o) == Lookup(b, o);
    }
    forall o | o in a ensures a[o] == b[o] {
      assert Lookup(a, o) == Lookup(b, o);
    }
  }

  lemma StagedPut(a: Accounts, touched: set<Owner>, o: Owner, acc: Account)
    requires o in touched
    ensures Staged(a[o := acc], touched) == Staged(a, touched)[o := Some(acc)]
  {
  }

  lemma {:induction false} DebitPrefix(a: Accounts, ms: seq<ArcaneMove>, k: nat)
    requires k <= |ms| && DebitAll(a, ms[..k]).None?
    ensures DebitAll(a, ms).None?
    decreases |ms|
  {
    if k == |ms| {
      assert ms[..k] == ms;
    } else {
      assert ms[..|ms| - 1][..k] == ms[..k];
      DebitPrefix(a, ms[..|ms| - 1], k);
    }
  }

  lemma {:induction false} CreditPrefix(a: Accounts, ms: seq<ArcaneMove>, k: nat)
    requires k <= |ms| && CreditAll(a, ms[..k]).None?
    ensures CreditAll(a, ms).None?
    decreases |ms|
  {
    if k == |ms| {
      assert ms[..k] == ms;
    } else {
      assert ms[..|ms| - 1][..k] == ms[..k];
      CreditPrefix(a, ms[..|ms| - 1], k);
    }
  }

  method StageDebits(a: Accounts, touched: set<Owner>, debits: seq<ArcaneMove>)
    returns (staged: Stage, verdict: Verdict)
    requires Owners(debits) <= touched
    ensures verdict.Pass? <==> DebitAll(a, debits).Some?
    ensures verdict.Pass? ==> staged == Staged(DebitAll(a, debits).value, touched)
  {
    hide Minus, Total;
    staged := map o | o in touched :: Lookup(a, o);
    for i := 0 to |debits|
      invariant DebitAll(a, debits[..i]).Some?
      invariant staged == Staged(DebitAll(a, debits[..i]).value, touched)
    {
      var m := debits[i];
      ghost var b := DebitAll(a, debits[..i]).value;
      assert debits[..i + 1][..i] == debits[..i];
      assert m.owner in Owners(debits);
      if staged[m.owner].None? {
        DebitPrefix(a, debits, i + 1);
        return staged, Fail(MissingAccount);
      }
      var account := staged[m.owner].value;
      var less, covers := CheckedSub(account.current, m.current);
      if covers.Fail? {
        DebitPrefix(a, debits, i + 1);
        return staged, covers;
      }
      StagedPut(b, touched, m.owner, account.(current := less));
      staged := staged[m.owner := Some(account.(current := less))];
    }
    assert debits[..|debits|] == debits;
    verdict := Pass;
  }

  function OpenedEntry(entry: Option<Account>, m: ArcaneMove): Account {
    match entry
    case None => Account(Empty, 0, m.contentId)
    case Some(account) => account
  }

  lemma OpenedLookup(a: Accounts, m: ArcaneMove)
    ensures Opened(a, m) == OpenedEntry(Lookup(a, m.owner), m)
  {
  }

  method CreditOne(entry: Option<Account>, m: ArcaneMove) returns (account: Account, verdict: Verdict)
    ensures verdict
            == if Total(OpenedEntry(entry, m).current) + Total(m.current) <= U64_MAX then Pass else Fail(Overflow)
    ensures verdict.Pass? ==> account == Credited(OpenedEntry(entry, m), m)
  {
    hide Plus, Total;
    account := OpenedEntry(entry, m);
    var replacesIdentity := account.current == Empty;
    var more;
    more, verdict := CheckedAdd(account.current, m.current);
    if verdict.Pass? {
      var contentId := if replacesIdentity || account.contentId.None? then m.contentId else account.contentId;
      account := Account(more, account.version, contentId);
    }
  }

  method StageCredits(ghost b: Accounts, touched: set<Owner>, start: Stage, credits: seq<ArcaneMove>)
    returns (staged: Stage, verdict: Verdict)
    requires Owners(credits) <= touched && start == Staged(b, touched)
    ensures verdict.Pass? <==> CreditAll(b, credits).Some?
    ensures verdict.Pass? ==> staged == Staged(CreditAll(b, credits).value, touched)
  {
    hide Plus, Total, Credited, Opened, OpenedEntry;
    staged := start;
    for i := 0 to |credits|
      invariant CreditAll(b, credits[..i]).Some?
      invariant staged == Staged(CreditAll(b, credits[..i]).value, touched)
    {
      var m := credits[i];
      ghost var c := CreditAll(b, credits[..i]).value;
      assert credits[..i + 1][..i] == credits[..i];
      assert m.owner in Owners(credits);
      OpenedLookup(c, m);
      var account, fits := CreditOne(staged[m.owner], m);
      if fits.Fail? {
        CreditPrefix(b, credits, i + 1);
        return staged, fits;
      }
      StagedPut(c, touched, m.owner, account);
      staged := staged[m.owner := Some(account)];
    }
    assert credits[..|credits|] == credits;
    verdict := Pass;
  }

  lemma SettleLookup(c: Accounts, touched: set<Owner>, o: Owner)
    requires o in touched
    ensures Lookup(Settle(c, touched), o)
            == match Lookup(c, o)
               case None => None
               case Some(account) =>
                 if account.current == Empty then None else Some(account.(version := account.version + 1))
  {
  }

  method AdvanceOne(entry: Option<Account>, version: nat) returns (next: Option<Account>, after: nat, verdict: Verdict)
    requires entry.Some? ==> entry.value.version == version
    ensures verdict == if version < U64_MAX then Pass else Fail(Overflow)
    ensures verdict.Pass? ==> after == version + 1
    ensures verdict.Pass? ==>
              next == if entry.None? || entry.value.current == Empty then None
                      else Some(entry.value.(version := version + 1))
  {
    if version >= U64_MAX {
      return None, 0, Fail(Overflow);
    }
    if entry.None? || entry.value.current == Empty {
      return None, version + 1, Pass;
    }
    return Some(entry.value.(version := entry.value.version + 1)), entry.value.version + 1, Pass;
  }

  /** The owners outside `rest` have been advanced, the others not yet. */
  ghost predicate Advanced(a: Accounts, c: Accounts, touched: set<Owner>, rest: set<Owner>, staged: Stage,
                           versions: map<Owner, nat>)
  {
    && rest <= touched && staged.Keys == touched && versions.Keys == touched - rest
    && (forall o | o in touched :: staged[o] == Lookup(if o in rest then c else Settle(c, touched), o))
    && (forall o | o in touched - rest :: VersionOf(a, o) < U64_MAX && versions[o] == VersionOf(a, o) + 1)
  }

  lemma AdvancedNext(a: Accounts, c: Accounts, touched: set<Owner>, rest: set<Owner>, staged: Stage,
                     versions: map<Owner, nat>, o: Owner)
    requires Advanced(a, c, touched, rest, staged, versions) && o in rest && VersionOf(a, o) < U64_MAX
    ensures Advanced(a, c, touched, rest - {o}, staged[o := Lookup(Settle(c, touched), o)],
                     versions[o := VersionOf(a, o) + 1])
  {
    hide Settle, VersionOf, Lookup;
  }

  lemma AdvancedStart(a: Accounts, c: Accounts, touched: set<Owner>)
    ensures Advanced(a, c, touched, touched, Staged(c, touched), map[])
  {
    hide Settle;
    StagedEntries(c, touched);
  }

  lemma AdvancedEntry(a: Accounts, c: Accounts, touched: set<Owner>, rest: set<Owner>, staged: Stage,
                      versions: map<Owner, nat>, o: Owner)
    requires Advanced(a, c, touched, rest, staged, versions) && o in rest
    ensures o in staged && o in touched && staged[o] == Lookup(c, o)
  {
    hide Settle, Lookup;
  }

  lemma AdvancedAll(a: Accounts, c: Accounts, touched: set<Owner>, staged: Stage, versions: map<Owner, nat>)
    requires Advanced(a, c, touched, {}, staged, versions)
    ensures staged == Staged(Settle(c, touched), touched)
    ensures versions == map o | o in touched :: VersionOf(a, o) + 1
    ensures VersionsBelowMaximum(a, touched)
  {
    hide Settle, Lookup, VersionOf;
    SameStage(staged, Settle(c, touched), touched);
  }

  /** Advance or remove every touched account. Absent owners get a version in the receipt too. */
  method AdvanceVersions(a: Accounts, ghost c: Accounts, touched: set<Owner>, start: Stage)
    returns (staged: Stage, versions: map<Owner, nat>, verdict: Verdict)
    requires start == Staged(c, touched)
    requires forall o | o in touched :: VersionOf(c, o) == VersionOf(a, o)
    ensures verdict == if VersionsBelowMaximum(a, touched) then Pass else Fail(Overflow)
    ensures verdict.Pass? ==> staged == Staged(Settle(c, touched), touched)
    ensures verdict.Pass? ==> versions == map o | o in touched :: VersionOf(a, o) + 1
  {
    hide Settle, VersionOf, Lookup, Staged, Advanced;
    staged, versions := start, map[];
    var rest := touched;
    AdvancedStart(a, c, touched);
    while rest != {}
      invariant Advanced(a, c, touched, rest, staged, versions)
    {
      var o :| o in rest;
      AdvancedEntry(a, c, touched, rest, staged, versions, o);
      SettleLookup(c, touched, o);
      VersionLookup(c, o);
      var next, after, below := AdvanceOne(staged[o], VersionOf(a, o));
      if below.Fail? {
        assert !VersionsBelowMaximum(a, touched);
        return staged, versions, below;
      }
      AdvancedNext(a, c, touched, rest, staged, versions, o);
      versions := versions[o := after];
      staged := staged[o := next];
      rest := rest - {o};
    }
    AdvancedAll(a, c, touched, staged, versions);
    verdict := Pass;
  }

  lemma StagedEntries(a: Accounts, touched: set<Owner>)
    ensures Staged(a, touched).Keys == touched && forall o | o in touched :: Staged(a, touched)[o] == Lookup(a, o)
  {
  }

  lemma SameStage(staged: Stage, a: Accounts, touched: set<Owner>)
    requires staged.Keys == touched && forall o | o in touched :: staged[o] == Lookup(a, o)
    ensures staged == Staged(a, touched)
  {
    hide Lookup;
  }

  lemma VersionLookup(a: Accounts, o: Owner)
    ensures Lookup(a, o).Some? ==> Lookup(a, o).value.version == VersionOf(a, o)
  {
  }

  function PutEntry(a: Accounts, o: Owner, entry: Option<Account>): (b: Accounts)
    ensures forall k {:trigger Lookup(b, k)} :: Lookup(b, k) == if k == o then entry else Lookup(a, k)
  {
    match entry
    case Some(account) => a[o := account]
    case None => a - {o}
  }

  /** Write the stage back over the accounts. */
  method WriteBack(a: Accounts, ghost c: Accounts, touched: set<Owner>, staged: Stage) returns (b: Accounts)
    requires staged == Staged(Settle(c, touched), touched)
    requires forall o | o !in touched :: Lookup(c, o) == Lookup(a, o)
    ensures b == Settle(c, touched)
  {
    b := a;
    var rest := touched;
    while rest != {}
      invariant rest <= touched
      invariant forall o {:trigger Lookup(b, o)} ::
                  Lookup(b, o) == if o in touched && o !in rest then staged[o] else Lookup(a, o)
    {
      hide Lookup, Settle, PutEntry;
      var o :| o in rest;
      b := PutEntry(b, o, staged[o]);
      rest := rest - {o};
    }
    forall o ensures Lookup(b, o) == Lookup(Settle(c, touched), o) {
      if o !in touched {
        assert Lookup(c, o) == Lookup(a, o);
      }
    }
    SameLookup(b, Settle(c, touched));
  }

  lemma UntouchedLookup(a: Accounts, tx: Transaction, o: Owner)
    requires Moved(a, tx).Some? && o !in Touched(tx)
    ensures Lookup(Moved(a, tx).value, o) == Lookup(a, o)
  {
    hide Moved;
    MovedBalances(a, tx, o);
  }

  // ----- the sums taken after the accounts are written -----

  predicate ExplicitDross(o: Owner) {
    o.Dross? || o.ItemDross? || o.AlchemyDross? || o.Scar?
  }

  ghost function UnitsMoved(ms: seq<ArcaneMove>, drossOnly: bool): nat {
    if ms == [] then 0
    else
      var m := ms[|ms| - 1];
      UnitsMoved(ms[..|ms| - 1], drossOnly) + if drossOnly && !ExplicitDross(m.owner) then 0 else Total(m.current)
  }

  /** Net units newly classified as explicit dross; the mixed geography account is audited elsewhere. */
  ghost function DrossGenerated(tx: Transaction): nat {
    if Geography in Touched(tx) then 0
    else
      var debited, credited := UnitsMoved(tx.debits, true), UnitsMoved(tx.credits, true);
      if credited <= debited then 0 else credited - debited
  }

  lemma {:induction false} UnitsMovedBounded(ms: seq<ArcaneMove>, k: nat, drossOnly: bool)
    requires k <= |ms|
    ensures UnitsMoved(ms[..k], drossOnly) <= UnitsMoved(ms, drossOnly) <= Total(Mixture(ms))
    decreases |ms|
  {
    hide Plus, Total;
    if ms == [] {
      assert ms[..k] == ms;
    } else {
      var front := ms[..|ms| - 1];
      TotalPlus(Mixture(front), ms[|ms| - 1].current);
      if k == |ms| {
        assert ms[..k] == ms;
        UnitsMovedBounded(front, |front|, drossOnly);
      } else {
        UnitsMovedBounded(front, k, drossOnly);
        assert front[..k] == ms[..k];
      }
    }
  }

  method SumMoved(ms: seq<ArcaneMove>, drossOnly: bool) returns (sum: nat, verdict: Verdict)
    ensures verdict == if UnitsMoved(ms, drossOnly) <= U64_MAX then Pass else Fail(Overflow)
    ensures verdict.Pass? ==> sum == UnitsMoved(ms, drossOnly)
  {
    sum := 0;
    for i := 0 to |ms|
      invariant sum == UnitsMoved(ms[..i], drossOnly) <= U64_MAX
    {
      assert ms[..i + 1][..i] == ms[..i];
      UnitsMovedBounded(ms, i + 1, drossOnly);
      if !drossOnly || ExplicitDross(ms[i].owner) {
        var units, fits := TotalChecked(ms[i].current);
        if fits.Fail? || sum + units > U64_MAX {
          return 0, Fail(Overflow);
        }
        sum := sum + units;
      }
    }
    assert ms[..|ms|] == ms;
    verdict := Pass;
  }

  method MeasureDross(tx: Transaction) returns (generated: nat, verdict: Verdict)
    ensures Balanced(tx) ==> verdict.Pass?
    ensures verdict.Pass? ==> generated == DrossGenerated(tx)
  {
    if Geography in Touched(tx) {
      return 0, Pass;
    }
    UnitsMovedBounded(tx.debits, |tx.debits|, true);
    UnitsMovedBounded(tx.credits, |tx.credits|, true);
    var debited, fitsD := SumMoved(tx.debits, true);
    if fitsD.Fail? {
      return 0, fitsD;
    }
    var credited, fitsC := SumMoved(tx.credits, true);
    if fitsC.Fail? {
      return 0, fitsC;
    }
    return if credited <= debited then 0 else credited - debited, Pass;
  }

  method SumAccounts(a: Accounts) returns (sum: nat, verdict: Verdict)
    ensures verdict == if GrandTotal(a) <= U64_MAX then Pass else Fail(Overflow)
    ensures verdict.Pass? ==> sum == GrandTotal(a)
  {
    sum := 0;
    var rest := a;
    while rest.Keys != {}
      invariant sum + GrandTotal(rest) == GrandTotal(a) && sum <= U64_MAX
      decreases |rest|
    {
      var o :| o in rest.Keys;
      SumMapPick(rest, AccountWeight(), o);
      var units, fits := TotalChecked(rest[o].current);
      if fits.Fail? || sum + units > U64_MAX {
        return 0, Fail(Overflow);
      }
      sum := sum + units;
      rest := rest - {o};
    }
    verdict := Pass;
  }
}
