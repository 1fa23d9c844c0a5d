/** Validation of a transaction, step by step, against the declarative `Accepts`. */
module Validation {
  import opened Prelude
  import opened CurrentUnits
  import opened LedgerModel
  import opened LedgerLaws

  /** What must be wrong for each error to be reported. */
  ghost predicate Explains(e: LedgerError, s: LedgerState, tx: Transaction) {
    match e
    case Overflow =>
      || HighWater(s, tx.id.origin) >= U64_MAX
      || U64_MAX < Total(Mixture(tx.debits)) || U64_MAX < Total(Mixture(tx.credits))
      || (exists m | m in tx.debits + tx.credits :: U64_MAX < Total(m.current))
    case VersionConflict => !ReadsCurrent(s, tx)
    case PermissionDenied => !Authorized(s, tx)
    case MissingAccount => exists m | m in tx.debits :: m.owner !in s.accounts
    case InsufficientResonance =>
      || (exists m | m in tx.debits :: m.owner in s.accounts && !Covers(s.accounts[m.owner].current, m.current))
      || Transformed(Mixture(tx.debits), tx.transforms).None?
    case Unbalanced => Total(Mixture(tx.debits)) != Total(Mixture(tx.credits))
    case UnknownResonance => !Registered(s, tx)
    case InvalidTransaction =>
      || !SequenceContinues(s, tx.id) || !OriginFits(s, tx.id) || Blank(tx.reason) || Blank(tx.contentId)
      || !(1 <= |Touched(tx)| <= MAX_TRANSACTION_ACCOUNTS) || !ReadsNameTouched(tx)
      || (exists m | m in tx.debits + tx.credits :: m.current == Empty)
      || (exists m | m in tx.credits :: !CreditAllowed(s, tx, m))
      || Transformed(Mixture(tx.debits), tx.transforms) != Some(Mixture(tx.credits))
      || !LinkedWellFormed(tx)
    case _ => false
  }

  lemma {:induction false} MixtureGrows(ms: seq<ArcaneMove>, k: nat)
    requires k <= |ms|
    ensures Total(Mixture(ms[..k])) <= Total(Mixture(ms))
    ensures forall i | 0 <= i < |ms| :: Total(ms[i].current) <= Total(Mixture(ms))
  {
    hide Plus, Total;
    if ms != [] {
      var front := ms[..|ms| - 1];
      TotalPlus(Mixture(front), ms[|ms| - 1].current);
      if k == |ms| {
        MixtureGrows(front, |front|);
        assert ms[..k] == ms;
      } else {
        MixtureGrows(front, k);
        assert front[..k] == ms[..k];
      }
    } else {
      assert ms[..k] == ms;
    }
  }

  // ----- the read set -----

  ghost predicate DistinctReads(reads_: seq<AccountRead>) {
    forall i, j | 0 <= i < j < |reads_| :: reads_[i].owner != reads_[j].owner
  }

  lemma DistinctSnoc(list: seq<AccountRead>, i: nat)
    requires i < |list|
    ensures DistinctReads(list[..i + 1])
            <==> DistinctReads(list[..i]) && forall k | 0 <= k < i :: list[k].owner != list[i].owner
  {
    var longer, shorter := list[..i + 1], list[..i];
    assert forall k | 0 <= k < i :: longer[k] == shorter[k] == list[k];
    assert longer[i] == list[i];
  }

  function ReadOwners(list: seq<AccountRead>, i: nat): set<Owner>
    requires i <= |list|
  {
    set k | 0 <= k < i :: list[k].owner
  }

  /** `table` lists the first `i` reads, later reads of an owner replacing earlier ones. */
  ghost predicate Tabulates(table: map<Owner, nat>, list: seq<AccountRead>, i: nat)
    requires i <= |list|
  {
    && table.Keys == ReadOwners(list, i)
    && |table.Keys| <= i
    && (|table.Keys| == i <==> DistinctReads(list[..i]))
    && (DistinctReads(list[..i]) ==>
          forall k | 0 <= k < i :: list[k].owner in table && table[list[k].owner] == list[k].expectedVersion)
  }

  lemma ReadOwnersNext(list: seq<AccountRead>, i: nat)
    requires i < |list|
    ensures ReadOwners(list, i + 1) == ReadOwners(list, i) + {list[i].owner}
    ensures list[i].owner in ReadOwners(list, i) <==> !(forall k | 0 <= k < i :: list[k].owner != list[i].owner)
  {
  }

  lemma TabulatesNext(table: map<Owner, nat>, list: seq<AccountRead>, i: nat)
    requires i < |list| && Tabulates(table, list, i)
    ensures Tabulates(table[list[i].owner := list[i].expectedVersion], list, i + 1)
  {
    DistinctSnoc(list, i);
    ReadOwnersNext(list, i);
    hide DistinctReads, ReadOwners;
    var o := list[i].owner;
    var next := table[o := list[i].expectedVersion];
    assert next.Keys == table.Keys + {o};
  }

  /** The read set as a table. It is as long as the list exactly when no owner is read twice. */
  method ReadTable(list: seq<AccountRead>) returns (table: map<Owner, nat>)
    ensures forall o :: o in table <==> exists i :: 0 <= i < |list| && list[i].owner == o
    ensures |table| == |list| <==> DistinctReads(list)
    ensures DistinctReads(list) ==> forall i | 0 <= i < |list| :: table[list[i].owner] == list[i].expectedVersion
  {
    table := map[];
    for i := 0 to |list|
      invariant Tabulates(table, list, i)
    {
      hide Tabulates;
      TabulatesNext(table, list, i);
      table := table[list[i].owner := list[i].expectedVersion];
    }
    assert list[..|list|] == list;
    assert |table| == |table.Keys|;
  }

  lemma ReadsNamed(tx: Transaction, table: map<Owner, nat>)
    requires forall o :: o in table <==> exists i :: 0 <= i < |tx.readSet| && tx.readSet[i].owner == o
    requires |table| == |tx.readSet| <==> DistinctReads(tx.readSet)
    ensures |table| == |tx.readSet| && |table| == |Touched(tx)| && Touched(tx) <= table.Keys <==> ReadsNameTouched(tx)
  {
  }

  method CheckOwners(s: LedgerState, tx: Transaction, table: map<Owner, nat>) returns (verdict: Verdict)
    requires ReadsNameTouched(tx)
    requires forall o :: o in table <==> exists i :: 0 <= i < |tx.readSet| && tx.readSet[i].owner == o
    requires forall i | 0 <= i < |tx.readSet| :: table[tx.readSet[i].owner] == tx.readSet[i].expectedVersion
    ensures verdict.Pass? <==> ReadsCurrent(s, tx) && Authorized(s, tx)
    ensures verdict.Fail? ==> Explains(verdict.error, s, tx)
  {
    hide MayTouch, Permits, Owners, Touched, Total, Mixture, Transformed, Blank, LinkedWellFormed, Registered,
         CreditAllowed, Covers, SequenceContinues, OriginFits;
    var rest := Touched(tx);
    while rest != {}
      invariant rest <= Touched(tx)
      invariant forall o | o in Touched(tx) - rest :: table[o] == VersionOf(s.accounts, o) && MayTouch(s, tx, o)
    {
      var o :| o in rest;
      var i :| 0 <= i < |tx.readSet| && tx.readSet[i].owner == o;
      if table[o] != VersionOf(s.accounts, o) {
        return Fail(VersionConflict);
      }
      if !MayTouch(s, tx, o) {
        return Fail(PermissionDenied);
      }
      rest := rest - {o};
    }
    verdict := Pass;
  }

  // ----- debits, credits, transforms -----

  method CheckDebits(s: LedgerState, tx: Transaction) returns (total: Current, verdict: Verdict)
    ensures verdict.Pass? <==>
              (forall m | m in tx.debits :: DebitAvailable(s, m)) && Total(Mixture(tx.debits)) <= U64_MAX
    ensures verdict.Pass? ==> total == Mixture(tx.debits)
    ensures verdict.Fail? ==> Explains(verdict.error, s, tx)
  {
    hide Plus, Minus, Total, Balanced, Registered, ReadsNameTouched, ReadsCurrent, Authorized, Transformed;
    total := Empty;
    EmptyIffZero(Empty);
    for i := 0 to |tx.debits|
      invariant total == Mixture(tx.debits[..i]) && Total(total) <= U64_MAX
      invariant forall m | m in tx.debits[..i] :: DebitAvailable(s, m)
    {
      var m := tx.debits[i];
      assert m in tx.debits && m in tx.debits + tx.credits;
      var units, fits := TotalChecked(m.current);
      if fits.Fail? {
        return total, fits;
      }
      if m.current == Empty {
        return total, Fail(InvalidTransaction);
      }
      if m.owner !in s.accounts {
        return total, Fail(MissingAccount);
      }
      var available, covers := CheckedSub(s.accounts[m.owner].current, m.current);
      if covers.Fail? {
        return total, covers;
      }
      var next, sums := CheckedAdd(total, m.current);
      assert tx.debits[..i + 1] == tx.debits[..i] + [m];
      OwnedSnoc(tx.debits[..i], m, m.owner);
      TotalPlus(total, m.current);
      MixtureGrows(tx.debits, i + 1);
      if sums.Fail? {
        return total, sums;
      }
      total := next;
    }
    assert tx.debits[..|tx.debits|] == tx.debits;
    verdict := Pass;
  }

  method OwnedChecked(ms: seq<ArcaneMove>, o: Owner) returns (sum: Current, verdict: Verdict)
    ensures verdict == if Total(Owned(ms, o)) <= U64_MAX then Pass else Fail(Overflow)
    ensures verdict.Pass? ==> sum == Owned(ms, o)
  {
    hide Plus, Total;
    sum := Empty;
    EmptyIffZero(Empty);
    for i := 0 to |ms|
      invariant sum == Owned(ms[..i], o) && Total(sum) <= U64_MAX
    {
      assert ms[..i + 1] == ms[..i] + [ms[i]];
      OwnedSnoc(ms[..i], ms[i], o);
      if ms[i].owner == o {
        var next, fits := CheckedAdd(sum, ms[i].current);
        TotalPlus(sum, ms[i].current);
        if fits.Fail? {
          OwnedGrows(ms, i + 1, o);
          return sum, fits;
        }
        sum := next;
      }
    }
    assert ms[..|ms|] == ms;
    verdict := Pass;
  }

  lemma {:induction false} OwnedGrows(ms: seq<ArcaneMove>, k: nat, o: Owner)
    requires k <= |ms|
    ensures Total(Owned(ms[..k], o)) <= Total(Owned(ms, o)) <= Total(Mixture(ms))
    decreases |ms|
  {
    hide Plus, Total;
    if ms == [] {
      assert ms[..k] == ms;
    } else {
      var front, m := ms[..|ms| - 1], ms[|ms| - 1];
      TotalPlus(Owned(front, o), m.current);
      TotalPlus(Mixture(front), m.current);
      if k == |ms| {
        assert ms[..k] == ms;
        OwnedGrows(front, |front|, o);
      } else {
        OwnedGrows(front, k, o);
        assert front[..k] == ms[..k];
      }
    }
  }

  method CheckCredits(s: LedgerState, tx: Transaction) returns (total: Current, verdict: Verdict)
    ensures verdict.Pass? <==>
              (forall m | m in tx.credits :: CreditAllowed(s, tx, m)) && Total(Mixture(tx.credits)) <= U64_MAX
    ensures verdict.Pass? ==> total == Mixture(tx.credits)
    ensures verdict.Fail? ==> Explains(verdict.error, s, tx)
  {
    hide Plus, Minus, Total, Balanced, Registered, ReadsNameTouched, ReadsCurrent, Authorized, Transformed, Owned;
    total := Empty;
    EmptyIffZero(Empty);
    for i := 0 to |tx.credits|
      invariant total == Mixture(tx.credits[..i]) && Total(total) <= U64_MAX
      invariant forall m | m in tx.credits[..i] :: CreditAllowed(s, tx, m)
    {
      var m := tx.credits[i];
      assert m in tx.credits && m in tx.debits + tx.credits;
      var units, fits := TotalChecked(m.current);
      if fits.Fail? {
        return total, fits;
      }
      if m.current == Empty {
        return total, Fail(InvalidTransaction);
      }
      if m.owner in s.accounts && m.contentId.Some? && s.accounts[m.owner].contentId != m.contentId {
        var removed, sums := OwnedChecked(tx.debits, m.owner);
        if sums.Fail? {
          OwnedGrows(tx.debits, |tx.debits|, m.owner);
          return total, sums;
        }
        if removed != s.accounts[m.owner].current {
          return total, Fail(InvalidTransaction);
        }
      }
      var next, sums := CheckedAdd(total, m.current);
      assert tx.credits[..i + 1] == tx.credits[..i] + [m];
      OwnedSnoc(tx.credits[..i], m, m.owner);
      TotalPlus(total, m.current);
      MixtureGrows(tx.credits, i + 1);
      if sums.Fail? {
        return total, sums;
      }
      total := next;
    }
    assert tx.credits[..|tx.credits|] == tx.credits;
    verdict := Pass;
  }

  lemma {:induction false} TransformedPrefix(c: Current, ts: seq<ResonanceTransform>, k: nat)
    requires k <= |ts| && Transformed(c, ts[..k]).None?
    ensures Transformed(c, ts).None?
    decreases |ts|
  {
    if k == |ts| {
      assert ts[..k] == ts;
    } else {
      assert ts[..|ts| - 1][..k] == ts[..k];
      TransformedPrefix(c, ts[..|ts| - 1], k);
    }
  }

  /** One declared relabelling. It never overflows: the scalar total does not change. */
  method TransformOnce(c: Current, t: ResonanceTransform) returns (after: Current, verdict: Verdict)
    requires Total(c) <= U64_MAX
    ensures verdict.Pass? <==> t.units != 0 && t.from != t.to && t.units <= UnitsOf(c, t.from)
    ensures verdict.Pass? ==> after == TransformStep(c, t) && Total(after) == Total(c)
    ensures verdict.Fail? ==> verdict.error in {InvalidTransaction, InsufficientResonance}
  {
    hide Plus, Minus, Total, Put, Single;
    if t.units == 0 || t.from == t.to {
      return c, Fail(InvalidTransaction);
    }
    var part := Single(t.from, t.units);
    assert UnitsOf(part, t.from) == t.units;
    var less, covers := CheckedSub(c, part);
    if covers.Fail? {
      return c, covers;
    }
    SameUnits(less, Put(c, t.from, UnitsOf(c, t.from) - t.units));
    TransformStepTotal(c, t);
    TotalPlus(less, Single(t.to, t.units));
    after, verdict := CheckedAdd(less, Single(t.to, t.units));
  }

  method ApplyTransforms(c: Current, ts: seq<ResonanceTransform>) returns (after: Current, verdict: Verdict)
    requires Total(c) <= U64_MAX
    ensures verdict.Pass? <==> Transformed(c, ts).Some?
    ensures verdict.Pass? ==> after == Transformed(c, ts).value
    ensures verdict.Fail? ==> verdict.error in {InvalidTransaction, InsufficientResonance}
  {
    hide Total, TransformStep;
    after := c;
    for i := 0 to |ts|
      invariant Transformed(c, ts[..i]) == Some(after) && Total(after) == Total(c)
    {
      assert ts[..i + 1][..i] == ts[..i];
      after, verdict := TransformOnce(after, ts[i]);
      if verdict.Fail? {
        TransformedPrefix(c, ts, i + 1);
        return;
      }
    }
    assert ts[..|ts|] == ts;
    verdict := Pass;
  }

  // ----- everything in order -----

  /** Accepts exactly the transactions `Accepts` describes; a refusal names a real cause. */
  method ValidateTransaction(s: LedgerState, tx: Transaction) returns (verdict: Verdict)
    ensures verdict.Pass? <==> Accepts(s, tx)
    ensures verdict.Fail? ==> Explains(verdict.error, s, tx)
  {
    hide SequenceContinues, OriginFits, Blank, Touched, ReadsNameTouched, ReadsCurrent, Authorized, DebitAvailable,
         CreditAllowed, LinkedWellFormed, Mixture, Transformed, Total, TransformNet;
    verdict := CheckHeader(s, tx);
    if verdict.Fail? {
      return;
    }
    var table := ReadTable(tx.readSet);
    ReadsNamed(tx, table);
    if |table| != |tx.readSet| || |table| != |Touched(tx)| || !(Touched(tx) <= table.Keys) {
      return Fail(InvalidTransaction);
    }
    assert DistinctReads(tx.readSet);
    verdict := CheckOwners(s, tx, table);
    if verdict.Fail? {
      return;
    }
    var debited, credited;
    debited, verdict := CheckDebits(s, tx);
    if verdict.Fail? {
      return;
    }
    credited, verdict := CheckCredits(s, tx);
    if verdict.Fail? {
      return;
    }
    verdict := CheckBalance(tx, debited, credited);
    if verdict.Fail? {
      return;
    }
    if !(debited.parts.Keys + credited.parts.Keys <= s.registry) {
      assert !Registered(s, tx);
      return Fail(UnknownResonance);
    }
    assert Registered(s, tx);
    if !LinkedWellFormed(tx) {
      return Fail(InvalidTransaction);
    }
  }

  method CheckHeader(s: LedgerState, tx: Transaction) returns (verdict: Verdict)
    ensures verdict.Pass? <==>
              SequenceContinues(s, tx.id) && OriginFits(s, tx.id) && !Blank(tx.reason) && !Blank(tx.contentId)
              && 1 <= |Touched(tx)| <= MAX_TRANSACTION_ACCOUNTS
    ensures verdict.Fail? ==> Explains(verdict.error, s, tx)
  {
    var previous := HighWater(s, tx.id.origin);
    if previous >= U64_MAX {
      return Fail(Overflow);
    }
    if tx.id.sequence != previous + 1 {
      return Fail(InvalidTransaction);
    }
    if previous == 0 && tx.id.origin !in s.highWater && |s.highWater| >= MAX_TRANSACTION_HISTORY {
      return Fail(InvalidTransaction);
    }
    if Blank(tx.reason) || Blank(tx.contentId) {
      return Fail(InvalidTransaction);
    }
    if Touched(tx) == {} || |Touched(tx)| > MAX_TRANSACTION_ACCOUNTS {
      return Fail(InvalidTransaction);
    }
    verdict := Pass;
  }

  method CheckBalance(tx: Transaction, debited: Current, credited: Current) returns (verdict: Verdict)
    requires debited == Mixture(tx.debits) && credited == Mixture(tx.credits)
    requires Total(debited) <= U64_MAX && Total(credited) <= U64_MAX
    ensures verdict.Pass? <==> Balanced(tx)
    ensures verdict.Fail? ==> forall s :: Explains(verdict.error, s, tx)
  {
    hide Total, Mixture, Touched, LinkedWellFormed, Blank;
    var d, fitsD := TotalChecked(debited);
    var c, fitsC := TotalChecked(credited);
    if d != c {
      if Balanced(tx) {
        TransformedLaw(debited, tx.transforms, Root);
      }
      return Fail(Unbalanced);
    }
    var transformed;
    transformed, verdict := ApplyTransforms(debited, tx.transforms);
    if verdict.Pass? && transformed != credited {
      verdict := Fail(InvalidTransaction);
    }
  }
}
