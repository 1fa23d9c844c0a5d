/** The ledger in memory above its disk. Serialization skips the provenance queue, so after a checkpoint the running
    ledger and what its disk replays to agree in everything else. */
module RunningLedger {
  import opened Prelude
  import opened CurrentUnits
  import opened LedgerModel
  import opened LedgerLaws
  import opened LedgerRuns
  import opened Frames
  import opened Journal
  import opened Recovery

  ghost predicate SameDurable(m: LedgerState, s: LedgerState) {
    Durable(m) == Durable(s)
  }

  lemma DurableIsRest(m: LedgerState, s: LedgerState)
    requires SameDurable(m, s)
    ensures m == s.(attribution := m.attribution)
  {
    assert Durable(m).(attribution := m.attribution) == m;
    assert Durable(s).(attribution := m.attribution) == s.(attribution := m.attribution);
  }

  // ----- nothing durable depends on the queue -----

  lemma AcceptsBlind(s: LedgerState, q: seq<Attribution>, tx: Transaction)
    ensures Accepts(s.(attribution := q), tx) <==> Accepts(s, tx)
  {
    hide *;
    var m := s.(attribution := q);
    forall o ensures MayTouch(m, tx, o) <==> MayTouch(s, tx, o) {
      TouchBlind(s, q, tx, o);
    }
    forall c ensures DebitAvailable(m, c) <==> DebitAvailable(s, c) {
      DebitBlind(s, q, c);
    }
    forall c ensures CreditAllowed(m, tx, c) <==> CreditAllowed(s, tx, c) {
      CreditBlind(s, q, tx, c);
    }
    HeaderBlind(s, q, tx);
    AcceptsByParts(s, m, tx);
  }

  lemma TouchBlind(s: LedgerState, q: seq<Attribution>, tx: Transaction, o: Owner)
    ensures MayTouch(s.(attribution := q), tx, o) <==> MayTouch(s, tx, o)
  {
    hide Blank, Owners;
  }

  lemma DebitBlind(s: LedgerState, q: seq<Attribution>, m: ArcaneMove)
    ensures DebitAvailable(s.(attribution := q), m) <==> DebitAvailable(s, m)
  {
    hide Total, Covers;
  }

  lemma CreditBlind(s: LedgerState, q: seq<Attribution>, tx: Transaction, m: ArcaneMove)
    ensures CreditAllowed(s.(attribution := q), tx, m) <==> CreditAllowed(s, tx, m)
  {
    hide Total, Owned;
  }

  lemma HeaderBlind(s: LedgerState, q: seq<Attribution>, tx: Transaction)
    ensures SequenceContinues(s.(attribution := q), tx.id) <==> SequenceContinues(s, tx.id)
    ensures OriginFits(s.(attribution := q), tx.id) <==> OriginFits(s, tx.id)
    ensures ReadsCurrent(s.(attribution := q), tx) <==> ReadsCurrent(s, tx)
    ensures Registered(s.(attribution := q), tx) <==> Registered(s, tx)
  {
    hide Touched, Mixture, VersionOf;
  }

  lemma AcceptsByParts(s: LedgerState, m: LedgerState, tx: Transaction)
    requires SequenceContinues(m, tx.id) <==> SequenceContinues(s, tx.id)
    requires OriginFits(m, tx.id) <==> OriginFits(s, tx.id)
    requires ReadsCurrent(m, tx) <==> ReadsCurrent(s, tx)
    requires Registered(m, tx) <==> Registered(s, tx)
    requires forall o :: MayTouch(m, tx, o) <==> MayTouch(s, tx, o)
    requires forall c :: DebitAvailable(m, c) <==> DebitAvailable(s, c)
    requires forall c :: CreditAllowed(m, tx, c) <==> CreditAllowed(s, tx, c)
    ensures Accepts(m, tx) <==> Accepts(s, tx)
  {
    hide SequenceContinues, OriginFits, ReadsCurrent, Registered, MayTouch, DebitAvailable, CreditAllowed,
         ReadsNameTouched, Balanced, Touched, Blank, LinkedWellFormed;
  }

  lemma AppliesBlind(s: LedgerState, q: seq<Attribution>, tx: Transaction)
    ensures Applies(s.(attribution := q), tx) <==> Applies(s, tx)
  {
    hide Accepts, Moved, VersionsBelowMaximum;
    AcceptsBlind(s, q, tx);
  }

  lemma AfterBlind(s: LedgerState, q: seq<Attribution>, tx: Transaction)
    requires Applies(s, tx)
    ensures Applies(s.(attribution := q), tx) && SameDurable(After(s.(attribution := q), tx), After(s, tx))
  {
    hide Applies, Moved, Settle, Provenance, EvictedReceipts, KeepNewest, GrandTotal, VersionOf, ReceiptFor, Touched;
    AppliesBlind(s, q, tx);
    ReceiptBlind(s, q, tx, s.lastDeltaSeq + 1);
  }

  lemma ReceiptBlind(s: LedgerState, q: seq<Attribution>, tx: Transaction, sequence: nat)
    ensures ReceiptFor(s.(attribution := q), tx, sequence) == ReceiptFor(s, tx, sequence)
  {
    hide VersionOf, Touched;
    assert s.(attribution := q).accounts == s.accounts;
  }

  lemma GatesBlind(s: LedgerState, q: seq<Attribution>, tx: Transaction)
    ensures Duplicate(s.(attribution := q), tx.id) <==> Duplicate(s, tx.id)
    ensures Fits(s.(attribution := q)) <==> Fits(s)
    ensures DeltaFor(s.(attribution := q), tx) == DeltaFor(s, tx)
    ensures Conserved(s.(attribution := q)) <==> Conserved(s)
  {
    hide GrandTotal;
  }

  /** Two ends of a program that differ at most in the queue. */
  ghost predicate SameEnd(a: Plan, b: Plan) {
    && a.ops == b.ops && (a.outcome.Some? <==> b.outcome.Some?)
    && (a.outcome.Some? ==> SameDurable(a.outcome.value, b.outcome.value))
  }

  lemma CommitBlind(w: World, d: Disk, s: LedgerState, q: seq<Attribution>, tx: Transaction)
    ensures SameEnd(CommitPlan(w, d, s.(attribution := q), tx), CommitPlan(w, d, s, tx))
  {
    hide Accepts, Applies, After, Fits, Frame, Duplicate, LinkedGate, SameDurable, HeaderOps;
    AcceptsBlind(s, q, tx);
    AppliesBlind(s, q, tx);
    GatesBlind(s, q, tx);
    if Applies(s, tx) {
      AfterBlind(s, q, tx);
    }
    SameIsDurable(s, q);
  }

  lemma SameIsDurable(s: LedgerState, q: seq<Attribution>)
    ensures SameDurable(s.(attribution := q), s)
  {
  }

  lemma LinkedBlind(w: World, d: Disk, s: LedgerState, q: seq<Attribution>)
    ensures SameEnd(LinkedPlan(w, d, s.(attribution := q)), LinkedPlan(w, d, s))
  {
    hide CommitPlan, LinkedFiles, PerformAll, SameDurable;
    SameIsDurable(s, q);
    if d.linked.Some? {
      var lc := d.linked.value;
      CommitBlind(w, PerformAll(d, LinkedFiles(w, d.files, lc, Zipped(lc)).ops), s, q, lc.transaction);
    }
  }

  lemma CommitLinkedBlind(w: World, d: Disk, s: LedgerState, q: seq<Attribution>, tx: Transaction,
                          files: seq<LinkedFile>)
    ensures SameEnd(CommitLinkedPlan(w, d, s.(attribution := q), tx, files), CommitLinkedPlan(w, d, s, tx, files))
  {
    var lc := Linked(w, d, tx, files);
    AcceptsBlind(s, q, lc.transaction);
    LinkedBlind(w, d.(linked := Some(lc)), s, q);
    hide LinkedPlan, Accepts, TotalBytes, Linked;
  }

  // ----- the running ledger and its disk -----

  /** The disk is clean and replays to `s`; the running ledger `m` differs from it at most in the queue. */
  ghost predicate Mirrors(w: World, d: Disk, rs: seq<ArcaneDelta>, s: LedgerState, m: LedgerState) {
    Clean(w, d, rs, s) && SameDurable(m, s)
  }

  /** A commit that runs to its end leaves a disk that mirrors its ledger. */
  lemma CommitMirrors(w: World, d: Disk, rs: seq<ArcaneDelta>, s: LedgerState, m: LedgerState, tx: Transaction)
    requires Mirrors(w, d, rs, s, m) && TakesEffect(m, tx) && Fits(m) && tx.linked == []
    requires Readable(w, d, DeltaFor(m, tx))
    ensures Applies(m, tx) && Applies(s, tx)
    ensures Mirrors(w, PerformAll(d, CommitPlan(w, d, m, tx).ops), rs + [DeltaFor(m, tx)], After(s, tx), After(m, tx))
  {
    hide *;
    MirrorsBlind(w, d, rs, s, m, tx);
    SameOps(CommitPlan(w, d, m, tx), CommitPlan(w, d, s, tx));
    AppliesAccepted(s, tx);
    CommittableNow(w, d, rs, s, tx);
    ReadableShort(w, d, DeltaFor(s, tx));
    CleanGate(w, d, rs, s, tx);
    CommitPlanRuns(w, d, s, tx);
    CommitOpsPhases(w, d, s, tx);
    AppendedClean(w, d, rs, s, tx);
    MirrorsIs(w, Appended(w, d, DeltaFor(s, tx)), rs + [DeltaFor(s, tx)], After(s, tx), After(m, tx));
  }

  /** The running ledger a finished commit leaves. */
  lemma CommitEnds(w: World, d: Disk, rs: seq<ArcaneDelta>, s: LedgerState, m: LedgerState, tx: Transaction)
    requires Mirrors(w, d, rs, s, m) && TakesEffect(m, tx) && Fits(m) && tx.linked == []
    requires Readable(w, d, DeltaFor(m, tx))
    ensures CommitPlan(w, d, m, tx).outcome == Some(After(m, tx))
  {
    hide *;
    MirrorsBlind(w, d, rs, s, m, tx);
    CleanGate(w, d, rs, s, tx);
    ReadableShort(w, d, DeltaFor(m, tx));
    CommitPlanRuns(w, d, m, tx);
  }

  lemma MirrorsIs(w: World, d: Disk, rs: seq<ArcaneDelta>, s: LedgerState, m: LedgerState)
    requires Clean(w, d, rs, s) && SameDurable(m, s)
    ensures Mirrors(w, d, rs, s, m)
  {
    hide Clean, SameDurable;
  }

  /** What the running ledger takes, the replayed one takes, with the same record and the same durable result. */
  lemma MirrorsBlind(w: World, d: Disk, rs: seq<ArcaneDelta>, s: LedgerState, m: LedgerState, tx: Transaction)
    requires Mirrors(w, d, rs, s, m)
    ensures Clean(w, d, rs, s) && SameEnd(CommitPlan(w, d, m, tx), CommitPlan(w, d, s, tx))
    ensures Applies(m, tx) <==> Applies(s, tx)
    ensures Applies(m, tx) ==> SameDurable(After(m, tx), After(s, tx))
    ensures Fits(m) <==> Fits(s)
    ensures DeltaFor(m, tx) == DeltaFor(s, tx)
    ensures TakesEffect(m, tx) <==> TakesEffect(s, tx)
    ensures TakesEffect(m, tx) ==> Applies(m, tx)
    ensures WritesRecord(m, tx) <==> WritesRecord(s, tx)
    ensures m.accounts == s.accounts
  {
    DurableIsRest(m, s);
    AcceptsBlind(s, m.attribution, tx);
    AppliesBlind(s, m.attribution, tx);
    GatesBlind(s, m.attribution, tx);
    CommitBlind(w, d, s, m.attribution, tx);
    if Applies(s, tx) {
      AfterBlind(s, m.attribution, tx);
    }
    hide Accepts, Applies, After, Fits, Duplicate, CommitPlan, Clean;
  }

  lemma CommittableNow(w: World, d: Disk, rs: seq<ArcaneDelta>, s: LedgerState, tx: Transaction)
    requires Clean(w, d, rs, s) && Applies(s, tx) && Fits(s) && s.lastDeltaSeq < U64_MAX
             && Readable(w, d, DeltaFor(s, tx))
    ensures Committable(w, d, rs, s, tx)
  {
    hide Applies, Fits, Holds, Readable, Conserved;
  }

  lemma ReadableShort(w: World, d: Disk, delta: ArcaneDelta)
    requires Readable(w, d, delta)
    ensures |w.codec.encode(delta)| < TWO32
  {
    hide Frame;
  }

  lemma AppendedClean(w: World, d: Disk, rs: seq<ArcaneDelta>, s: LedgerState, tx: Transaction)
    requires Committable(w, d, rs, s, tx) && Clean(w, d, rs, s)
    ensures Clean(w, Appended(w, d, DeltaFor(s, tx)), rs + [DeltaFor(s, tx)], After(s, tx))
  {
    AppendedHolds(w, d, rs, s, tx);
    AppliedKeepsConserved(s, tx);
    hide Holds, Applies, After, Frame;
  }

  /** And a checkpoint of any conserving ledger, such as one an operator has just adjusted, exactly when its snapshot
      can be read back. */
  lemma SaveMirrors(w: World, d: Disk, rs: seq<ArcaneDelta>, t: LedgerState, m: LedgerState)
    requires Clean(w, d, rs, t) && Conserved(m)
    ensures Mirrors(w, PerformAll(d, SaveOps(w, d, m)), [], Durable(m), m) <==> Decodes(w, Durable(m))
  {
    assert SaveStep(w, d, m, 6).snapshot == Durable(m);
    hide *;
    SavePrefix(w, d, m, 6);
    SaveNeverAppends(w, d, m);
    assert SaveOps(w, d, m)[..6] == SaveOps(w, d, m);
    if Decodes(w, Durable(m)) {
      SaveLate(w, d, rs, t, m, 6);
      DurableTwice(m);
      MirrorsIs(w, SaveStep(w, d, m, 6), [], Durable(m), m);
    } else if Mirrors(w, SaveStep(w, d, m, 6), [], Durable(m), m) {
      MirrorsDecode(w, SaveStep(w, d, m, 6), [], Durable(m), m);
    }
  }

  lemma MirrorsDecode(w: World, d: Disk, rs: seq<ArcaneDelta>, s: LedgerState, m: LedgerState)
    requires Mirrors(w, d, rs, s, m)
    ensures Decodes(w, d.snapshot)
  {
    CleanHolds(w, d, rs, s);
    hide Clean, Decodes;
  }

  lemma DurableTwice(s: LedgerState)
    ensures SameDurable(s, Durable(s))
  {
  }

  // ----- crash safety of the running ledger -----

  ghost predicate LoadsAs(w: World, d: Disk, rs: seq<ArcaneDelta>, m: LedgerState) {
    && LoadPlan(w, d).outcome.Some?
    && SameDurable(LoadPlan(w, d).outcome.value, m)
    && Clean(w, LoadedDisk(w, d), rs, LoadPlan(w, d).outcome.value)
  }

  lemma LoadsAsIs(w: World, d: Disk, rs: seq<ArcaneDelta>, s: LedgerState, m: LedgerState)
    requires LoadPlan(w, d).outcome == Some(s) && SameDurable(m, s) && Clean(w, LoadedDisk(w, d), rs, s)
    ensures LoadsAs(w, d, rs, m)
  {
    hide LoadPlan, LoadedDisk, Clean;
  }

  /** Exactly once, for the running ledger. Cut a commit off at any disk step or inside the append, then cut off any
      number of loads anywhere: the next load that finishes brings back everything durable of the old ledger when the
      commit had not touched the disk, and otherwise of the ledger with the transaction applied once. Either way the
      disk is clean again and mirrors the ledger that was loaded. */
  lemma CommitCrashSafe(w: World, d0: Disk, rs: seq<ArcaneDelta>, s: LedgerState, m: LedgerState, tx: Transaction,
                        d: Disk, n: nat, e: Disk)
    requires Mirrors(w, d0, rs, s, m) && TakesEffect(m, tx) && Fits(m) && tx.linked == []
    requires Readable(w, d0, DeltaFor(m, tx))
    requires CrashLeaves(d0, CommitPlan(w, d0, m, tx).ops, d)
    requires CrashedLoads(w, d, n, e)
    ensures Applies(m, tx)
    ensures d == d0 ==> LoadsAs(w, e, rs, m)
    ensures d != d0 ==> LoadsAs(w, e, rs + [DeltaFor(m, tx)], After(m, tx))
  {
    hide *;
    MirrorsBlind(w, d0, rs, s, m, tx);
    SameOps(CommitPlan(w, d0, m, tx), CommitPlan(w, d0, s, tx));
    CommitRecovers(w, d0, rs, s, tx, d, n, e);
    MirrorsSame(w, d0, rs, s, m);
    if d == d0 {
      LoadsAsIs(w, e, rs, s, m);
    } else {
      LoadsAsIs(w, e, rs + [DeltaFor(s, tx)], After(s, tx), After(m, tx));
    }
  }

  lemma MirrorsSame(w: World, d: Disk, rs: seq<ArcaneDelta>, s: LedgerState, m: LedgerState)
    requires Mirrors(w, d, rs, s, m)
    ensures SameDurable(m, s)
  {
    hide Clean;
  }

  lemma SameOps(a: Plan, b: Plan)
    requires SameEnd(a, b)
    ensures a.ops == b.ops
  {
  }

  /** Forward recovery, for the running ledger. Once the coordinator record of a linked commit is durable, cut it off
      anywhere and cut off any number of loads after that: the next load that finishes leaves every linked file at its
      after bytes, every other file alone, and the transaction applied exactly once. Cut off before, nothing
      happened. */
  lemma LinkedCommitCrashSafe(w: World, d0: Disk, rs: seq<ArcaneDelta>, s: LedgerState, m: LedgerState, tx: Transaction,
                              files: seq<LinkedFile>, d: Disk, n: nat, e: Disk)
    requires Mirrors(w, d0, rs, s, m) && Fits(m) && FilesAdmissible(w, d0, tx, files)
    requires TakesEffect(m, Linked(w, d0, tx, files).transaction)
    requires Readable(w, d0, DeltaFor(m, Linked(w, d0, tx, files).transaction))
    requires CrashLeaves(d0, CommitLinkedPlan(w, d0, m, tx, files).ops, d)
    requires CrashedLoads(w, d, n, e)
    ensures Applies(m, Linked(w, d0, tx, files).transaction)
    ensures d == d0 ==> LoadsAs(w, e, rs, m) && LoadedDisk(w, e) == d0
    ensures var lc := Linked(w, d0, tx, files);
            d != d0 ==>
              && LoadsAs(w, e, rs + [DeltaFor(m, lc.transaction)], After(m, lc.transaction))
              && FilesDone(LoadedDisk(w, e).files, d0.files, lc)
  {
    hide *;
    var lc := Linked(w, d0, tx, files);
    MirrorsBlind(w, d0, rs, s, m, lc.transaction);
    MirrorsSame(w, d0, rs, s, m);
    DurableIsRest(m, s);
    CommitLinkedBlind(w, d0, s, m.attribution, tx, files);
    SameOps(CommitLinkedPlan(w, d0, m, tx, files), CommitLinkedPlan(w, d0, s, tx, files));
    LinkedCommitRecovers(w, d0, rs, s, tx, files, d, n, e);
    if d == d0 {
      LoadsAsIs(w, e, rs, s, m);
    } else {
      LoadsAsIs(w, e, rs + [DeltaFor(s, lc.transaction)], After(s, lc.transaction), After(m, lc.transaction));
    }
  }

  // ----- which commits leave a world that loads -----

  /** A journaled transaction that does not apply is poison: from the moment its pending record is durable, every load
      fails, and cutting loads off anywhere does not help. */
  lemma PoisonedFrame(w: World, d0: Disk, rs: seq<ArcaneDelta>, s: LedgerState, m: LedgerState, tx: Transaction,
                      d: Disk, n: nat, e: Disk)
    requires Mirrors(w, d0, rs, s, m) && WritesRecord(m, tx) && !(Applies(m, tx) && Fits(m))
    requires CrashLeaves(d0, CommitPlan(w, d0, m, tx).ops, d) && d != d0
    requires CrashedLoads(w, d, n, e)
    ensures LoadPlan(w, e).outcome.None?
  {
    hide *;
    MirrorsBlind(w, d0, rs, s, m, tx);
    SameOps(CommitPlan(w, d0, m, tx), CommitPlan(w, d0, s, tx));
    WritesRecordParts(s, tx);
    StrandingCommit(w, d0, rs, s, tx);
    LoadsStayStranded(w, d0, rs, s, tx, d, n, e);
    StrandedFails(w, d0, rs, s, tx, e);
  }

  /** What a record must meet to be loaded again: no owner is debited more than it has, no version and no total is at
      its limit, and the record is within the bounds of the reader. */
  ghost predicate Loadable(w: World, d: Disk, m: LedgerState, tx: Transaction) {
    && Covered(m.accounts, tx.debits) && VersionsBelowMaximum(m.accounts, Touched(tx)) && Fits(m)
    && Readable(w, d, DeltaFor(m, tx))
  }

  /** Exactly which commits leave a world that loads again, now and after any number of interrupted loads: those that
      write no record, and those whose record is loadable. */
  lemma LoadAfterCommitIff(w: World, d0: Disk, rs: seq<ArcaneDelta>, s: LedgerState, m: LedgerState, tx: Transaction,
                           n: nat, e: Disk)
    requires Mirrors(w, d0, rs, s, m) && CrashedLoads(w, PerformAll(d0, CommitPlan(w, d0, m, tx).ops), n, e)
    ensures LoadPlan(w, e).outcome.Some? <==> (WritesRecord(m, tx) ==> Loadable(w, d0, m, tx))
  {
    hide *;
    MirrorsBlind(w, d0, rs, s, m, tx);
    SameOps(CommitPlan(w, d0, m, tx), CommitPlan(w, d0, s, tx));
    var delta := DeltaFor(s, tx);
    var d := PerformAll(d0, CommitPlan(w, d0, s, tx).ops);
    if !WritesRecord(s, tx) {
      NoRecord(w, d0, rs, s, tx);
      LoadsStayClean(w, d0, rs, s, n, e);
      LoadClean(w, d0, rs, s);
    } else {
      WritesRecordParts(s, tx);
      LoadableIff(w, d0, m, tx);
      if !(Applies(s, tx) && Fits(s)) || TWO32 <= |w.codec.encode(delta)| {
        StrandingCommit(w, d0, rs, s, tx);
        LoadsStayStranded(w, d0, rs, s, tx, d, n, e);
        StrandedFails(w, d0, rs, s, tx, e);
        if TWO32 <= |w.codec.encode(delta)| && Readable(w, d0, delta) {
          ReadableShort(w, d0, delta);
        }
      } else {
        CleanGate(w, d0, rs, s, tx);
        RecordTakesEffect(s, tx);
        CommitPlanRuns(w, d0, s, tx);
        CommitOpsPhases(w, d0, s, tx);
        if Readable(w, d0, delta) {
          CommittableNow(w, d0, rs, s, tx);
          AppendedClean(w, d0, rs, s, tx);
          LoadsStayClean(w, d, rs + [delta], After(s, tx), n, e);
          LoadClean(w, d, rs + [delta], After(s, tx));
        } else {
          UnreadableTail(w, d0, rs, s, delta);
          LoadsStayPut(w, d, n, e);
        }
      }
    }
  }

  lemma RecordTakesEffect(s: LedgerState, tx: Transaction)
    requires WritesRecord(s, tx) && Applies(s, tx)
    ensures TakesEffect(s, tx)
  {
    hide Applies, Accepts, Duplicate;
  }

  /** For a transaction that validation lets through. */
  lemma LoadableIff(w: World, d: Disk, m: LedgerState, tx: Transaction)
    requires WritesRecord(m, tx)
    ensures Loadable(w, d, m, tx) <==> Applies(m, tx) && Fits(m) && Readable(w, d, DeltaFor(m, tx))
  {
    WritesRecordParts(m, tx);
    hide Applies, Accepts, Covered, VersionsBelowMaximum, Readable, Fits;
    if Fits(m) {
      AppliesIff(m, tx);
    }
  }

  /** A refused or repeated transaction does not touch a clean disk. */
  lemma NoRecord(w: World, d: Disk, rs: seq<ArcaneDelta>, s: LedgerState, tx: Transaction)
    requires Clean(w, d, rs, s) && !WritesRecord(s, tx)
    ensures PerformAll(d, CommitPlan(w, d, s, tx).ops) == d
  {
    CleanHolds(w, d, rs, s);
    NoOps(d);
    hide Accepts, Applies, Duplicate, Clean, Holds;
  }
}
