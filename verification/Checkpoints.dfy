/** Checkpoints cut off, and the loads that put the old checkpoint back cut off as well. */
module Checkpoints {
  import opened Prelude
  import opened LedgerModel
  import opened LedgerRuns
  import opened Frames
  import opened Journal
  import opened Recovery
  import opened RunningLedger
  import opened Snapshots

  /** The old checkpoint is back, the log is not yet. */
  function HalfRestored(w: World, d: Disk, saved: LedgerState, i: nat): Disk {
    SaveStep(w, d, saved, i).(snapshot := d.snapshot)
  }

  lemma RestoreLeaves(w: World, d: Disk, saved: LedgerState, i: nat, mid: Disk)
    requires CrashLeaves(SaveStep(w, d, saved, i), [WriteSnapshot(d.snapshot), ReplaceLog(d.log)], mid)
    ensures mid == SaveStep(w, d, saved, i) || mid == HalfRestored(w, d, saved, i) || mid == Restored(w, d, saved, i)
  {
    var e := SaveStep(w, d, saved, i);
    TwoOps(e, WriteSnapshot(d.snapshot), ReplaceLog(d.log));
    assert Perform(e, WriteSnapshot(d.snapshot)) == HalfRestored(w, d, saved, i);
    assert Perform(HalfRestored(w, d, saved, i), ReplaceLog(d.log)) == Restored(w, d, saved, i);
    OneOp(HalfRestored(w, d, saved, i), ReplaceLog(d.log));
    hide SaveStep, CrashLeaves, HalfRestored, Restored, Perform;
  }

  lemma HalfIsLeft(w: World, d: Disk, saved: LedgerState, i: nat)
    ensures CrashLeaves(SaveStep(w, d, saved, i), [WriteSnapshot(d.snapshot), ReplaceLog(d.log)],
                        HalfRestored(w, d, saved, i))
  {
    var e, ops := SaveStep(w, d, saved, i), [WriteSnapshot(d.snapshot), ReplaceLog(d.log)];
    assert Perform(e, ops[0]) == HalfRestored(w, d, saved, i);
    assert CrashLeaves(Perform(e, ops[0]), ops[1..], Perform(e, ops[0]));
    hide SaveStep;
  }

  /** With the log already emptied, what is left to load is the old checkpoint alone. */
  lemma HalfLoads(w: World, d: Disk, rs: seq<ArcaneDelta>, t: LedgerState, saved: LedgerState, i: nat)
    requires Clean(w, d, rs, t) && Torn(w, d, saved, i) && Decodes(w, Durable(saved))
    ensures i == 3 ==> Clean(w, HalfRestored(w, d, saved, i), rs, t)
    ensures 3 < i && Conserved(d.snapshot) ==> Clean(w, HalfRestored(w, d, saved, i), [], d.snapshot)
    ensures 3 < i ==>
              LoadPlan(w, HalfRestored(w, d, saved, i)).outcome
              == if Conserved(d.snapshot) then Some(d.snapshot) else None
  {
    var half := HalfRestored(w, d, saved, i);
    HalfHolds(w, d, rs, t, saved, i);
    hide Clean, Conserved, SaveStep, HalfRestored;
    if i == 3 {
      HalfEarly(w, d, rs, t, saved);
    } else {
      assert RestoreOps(w, half) == Some([]);
      hide RestoreOps;
      ReplayHolds(w, half, [], d.snapshot);
      NoOps(half);
      hide ReplayPlan, Holds, ReplayOps;
      if Conserved(d.snapshot) {
        CleanFrom(w, half, [], d.snapshot);
      }
    }
  }

  lemma HalfHolds(w: World, d: Disk, rs: seq<ArcaneDelta>, t: LedgerState, saved: LedgerState, i: nat)
    requires Clean(w, d, rs, t) && Torn(w, d, saved, i) && Decodes(w, Durable(saved))
    ensures var half := HalfRestored(w, d, saved, i);
            && half.pending.None? && half.linked.None? && w.fingerprint(half.snapshot) == half.manifest
            && (3 < i ==> Holds(w, half, [], d.snapshot))
  {
    LogHeaderAlone(w.codec);
    hide Conserved;
    hide Faithful;
  }

  lemma HalfEarly(w: World, d: Disk, rs: seq<ArcaneDelta>, t: LedgerState, saved: LedgerState)
    requires Clean(w, d, rs, t)
    ensures Clean(w, HalfRestored(w, d, saved, 3), rs, t)
  {
    hide ApplyRecords, Decodable, Faithful, Log;
  }

  /** A load brings back one of two ledgers and leaves a clean disk. */
  ghost predicate Comes(w: World, f: Disk, m: LedgerState, saved: LedgerState) {
    && LoadPlan(w, f).outcome.Some?
    && (SameDurable(LoadPlan(w, f).outcome.value, m) || SameDurable(LoadPlan(w, f).outcome.value, saved))
    && exists records :: Clean(w, LoadedDisk(w, f), records, LoadPlan(w, f).outcome.value)
  }

  lemma ComesFrom(w: World, f: Disk, records: seq<ArcaneDelta>, t: LedgerState, m: LedgerState, saved: LedgerState)
    requires LoadPlan(w, f).outcome == Some(t) && Clean(w, LoadedDisk(w, f), records, t)
    requires SameDurable(t, m) || SameDurable(t, saved)
    ensures Comes(w, f, m, saved)
  {
    hide LoadPlan, LoadedDisk, Clean, SameDurable;
  }

  lemma ComesClean(w: World, e: Disk, records: seq<ArcaneDelta>, t: LedgerState, n: nat, f: Disk, m: LedgerState,
                   saved: LedgerState)
    requires Clean(w, e, records, t) && CrashedLoads(w, e, n, f)
    requires SameDurable(t, m) || SameDurable(t, saved)
    ensures Comes(w, f, m, saved)
  {
    hide *;
    LoadsStayClean(w, e, records, t, n, f);
    LoadClean(w, e, records, t);
    ComesFrom(w, f, records, t, m, saved);
  }

  lemma ConservedAlike(a: LedgerState, b: LedgerState)
    requires SameDurable(a, b)
    ensures Conserved(a) <==> Conserved(b)
  {
    DurableIsRest(a, b);
    hide GrandTotal;
  }

  lemma SameBack(a: LedgerState, b: LedgerState)
    requires SameDurable(a, b)
    ensures SameDurable(b, a)
  {
  }

  lemma SameTwice(a: LedgerState, b: LedgerState, c: LedgerState)
    requires SameDurable(a, b) && SameDurable(b, c)
    ensures SameDurable(a, c)
  {
  }

  lemma FirstCrash(w: World, d: Disk, n: nat, e: Disk) returns (mid: Disk)
    requires 0 < n && CrashedLoads(w, d, n, e)
    ensures CrashLeaves(d, LoadPlan(w, d).ops, mid) && CrashedLoads(w, mid, n - 1, e)
  {
    hide LoadPlan, CrashLeaves;
    mid :| CrashLeaves(d, LoadPlan(w, d).ops, mid) && CrashedLoads(w, mid, n - 1, e);
  }

  /** Restoring can be cut off any number of times when the old checkpoint alone is one of the two ledgers. */
  lemma {:induction false} RestoresCome(w: World, d: Disk, rs: seq<ArcaneDelta>, t: LedgerState, m: LedgerState,
                                        saved: LedgerState, i: nat, n: nat, f: Disk)
    requires Clean(w, d, rs, t) && SameDurable(t, m) && Torn(w, d, saved, i)
    requires Conserved(saved) && Decodes(w, Durable(saved))
    requires SameDurable(d.snapshot, m) || SameDurable(d.snapshot, saved)
    requires CrashedLoads(w, SaveStep(w, d, saved, i), n, f)
    ensures Comes(w, f, m, saved)
    decreases n
  {
    TornIs(w, d, saved);
    hide *;
    var e := SaveStep(w, d, saved, i);
    RestoreCut(w, d, rs, t, saved, i);
    if n == 0 {
      NoLoads(w, e, f);
      ComesFrom(w, f, rs, t, m, saved);
    } else {
      var mid := FirstCrash(w, e, n, f);
      RestoreLeaves(w, d, saved, i, mid);
      if mid == e {
        RestoresCome(w, d, rs, t, m, saved, i, n - 1, f);
      } else if mid == Restored(w, d, saved, i) {
        ComesClean(w, mid, rs, t, n - 1, f, m, saved);
      } else {
        SnapshotConserves(w, d, rs, t, m, saved);
        HalfLoads(w, d, rs, t, saved, i);
        if i == 3 {
          ComesClean(w, mid, rs, t, n - 1, f, m, saved);
        } else {
          ComesClean(w, mid, [], d.snapshot, n - 1, f, m, saved);
        }
      }
    }
  }

  lemma NoLoads(w: World, d: Disk, e: Disk)
    requires CrashedLoads(w, d, 0, e)
    ensures e == d
  {
  }

  lemma SnapshotConserves(w: World, d: Disk, rs: seq<ArcaneDelta>, t: LedgerState, m: LedgerState, saved: LedgerState)
    requires Clean(w, d, rs, t) && SameDurable(t, m) && Conserved(saved)
    requires SameDurable(d.snapshot, m) || SameDurable(d.snapshot, saved)
    ensures Conserved(d.snapshot)
  {
    hide *;
    CleanHolds(w, d, rs, t);
    ConservedAlike(t, m);
    if SameDurable(d.snapshot, m) {
      ConservedAlike(d.snapshot, m);
    } else {
      ConservedAlike(d.snapshot, saved);
    }
  }

  /** Checked before the call: nothing was committed since the last checkpoint, or nothing new is being saved. */
  ghost predicate Rested(d: Disk, m: LedgerState, saved: LedgerState) {
    SameDurable(d.snapshot, m) || SameDurable(d.snapshot, saved)
  }

  /** Cut a checkpoint off anywhere. The next load brings back what was durable before, or what was being saved, and so
      does a load after any number of interrupted ones when the world is rested. */
  lemma CheckpointCrashSafe(w: World, d: Disk, rs: seq<ArcaneDelta>, t: LedgerState, m: LedgerState,
                            saved: LedgerState, e: Disk, n: nat, f: Disk)
    requires Mirrors(w, d, rs, t, m) && Conserved(saved) && Decodes(w, Durable(saved))
    requires Distinguishes(w, Durable(saved), d.snapshot)
    requires CrashLeaves(d, SaveOps(w, d, saved), e) && CrashedLoads(w, e, n, f)
    requires n == 0 || Rested(d, m, saved)
    ensures Comes(w, f, m, saved)
  {
    assert Rested(d, m, saved) ==> SameDurable(d.snapshot, m) || SameDurable(d.snapshot, saved);
    hide *;
    MirrorsParts(w, d, rs, t, m);
    SameBack(m, t);
    SaveCases(w, d, rs, t, saved, e);
    DurableTwice(saved);
    SameBack(saved, Durable(saved));
    if Clean(w, e, rs, t) {
      ComesClean(w, e, rs, t, n, f, m, saved);
    } else if Clean(w, e, [], Durable(saved)) {
      ComesClean(w, e, [], Durable(saved), n, f, m, saved);
    } else {
      var i :| Torn(w, d, saved, i) && e == SaveStep(w, d, saved, i);
      TornComes(w, d, rs, t, m, saved, i, n, f);
    }
  }

  lemma TornComes(w: World, d: Disk, rs: seq<ArcaneDelta>, t: LedgerState, m: LedgerState, saved: LedgerState, i: nat,
                  n: nat, f: Disk)
    requires Clean(w, d, rs, t) && SameDurable(t, m) && Torn(w, d, saved, i)
    requires Conserved(saved) && Decodes(w, Durable(saved))
    requires n == 0 || SameDurable(d.snapshot, m) || SameDurable(d.snapshot, saved)
    requires CrashedLoads(w, SaveStep(w, d, saved, i), n, f)
    ensures Comes(w, f, m, saved)
  {
    hide *;
    if n == 0 {
      NoLoads(w, SaveStep(w, d, saved, i), f);
      RestoreCut(w, d, rs, t, saved, i);
      ComesFrom(w, f, rs, t, m, saved);
    } else {
      RestoresCome(w, d, rs, t, m, saved, i, n, f);
    }
  }

  lemma MirrorsParts(w: World, d: Disk, rs: seq<ArcaneDelta>, t: LedgerState, m: LedgerState)
    requires Mirrors(w, d, rs, t, m)
    ensures Clean(w, d, rs, t) && SameDurable(m, t)
  {
    hide Clean, SameDurable;
  }

  /** In every other world there is a crash of the checkpoint, and one of the load after it, that bring back neither
      ledger: what was committed since the last checkpoint is gone. */
  lemma SecondCrashLoses(w: World, d: Disk, rs: seq<ArcaneDelta>, t: LedgerState, m: LedgerState, saved: LedgerState)
    returns (e: Disk, f: Disk)
    requires Mirrors(w, d, rs, t, m) && Conserved(saved) && Decodes(w, Durable(saved))
    requires Distinguishes(w, Durable(saved), d.snapshot)
    requires !Rested(d, m, saved)
    ensures CrashLeaves(d, SaveOps(w, d, saved), e) && CrashedLoads(w, e, 1, f)
    ensures LoadPlan(w, f).outcome == if Conserved(d.snapshot) then Some(d.snapshot) else None
    ensures !Comes(w, f, m, saved)
  {
    assert !SameDurable(d.snapshot, m) && !SameDurable(d.snapshot, saved);
    DistinguishedManifest(w, d, saved);
    TornIs(w, d, saved);
    hide *;
    MirrorsParts(w, d, rs, t, m);
    CleanManifest(w, d, rs, t);
    e, f := SaveStep(w, d, saved, 4), HalfRestored(w, d, saved, 4);
    assert Torn(w, d, saved, 4);
    SaveStepLeft(w, d, saved, 4);
    RestoreCut(w, d, rs, t, saved, 4);
    HalfIsLeft(w, d, saved, 4);
    OneLoad(w, e, f);
    HalfLoads(w, d, rs, t, saved, 4);
    ComesNeither(w, f, m, saved, d.snapshot);
  }

  lemma DistinguishedManifest(w: World, d: Disk, saved: LedgerState)
    requires Distinguishes(w, Durable(saved), d.snapshot) && !SameDurable(d.snapshot, saved)
    ensures w.fingerprint(Durable(saved)) != w.fingerprint(d.snapshot)
  {
  }

  lemma SaveStepLeft(w: World, d: Disk, saved: LedgerState, i: nat)
    requires i <= 6
    ensures CrashLeaves(d, SaveOps(w, d, saved), SaveStep(w, d, saved, i))
  {
    var ops := SaveOps(w, d, saved);
    SavePrefix(w, d, saved, i);
    hide SaveOps, SaveStep;
    assert |ops| == 6 by { SaveNeverAppends(w, d, saved); }
    PrefixLeft(d, ops, i);
  }

  lemma {:induction false} PrefixLeft(d: Disk, ops: seq<DiskOp>, i: nat)
    requires i <= |ops|
    ensures CrashLeaves(d, ops, PerformAll(d, ops[..i]))
    decreases |ops|
  {
    hide Perform, TornAppend;
    if i == 0 {
      NoOps(d);
    } else {
      PrefixLeft(Perform(d, ops[0]), ops[1..], i - 1);
      assert ops[..i] == [ops[0]] + ops[1..][..i - 1];
      PerformConcat(d, [ops[0]], ops[1..][..i - 1]);
      OneOp(d, ops[0]);
      hide PerformAll;
    }
  }

  lemma OneLoad(w: World, e: Disk, f: Disk)
    requires CrashLeaves(e, LoadPlan(w, e).ops, f)
    ensures CrashedLoads(w, e, 1, f)
  {
    hide CrashLeaves, LoadPlan;
    assert CrashedLoads(w, f, 0, f);
  }

  lemma NoLoadsYet(w: World, e: Disk)
    ensures CrashedLoads(w, e, 0, e)
  {
  }

  lemma ComesSome(w: World, f: Disk, m: LedgerState, saved: LedgerState)
    ensures Comes(w, f, m, saved) ==> LoadPlan(w, f).outcome.Some?
  {
    hide LoadPlan, Conserved, SameDurable, Clean, LoadedDisk;
  }

  lemma ComesNeither(w: World, f: Disk, m: LedgerState, saved: LedgerState, old': LedgerState)
    requires LoadPlan(w, f).outcome == if Conserved(old') then Some(old') else None
    requires !SameDurable(old', m) && !SameDurable(old', saved)
    ensures !Comes(w, f, m, saved)
  {
    hide LoadPlan, Conserved, SameDurable, Clean, LoadedDisk;
  }

  /** A snapshot that cannot be read back, once written, stops every load, whatever loads were cut off before it. */
  lemma UnreadableCheckpoint(w: World, d: Disk, saved: LedgerState, i: nat, n: nat, f: Disk)
    requires 3 <= i <= 6 && !Decodes(w, Durable(saved))
    requires CrashedLoads(w, SaveStep(w, d, saved, i), n, f)
    ensures LoadPlan(w, f) == Plan([], None)
  {
    var e := SaveStep(w, d, saved, i);
    assert e.snapshot == Durable(saved);
    assert LoadPlan(w, e) == Plan([], None) by { hide Decodes, SaveStep; }
    hide *;
    LoadsStayPut(w, e, n, f);
  }

  /** A finished checkpoint loads, now and after any number of interrupted loads, exactly when its snapshot can be read
      back. */
  lemma FinishedCheckpointIff(w: World, d: Disk, rs: seq<ArcaneDelta>, t: LedgerState, saved: LedgerState, n: nat,
                              f: Disk)
    requires Clean(w, d, rs, t) && Conserved(saved)
    requires CrashedLoads(w, PerformAll(d, SaveOps(w, d, saved)), n, f)
    ensures LoadPlan(w, f).outcome == if Decodes(w, Durable(saved)) then Some(Durable(saved)) else None
  {
    hide *;
    SavePrefix(w, d, saved, 6);
    SaveNeverAppends(w, d, saved);
    assert SaveOps(w, d, saved)[..6] == SaveOps(w, d, saved);
    var e := SaveStep(w, d, saved, 6);
    if Decodes(w, Durable(saved)) {
      SaveLate(w, d, rs, t, saved, 6);
      LoadsStayClean(w, e, [], Durable(saved), n, f);
      LoadClean(w, e, [], Durable(saved));
    } else {
      UnreadableCheckpoint(w, d, saved, 6, n, f);
    }
  }

  lemma DurableAccounts(w: World, m: LedgerState)
    ensures Decodes(w, Durable(m)) ==> AccountsSound(m)
  {
    assert Durable(m).accounts == m.accounts && Durable(m).registry == m.registry;
    hide AccountSound;
  }

  /** So an operator who takes the last unit out of Deep, which every check allows, leaves a world no load can open. */
  lemma DrainingStrands(w: World, d: Disk, rs: seq<ArcaneDelta>, t: LedgerState, m: LedgerState, op: LedgerOp, n: nat,
                        f: Disk)
    requires Mirrors(w, d, rs, t, m) && Conserved(m) && AccountsSound(m)
    requires op.AdjustDeep? && AdjustAllowed(m, op) && Drains(m, op)
    requires CrashedLoads(w, PerformAll(d, SaveOps(w, d, Adjusted(m, op))), n, f)
    ensures LoadPlan(w, f).outcome == None
  {
    hide *;
    MirrorsParts(w, d, rs, t, m);
    AllowedEnds(m, op);
    AdjustKeepsAccountsIff(m, op);
    DurableAccounts(w, Adjusted(m, op));
    FinishedCheckpointIff(w, d, rs, t, Adjusted(m, op), n, f);
  }

  /** Exactly when a checkpoint survives every crash, of itself and of the loads after it: its snapshot can be read back
      and the world is rested. */
  lemma CheckpointSafeIff(w: World, d: Disk, rs: seq<ArcaneDelta>, t: LedgerState, m: LedgerState, saved: LedgerState)
    requires Mirrors(w, d, rs, t, m) && Conserved(saved) && Distinguishes(w, Durable(saved), d.snapshot)
    ensures (forall e, n: nat, f | CrashLeaves(d, SaveOps(w, d, saved), e) && CrashedLoads(w, e, n, f) ::
               Comes(w, f, m, saved))
            <==> Decodes(w, Durable(saved)) && Rested(d, m, saved)
  {
    hide *;
    if !Decodes(w, Durable(saved)) {
      var e := SaveStep(w, d, saved, 3);
      SaveStepLeft(w, d, saved, 3);
      NoLoadsYet(w, e);
      UnreadableCheckpoint(w, d, saved, 3, 0, e);
      ComesSome(w, e, m, saved);
    } else if Rested(d, m, saved) {
      forall e, n: nat, f | CrashLeaves(d, SaveOps(w, d, saved), e) && CrashedLoads(w, e, n, f)
        ensures Comes(w, f, m, saved)
      {
        CheckpointCrashSafe(w, d, rs, t, m, saved, e, n, f);
      }
    } else {
      var e, f := SecondCrashLoses(w, d, rs, t, m, saved);
      assert CrashLeaves(d, SaveOps(w, d, saved), e) && CrashedLoads(w, e, 1, f);
    }
  }

  /** An input of that kind: any world after a commit was acknowledged and before it is saved again. Saving it can be
      cut off so that the load after an interrupted load brings back the last checkpoint, or nothing, and the
      transaction is forgotten. */
  lemma SavingCanLoseACommit(w: World, d: Disk, rs: seq<ArcaneDelta>, s: LedgerState, m: LedgerState, tx: Transaction)
    returns (e: Disk, f: Disk)
    requires Mirrors(w, d, rs, s, m) && TakesEffect(m, tx) && Fits(m) && tx.linked == []
    requires Readable(w, d, DeltaFor(m, tx))
    requires Applies(m, tx) && Decodes(w, Durable(After(m, tx))) && Distinguishes(w, Durable(After(m, tx)), d.snapshot)
    ensures var d1 := PerformAll(d, CommitPlan(w, d, m, tx).ops);
            && CommitPlan(w, d, m, tx).outcome == Some(After(m, tx))
            && CrashLeaves(d1, SaveOps(w, d1, After(m, tx)), e) && CrashedLoads(w, e, 1, f)
            && LoadPlan(w, f).outcome == (if Conserved(d.snapshot) then Some(d.snapshot) else None)
            && Duplicate(After(m, tx), tx.id) && !Duplicate(d.snapshot, tx.id)
  {
    hide *;
    var after := After(m, tx);
    var d1 := PerformAll(d, CommitPlan(w, d, m, tx).ops);
    CommitMirrors(w, d, rs, s, m, tx);
    CommitEnds(w, d, rs, s, m, tx);
    CommitKeepsSnapshot(w, d, rs, s, m, tx);
    MirrorsParts(w, d, rs, s, m);
    SameBack(m, s);
    CleanHolds(w, d, rs, s);
    ConservedAlike(m, s);
    AppliedKeepsConserved(m, tx);
    AppliedIsDuplicate(m, tx);
    NotDecided(w, d, rs, s, m, tx);
    ForgottenNotRested(d1, after, tx.id);
    e, f := SecondCrashLoses(w, d1, rs + [DeltaFor(m, tx)], After(s, tx), after, after);
  }

  lemma {:induction false} ReplayKeepsDecided(s: LedgerState, rs: seq<ArcaneDelta>, id: TransactionId)
    requires ApplyRecords(s, rs).Some? && Duplicate(s, id)
    ensures Duplicate(ApplyRecords(s, rs).value, id)
  {
    hide Applies, Moved, Settle, Provenance, EvictedReceipts, KeepNewest, GrandTotal, ReceiptFor, Touched, Fits;
    if rs != [] {
      ReplayKeepsDecided(s, rs[..|rs| - 1], id);
    }
  }

  /** What takes effect now was not decided at the last checkpoint. */
  lemma NotDecided(w: World, d: Disk, rs: seq<ArcaneDelta>, s: LedgerState, m: LedgerState, tx: Transaction)
    requires Clean(w, d, rs, s) && SameDurable(m, s) && TakesEffect(m, tx)
    ensures !Duplicate(d.snapshot, tx.id)
  {
    assert ApplyRecords(d.snapshot, rs) == Some(s) by {
      hide ApplyRecords, Decodable, Faithful, Log, Conserved, Decodes;
    }
    assert !Duplicate(s, tx.id) by {
      DurableIsRest(m, s);
      hide Applies, ApplyRecords, Clean;
    }
    hide *;
    if Duplicate(d.snapshot, tx.id) {
      ReplayKeepsDecided(d.snapshot, rs, tx.id);
    }
  }

  lemma ForgottenNotRested(d: Disk, m: LedgerState, id: TransactionId)
    requires Duplicate(m, id) && !Duplicate(d.snapshot, id)
    ensures !Rested(d, m, m)
  {
    if SameDurable(d.snapshot, m) {
      DurableIsRest(d.snapshot, m);
    }
  }

  lemma CommitKeepsSnapshot(w: World, d: Disk, rs: seq<ArcaneDelta>, s: LedgerState, m: LedgerState, tx: Transaction)
    requires Mirrors(w, d, rs, s, m) && TakesEffect(m, tx) && Fits(m) && tx.linked == []
    requires Readable(w, d, DeltaFor(m, tx))
    ensures PerformAll(d, CommitPlan(w, d, m, tx).ops).snapshot == d.snapshot
  {
    hide *;
    MirrorsBlind(w, d, rs, s, m, tx);
    CleanGate(w, d, rs, s, tx);
    ReadableShort(w, d, DeltaFor(m, tx));
    CommitPlanRuns(w, d, m, tx);
    CommitOpsPhases(w, d, m, tx);
    AppendedSnapshot(w, d, DeltaFor(m, tx));
  }

  lemma AppendedSnapshot(w: World, d: Disk, delta: ArcaneDelta)
    ensures Appended(w, d, delta).snapshot == d.snapshot
  {
    hide Frame;
  }
}
