/** Crash safety of the journal: a commit cut off anywhere is recovered as all or nothing. */
module Recovery {
  import opened Prelude
  import opened LedgerModel
  import opened LedgerLaws
  import opened LedgerRuns
  import opened Frames
  import opened Journal

  // ----- disks at rest -----

  ghost predicate Contiguous(s: LedgerState, rs: seq<ArcaneDelta>) {
    forall i | 0 <= i < |rs| :: rs[i].sequence == s.lastDeltaSeq + 1 + i
  }

  /** The checkpoint and the log `rs` together hold the ledger `s`. */
  ghost predicate Holds(w: World, d: Disk, rs: seq<ArcaneDelta>, s: LedgerState) {
    && Faithful(w.codec)
    && d.log == Log(w.codec, rs) && Decodable(w.codec, rs) && |d.log| <= MAX_DELTA_BYTES
    && Contiguous(d.snapshot, rs)
    && ApplyRecords(d.snapshot, rs) == Some(s)
    && Decodes(w, d.snapshot) && w.fingerprint(d.snapshot) == d.manifest
  }

  ghost predicate Clean(w: World, d: Disk, rs: seq<ArcaneDelta>, s: LedgerState) {
    Holds(w, d, rs, s) && d.pending.None? && d.linked.None? && Conserved(s)
  }

  lemma {:induction false} LastSequence(s: LedgerState, rs: seq<ArcaneDelta>)
    requires Contiguous(s, rs) && ApplyRecords(s, rs).Some?
    ensures ApplyRecords(s, rs).value.lastDeltaSeq == s.lastDeltaSeq + |rs|
  {
    hide Applies, Recorded, Fits;
    if rs != [] {
      LastSequence(s, rs[..|rs| - 1]);
    }
  }

  // ----- one commit in flight -----

  function DeltaFor(s: LedgerState, tx: Transaction): ArcaneDelta {
    ArcaneDelta(s.lastDeltaSeq + 1, tx)
  }

  function TornAt(w: World, d: Disk, delta: ArcaneDelta, k: nat): Disk
    requires k <= |Frame(w.codec, delta)|
  {
    d.(pending := Some(delta), log := d.log + Frame(w.codec, delta)[..k])
  }

  function Appended(w: World, d: Disk, delta: ArcaneDelta): Disk {
    d.(log := d.log + Frame(w.codec, delta))
  }

  /** The bounds a record must meet to be read back. */
  ghost predicate Readable(w: World, d: Disk, delta: ArcaneDelta) {
    |w.codec.encode(delta)| <= MAX_PAYLOAD && |d.log| + |Frame(w.codec, delta)| <= MAX_DELTA_BYTES
  }

  ghost predicate Committable(w: World, d: Disk, rs: seq<ArcaneDelta>, s: LedgerState, tx: Transaction) {
    && Holds(w, d, rs, s) && d.pending.None?
    && s.lastDeltaSeq < U64_MAX && Applies(s, tx) && Fits(s)
    && Readable(w, d, DeltaFor(s, tx))
  }

  /** The pending record of a commit from `d0` became durable; it is half written, or done. */
  ghost predicate Started(w: World, d0: Disk, delta: ArcaneDelta, d: Disk) {
    || d == Appended(w, d0, delta)
    || exists k: nat :: k <= |Frame(w.codec, delta)| && d == TornAt(w, d0, delta, k)
  }

  ghost predicate Phase(w: World, d0: Disk, delta: ArcaneDelta, d: Disk) {
    d == d0 || Started(w, d0, delta, d)
  }

  lemma ApplyOneMore(s0: LedgerState, rs: seq<ArcaneDelta>, s: LedgerState, tx: Transaction)
    requires ApplyRecords(s0, rs) == Some(s) && s.lastDeltaSeq < U64_MAX
    ensures ApplyRecords(s0, rs + [DeltaFor(s, tx)])
            == if Applies(s, tx) && Fits(s) then Some(After(s, tx)) else None
  {
    hide Applies, Fits, After;
    assert (rs + [DeltaFor(s, tx)])[..|rs|] == rs;
  }

  lemma AppendedHolds(w: World, d: Disk, rs: seq<ArcaneDelta>, s: LedgerState, tx: Transaction)
    requires Committable(w, d, rs, s, tx)
    ensures Holds(w, Appended(w, d, DeltaFor(s, tx)), rs + [DeltaFor(s, tx)], After(s, tx))
  {
    hide Applies, Fits, After, ApplyRecords, Frame, Faithful, Log;
    var delta := DeltaFor(s, tx);
    LogSnoc(w.codec, rs, delta);
    OneMoreRecord(w, d.snapshot, rs, s, delta);
    ApplyOneMore(d.snapshot, rs, s, tx);
  }

  lemma OneMoreRecord(w: World, s0: LedgerState, rs: seq<ArcaneDelta>, s: LedgerState, delta: ArcaneDelta)
    requires Contiguous(s0, rs) && ApplyRecords(s0, rs) == Some(s) && delta.sequence == s.lastDeltaSeq + 1
    requires Decodable(w.codec, rs) && |w.codec.encode(delta)| <= MAX_PAYLOAD
    ensures Contiguous(s0, rs + [delta]) && Decodable(w.codec, rs + [delta])
  {
    LastSequence(s0, rs);
    hide ApplyRecords;
  }

  lemma ReplayHolds(w: World, d: Disk, rs: seq<ArcaneDelta>, s: LedgerState)
    requires Holds(w, d, rs, s) && d.pending.None?
    ensures ReplayOps(w, d) == Some(Replay([], rs))
    ensures ReplayPlan(w, d) == Plan([], Some(s))
  {
    hide ApplyRecords, Decode, FrameAll, Faithful;
    DecodeLog(w.codec, rs);
  }

  function RepairOps(w: World, d: Disk, delta: ArcaneDelta, whole: bool): seq<DiskOp> {
    if whole then [RemovePending] else [ReplaceLog(d.log + Frame(w.codec, delta)), RemovePending]
  }

  /** The pending record restores a torn tail, whatever part of its frame reached the log. */
  lemma ReplayTornOps(w: World, d: Disk, rs: seq<ArcaneDelta>, s: LedgerState, tx: Transaction, k: nat)
    requires Holds(w, d, rs, s) && s.lastDeltaSeq < U64_MAX
    requires |w.codec.encode(DeltaFor(s, tx))| < TWO32 && k <= |Frame(w.codec, DeltaFor(s, tx))|
    requires |d.log| + k <= MAX_DELTA_BYTES
    ensures var delta := DeltaFor(s, tx);
            ReplayOps(w, TornAt(w, d, delta, k))
            == Some(Replay(RepairOps(w, d, delta, k == |Frame(w.codec, delta)|
                                     && |w.codec.encode(delta)| <= MAX_PAYLOAD),
                           rs + [delta]))
  {
    hide ApplyRecords, Decode, FrameAll, Frame, Faithful, Log;
    var delta := DeltaFor(s, tx);
    var frame := Frame(w.codec, delta);
    LastSequence(d.snapshot, rs);
    LogHeader(w.codec, rs);
    LogSnoc(w.codec, rs, delta);
    assert (rs + [delta])[..|rs|] == rs;
    assert forall i | 0 <= i < |rs| :: rs[i].sequence != delta.sequence;
    assert (d.log + frame[..k])[..|d.log|] == d.log;
    if k < |frame| {
      DecodeTorn(w.codec, rs, delta, k);
    } else {
      assert frame[..k] == frame;
      OversizedFrameUnreadable(w.codec, rs, delta);
      if |w.codec.encode(delta)| <= MAX_PAYLOAD {
        DecodeLog(w.codec, rs + [delta]);
        assert (rs + [delta])[|rs|].sequence == delta.sequence;
      }
    }
  }

  lemma LogHeader(c: Codec<ArcaneDelta>, rs: seq<ArcaneDelta>)
    ensures Magic <= Log(c, rs)
  {
  }

  lemma RepairSteps(w: World, d: Disk, delta: ArcaneDelta, k: nat, whole: bool)
    requires k <= |Frame(w.codec, delta)| && d.pending.None? && (whole ==> k == |Frame(w.codec, delta)|)
    ensures var torn, ops := TornAt(w, d, delta, k), RepairOps(w, d, delta, whole);
            && PerformAll(torn, ops) == Appended(w, d, delta)
            && forall e | CrashLeaves(torn, ops, e) :: Started(w, d, delta, e)
  {
    hide Frame, PerformAll, CrashLeaves;
    var frame := Frame(w.codec, delta);
    assert frame[..|frame|] == frame;
    var torn, full := TornAt(w, d, delta, k), TornAt(w, d, delta, |frame|);
    OneOp(full, RemovePending);
    TwoOps(torn, ReplaceLog(d.log + frame), RemovePending);
  }

  lemma ReplayTorn(w: World, d: Disk, rs: seq<ArcaneDelta>, s: LedgerState, tx: Transaction, k: nat)
    requires Committable(w, d, rs, s, tx) && k <= |Frame(w.codec, DeltaFor(s, tx))|
    ensures var delta := DeltaFor(s, tx);
            var plan := ReplayPlan(w, TornAt(w, d, delta, k));
            && plan.outcome == Some(After(s, tx))
            && PerformAll(TornAt(w, d, delta, k), plan.ops) == Appended(w, d, delta)
            && forall e | CrashLeaves(TornAt(w, d, delta, k), plan.ops, e) :: Started(w, d, delta, e)
  {
    hide ApplyRecords, Applies, Fits, After, Frame, ReplayOps, Decodable, Faithful, RepairOps, Started, PerformAll,
         CrashLeaves;
    var delta := DeltaFor(s, tx);
    ReplayTornOps(w, d, rs, s, tx, k);
    ApplyOneMore(d.snapshot, rs, s, tx);
    RepairSteps(w, d, delta, k, k == |Frame(w.codec, delta)|);
  }

  /** What replay makes of a started commit, and which disks it can be cut off at. */
  lemma ReplayStarted(w: World, d0: Disk, rs: seq<ArcaneDelta>, s: LedgerState, tx: Transaction, d: Disk)
    requires Committable(w, d0, rs, s, tx) && Started(w, d0, DeltaFor(s, tx), d)
    ensures var delta := DeltaFor(s, tx);
            var plan := ReplayPlan(w, d);
            && plan.outcome == Some(After(s, tx))
            && PerformAll(d, plan.ops) == Appended(w, d0, delta)
            && forall e | CrashLeaves(d, plan.ops, e) :: Started(w, d0, delta, e)
  {
    hide ApplyRecords, Applies, Fits, After, ReplayPlan, Holds, Frame, Readable;
    var delta := DeltaFor(s, tx);
    if d == Appended(w, d0, delta) {
      AppendedHolds(w, d0, rs, s, tx);
      ReplayHolds(w, d, rs + [delta], After(s, tx));
    } else {
      var k: nat :| k <= |Frame(w.codec, delta)| && d == TornAt(w, d0, delta, k);
      ReplayTorn(w, d0, rs, s, tx, k);
    }
  }

  // ----- a commit on its own -----

  /** The operations of an accepted commit. */
  function CommitOps(w: World, s: LedgerState, tx: Transaction): seq<DiskOp> {
    [WritePending(DeltaFor(s, tx)), AppendLog(Frame(w.codec, DeltaFor(s, tx))), RemovePending]
  }

  lemma CommitOpsPhases(w: World, d: Disk, s: LedgerState, tx: Transaction)
    requires d.pending.None?
    ensures PerformAll(d, CommitOps(w, s, tx)) == Appended(w, d, DeltaFor(s, tx))
    ensures forall e | CrashLeaves(d, CommitOps(w, s, tx), e) :: Phase(w, d, DeltaFor(s, tx), e)
  {
    hide Frame, PerformAll, CrashLeaves;
    var delta := DeltaFor(s, tx);
    var frame := Frame(w.codec, delta);
    assert frame[..|frame|] == frame;
    var d1, d2 := TornAt(w, d, delta, 0), TornAt(w, d, delta, |frame|);
    ThreeOps(d, WritePending(delta), AppendLog(frame), RemovePending);
    assert Perform(d, WritePending(delta)) == d1;
    TwoOps(d1, AppendLog(frame), RemovePending);
    forall e | TornAppend(d1, AppendLog(frame), e) ensures Started(w, d, delta, e) {
      var k :| 0 <= k <= |frame| && e == d1.(log := d1.log + frame[..k]);
      assert e == TornAt(w, d, delta, k);
    }
    assert Perform(d1, AppendLog(frame)) == d2;
    OneOp(d2, RemovePending);
  }

  lemma AppliesAccepted(s: LedgerState, tx: Transaction)
    requires TakesEffect(s, tx)
    ensures !Duplicate(s, tx.id) && s.lastDeltaSeq < U64_MAX && Accepts(s, tx) && Applies(s, tx)
  {
    hide Moved, Accepts, VersionsBelowMaximum, Duplicate;
  }

  /** The gate passes and the commit runs to its end. */
  lemma CommitPlanRuns(w: World, d: Disk, s: LedgerState, tx: Transaction)
    requires LinkedGate(d, tx) && d.log != []
    requires TakesEffect(s, tx) && Fits(s) && |w.codec.encode(DeltaFor(s, tx))| < TWO32
    ensures CommitPlan(w, d, s, tx) == Plan(CommitOps(w, s, tx), Some(After(s, tx)))
  {
    AppliesAccepted(s, tx);
    CommitPlanCases(w, d, s, tx);
    hide *;
  }

  /** A commit that passes the gate and validation writes its record and its frame before it applies. */
  lemma CommitPlanCases(w: World, d: Disk, s: LedgerState, tx: Transaction)
    requires LinkedGate(d, tx) && d.log != []
    requires !Duplicate(s, tx.id) && s.lastDeltaSeq < U64_MAX && Accepts(s, tx)
    requires |w.codec.encode(DeltaFor(s, tx))| < TWO32
    ensures CommitPlan(w, d, s, tx)
            == if Applies(s, tx) && Fits(s) then Plan(CommitOps(w, s, tx), Some(After(s, tx)))
               else Plan([WritePending(DeltaFor(s, tx)), AppendLog(Frame(w.codec, DeltaFor(s, tx)))], None)
  {
    hide LinkedGate, Duplicate, Accepts, Fits, After, Frame, Applies;
    var delta := DeltaFor(s, tx);
    var start, append := WritePending(delta), AppendLog(Frame(w.codec, delta));
    assert [start] + [] + [append] == [start, append];
    assert [start, append] + [RemovePending] == [start, append, RemovePending];
  }

  lemma LoadClean(w: World, d: Disk, rs: seq<ArcaneDelta>, s: LedgerState)
    requires Clean(w, d, rs, s)
    ensures LoadPlan(w, d) == Plan([], Some(s)) && LoadedDisk(w, d) == d
  {
    assert RestoreOps(w, d) == Some([]);
    hide ReplayPlan, Holds, ReplayOps;
    ReplayHolds(w, d, rs, s);
  }

  /** Loading a started, unlinked commit ends with it applied. */
  lemma LoadStarted(w: World, d0: Disk, rs: seq<ArcaneDelta>, s: LedgerState, tx: Transaction, d: Disk)
    requires Committable(w, d0, rs, s, tx) && Clean(w, d0, rs, s)
    requires Started(w, d0, DeltaFor(s, tx), d)
    ensures LoadPlan(w, d).outcome == Some(After(s, tx))
    ensures LoadedDisk(w, d) == Appended(w, d0, DeltaFor(s, tx))
    ensures Clean(w, LoadedDisk(w, d), rs + [DeltaFor(s, tx)], After(s, tx))
    ensures forall e | CrashLeaves(d, LoadPlan(w, d).ops, e) :: Started(w, d0, DeltaFor(s, tx), e)
  {
    var delta := DeltaFor(s, tx);
    StartedKeeps(w, d0, delta, d);
    ReplayStarted(w, d0, rs, s, tx, d);
    AppendedHolds(w, d0, rs, s, tx);
    AppliedKeepsConserved(s, tx);
    LoadUnlinked(w, d, After(s, tx)) by { assert Holds(w, d0, rs, s); }
  }

  lemma StartedKeeps(w: World, d0: Disk, delta: ArcaneDelta, d: Disk)
    requires Started(w, d0, delta, d)
    ensures d.snapshot == d0.snapshot && d.manifest == d0.manifest && d.linked == d0.linked && d.files == d0.files
  {
    hide Frame;
  }

  /** With no backup to restore and nothing linked to finish, loading is replaying. */
  lemma LoadUnlinked(w: World, d: Disk, t: LedgerState)
    requires Decodes(w, d.snapshot) && w.fingerprint(d.snapshot) == d.manifest
    requires ReplayPlan(w, d).outcome == Some(t) && Conserved(t)
    requires PerformAll(d, ReplayPlan(w, d).ops).linked.None?
    ensures LoadPlan(w, d) == ReplayPlan(w, d)
  {
    hide ReplayPlan, Conserved;
    var ops := ReplayPlan(w, d).ops;
    assert PerformAll(d, []) == d;
    assert [] + (ops + []) == ops;
  }

  lemma AppliedKeepsConserved(s: LedgerState, tx: Transaction)
    requires Applies(s, tx)
    ensures Conserved(s) ==> Conserved(After(s, tx))
    ensures Fits(s) ==> Fits(After(s, tx))
  {
    hide Applies, After, GrandTotal;
    AppliedParts(s, tx);
    AppliedConserves(s, tx, Root);
  }

  lemma {:induction false} LoadsStayStarted(w: World, d0: Disk, rs: seq<ArcaneDelta>, s: LedgerState, tx: Transaction,
                                            d: Disk, n: nat, e: Disk)
    requires Committable(w, d0, rs, s, tx) && Clean(w, d0, rs, s)
    requires Started(w, d0, DeltaFor(s, tx), d) && CrashedLoads(w, d, n, e)
    ensures Started(w, d0, DeltaFor(s, tx), e)
    decreases n
  {
    hide Committable, Clean, Started, LoadPlan, CrashLeaves, LoadedDisk, After, Appended;
    if n > 0 {
      LoadStarted(w, d0, rs, s, tx, d);
      var mid :| CrashLeaves(d, LoadPlan(w, d).ops, mid) && CrashedLoads(w, mid, n - 1, e);
      LoadsStayStarted(w, d0, rs, s, tx, mid, n - 1, e);
    }
  }

  lemma {:induction false} LoadsStayClean(w: World, d: Disk, rs: seq<ArcaneDelta>, s: LedgerState, n: nat, e: Disk)
    requires Clean(w, d, rs, s) && CrashedLoads(w, d, n, e)
    ensures e == d
    decreases n
  {
    hide Clean, LoadPlan;
    if n > 0 {
      LoadClean(w, d, rs, s);
      var mid :| CrashLeaves(d, LoadPlan(w, d).ops, mid) && CrashedLoads(w, mid, n - 1, e);
      LoadsStayClean(w, mid, rs, s, n - 1, e);
    }
  }

  /** Exactly once. Cut a commit off at any disk step or inside the append, then cut off any number
      of loads anywhere: the next load that finishes yields the exact old ledger when the commit had
      not touched the disk, and otherwise the ledger with the transaction applied once. Either way
      the disk is clean again, so loading once more changes nothing. */
  lemma CommitRecovers(w: World, d0: Disk, rs: seq<ArcaneDelta>, s: LedgerState, tx: Transaction, d: Disk, n: nat,
                       e: Disk)
    requires Clean(w, d0, rs, s) && TakesEffect(s, tx) && Fits(s) && tx.linked == []
    requires Readable(w, d0, DeltaFor(s, tx))
    requires CrashLeaves(d0, CommitPlan(w, d0, s, tx).ops, d)
    requires CrashedLoads(w, d, n, e)
    ensures d == d0 ==> LoadPlan(w, e).outcome == Some(s) && Clean(w, LoadedDisk(w, e), rs, s)
    ensures d != d0 ==> LoadPlan(w, e).outcome == Some(After(s, tx))
                        && Clean(w, LoadedDisk(w, e), rs + [DeltaFor(s, tx)], After(s, tx))
  {
    assert Committable(w, d0, rs, s, tx) by { hide Applies, After, Holds; }
    assert d0.log != [];
    hide Clean, Committable, Started, LoadPlan, CrashLeaves, CommitPlan, TakesEffect, CommitOps, Fits;
    assert LinkedGate(d0, tx) && d0.pending.None? by { assert Clean(w, d0, rs, s); }
    CommitPlanRuns(w, d0, s, tx);
    CommitOpsPhases(w, d0, s, tx);
    if d == d0 {
      LoadsStayClean(w, d0, rs, s, n, e);
      LoadClean(w, d0, rs, s);
    } else {
      LoadsStayStarted(w, d0, rs, s, tx, d, n, e);
      LoadStarted(w, d0, rs, s, tx, e);
    }
  }

  // ----- records that strand the world -----

  /** An applied record that cannot be read back stops every load once the pending record is gone. */
  lemma UnreadableTail(w: World, d0: Disk, rs: seq<ArcaneDelta>, s: LedgerState, delta: ArcaneDelta)
    requires Clean(w, d0, rs, s) && |w.codec.encode(delta)| < TWO32 && !Readable(w, d0, delta)
    ensures LoadPlan(w, Appended(w, d0, delta)) == Plan([], None)
  {
    hide Frame, ApplyRecords, FrameAll, Decode, Faithful, Log;
    LogSnoc(w.codec, rs, delta);
    OversizedFrameUnreadable(w.codec, rs, delta);
    assert ReplayOps(w, Appended(w, d0, delta)).None?;
    LoadFails(w, Appended(w, d0, delta));
  }

  /** Without a checkpoint to restore, a replay that fails is the whole load. */
  lemma LoadFails(w: World, d: Disk)
    requires Decodes(w, d.snapshot) && w.fingerprint(d.snapshot) == d.manifest && ReplayPlan(w, d).outcome.None?
    ensures LoadPlan(w, d) == Plan(ReplayPlan(w, d).ops, None)
  {
    hide ReplayPlan;
    assert PerformAll(d, []) == d;
    assert [] + ReplayPlan(w, d).ops == ReplayPlan(w, d).ops;
  }

  /** A started record whose frame exists, or whose frame can never be written. */
  ghost predicate Stranded(w: World, d0: Disk, delta: ArcaneDelta, d: Disk) {
    Started(w, d0, delta, d) && (|w.codec.encode(delta)| < TWO32 || d == TornAt(w, d0, delta, 0))
  }

  /** A record that cannot be applied, once its pending copy is durable, fails every load wherever it is cut off,
      and no load gets rid of it. */
  lemma StrandedFails(w: World, d0: Disk, rs: seq<ArcaneDelta>, s: LedgerState, tx: Transaction, d: Disk)
    requires Clean(w, d0, rs, s) && s.lastDeltaSeq < U64_MAX
    requires !(Applies(s, tx) && Fits(s)) || TWO32 <= |w.codec.encode(DeltaFor(s, tx))|
    requires Stranded(w, d0, DeltaFor(s, tx), d)
    ensures LoadPlan(w, d).outcome.None?
    ensures forall e | CrashLeaves(d, LoadPlan(w, d).ops, e) :: Stranded(w, d0, DeltaFor(s, tx), e)
  {
    hide *;
    var delta := DeltaFor(s, tx);
    CleanHolds(w, d0, rs, s);
    StrandedKeeps(w, d0, delta, d);
    if |w.codec.encode(delta)| >= TWO32 {
      UnwritableReplay(w, d0, rs, s, tx);
      StrandedHuge(w, d0, delta, d);
    } else if d == Appended(w, d0, delta) {
      StrandedAppended(w, d0, rs, s, tx);
    } else {
      var k := StrandedCut(w, d0, delta, d);
      StrandedTorn(w, d0, rs, s, tx, k);
    }
    LoadFails(w, d);
    NothingToDo(d);
    forall e | CrashLeaves(d, LoadPlan(w, d).ops, e) ensures Stranded(w, d0, delta, e) {
      if |w.codec.encode(delta)| < TWO32 {
        StartedStrands(w, d0, delta, e);
      }
    }
  }

  lemma CleanHolds(w: World, d: Disk, rs: seq<ArcaneDelta>, s: LedgerState)
    requires Clean(w, d, rs, s)
    ensures Holds(w, d, rs, s) && d.pending.None? && d.linked.None?
    ensures Decodes(w, d.snapshot) && w.fingerprint(d.snapshot) == d.manifest && Conserved(s)
  {
    hide ApplyRecords, Decodable, Faithful, Log;
  }

  lemma StrandedKeeps(w: World, d0: Disk, delta: ArcaneDelta, d: Disk)
    requires Stranded(w, d0, delta, d)
    ensures Started(w, d0, delta, d) && d.snapshot == d0.snapshot && d.manifest == d0.manifest
  {
    StartedKeeps(w, d0, delta, d);
    hide Started;
  }

  lemma StrandedHuge(w: World, d0: Disk, delta: ArcaneDelta, d: Disk)
    requires Stranded(w, d0, delta, d) && TWO32 <= |w.codec.encode(delta)|
    ensures d == TornAt(w, d0, delta, 0)
  {
    hide Started, Frame;
  }

  lemma StartedStrands(w: World, d0: Disk, delta: ArcaneDelta, d: Disk)
    requires Started(w, d0, delta, d) && |w.codec.encode(delta)| < TWO32
    ensures Stranded(w, d0, delta, d)
  {
    hide Started, Frame;
  }

  lemma StrandedCut(w: World, d0: Disk, delta: ArcaneDelta, d: Disk) returns (k: nat)
    requires Stranded(w, d0, delta, d) && d != Appended(w, d0, delta)
    ensures k <= |Frame(w.codec, delta)| && d == TornAt(w, d0, delta, k)
  {
    hide Frame;
    k :| k <= |Frame(w.codec, delta)| && d == TornAt(w, d0, delta, k);
  }

  lemma NothingToDo(d: Disk)
    ensures forall e | CrashLeaves(d, [], e) :: e == d
  {
  }

  /** A pending record too long for the frame format is refused by every replay. */
  lemma UnwritableReplay(w: World, d0: Disk, rs: seq<ArcaneDelta>, s: LedgerState, tx: Transaction)
    requires Holds(w, d0, rs, s) && s.lastDeltaSeq < U64_MAX && TWO32 <= |w.codec.encode(DeltaFor(s, tx))|
    ensures ReplayPlan(w, TornAt(w, d0, DeltaFor(s, tx), 0)) == Plan([], None)
  {
    hide ApplyRecords, Decode, FrameAll, Frame, Faithful, Log;
    var delta := DeltaFor(s, tx);
    LastSequence(d0.snapshot, rs);
    LogHeader(w.codec, rs);
    DecodeLog(w.codec, rs);
    assert forall i | 0 <= i < |rs| :: rs[i].sequence != delta.sequence;
    assert TornAt(w, d0, delta, 0).log == d0.log;
  }

  lemma StrandedAppended(w: World, d0: Disk, rs: seq<ArcaneDelta>, s: LedgerState, tx: Transaction)
    requires Holds(w, d0, rs, s) && d0.pending.None? && s.lastDeltaSeq < U64_MAX
    requires !(Applies(s, tx) && Fits(s)) && |w.codec.encode(DeltaFor(s, tx))| < TWO32
    ensures ReplayPlan(w, Appended(w, d0, DeltaFor(s, tx))) == Plan([], None)
  {
    hide Applies, Fits, Frame, ApplyRecords, FrameAll, Decode, Faithful, Log;
    var delta := DeltaFor(s, tx);
    LogSnoc(w.codec, rs, delta);
    ApplyOneMore(d0.snapshot, rs, s, tx);
    OversizedFrameUnreadable(w.codec, rs, delta);
    if |w.codec.encode(delta)| <= MAX_PAYLOAD {
      OneMoreRecord(w, d0.snapshot, rs, s, delta);
      DecodeLog(w.codec, rs + [delta]);
    }
  }

  lemma StrandedTorn(w: World, d0: Disk, rs: seq<ArcaneDelta>, s: LedgerState, tx: Transaction, k: nat)
    requires Holds(w, d0, rs, s) && d0.pending.None? && s.lastDeltaSeq < U64_MAX
             && k <= |Frame(w.codec, DeltaFor(s, tx))|
    requires !(Applies(s, tx) && Fits(s)) && |w.codec.encode(DeltaFor(s, tx))| < TWO32
    ensures var d := TornAt(w, d0, DeltaFor(s, tx), k);
            && ReplayPlan(w, d).outcome.None?
            && forall e | CrashLeaves(d, ReplayPlan(w, d).ops, e) :: Started(w, d0, DeltaFor(s, tx), e)
  {
    hide Applies, Fits, Frame, ApplyRecords, ReplayOps, Holds, Started, CrashLeaves, RepairOps;
    var delta := DeltaFor(s, tx);
    var d := TornAt(w, d0, delta, k);
    if |d0.log| + k <= MAX_DELTA_BYTES {
      ReplayTornOps(w, d0, rs, s, tx, k);
      ApplyOneMore(d0.snapshot, rs, s, tx) by {
        assert Holds(w, d0, rs, s);
        SnapshotHolds(w, d0, rs, s);
      }
      RepairSteps(w, d0, delta, k, k == |Frame(w.codec, delta)| && |w.codec.encode(delta)| <= MAX_PAYLOAD);
    } else {
      LongLog(w, d);
      NothingToDo(d);
      TornIsStarted(w, d0, delta, k);
    }
  }

  lemma SnapshotHolds(w: World, d: Disk, rs: seq<ArcaneDelta>, s: LedgerState)
    requires Holds(w, d, rs, s)
    ensures ApplyRecords(d.snapshot, rs) == Some(s)
  {
    hide ApplyRecords, Decodable, Faithful, Log;
  }

  lemma LongLog(w: World, d: Disk)
    requires MAX_DELTA_BYTES < |d.log|
    ensures ReplayPlan(w, d) == Plan([], None)
  {
    hide Decode;
  }

  lemma TornIsStarted(w: World, d0: Disk, delta: ArcaneDelta, k: nat)
    requires k <= |Frame(w.codec, delta)|
    ensures Started(w, d0, delta, TornAt(w, d0, delta, k))
  {
    hide Frame;
  }

  lemma {:induction false} LoadsStayStranded(w: World, d0: Disk, rs: seq<ArcaneDelta>, s: LedgerState, tx: Transaction,
                                             d: Disk, n: nat, e: Disk)
    requires Clean(w, d0, rs, s) && s.lastDeltaSeq < U64_MAX
    requires !(Applies(s, tx) && Fits(s)) || TWO32 <= |w.codec.encode(DeltaFor(s, tx))|
    requires Stranded(w, d0, DeltaFor(s, tx), d) && CrashedLoads(w, d, n, e)
    ensures Stranded(w, d0, DeltaFor(s, tx), e)
    decreases n
  {
    hide Clean, Stranded, LoadPlan, CrashLeaves, Applies, Fits;
    if n > 0 {
      StrandedFails(w, d0, rs, s, tx, d);
      var mid :| CrashLeaves(d, LoadPlan(w, d).ops, mid) && CrashedLoads(w, mid, n - 1, e);
      LoadsStayStranded(w, d0, rs, s, tx, mid, n - 1, e);
    }
  }

  lemma {:induction false} LoadsStayPut(w: World, d: Disk, n: nat, e: Disk)
    requires LoadPlan(w, d).ops == [] && CrashedLoads(w, d, n, e)
    ensures e == d
    decreases n
  {
    hide LoadPlan;
    if n > 0 {
      var mid :| CrashLeaves(d, LoadPlan(w, d).ops, mid) && CrashedLoads(w, mid, n - 1, e);
      NothingToDo(d);
      LoadsStayPut(w, mid, n - 1, e);
    }
  }

  /** A commit that writes its record but cannot finish: what it leaves when cut off, and when it ran. */
  lemma StrandingCommit(w: World, d0: Disk, rs: seq<ArcaneDelta>, s: LedgerState, tx: Transaction)
    requires Clean(w, d0, rs, s) && WritesRecord(s, tx)
    requires !(Applies(s, tx) && Fits(s)) || TWO32 <= |w.codec.encode(DeltaFor(s, tx))|
    ensures forall d | CrashLeaves(d0, CommitPlan(w, d0, s, tx).ops, d) && d != d0 ::
              Stranded(w, d0, DeltaFor(s, tx), d)
    ensures Stranded(w, d0, DeltaFor(s, tx), PerformAll(d0, CommitPlan(w, d0, s, tx).ops))
  {
    hide *;
    var delta := DeltaFor(s, tx);
    CleanGate(w, d0, rs, s, tx);
    WritesRecordParts(s, tx);
    if |w.codec.encode(delta)| >= TWO32 {
      CommitPlanHuge(w, d0, s, tx);
      HugeSteps(w, d0, delta);
    } else {
      CommitPlanCases(w, d0, s, tx);
      RecordSteps(w, d0, delta);
    }
  }

  /** Validation passes and the journal has room, so the record is written. */
  ghost predicate WritesRecord(s: LedgerState, tx: Transaction) {
    tx.linked == [] && !Duplicate(s, tx.id) && Accepts(s, tx) && s.lastDeltaSeq < U64_MAX
  }

  lemma WritesRecordParts(s: LedgerState, tx: Transaction)
    requires WritesRecord(s, tx)
    ensures tx.linked == [] && !Duplicate(s, tx.id) && Accepts(s, tx) && s.lastDeltaSeq < U64_MAX
  {
    hide Accepts, Duplicate;
  }

  lemma CommitPlanHuge(w: World, d: Disk, s: LedgerState, tx: Transaction)
    requires LinkedGate(d, tx) && !Duplicate(s, tx.id) && s.lastDeltaSeq < U64_MAX && Accepts(s, tx)
    requires TWO32 <= |w.codec.encode(DeltaFor(s, tx))|
    ensures CommitPlan(w, d, s, tx) == Plan([WritePending(DeltaFor(s, tx))], None)
  {
    hide LinkedGate, Duplicate, Accepts, Fits, Frame, Applies;
  }

  lemma HugeSteps(w: World, d: Disk, delta: ArcaneDelta)
    ensures Stranded(w, d, delta, PerformAll(d, [WritePending(delta)]))
    ensures forall e | CrashLeaves(d, [WritePending(delta)], e) && e != d :: Stranded(w, d, delta, e)
  {
    hide Frame, PerformAll, CrashLeaves;
    OneOp(d, WritePending(delta));
    TornIsStarted(w, d, delta, 0);
    assert d.log + Frame(w.codec, delta)[..0] == d.log;
    hide Started;
  }

  lemma RecordSteps(w: World, d: Disk, delta: ArcaneDelta)
    requires |w.codec.encode(delta)| < TWO32
    ensures var ops := [WritePending(delta), AppendLog(Frame(w.codec, delta))];
            && Stranded(w, d, delta, PerformAll(d, ops))
            && forall e | CrashLeaves(d, ops, e) && e != d :: Stranded(w, d, delta, e)
  {
    hide Frame, PerformAll, CrashLeaves;
    var frame := Frame(w.codec, delta);
    assert frame[..|frame|] == frame && frame[..0] == [];
    var d1, d2 := TornAt(w, d, delta, 0), TornAt(w, d, delta, |frame|);
    TwoOps(d, WritePending(delta), AppendLog(frame));
    assert Perform(d, WritePending(delta)) == d1 && Perform(d1, AppendLog(frame)) == d2;
    OneOp(d1, AppendLog(frame));
    forall e | TornAppend(d1, AppendLog(frame), e) ensures Started(w, d, delta, e) {
      var k :| 0 <= k <= |frame| && e == d1.(log := d1.log + frame[..k]);
      assert e == TornAt(w, d, delta, k);
    }
    TornIsStarted(w, d, delta, 0);
    TornIsStarted(w, d, delta, |frame|);
  }

  lemma CleanGate(w: World, d: Disk, rs: seq<ArcaneDelta>, s: LedgerState, tx: Transaction)
    requires Clean(w, d, rs, s)
    ensures d.log != [] && d.pending.None? && d.linked.None? && (tx.linked == [] ==> LinkedGate(d, tx))
  {
    hide ApplyRecords, Decodable, Faithful, FrameAll;
  }

  // ----- linked commits -----

  ghost predicate AtAfter(files: map<string, seq<byte>>, f: LinkedFile) {
    match f.after
    case None => f.path !in files
    case Some(bytes) => f.path in files && files[f.path] == bytes
  }

  ghost predicate SameAt(files: map<string, seq<byte>>, others: map<string, seq<byte>>, path: string) {
    (path in files <==> path in others) && (path in files ==> files[path] == others[path])
  }

  predicate Names(lc: LinkedCommit, path: string) {
    exists f | f in lc.files :: f.path == path
  }

  /** Every linked file is still as it was or already replaced; no other file changed. */
  ghost predicate FilesMid(files: map<string, seq<byte>>, before: map<string, seq<byte>>, lc: LinkedCommit) {
    && (forall f | f in lc.files :: SameAt(files, before, f.path) || AtAfter(files, f))
    && (forall path | !Names(lc, path) :: SameAt(files, before, path))
  }

  ghost predicate FilesDone(files: map<string, seq<byte>>, before: map<string, seq<byte>>, lc: LinkedCommit) {
    FilesMid(files, before, lc) && forall f | f in lc.files :: AtAfter(files, f)
  }

  /** The coordinator record describes distinct, permitted files by checksums that tell before from after. */
  ghost predicate LinksMatch(w: World, before: map<string, seq<byte>>, lc: LinkedCommit) {
    && |lc.files| == |lc.transaction.linked|
    && (forall i, j | 0 <= i < j < |lc.files| :: lc.files[i].path != lc.files[j].path)
    && (forall i | 0 <= i < |lc.files| ::
          var f, l := lc.files[i], lc.transaction.linked[i];
          && w.pathAllowed(f) && l.subsystem == f.subsystem && l.operationId == f.operationId
          && l.beforeChecksum == w.codec.checksum(FileBytes(before, f.path))
          && l.afterChecksum == w.codec.checksum(AfterBytes(f))
          && l.beforeChecksum != l.afterChecksum)
  }

  lemma PutFileEffect(files: map<string, seq<byte>>, f: LinkedFile)
    ensures AtAfter(PutFile(files, f), f)
    ensures forall path | path != f.path :: SameAt(PutFile(files, f), files, path)
  {
  }

  lemma PutFileMid(files: map<string, seq<byte>>, before: map<string, seq<byte>>, lc: LinkedCommit, i: nat)
    requires i < |lc.files| && FilesMid(files, before, lc)
    requires forall k, j | 0 <= k < j < |lc.files| :: lc.files[k].path != lc.files[j].path
    ensures FilesMid(PutFile(files, lc.files[i]), before, lc)
    ensures forall j | 0 <= j < |lc.files| && AtAfter(files, lc.files[j]) ::
              AtAfter(PutFile(files, lc.files[i]), lc.files[j])
  {
    var f := lc.files[i];
    assert f in lc.files;
    PutFileEffect(files, f);
    forall g | g in lc.files ensures SameAt(PutFile(files, f), before, g.path) || AtAfter(PutFile(files, f), g) {
      var j :| 0 <= j < |lc.files| && lc.files[j] == g;
      if j != i {
        assert g.path != f.path;
      }
    }
    assert forall path | !Names(lc, path) :: path != f.path;
  }

  /** Rolling the first `n` linked files forward does not fail, passes only through mixed states,
      and ends with those files at their after bytes. */
  ghost predicate Forward(d: Disk, before: map<string, seq<byte>>, lc: LinkedCommit, plan: FilePlan, n: nat) {
    && plan.ok
    && PerformAll(d, plan.ops) == d.(files := plan.files)
    && FilesMid(plan.files, before, lc)
    && (forall j | 0 <= j < n && j < |lc.files| :: AtAfter(plan.files, lc.files[j]))
    && (forall e | CrashLeaves(d, plan.ops, e) :: e == d.(files := e.files) && FilesMid(e.files, before, lc))
  }

  lemma ForwardStep(d: Disk, before: map<string, seq<byte>>, lc: LinkedCommit, prev: FilePlan, n: nat)
    requires 0 < n <= |lc.files| && Forward(d, before, lc, prev, n - 1)
    requires forall k, j | 0 <= k < j < |lc.files| :: lc.files[k].path != lc.files[j].path
    ensures var f := lc.files[n - 1];
            Forward(d, before, lc, FilePlan(prev.ops + [ReplaceFile(f)], PutFile(prev.files, f), true), n)
  {
    hide FilesMid, PutFile, AtAfter, CrashLeaves, PerformAll;
    var f := lc.files[n - 1];
    PutFileMid(prev.files, before, lc, n - 1);
    PutFileEffect(prev.files, f);
    PerformConcat(d, prev.ops, [ReplaceFile(f)]);
    ReplaceOne(d.(files := prev.files), f);
    forall e | CrashLeaves(d, prev.ops + [ReplaceFile(f)], e)
      ensures e == d.(files := e.files) && FilesMid(e.files, before, lc)
    {
      CrashConcat(d, prev.ops, [ReplaceFile(f)], e);
    }
  }

  lemma {:induction false} LinkedFilesForward(w: World, d: Disk, before: map<string, seq<byte>>, lc: LinkedCommit,
                                              n: nat)
    requires LinksMatch(w, before, lc) && FilesMid(d.files, before, lc) && n <= |lc.files| == |lc.transaction.linked|
    ensures Forward(d, before, lc, LinkedFiles(w, d.files, lc, n), n)
  {
    hide FilesMid, AtAfter, PutFile, LinksMatch;
    if n == 0 {
      NoOps(d);
      assert d == d.(files := d.files);
    } else {
      LinkedFilesForward(w, d, before, lc, n - 1);
      LinkedFilesUnfold(w, d.files, before, lc, n);
      DistinctPaths(w, before, lc);
      ForwardStep(d, before, lc, LinkedFiles(w, d.files, lc, n - 1), n);
    }
  }

  lemma DistinctPaths(w: World, before: map<string, seq<byte>>, lc: LinkedCommit)
    requires LinksMatch(w, before, lc)
    ensures forall k, j | 0 <= k < j < |lc.files| :: lc.files[k].path != lc.files[j].path
  {
  }

  lemma ReplaceOne(d: Disk, f: LinkedFile)
    ensures PerformAll(d, [ReplaceFile(f)]) == d.(files := PutFile(d.files, f))
    ensures forall e | CrashLeaves(d, [ReplaceFile(f)], e) :: e == d || e == d.(files := PutFile(d.files, f))
  {
    hide PutFile, PerformAll, CrashLeaves;
    OneOp(d, ReplaceFile(f));
  }

  /** One more file: skipped when it already holds its after bytes, replaced otherwise. */
  lemma LinkedFilesUnfold(w: World, files: map<string, seq<byte>>, before: map<string, seq<byte>>, lc: LinkedCommit,
                          n: nat)
    requires LinksMatch(w, before, lc) && 0 < n <= |lc.files|
    requires var prev := LinkedFiles(w, files, lc, n - 1); prev.ok && FilesMid(prev.files, before, lc)
    ensures n <= |lc.transaction.linked|
    ensures var prev, plan, f := LinkedFiles(w, files, lc, n - 1), LinkedFiles(w, files, lc, n), lc.files[n - 1];
            || (plan == prev && AtAfter(prev.files, f))
            || plan == FilePlan(prev.ops + [ReplaceFile(f)], PutFile(prev.files, f), true)
  {
    hide FilesMid, PutFile, AtAfter;
    LinkedFileStep(w, LinkedFiles(w, files, lc, n - 1).files, before, lc, n - 1);
  }

  lemma LinkedFileStep(w: World, files: map<string, seq<byte>>, before: map<string, seq<byte>>, lc: LinkedCommit,
                       i: nat)
    requires LinksMatch(w, before, lc) && FilesMid(files, before, lc) && i < |lc.files|
    ensures var sum := w.codec.checksum(FileBytes(files, lc.files[i].path));
            var l := lc.transaction.linked[i];
            if sum == l.afterChecksum then AtAfter(files, lc.files[i]) else sum == l.beforeChecksum
  {
    assert lc.files[i] in lc.files;
  }

  // ----- files that are not as recorded -----

  /** What a path holds, nothing when there is no file. */
  function BytesAt(files: map<string, seq<byte>>, path: string): seq<byte> {
    if path in files then files[path] else []
  }

  /** The `i`-th file of a record is permitted, is the one its mutation names, and holds what the mutation recorded
      before it or after it. */
  predicate AsRecorded(w: World, files: map<string, seq<byte>>, lc: LinkedCommit, i: nat)
    requires i < |lc.files| && i < |lc.transaction.linked|
  {
    var f, l := lc.files[i], lc.transaction.linked[i];
    var sum := w.codec.checksum(BytesAt(files, f.path));
    && w.pathAllowed(f) && f.subsystem == l.subsystem && f.operationId == l.operationId
    && (sum == l.beforeChecksum || sum == l.afterChecksum)
  }

  /** The first `n` files of a record, rolled forward from `files` as far as the record allows. */
  ghost predicate RolledForward(w: World, files: map<string, seq<byte>>, lc: LinkedCommit, n: nat, plan: FilePlan)
    requires n <= |lc.files| && n <= |lc.transaction.linked|
  {
    && (plan.ok <==> forall i | 0 <= i < n :: AsRecorded(w, files, lc, i))
    && (forall path | (forall i | 0 <= i < n :: lc.files[i].path != path) :: SameAt(plan.files, files, path))
    && (forall i | 0 <= i < n ::
          var l, sum := lc.transaction.linked[i], w.codec.checksum(BytesAt(files, lc.files[i].path));
          && (sum == l.afterChecksum || sum != l.beforeChecksum ==> SameAt(plan.files, files, lc.files[i].path))
          && (plan.ok && sum != l.afterChecksum ==> AtAfter(plan.files, lc.files[i])))
  }

  /** For any record at all, its files go forward exactly when every one is as recorded. A file is replaced only when
      its bytes are the recorded ones from before, so nobody else's change is overwritten, also when a later file stops
      the rest. */
  lemma {:induction false} LinkedFilesExact(w: World, files: map<string, seq<byte>>, lc: LinkedCommit, n: nat)
    requires n <= |lc.files| && n <= |lc.transaction.linked|
    requires forall i, j | 0 <= i < j < n :: lc.files[i].path != lc.files[j].path
    ensures RolledForward(w, files, lc, n, LinkedFiles(w, files, lc, n))
  {
    if n > 0 {
      LinkedFilesExact(w, files, lc, n - 1);
      var prev, f, l := LinkedFiles(w, files, lc, n - 1), lc.files[n - 1], lc.transaction.linked[n - 1];
      assert forall i | 0 <= i < n - 1 :: lc.files[i].path != f.path;
      assert SameAt(prev.files, files, f.path);
      var sum := w.codec.checksum(BytesAt(files, f.path));
      assert BytesAt(files, f.path) == FileBytes(prev.files, f.path);
      if prev.ok && AsRecorded(w, files, lc, n - 1) && sum != l.afterChecksum {
        var plan := FilePlan(prev.ops + [ReplaceFile(f)], PutFile(prev.files, f), true);
        assert LinkedFiles(w, files, lc, n) == plan;
        hide LinkedFiles, AsRecorded;
        Replaced(w, files, lc, n, prev, plan);
      } else {
        assert LinkedFiles(w, files, lc, n).files == prev.files;
        assert LinkedFiles(w, files, lc, n).ok <==> prev.ok && AsRecorded(w, files, lc, n - 1);
        hide LinkedFiles, AsRecorded, AtAfter;
      }
    }
  }

  lemma Replaced(w: World, files: map<string, seq<byte>>, lc: LinkedCommit, n: nat, prev: FilePlan, plan: FilePlan)
    requires 0 < n <= |lc.files| && n <= |lc.transaction.linked|
    requires forall i, j | 0 <= i < j < n :: lc.files[i].path != lc.files[j].path
    requires RolledForward(w, files, lc, n - 1, prev) && prev.ok && AsRecorded(w, files, lc, n - 1)
    requires w.codec.checksum(BytesAt(files, lc.files[n - 1].path)) == lc.transaction.linked[n - 1].beforeChecksum
             != lc.transaction.linked[n - 1].afterChecksum
    requires plan.ok && plan.files == PutFile(prev.files, lc.files[n - 1])
    ensures RolledForward(w, files, lc, n, plan)
  {
    hide PutFile, AtAfter, AsRecorded, BytesAt;
    PutFileEffect(prev.files, lc.files[n - 1]);
    PutFileSpares(prev.files, lc.files[n - 1]);
    forall path | forall i | 0 <= i < n :: lc.files[i].path != path ensures SameAt(plan.files, files, path) {
      assert SameAt(prev.files, files, path) && SameAt(plan.files, prev.files, path);
    }
    forall i | 0 <= i < n
      ensures var l, sum := lc.transaction.linked[i], w.codec.checksum(BytesAt(files, lc.files[i].path));
              && (sum == l.afterChecksum || sum != l.beforeChecksum ==> SameAt(plan.files, files, lc.files[i].path))
              && (sum != l.afterChecksum ==> AtAfter(plan.files, lc.files[i]))
    {
      if i < n - 1 {
        assert SameAt(plan.files, prev.files, lc.files[i].path);
      }
    }
  }

  lemma PutFileSpares(files: map<string, seq<byte>>, f: LinkedFile)
    ensures forall g: LinkedFile | g.path != f.path && AtAfter(files, g) :: AtAfter(PutFile(files, f), g)
  {
  }

  /** A linked commit after its record became durable and before the record is removed. */
  ghost predicate Mid(w: World, d0: Disk, lc: LinkedCommit, delta: ArcaneDelta, d: Disk) {
    && FilesMid(d.files, d0.files, lc)
    && Phase(w, d0.(linked := Some(lc), files := d.files), delta, d)
  }

  ghost predicate Finished(w: World, d0: Disk, lc: LinkedCommit, delta: ArcaneDelta, d: Disk) {
    && FilesDone(d.files, d0.files, lc)
    && d == Appended(w, d0.(files := d.files), delta)
  }

  /** What a linked commit starts from. */
  ghost predicate LinkedCommittable(w: World, d0: Disk, rs: seq<ArcaneDelta>, s: LedgerState, lc: LinkedCommit) {
    && Clean(w, d0, rs, s) && Committable(w, d0, rs, s, lc.transaction)
    && TakesEffect(s, lc.transaction)
    && LinksMatch(w, d0.files, lc) && lc.files != []
  }

  lemma CommittableElsewhere(w: World, d0: Disk, rs: seq<ArcaneDelta>, s: LedgerState, tx: Transaction, d: Disk)
    requires Committable(w, d0, rs, s, tx)
    requires d == d0.(linked := d.linked, files := d.files)
    ensures Committable(w, d, rs, s, tx)
  {
    hide Applies, Fits, ApplyRecords, Log, Decodable, Faithful, Frame;
  }

  lemma LinkedParts(w: World, d0: Disk, rs: seq<ArcaneDelta>, s: LedgerState, lc: LinkedCommit)
    requires LinkedCommittable(w, d0, rs, s, lc)
    ensures Clean(w, d0, rs, s) && Committable(w, d0, rs, s, lc.transaction)
    ensures TakesEffect(s, lc.transaction) && Applies(s, lc.transaction) && Fits(s) && Conserved(s)
    ensures LinksMatch(w, d0.files, lc) && Zipped(lc) == |lc.files| == |lc.transaction.linked|
            && lc.transaction.linked != []
    ensures d0.pending.None? && d0.linked.None? && d0.log != []
    ensures |w.codec.encode(DeltaFor(s, lc.transaction))| < TWO32
    ensures Decodes(w, d0.snapshot) && w.fingerprint(d0.snapshot) == d0.manifest
  {
    hide Applies, ApplyRecords, Frame, Decodable, Faithful, FrameAll, TakesEffect;
  }

  /** `d` differs from the start only by the record and by files on their way. */
  ghost predicate Underway(d0: Disk, lc: LinkedCommit, d: Disk) {
    d == d0.(linked := Some(lc), files := d.files) && FilesMid(d.files, d0.files, lc)
  }

  lemma UnderwayMid(w: World, d0: Disk, lc: LinkedCommit, delta: ArcaneDelta, d: Disk, e: Disk)
    requires Underway(d0, lc, d) && Phase(w, d, delta, e)
    ensures Mid(w, d0, lc, delta, e)
  {
    hide Frame, FilesMid;
  }

  lemma UnderwayFinished(w: World, d0: Disk, lc: LinkedCommit, delta: ArcaneDelta, d: Disk)
    requires Underway(d0, lc, d) && FilesDone(d.files, d0.files, lc) && d0.linked.None?
    ensures Finished(w, d0, lc, delta, Perform(Appended(w, d, delta), RemoveLinked))
  {
    hide Frame, FilesDone, FilesMid;
    var e := Perform(Appended(w, d, delta), RemoveLinked);
    assert e.files == d.files;
    assert e == Appended(w, d0.(files := e.files), delta);
  }

  lemma AppendedIsPhase(w: World, d: Disk, delta: ArcaneDelta)
    ensures Phase(w, d, delta, Appended(w, d, delta)) && Phase(w, d, delta, d)
  {
    hide Frame;
  }

  /** Rolling the files forward keeps a commit underway. */
  lemma FilesKeepUnderway(w: World, d0: Disk, lc: LinkedCommit, d: Disk, base: Disk)
    requires LinksMatch(w, d0.files, lc) && Zipped(lc) == |lc.files|
    requires Underway(d0, lc, base) && d.files == base.files
    ensures var fp := LinkedFiles(w, d.files, lc, Zipped(lc));
            && fp.ok
            && PerformAll(d, fp.ops) == d.(files := fp.files)
            && Underway(d0, lc, base.(files := fp.files))
            && FilesDone(fp.files, d0.files, lc)
            && forall e | CrashLeaves(d, fp.ops, e) ::
                 e == d.(files := e.files) && Underway(d0, lc, base.(files := e.files))
  {
    LinkedFilesForward(w, d, d0.files, lc, |lc.files|);
    hide FilesMid, LinkedFiles, CrashLeaves, PerformAll, AtAfter, LinksMatch;
    var fp := LinkedFiles(w, d.files, lc, |lc.files|);
    forall f | f in lc.files ensures AtAfter(fp.files, f) {
      var j :| 0 <= j < |lc.files| && lc.files[j] == f;
    }
  }

  lemma RecordGate(d0: Disk, lc: LinkedCommit, d: Disk)
    requires d.linked == Some(lc) && lc.transaction.linked != []
    ensures LinkedGate(d, lc.transaction)
  {
  }

  /** Finish a linked commit whose transaction has not reached the journal. */
  lemma FinishFromStart(w: World, d0: Disk, rs: seq<ArcaneDelta>, s: LedgerState, lc: LinkedCommit, d: Disk)
    requires LinkedCommittable(w, d0, rs, s, lc) && Underway(d0, lc, d)
    ensures var delta := DeltaFor(s, lc.transaction);
            var plan := LinkedPlan(w, d, s);
            && plan.outcome == Some(After(s, lc.transaction))
            && Finished(w, d0, lc, delta, PerformAll(d, plan.ops))
            && forall e | CrashLeaves(d, plan.ops, e) :: Mid(w, d0, lc, delta, e) || Finished(w, d0, lc, delta, e)
  {
    hide *;
    var tx := lc.transaction;
    var delta := DeltaFor(s, tx);
    LinkedParts(w, d0, rs, s, lc);
    var fp := LinkedFiles(w, d.files, lc, Zipped(lc));
    var d1 := d.(files := fp.files);
    FilesKeepUnderway(w, d0, lc, d, d);
    UnderwayKeeps(d0, lc, d1);
    RecordGate(d0, lc, d1);
    CommitPlanRuns(w, d1, s, tx);
    CommitOpsPhases(w, d1, s, tx);
    UnderwayKeeps(d0, lc, d);
    LinkedPlanRuns(w, d, s, lc, fp, CommitOps(w, s, tx), After(s, tx));
    CrashInParts(d, fp.ops, CommitOps(w, s, tx), [RemoveLinked]);
    OneOp(Appended(w, d1, delta), RemoveLinked);
    RemoveNeverTears(Appended(w, d1, delta));
    UnderwayFinished(w, d0, lc, delta, d1);
    AppendedIsPhase(w, d1, delta);
    UnderwayMid(w, d0, lc, delta, d1, Appended(w, d1, delta));
    forall e | CrashLeaves(d, LinkedPlan(w, d, s).ops, e)
      ensures Mid(w, d0, lc, delta, e) || Finished(w, d0, lc, delta, e)
    {
      if CrashLeaves(d, fp.ops, e) {
        AppendedIsPhase(w, e, delta);
        UnderwayMid(w, d0, lc, delta, e, e);
      } else if CrashLeaves(d1, CommitOps(w, s, tx), e) {
        UnderwayMid(w, d0, lc, delta, d1, e);
      }
    }
  }

  lemma UnderwayKeeps(d0: Disk, lc: LinkedCommit, d: Disk)
    requires Underway(d0, lc, d)
    ensures d.linked == Some(lc) && d.pending == d0.pending && d.log == d0.log
    ensures d.snapshot == d0.snapshot && d.manifest == d0.manifest
  {
    hide FilesMid;
  }

  lemma RemoveNeverTears(d: Disk)
    ensures forall e :: !TornAppend(d, RemoveLinked, e)
  {
  }

  lemma LinkedPlanRuns(w: World, d: Disk, s: LedgerState, lc: LinkedCommit, fp: FilePlan, ops: seq<DiskOp>,
                       t: LedgerState)
    requires d.linked == Some(lc) && LinkedFiles(w, d.files, lc, Zipped(lc)) == fp && fp.ok
    requires CommitPlan(w, PerformAll(d, fp.ops), s, lc.transaction) == Plan(ops, Some(t))
    ensures LinkedPlan(w, d, s) == Plan(fp.ops + ops + [RemoveLinked], Some(t))
  {
    hide CommitPlan, LinkedFiles, PerformAll;
  }

  /** Finish a linked commit whose transaction is already in the journal. */
  lemma FinishFromAppended(w: World, d0: Disk, rs: seq<ArcaneDelta>, s: LedgerState, lc: LinkedCommit, base: Disk)
    requires LinkedCommittable(w, d0, rs, s, lc) && Underway(d0, lc, base)
    ensures var delta := DeltaFor(s, lc.transaction);
            var d := Appended(w, base, delta);
            var plan := LinkedPlan(w, d, After(s, lc.transaction));
            && plan.outcome == Some(After(s, lc.transaction))
            && Finished(w, d0, lc, delta, PerformAll(d, plan.ops))
            && forall e | CrashLeaves(d, plan.ops, e) :: Mid(w, d0, lc, delta, e) || Finished(w, d0, lc, delta, e)
  {
    hide *;
    var tx := lc.transaction;
    var delta := DeltaFor(s, tx);
    LinkedParts(w, d0, rs, s, lc);
    var t := After(s, tx);
    var d := Appended(w, base, delta);
    AppendedKeeps(w, base, delta);
    var fp := LinkedFiles(w, d.files, lc, Zipped(lc));
    var base1, d1 := base.(files := fp.files), d.(files := fp.files);
    FilesKeepUnderway(w, d0, lc, d, base);
    UnderwayKeeps(d0, lc, base);
    RecordGate(d0, lc, d1);
    AppliedIsDuplicate(s, tx);
    CommitPlanRepeats(w, d1, t, tx);
    LinkedPlanRuns(w, d, t, lc, fp, [], t);
    CrashInParts(d, fp.ops, [], [RemoveLinked]);
    NoOps(d1);
    OneOp(d1, RemoveLinked);
    RemoveNeverTears(d1);
    AppendedFiles(w, base, delta, fp.files);
    UnderwayFinished(w, d0, lc, delta, base1);
    AppendedIsPhase(w, base1, delta);
    UnderwayMid(w, d0, lc, delta, base1, d1);
    forall e | CrashLeaves(d, LinkedPlan(w, d, t).ops, e)
      ensures Mid(w, d0, lc, delta, e) || Finished(w, d0, lc, delta, e)
    {
      if CrashLeaves(d, fp.ops, e) {
        AppendedFiles(w, base, delta, e.files);
        AppendedIsPhase(w, base.(files := e.files), delta);
        UnderwayMid(w, d0, lc, delta, base.(files := e.files), e);
      }
    }
  }

  lemma AppendedKeeps(w: World, d: Disk, delta: ArcaneDelta)
    ensures Appended(w, d, delta).files == d.files && Appended(w, d, delta).linked == d.linked
  {
    hide Frame;
  }

  lemma AppendedFiles(w: World, d: Disk, delta: ArcaneDelta, files: map<string, seq<byte>>)
    ensures Appended(w, d, delta).(files := files) == Appended(w, d.(files := files), delta)
  {
    hide Frame;
  }

  lemma NoOps(d: Disk)
    ensures PerformAll(d, []) == d && forall e | CrashLeaves(d, [], e) :: e == d
  {
  }

  lemma CommitPlanRepeats(w: World, d: Disk, t: LedgerState, tx: Transaction)
    requires LinkedGate(d, tx) && Duplicate(t, tx.id)
    ensures CommitPlan(w, d, t, tx) == Plan([], Some(t))
  {
    hide LinkedGate, Duplicate, Accepts, Applies;
  }

  lemma AppliedIsDuplicate(s: LedgerState, tx: Transaction)
    requires TakesEffect(s, tx)
    ensures Duplicate(After(s, tx), tx.id)
  {
    AppliesAccepted(s, tx);
    AppliedHistory(s, tx);
    hide Accepts, Applies, After;
  }

  lemma MidBase(w: World, d0: Disk, lc: LinkedCommit, delta: ArcaneDelta, d: Disk)
    requires Mid(w, d0, lc, delta, d)
    ensures var base := d0.(linked := Some(lc), files := d.files);
            Underway(d0, lc, base) && (d == base || Started(w, base, delta, d))
  {
    hide Started, FilesMid;
  }

  /** From any middle disk, loading completes the commit, and cut off again it is still in the middle. */
  lemma LoadMid(w: World, d0: Disk, rs: seq<ArcaneDelta>, s: LedgerState, lc: LinkedCommit, d: Disk)
    requires LinkedCommittable(w, d0, rs, s, lc) && Mid(w, d0, lc, DeltaFor(s, lc.transaction), d)
    ensures var delta := DeltaFor(s, lc.transaction);
            && LoadPlan(w, d).outcome == Some(After(s, lc.transaction))
            && Finished(w, d0, lc, delta, LoadedDisk(w, d))
            && forall e | CrashLeaves(d, LoadPlan(w, d).ops, e) ::
                 Mid(w, d0, lc, delta, e) || Finished(w, d0, lc, delta, e)
  {
    hide *;
    var tx := lc.transaction;
    var delta := DeltaFor(s, tx);
    var base := d0.(linked := Some(lc), files := d.files);
    LinkedParts(w, d0, rs, s, lc);
    CommittableElsewhere(w, d0, rs, s, tx, base);
    AppliedKeepsConserved(s, tx);
    MidBase(w, d0, lc, delta, d);
    if d == base {
      BaseHolds(w, base, rs, s, tx);
      ReplayHolds(w, base, rs, s);
      NoOps(d);
      FinishFromStart(w, d0, rs, s, lc, d);
      LoadTwoStage(w, d, d, s, After(s, tx));
      assert [] + LinkedPlan(w, d, s).ops == LinkedPlan(w, d, s).ops;
    } else {
      StartedKeeps(w, base, delta, d);
      ReplayStarted(w, base, rs, s, tx, d);
      var d1 := Appended(w, base, delta);
      FinishFromAppended(w, d0, rs, s, lc, base);
      LoadTwoStage(w, d, d1, After(s, tx), After(s, tx));
      forall e | CrashLeaves(d, LoadPlan(w, d).ops, e)
        ensures Mid(w, d0, lc, delta, e) || Finished(w, d0, lc, delta, e)
      {
        CrashConcat(d, ReplayPlan(w, d).ops, LinkedPlan(w, d1, After(s, tx)).ops, e);
        if CrashLeaves(d, ReplayPlan(w, d).ops, e) {
          StartedPhase(w, base, delta, e);
          UnderwayMid(w, d0, lc, delta, base, e);
        }
      }
    }
  }

  lemma StartedPhase(w: World, d0: Disk, delta: ArcaneDelta, d: Disk)
    requires Started(w, d0, delta, d)
    ensures Phase(w, d0, delta, d)
  {
  }

  lemma BaseHolds(w: World, d: Disk, rs: seq<ArcaneDelta>, s: LedgerState, tx: Transaction)
    requires Committable(w, d, rs, s, tx)
    ensures Holds(w, d, rs, s) && d.pending.None?
  {
    hide Holds, Applies, Fits, Frame;
  }

  /** Loading without a restore is replay followed by finishing the linked record. */
  lemma LoadTwoStage(w: World, d: Disk, d1: Disk, t: LedgerState, u: LedgerState)
    requires Decodes(w, d.snapshot) && w.fingerprint(d.snapshot) == d.manifest
    requires ReplayPlan(w, d).outcome == Some(t) && PerformAll(d, ReplayPlan(w, d).ops) == d1
    requires LinkedPlan(w, d1, t).outcome == Some(u) && Conserved(u)
    ensures LoadPlan(w, d) == Plan(ReplayPlan(w, d).ops + LinkedPlan(w, d1, t).ops, Some(u))
    ensures LoadedDisk(w, d) == PerformAll(d1, LinkedPlan(w, d1, t).ops)
  {
    hide ReplayPlan, LinkedPlan, Conserved;
    assert PerformAll(d, []) == d;
    var ops := ReplayPlan(w, d).ops + LinkedPlan(w, d1, t).ops;
    assert [] + ops == ops;
    PerformConcat(d, ReplayPlan(w, d).ops, LinkedPlan(w, d1, t).ops);
  }

  lemma LoadFinished(w: World, d0: Disk, rs: seq<ArcaneDelta>, s: LedgerState, lc: LinkedCommit, d: Disk)
    requires LinkedCommittable(w, d0, rs, s, lc) && Finished(w, d0, lc, DeltaFor(s, lc.transaction), d)
    ensures Clean(w, d, rs + [DeltaFor(s, lc.transaction)], After(s, lc.transaction))
    ensures LoadPlan(w, d) == Plan([], Some(After(s, lc.transaction))) && LoadedDisk(w, d) == d
  {
    hide *;
    var tx := lc.transaction;
    var base := d0.(files := d.files);
    LinkedParts(w, d0, rs, s, lc);
    CommittableElsewhere(w, d0, rs, s, tx, base);
    AppendedHolds(w, base, rs, s, tx);
    AppliedKeepsConserved(s, tx);
    FinishedClean(w, d0, rs, s, lc, d);
    LoadClean(w, d, rs + [DeltaFor(s, tx)], After(s, tx));
  }

  lemma FinishedClean(w: World, d0: Disk, rs: seq<ArcaneDelta>, s: LedgerState, lc: LinkedCommit, d: Disk)
    requires d0.pending.None? && d0.linked.None? && Finished(w, d0, lc, DeltaFor(s, lc.transaction), d)
    requires Applies(s, lc.transaction) && Conserved(After(s, lc.transaction))
    requires var delta := DeltaFor(s, lc.transaction);
             Holds(w, Appended(w, d0.(files := d.files), delta), rs + [delta], After(s, lc.transaction))
    ensures Clean(w, d, rs + [DeltaFor(s, lc.transaction)], After(s, lc.transaction))
  {
    hide Holds, FilesDone, Frame, Applies, After, Conserved;
  }

  lemma {:induction false} LoadsStayMid(w: World, d0: Disk, rs: seq<ArcaneDelta>, s: LedgerState, lc: LinkedCommit,
                                        d: Disk, n: nat, e: Disk)
    requires LinkedCommittable(w, d0, rs, s, lc)
    requires var delta := DeltaFor(s, lc.transaction); Mid(w, d0, lc, delta, d) || Finished(w, d0, lc, delta, d)
    requires CrashedLoads(w, d, n, e)
    ensures var delta := DeltaFor(s, lc.transaction); Mid(w, d0, lc, delta, e) || Finished(w, d0, lc, delta, e)
    decreases n
  {
    hide LinkedCommittable, Mid, Finished, LoadPlan, CrashLeaves, Clean, LoadedDisk, After;
    if n > 0 {
      var mid :| CrashLeaves(d, LoadPlan(w, d).ops, mid) && CrashedLoads(w, mid, n - 1, e);
      if Mid(w, d0, lc, DeltaFor(s, lc.transaction), d) {
        LoadMid(w, d0, rs, s, lc, d);
      } else {
        LoadFinished(w, d0, rs, s, lc, d);
        NoOps(d);
      }
      LoadsStayMid(w, d0, rs, s, lc, mid, n - 1, e);
    }
  }

  /** What a linked commit is asked for, apart from its transaction. */
  ghost predicate FilesAdmissible(w: World, d: Disk, tx: Transaction, files: seq<LinkedFile>) {
    && 1 <= |files| <= MAX_LINKED_FILES
    && (forall i | 0 <= i < |files| :: w.pathAllowed(files[i]))
    && (forall i, j | 0 <= i < j < |files| :: files[i].path != files[j].path)
    && TotalBytes(files) <= MAX_LINKED_BYTES && w.recordFits(Linked(w, d, tx, files))
  }

  lemma LinkedIsCommittable(w: World, d0: Disk, rs: seq<ArcaneDelta>, s: LedgerState, tx: Transaction,
                            files: seq<LinkedFile>)
    requires Clean(w, d0, rs, s) && Fits(s) && FilesAdmissible(w, d0, tx, files)
    requires TakesEffect(s, Linked(w, d0, tx, files).transaction)
    requires Readable(w, d0, DeltaFor(s, Linked(w, d0, tx, files).transaction))
    ensures LinkedCommittable(w, d0, rs, s, Linked(w, d0, tx, files))
  {
    hide *;
    var lc := Linked(w, d0, tx, files);
    AppliesAccepted(s, lc.transaction);
    AcceptedLinks(s, lc.transaction);
    LinkedMatches(w, d0, tx, files);
    CleanGate(w, d0, rs, s, tx);
    AllParts(w, d0, rs, s, lc);
  }

  lemma AllParts(w: World, d0: Disk, rs: seq<ArcaneDelta>, s: LedgerState, lc: LinkedCommit)
    requires Clean(w, d0, rs, s) && Fits(s) && d0.pending.None? && s.lastDeltaSeq < U64_MAX
    requires Applies(s, lc.transaction) && TakesEffect(s, lc.transaction)
             && Readable(w, d0, DeltaFor(s, lc.transaction))
    requires LinksMatch(w, d0.files, lc) && lc.files != []
    ensures LinkedCommittable(w, d0, rs, s, lc)
  {
    hide Applies, Fits, TakesEffect, Holds, Readable, Conserved, LinksMatch;
  }

  lemma AcceptedLinks(s: LedgerState, tx: Transaction)
    requires Accepts(s, tx)
    ensures forall i | 0 <= i < |tx.linked| :: tx.linked[i].beforeChecksum != tx.linked[i].afterChecksum
  {
    hide SequenceContinues, OriginFits, ReadsNameTouched, ReadsCurrent, Authorized, DebitAvailable, CreditAllowed,
         Balanced, Registered, Touched, Blank;
    assert forall i | 0 <= i < |tx.linked| :: tx.linked[i] in tx.linked;
  }

  lemma LinkedMatches(w: World, d: Disk, tx: Transaction, files: seq<LinkedFile>)
    requires FilesAdmissible(w, d, tx, files)
    requires var linked := Linked(w, d, tx, files).transaction.linked;
             forall i | 0 <= i < |linked| :: linked[i].beforeChecksum != linked[i].afterChecksum
    ensures LinksMatch(w, d.files, Linked(w, d, tx, files)) && Linked(w, d, tx, files).files != []
  {
    hide TotalBytes, FileBytes, AfterBytes;
  }

  lemma LinkedPlanIsLoad(w: World, d0: Disk, rs: seq<ArcaneDelta>, s: LedgerState, tx: Transaction,
                         files: seq<LinkedFile>)
    requires LinkedCommittable(w, d0, rs, s, Linked(w, d0, tx, files)) && FilesAdmissible(w, d0, tx, files)
    ensures var lc := Linked(w, d0, tx, files);
            var d1 := d0.(linked := Some(lc));
            && CommitLinkedPlan(w, d0, s, tx, files).ops == [WriteLinked(lc)] + LoadPlan(w, d1).ops
            && Mid(w, d0, lc, DeltaFor(s, lc.transaction), d1)
  {
    hide *;
    var lc := Linked(w, d0, tx, files);
    var d1 := d0.(linked := Some(lc));
    LinkedParts(w, d0, rs, s, lc);
    AppliesAccepted(s, lc.transaction);
    AppliedKeepsConserved(s, lc.transaction);
    StartUnderway(d0, lc);
    AppendedIsPhase(w, d1, DeltaFor(s, lc.transaction));
    UnderwayMid(w, d0, lc, DeltaFor(s, lc.transaction), d1, d1);
    CommittableElsewhere(w, d0, rs, s, lc.transaction, d1);
    BaseHolds(w, d1, rs, s, lc.transaction);
    ReplayHolds(w, d1, rs, s);
    NoOps(d1);
    FinishFromStart(w, d0, rs, s, lc, d1);
    LoadTwoStage(w, d1, d1, s, After(s, lc.transaction));
    assert [] + LinkedPlan(w, d1, s).ops == LinkedPlan(w, d1, s).ops;
    CommitLinkedAdmitted(w, d0, s, tx, files);
  }

  lemma StartUnderway(d0: Disk, lc: LinkedCommit)
    ensures Underway(d0, lc, d0.(linked := Some(lc)))
  {
  }

  lemma CommitLinkedAdmitted(w: World, d0: Disk, s: LedgerState, tx: Transaction, files: seq<LinkedFile>)
    requires FilesAdmissible(w, d0, tx, files) && d0.linked.None? && Accepts(s, Linked(w, d0, tx, files).transaction)
    ensures var lc := Linked(w, d0, tx, files);
            var rest := LinkedPlan(w, d0.(linked := Some(lc)), s);
            CommitLinkedPlan(w, d0, s, tx, files) == Plan([WriteLinked(lc)] + rest.ops, rest.outcome)
  {
    hide LinkedPlan, Accepts, TotalBytes, Linked;
  }

  /** Forward recovery. Once the coordinator record of a linked commit is durable, cut it off after
      any prefix of its file replacements or anywhere in the journal commit, and cut off any number of
      loads after that: the next load that finishes leaves every linked file at its after bytes, every
      other file alone, and the transaction applied exactly once. Cut off before, nothing happened. */
  lemma LinkedCommitRecovers(w: World, d0: Disk, rs: seq<ArcaneDelta>, s: LedgerState, tx: Transaction,
                             files: seq<LinkedFile>, d: Disk, n: nat, e: Disk)
    requires Clean(w, d0, rs, s) && Fits(s) && FilesAdmissible(w, d0, tx, files)
    requires TakesEffect(s, Linked(w, d0, tx, files).transaction)
    requires Readable(w, d0, DeltaFor(s, Linked(w, d0, tx, files).transaction))
    requires CrashLeaves(d0, CommitLinkedPlan(w, d0, s, tx, files).ops, d)
    requires CrashedLoads(w, d, n, e)
    ensures d == d0 ==> LoadPlan(w, e).outcome == Some(s) && LoadedDisk(w, e) == d0
    ensures var lc := Linked(w, d0, tx, files);
            d != d0 ==>
              && LoadPlan(w, e).outcome == Some(After(s, lc.transaction))
              && Clean(w, LoadedDisk(w, e), rs + [DeltaFor(s, lc.transaction)], After(s, lc.transaction))
              && FilesDone(LoadedDisk(w, e).files, d0.files, lc)
  {
    hide *;
    var lc := Linked(w, d0, tx, files);
    var delta := DeltaFor(s, lc.transaction);
    var d1 := d0.(linked := Some(lc));
    LinkedIsCommittable(w, d0, rs, s, tx, files);
    LinkedPlanIsLoad(w, d0, rs, s, tx, files);
    if d == d0 {
      LoadsStayClean(w, d0, rs, s, n, e);
      LoadClean(w, d0, rs, s);
    } else {
      LoadMid(w, d0, rs, s, lc, d1);
      CrashConcat(d0, [WriteLinked(lc)], LoadPlan(w, d1).ops, d);
      OneOp(d0, WriteLinked(lc));
      WriteLinkedEffect(d0, lc);
      LoadsStayMid(w, d0, rs, s, lc, d, n, e);
      if Mid(w, d0, lc, delta, e) {
        LoadMid(w, d0, rs, s, lc, e);
        LoadFinished(w, d0, rs, s, lc, LoadedDisk(w, e));
        FinishedFiles(w, d0, lc, delta, LoadedDisk(w, e));
      } else {
        LoadFinished(w, d0, rs, s, lc, e);
        FinishedFiles(w, d0, lc, delta, e);
      }
    }
  }

  lemma WriteLinkedEffect(d: Disk, lc: LinkedCommit)
    ensures Perform(d, WriteLinked(lc)) == d.(linked := Some(lc))
    ensures forall e :: !TornAppend(d, WriteLinked(lc), e)
  {
  }

  lemma FinishedFiles(w: World, d0: Disk, lc: LinkedCommit, delta: ArcaneDelta, d: Disk)
    requires Finished(w, d0, lc, delta, d)
    ensures FilesDone(d.files, d0.files, lc)
  {
    hide FilesDone, Frame;
  }

  /** While a coordinator record is pending, every unlinked transaction and every other linked one is
      turned away without touching the disk, and no second linked commit begins. */
  lemma PendingRecordBlocks(w: World, d: Disk, s: LedgerState, tx: Transaction, files: seq<LinkedFile>)
    requires d.linked.Some?
    ensures tx.linked == [] || d.linked.value.transaction.id != tx.id ==> CommitPlan(w, d, s, tx) == Plan([], None)
    ensures CommitLinkedPlan(w, d, s, tx, files) == Plan([], None)
  {
    hide Accepts, Applies;
  }

  // ----- checkpoints -----

  /** What a snapshot keeps: everything but the provenance cache. */
  function Durable(s: LedgerState): LedgerState {
    s.(attribution := [])
  }

  function SaveOps(w: World, d: Disk, s: LedgerState): seq<DiskOp> {
    [WriteSnapshotBackup(d.snapshot), WriteLogBackup(d.log), WriteSnapshot(Durable(s)),
     ReplaceLog(Magic), RemovePending, WriteManifest(w.fingerprint(Durable(s)))]
  }

  /** The fingerprint tells the new checkpoint from the one it replaces. */
  ghost predicate Distinguishes(w: World, a: LedgerState, b: LedgerState) {
    w.fingerprint(a) == w.fingerprint(b) ==> a == b
  }

  lemma {:induction false} CrashIsPrefix(d: Disk, ops: seq<DiskOp>, e: Disk)
    requires CrashLeaves(d, ops, e) && forall op | op in ops :: !op.AppendLog?
    ensures exists i :: 0 <= i <= |ops| && e == PerformAll(d, ops[..i])
    decreases |ops|
  {
    hide Perform;
    if e == d {
      assert e == PerformAll(d, ops[..0]);
    } else {
      CrashIsPrefix(Perform(d, ops[0]), ops[1..], e);
      var i :| 0 <= i <= |ops[1..]| && e == PerformAll(Perform(d, ops[0]), ops[1..][..i]);
      assert ops[..i + 1][0] == ops[0] && ops[..i + 1][1..] == ops[1..][..i];
      assert e == PerformAll(d, ops[..i + 1]);
    }
  }

  /** The disk after the first `i` steps of a save. */
  function SaveStep(w: World, d: Disk, s: LedgerState, i: nat): Disk {
    var d1 := if i >= 1 then d.(snapshotBackup := Some(d.snapshot)) else d;
    var d2 := if i >= 2 then d1.(logBackup := Some(d.log)) else d1;
    var d3 := if i >= 3 then d2.(snapshot := Durable(s)) else d2;
    var d4 := if i >= 4 then d3.(log := Magic) else d3;
    var d5 := if i >= 5 then d4.(pending := None) else d4;
    if i >= 6 then d5.(manifest := w.fingerprint(Durable(s))) else d5
  }

  lemma {:induction false} SavePrefix(w: World, d: Disk, s: LedgerState, i: nat)
    requires i <= 6
    ensures PerformAll(d, SaveOps(w, d, s)[..i]) == SaveStep(w, d, s, i)
  {
    var ops := SaveOps(w, d, s);
    if i == 0 {
      NoOps(d);
    } else {
      SavePrefix(w, d, s, i - 1);
      assert ops[..i] == ops[..i - 1] + [ops[i - 1]];
      PerformConcat(d, ops[..i - 1], [ops[i - 1]]);
      OneOp(SaveStep(w, d, s, i - 1), ops[i - 1]);
    }
  }

  function Restored(w: World, d: Disk, saved: LedgerState, i: nat): Disk {
    SaveStep(w, d, saved, i).(snapshot := d.snapshot, log := d.log)
  }

  /** A checkpoint cut off after its ledger was written and before its manifest was: the next load restores. */
  ghost predicate Torn(w: World, d: Disk, saved: LedgerState, i: nat) {
    3 <= i < 6 && w.fingerprint(Durable(saved)) != d.manifest
  }

  /** The states a cut checkpoint can leave. */
  lemma SaveCases(w: World, d: Disk, rs: seq<ArcaneDelta>, t: LedgerState, saved: LedgerState, e: Disk)
    requires Clean(w, d, rs, t) && Conserved(saved) && Decodes(w, Durable(saved))
    requires Distinguishes(w, Durable(saved), d.snapshot)
    requires CrashLeaves(d, SaveOps(w, d, saved), e)
    ensures || Clean(w, e, rs, t) || Clean(w, e, [], Durable(saved))
            || exists i :: Torn(w, d, saved, i) && e == SaveStep(w, d, saved, i)
  {
    assert w.fingerprint(Durable(saved)) == w.fingerprint(d.snapshot) ==> Durable(saved) == d.snapshot;
    TornIs(w, d, saved);
    hide *;
    CleanManifest(w, d, rs, t);
    SaveNeverAppends(w, d, saved);
    CrashIsPrefix(d, SaveOps(w, d, saved), e);
    var i :| 0 <= i <= |SaveOps(w, d, saved)| && e == PerformAll(d, SaveOps(w, d, saved)[..i]);
    SavePrefix(w, d, saved, i);
    if i < 3 || (i == 3 && Durable(saved) == d.snapshot) {
      SaveEarly(w, d, rs, t, saved, i);
    } else if i == 6 || w.fingerprint(Durable(saved)) == d.manifest {
      SaveLate(w, d, rs, t, saved, i);
    } else {
      assert Torn(w, d, saved, i);
    }
  }

  lemma TornIs(w: World, d: Disk, saved: LedgerState)
    ensures forall i: nat :: Torn(w, d, saved, i) <==> 3 <= i < 6 && w.fingerprint(Durable(saved)) != d.manifest
  {
  }

  /** Cut a checkpoint of any conserving ledger that can be read back off anywhere and load once without interruption:
      what is back, on a clean disk, is the ledger the disk held before, or the checkpointed one short only of its
      provenance cache. Once the last step is done it is the checkpointed one. */
  lemma SaveCrashSafe(w: World, d: Disk, rs: seq<ArcaneDelta>, t: LedgerState, s: LedgerState, e: Disk)
    requires Clean(w, d, rs, t) && Conserved(s) && Decodes(w, Durable(s))
    requires Distinguishes(w, Durable(s), d.snapshot)
    requires CrashLeaves(d, SaveOps(w, d, s), e)
    ensures || (LoadPlan(w, e).outcome == Some(t) && Clean(w, LoadedDisk(w, e), rs, t))
            || (LoadPlan(w, e).outcome == Some(Durable(s)) && Clean(w, LoadedDisk(w, e), [], Durable(s)))
    ensures e == PerformAll(d, SaveOps(w, d, s)) ==>
              LoadPlan(w, e).outcome == Some(Durable(s)) && Clean(w, e, [], Durable(s))
  {
    hide *;
    SaveCases(w, d, rs, t, s, e);
    if e == PerformAll(d, SaveOps(w, d, s)) {
      SavePrefix(w, d, s, 6);
      SaveNeverAppends(w, d, s);
      assert SaveOps(w, d, s)[..6] == SaveOps(w, d, s);
      SaveLate(w, d, rs, t, s, 6);
      LoadClean(w, e, [], Durable(s));
    } else if Clean(w, e, rs, t) {
      LoadClean(w, e, rs, t);
    } else if Clean(w, e, [], Durable(s)) {
      LoadClean(w, e, [], Durable(s));
    } else {
      var i :| Torn(w, d, s, i) && e == SaveStep(w, d, s, i);
      RestoreCut(w, d, rs, t, s, i);
    }
  }

  lemma CleanManifest(w: World, d: Disk, rs: seq<ArcaneDelta>, t: LedgerState)
    requires Clean(w, d, rs, t)
    ensures w.fingerprint(d.snapshot) == d.manifest
  {
    hide ApplyRecords, Decodable, Faithful, Log;
  }

  lemma SaveNeverAppends(w: World, d: Disk, s: LedgerState)
    ensures |SaveOps(w, d, s)| == 6 && forall op | op in SaveOps(w, d, s) :: !op.AppendLog?
  {
  }

  lemma SaveEarly(w: World, d: Disk, rs: seq<ArcaneDelta>, t: LedgerState, s: LedgerState, i: nat)
    requires Clean(w, d, rs, t) && (i < 3 || (i == 3 && Durable(s) == d.snapshot))
    ensures Clean(w, SaveStep(w, d, s, i), rs, t)
  {
    hide ApplyRecords, Decodable, Faithful, Log;
  }

  lemma SaveLate(w: World, d: Disk, rs: seq<ArcaneDelta>, t: LedgerState, s: LedgerState, i: nat)
    requires Clean(w, d, rs, t) && Conserved(s) && Decodes(w, Durable(s)) && 4 <= i <= 6
    requires i == 6 || w.fingerprint(Durable(s)) == d.manifest
    ensures Clean(w, SaveStep(w, d, s, i), [], Durable(s))
  {
    hide Faithful, GrandTotal;
    LogHeaderAlone(w.codec);
  }

  lemma LogHeaderAlone(c: Codec<ArcaneDelta>)
    ensures Log(c, []) == Magic
  {
  }

  lemma CleanFrom(w: World, d: Disk, rs: seq<ArcaneDelta>, s: LedgerState)
    requires Holds(w, d, rs, s) && d.pending.None? && d.linked.None? && Conserved(s)
    ensures Clean(w, d, rs, s)
  {
    hide Holds, Conserved;
  }

  /** A load that restores has two disk operations, and between them the log may be missing. */
  lemma RestoreCut(w: World, d: Disk, rs: seq<ArcaneDelta>, t: LedgerState, saved: LedgerState, i: nat)
    requires Clean(w, d, rs, t) && Torn(w, d, saved, i) && Decodes(w, Durable(saved))
    ensures LoadPlan(w, SaveStep(w, d, saved, i))
            == Plan([WriteSnapshot(d.snapshot), ReplaceLog(d.log)], Some(t))
    ensures LoadedDisk(w, SaveStep(w, d, saved, i)) == Restored(w, d, saved, i)
    ensures Clean(w, Restored(w, d, saved, i), rs, t)
  {
    var e := SaveStep(w, d, saved, i);
    var restore := [WriteSnapshot(d.snapshot), ReplaceLog(d.log)];
    var f := Restored(w, d, saved, i);
    assert RestoreOps(w, e) == Some(restore) && f.pending.None? && f.linked.None? && Holds(w, f, rs, t)
           && Conserved(t) && f == e.(snapshot := d.snapshot, log := d.log) by {
      hide ApplyRecords, Decodable, Faithful, Log;
    }
    hide Holds, Clean, ReplayPlan, Conserved, ReplayOps, SaveStep, RestoreOps, Restored;
    TwoOps(e, WriteSnapshot(d.snapshot), ReplaceLog(d.log));
    assert PerformAll(e, restore) == f;
    ReplayHolds(w, f, rs, t);
    NoOps(f);
    assert restore + ([] + []) == restore;
    CleanFrom(w, f, rs, t);
    hide PerformAll;
  }
}
