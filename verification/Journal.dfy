/** The world directory, the disk programs that change it, and what loading makes of it. */
module Journal {
  import opened Prelude
  import opened LedgerModel
  import opened LedgerRuns
  import opened Frames

  const MAX_DELTA_BYTES: nat := 64 * 1024 * 1024
  const MAX_LINKED_BYTES: nat := 128 * 1024 * 1024
  const MAX_LINKED_FILES: nat := 16
  const MAX_OWNERS: nat := 4_000_000

  datatype ArcaneDelta = ArcaneDelta(sequence: nat, transaction: Transaction)

  /** A file a linked commit replaces, or removes when there is nothing to put in its place. */
  datatype LinkedFile = LinkedFile(subsystem: string, operationId: nat, path: string, after: Option<seq<byte>>)

  datatype LinkedCommit = LinkedCommit(transaction: Transaction, files: seq<LinkedFile>)

  /** What lies outside the model: serialization, the table of replaceable paths, the size of a serialized coordinator
      record or snapshot, and the manifest's fingerprint of a snapshot. */
  datatype World = World(
    codec: Codec<ArcaneDelta>,
    pathAllowed: LinkedFile -> bool,
    recordFits: LinkedCommit -> bool,
    snapshotFits: LedgerState -> bool,
    fingerprint: LedgerState -> nat)

  datatype Disk = Disk(
    snapshot: LedgerState,
    log: seq<byte>,
    pending: Option<ArcaneDelta>,
    linked: Option<LinkedCommit>,
    files: map<string, seq<byte>>,
    snapshotBackup: Option<LedgerState>,
    logBackup: Option<seq<byte>>,
    manifest: nat)

  // ----- disk programs -----

  /** Each operation is atomic except an append, which may stop after any byte. */
  datatype DiskOp =
    | WritePending(delta: ArcaneDelta)
    | RemovePending
    | AppendLog(bytes: seq<byte>)
    | ReplaceLog(contents: seq<byte>)
    | WriteLinked(commit: LinkedCommit)
    | RemoveLinked
    | ReplaceFile(file: LinkedFile)
    | WriteSnapshotBackup(previous: LedgerState)
    | WriteLogBackup(oldLog: seq<byte>)
    | WriteSnapshot(state: LedgerState)
    | WriteManifest(mark: nat)

  function PutFile(files: map<string, seq<byte>>, f: LinkedFile): map<string, seq<byte>> {
    match f.after
    case None => files - {f.path}
    case Some(bytes) => files[f.path := bytes]
  }

  function Perform(d: Disk, op: DiskOp): Disk {
    match op
    case WritePending(delta) => d.(pending := Some(delta))
    case RemovePending => d.(pending := None)
    case AppendLog(bytes) => d.(log := d.log + bytes)
    case ReplaceLog(contents) => d.(log := contents)
    case WriteLinked(commit) => d.(linked := Some(commit))
    case RemoveLinked => d.(linked := None)
    case ReplaceFile(f) => d.(files := PutFile(d.files, f))
    case WriteSnapshotBackup(previous) => d.(snapshotBackup := Some(previous))
    case WriteLogBackup(oldLog) => d.(logBackup := Some(oldLog))
    case WriteSnapshot(state) => d.(snapshot := state)
    case WriteManifest(mark) => d.(manifest := mark)
  }

  function PerformAll(d: Disk, ops: seq<DiskOp>): Disk
    decreases |ops|
  {
    if ops == [] then d else PerformAll(Perform(d, ops[0]), ops[1..])
  }

  ghost predicate TornAppend(d: Disk, op: DiskOp, after: Disk) {
    op.AppendLog? && exists k :: 0 <= k <= |op.bytes| && after == d.(log := d.log + op.bytes[..k])
  }

  /** The disks a crash can leave behind while `ops` run from `d`. */
  ghost predicate CrashLeaves(d: Disk, ops: seq<DiskOp>, after: Disk)
    decreases |ops|
  {
    || after == d
    || (ops != [] && TornAppend(d, ops[0], after))
    || (ops != [] && CrashLeaves(Perform(d, ops[0]), ops[1..], after))
  }

  lemma OneOp(d: Disk, a: DiskOp)
    ensures PerformAll(d, [a]) == Perform(d, a)
    ensures forall e | CrashLeaves(d, [a], e) :: e == d || TornAppend(d, a, e) || e == Perform(d, a)
  {
    hide Perform, TornAppend;
    assert [a][1..] == [];
  }

  lemma TwoOps(d: Disk, a: DiskOp, b: DiskOp)
    ensures PerformAll(d, [a, b]) == Perform(Perform(d, a), b)
    ensures forall e | CrashLeaves(d, [a, b], e) :: e == d || TornAppend(d, a, e) || CrashLeaves(Perform(d, a), [b], e)
  {
    hide Perform, TornAppend;
    assert [a, b][1..] == [b];
    OneOp(Perform(d, a), b);
  }

  lemma ThreeOps(d: Disk, a: DiskOp, b: DiskOp, c: DiskOp)
    ensures PerformAll(d, [a, b, c]) == Perform(Perform(Perform(d, a), b), c)
    ensures forall e | CrashLeaves(d, [a, b, c], e) ::
              e == d || TornAppend(d, a, e) || CrashLeaves(Perform(d, a), [b, c], e)
  {
    hide Perform, TornAppend;
    assert [a, b, c][1..] == [b, c];
    TwoOps(Perform(d, a), b, c);
  }

  lemma {:induction false} PerformConcat(d: Disk, a: seq<DiskOp>, b: seq<DiskOp>)
    ensures PerformAll(d, a + b) == PerformAll(PerformAll(d, a), b)
    decreases |a|
  {
    if a == [] {
      assert a + b == b;
    } else {
      PerformConcat(Perform(d, a[0]), a[1..], b);
      assert (a + b)[1..] == a[1..] + b;
    }
  }

  lemma {:induction false} CrashConcat(d: Disk, a: seq<DiskOp>, b: seq<DiskOp>, after: Disk)
    requires CrashLeaves(d, a + b, after)
    ensures CrashLeaves(d, a, after) || CrashLeaves(PerformAll(d, a), b, after)
    decreases |a|
  {
    if a == [] {
      assert a + b == b;
    } else {
      assert (a + b)[0] == a[0] && (a + b)[1..] == a[1..] + b;
      if CrashLeaves(Perform(d, a[0]), (a + b)[1..], after) {
        CrashConcat(Perform(d, a[0]), a[1..], b, after);
      }
    }
  }

  /** A crash in a program of three parts is a crash in one of them. */
  lemma CrashInParts(d: Disk, a: seq<DiskOp>, b: seq<DiskOp>, c: seq<DiskOp>)
    ensures var d1, d2 := PerformAll(d, a), PerformAll(PerformAll(d, a), b);
            && PerformAll(d, a + b + c) == PerformAll(d2, c)
            && forall e | CrashLeaves(d, a + b + c, e) ::
                 CrashLeaves(d, a, e) || CrashLeaves(d1, b, e) || CrashLeaves(d2, c, e)
  {
    hide PerformAll, CrashLeaves;
    PerformConcat(d, a + b, c);
    PerformConcat(d, a, b);
    forall e | CrashLeaves(d, a + b + c, e)
      ensures CrashLeaves(d, a, e) || CrashLeaves(PerformAll(d, a), b, e)
              || CrashLeaves(PerformAll(PerformAll(d, a), b), c, e)
    {
      CrashConcat(d, a + b, c, e);
      if CrashLeaves(d, a + b, e) {
        CrashConcat(d, a, b, e);
      }
    }
  }

  // ----- plans: the operations a call performs and the ledger it ends with -----

  datatype Plan = Plan(ops: seq<DiskOp>, outcome: Option<LedgerState>)

  predicate LinkedGate(d: Disk, tx: Transaction) {
    if tx.linked != [] then
      d.linked.Some? && d.linked.value.transaction.id == tx.id && d.linked.value.transaction.linked == tx.linked
    else d.linked.None?
  }

  function HeaderOps(d: Disk): seq<DiskOp> {
    if d.log == [] then [AppendLog(Magic)] else []
  }

  ghost function CommitPlan(w: World, d: Disk, s: LedgerState, tx: Transaction): Plan {
    if !LinkedGate(d, tx) then Plan([], None)
    else if Duplicate(s, tx.id) then Plan([], Some(s))
    else if !Accepts(s, tx) || s.lastDeltaSeq >= U64_MAX then Plan([], None)
    else
      var delta := ArcaneDelta(s.lastDeltaSeq + 1, tx);
      if |w.codec.encode(delta)| >= TWO32 then Plan([WritePending(delta)], None)
      else
        var written := [WritePending(delta)] + HeaderOps(d) + [AppendLog(Frame(w.codec, delta))];
        if Applies(s, tx) && Fits(s) then Plan(written + [RemovePending], Some(After(s, tx)))
        else Plan(written, None)
  }

  function FileBytes(files: map<string, seq<byte>>, path: string): seq<byte> {
    if path in files then files[path] else []
  }

  function AfterBytes(f: LinkedFile): seq<byte> {
    match f.after
    case None => []
    case Some(bytes) => bytes
  }

  datatype FilePlan = FilePlan(ops: seq<DiskOp>, files: map<string, seq<byte>>, ok: bool)

  /** Bring the first `n` linked files to their after bytes, skipping those already there. */
  function LinkedFiles(w: World, files: map<string, seq<byte>>, lc: LinkedCommit, n: nat): FilePlan
    requires n <= |lc.files| && n <= |lc.transaction.linked|
  {
    if n == 0 then FilePlan([], files, true)
    else
      var prev := LinkedFiles(w, files, lc, n - 1);
      var f, l := lc.files[n - 1], lc.transaction.linked[n - 1];
      if !prev.ok then prev
      else if !w.pathAllowed(f) || f.subsystem != l.subsystem || f.operationId != l.operationId then prev.(ok := false)
      else
        var sum := w.codec.checksum(FileBytes(prev.files, f.path));
        if sum == l.afterChecksum then prev
        else if sum != l.beforeChecksum then prev.(ok := false)
        else FilePlan(prev.ops + [ReplaceFile(f)], PutFile(prev.files, f), true)
  }

  function Zipped(lc: LinkedCommit): nat {
    Min(|lc.files|, |lc.transaction.linked|)
  }

  /** Finish the coordinator record on disk, if there is one. */
  ghost function LinkedPlan(w: World, d: Disk, s: LedgerState): Plan {
    match d.linked
    case None => Plan([], Some(s))
    case Some(lc) =>
      var fp := LinkedFiles(w, d.files, lc, Zipped(lc));
      if !fp.ok then Plan(fp.ops, None)
      else
        var cp := CommitPlan(w, PerformAll(d, fp.ops), s, lc.transaction);
        Plan(fp.ops + cp.ops + (if cp.outcome.Some? then [RemoveLinked] else []), cp.outcome)
  }

  function LinkOf(w: World, d: Disk, f: LinkedFile): LinkedMutation {
    LinkedMutation(f.subsystem, f.operationId,
                   w.codec.checksum(FileBytes(d.files, f.path)), w.codec.checksum(AfterBytes(f)))
  }

  function TotalBytes(files: seq<LinkedFile>): nat {
    if files == [] then 0 else TotalBytes(files[..|files| - 1]) + |AfterBytes(files[|files| - 1])|
  }

  function Links(w: World, d: Disk, files: seq<LinkedFile>): seq<LinkedMutation> {
    seq(|files|, i requires 0 <= i < |files| => LinkOf(w, d, files[i]))
  }

  function Linked(w: World, d: Disk, tx: Transaction, files: seq<LinkedFile>): LinkedCommit {
    LinkedCommit(tx.(linked := Links(w, d, files)), files)
  }

  ghost function CommitLinkedPlan(w: World, d: Disk, s: LedgerState, tx: Transaction, files: seq<LinkedFile>): Plan {
    var lc := Linked(w, d, tx, files);
    if || !(1 <= |files| <= MAX_LINKED_FILES) || d.linked.Some?
       || (exists f | f in files :: !w.pathAllowed(f))
       || TotalBytes(files) > MAX_LINKED_BYTES
       || !Accepts(s, lc.transaction) || !w.recordFits(lc)
    then Plan([], None)
    else
      var rest := LinkedPlan(w, d.(linked := Some(lc)), s);
      Plan([WriteLinked(lc)] + rest.ops, rest.outcome)
  }

  // ----- loading -----

  /** A snapshot that can be read back: within the bounds of the reader, and with sound accounts only. Writing a
      snapshot checks none of this. */
  ghost predicate Decodes(w: World, s: LedgerState) {
    w.snapshotFits(s) && |s.accounts| <= MAX_OWNERS && AccountsSound(s)
  }

  /** A snapshot must decode. A clean checkpoint matches the manifest; otherwise the backup pair is rolled forward. */
  ghost function RestoreOps(w: World, d: Disk): Option<seq<DiskOp>> {
    if !Decodes(w, d.snapshot) then None
    else if w.fingerprint(d.snapshot) == d.manifest then Some([])
    else if && d.snapshotBackup.Some? && Decodes(w, d.snapshotBackup.value)
            && w.fingerprint(d.snapshotBackup.value) == d.manifest && d.logBackup.Some?
    then Some([WriteSnapshot(d.snapshotBackup.value), ReplaceLog(d.logBackup.value)])
    else None
  }

  datatype Replay = Replay(ops: seq<DiskOp>, records: seq<ArcaneDelta>)

  /** Repair the tail of the log from the pending record and list the records to replay. */
  function ReplayOps(w: World, d: Disk): Option<Replay> {
    var dec := Decode(w.codec, d.log);
    if |d.log| > MAX_DELTA_BYTES || !(Magic <= d.log) then None
    else
      match d.pending
      case None => if dec.complete then Some(Replay([], dec.records)) else None
      case Some(p) =>
        var logged := exists i :: 0 <= i < |dec.records| && dec.records[i].sequence == p.sequence;
        var last := if dec.records == [] then d.snapshot.lastDeltaSeq else dec.records[|dec.records| - 1].sequence;
        if dec.complete && logged then Some(Replay([RemovePending], dec.records))
        else if last >= U64_MAX || p.sequence != last + 1 || dec.end > |d.log| || |w.codec.encode(p)| >= TWO32 then None
        else Some(Replay([ReplaceLog(d.log[..dec.end] + Frame(w.codec, p)), RemovePending], dec.records + [p]))
  }

  ghost function ApplyRecords(s: LedgerState, rs: seq<ArcaneDelta>): Option<LedgerState> {
    if rs == [] then Some(s)
    else
      var r := rs[|rs| - 1];
      match ApplyRecords(s, rs[..|rs| - 1])
      case None => None
      case Some(t) =>
        if r.sequence <= t.lastDeltaSeq then Some(t)
        else if t.lastDeltaSeq >= U64_MAX || r.sequence != t.lastDeltaSeq + 1 then None
        else if Applies(t, r.transaction) && Fits(t) then Some(After(t, r.transaction))
        else None
  }

  ghost function ReplayPlan(w: World, d: Disk): Plan {
    match ReplayOps(w, d)
    case None => Plan([], None)
    case Some(r) => Plan(r.ops, ApplyRecords(d.snapshot, r.records))
  }

  ghost function LoadPlan(w: World, d: Disk): Plan {
    match RestoreOps(w, d)
    case None => Plan([], None)
    case Some(restore) =>
      var d1 := PerformAll(d, restore);
      var replay := ReplayPlan(w, d1);
      if replay.outcome.None? then Plan(restore + replay.ops, None)
      else
        var d2 := PerformAll(d1, replay.ops);
        var linked := LinkedPlan(w, d2, replay.outcome.value);
        Plan(restore + (replay.ops + linked.ops),
             if linked.outcome.Some? && Conserved(linked.outcome.value) then linked.outcome else None)
  }

  /** The disk a completed load leaves. */
  ghost function LoadedDisk(w: World, d: Disk): Disk {
    PerformAll(d, LoadPlan(w, d).ops)
  }

  /** `n` loads in a row were cut off, each somewhere, leaving `after`. */
  ghost predicate CrashedLoads(w: World, d: Disk, n: nat, after: Disk)
    decreases n
  {
    if n == 0 then after == d
    else exists mid :: CrashLeaves(d, LoadPlan(w, d).ops, mid) && CrashedLoads(w, mid, n - 1, after)
  }
}
