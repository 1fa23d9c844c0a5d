/** Whole lives of a world directory: commits, checkpoints and operator adjustments, each of them finished or cut off
    anywhere and loaded again. */
module WorldRuns {
  import opened Prelude
  import opened CurrentUnits
  import opened LedgerModel
  import opened LedgerRuns
  import opened Journal
  import opened Recovery
  import opened RunningLedger
  import opened Checkpoints

  /** A disk and the ledger in memory above it. */
  datatype Standing = Standing(disk: Disk, ledger: LedgerState)

  /** What happens between two moments at which a ledger stands in memory. A call that is cut off leaves the disk
      `left`; `loads` loads are cut off after it and leave the disk `found`, from which the next load finishes. */
  datatype Event =
    | Committed(tx: Transaction)
    | CutCommit(tx: Transaction, left: Disk, loads: nat, found: Disk)
    | CommittedFiles(tx: Transaction, files: seq<LinkedFile>)
    | CutFiles(tx: Transaction, files: seq<LinkedFile>, left: Disk, loads: nat, found: Disk)
    | Saved
    | CutSave(left: Disk, loads: nat, found: Disk)
    | Adjusting(op: LedgerOp)
    | CutAdjusting(op: LedgerOp, left: Disk, loads: nat, found: Disk)

  /** The journal can hold the transaction: it will be refused, or its record can be read back. */
  ghost predicate Commits(w: World, a: Standing, tx: Transaction) {
    tx.linked == [] && (WritesRecord(a.ledger, tx) ==> Loadable(w, a.disk, a.ledger, tx))
  }

  ghost predicate CommitsFiles(w: World, a: Standing, tx: Transaction, files: seq<LinkedFile>) {
    var linked := Linked(w, a.disk, tx, files).transaction;
    && FilesAdmissible(w, a.disk, tx, files) && TakesEffect(a.ledger, linked)
    && Readable(w, a.disk, DeltaFor(a.ledger, linked))
  }

  ghost predicate Adjusts(a: Standing, op: LedgerOp) {
    op.AdjustDeep? && AdjustAllowed(a.ledger, op)
  }

  /** A load from the disk `found` has finished. */
  ghost predicate Loaded(w: World, found: Disk, b: Standing) {
    LoadPlan(w, found).outcome == Some(b.ledger) && b.disk == LoadedDisk(w, found)
  }

  ghost predicate Ended(plan: Plan, a: Standing, b: Standing) {
    b.disk == PerformAll(a.disk, plan.ops) && b.ledger == if plan.outcome.Some? then plan.outcome.value else a.ledger
  }

  ghost predicate CutOff(w: World, a: Standing, ops: seq<DiskOp>, left: Disk, loads: nat, found: Disk, b: Standing) {
    CrashLeaves(a.disk, ops, left) && CrashedLoads(w, left, loads, found) && Loaded(w, found, b)
  }

  /** A checkpoint is cut off; unless the world is rested, the load after it is not. */
  ghost predicate CutWhileSaving(w: World, a: Standing, saved: LedgerState, left: Disk, loads: nat, found: Disk,
                                 b: Standing)
  {
    && Decodes(w, Durable(saved)) && Distinguishes(w, Durable(saved), a.disk.snapshot)
    && (loads == 0 || Rested(a.disk, a.ledger, saved))
    && CutOff(w, a, SaveOps(w, a.disk, saved), left, loads, found, b)
  }

  ghost predicate Leads(w: World, a: Standing, event: Event, b: Standing) {
    match event
    case Committed(tx) => Commits(w, a, tx) && Ended(CommitPlan(w, a.disk, a.ledger, tx), a, b)
    case CutCommit(tx, left, loads, found) =>
      Commits(w, a, tx) && CutOff(w, a, CommitPlan(w, a.disk, a.ledger, tx).ops, left, loads, found, b)
    case CommittedFiles(tx, files) =>
      CommitsFiles(w, a, tx, files) && Ended(CommitLinkedPlan(w, a.disk, a.ledger, tx, files), a, b)
    case CutFiles(tx, files, left, loads, found) =>
      && CommitsFiles(w, a, tx, files)
      && CutOff(w, a, CommitLinkedPlan(w, a.disk, a.ledger, tx, files).ops, left, loads, found, b)
    case Saved => Decodes(w, Durable(a.ledger))
      && b == Standing(PerformAll(a.disk, SaveOps(w, a.disk, a.ledger)), a.ledger)
    case CutSave(left, loads, found) => CutWhileSaving(w, a, a.ledger, left, loads, found, b)
    case Adjusting(op) =>
      && Adjusts(a, op) && Decodes(w, Durable(Adjusted(a.ledger, op)))
      && b == Standing(PerformAll(a.disk, SaveOps(w, a.disk, Adjusted(a.ledger, op))), Adjusted(a.ledger, op))
    case CutAdjusting(op, left, loads, found) =>
      Adjusts(a, op) && CutWhileSaving(w, a, Adjusted(a.ledger, op), left, loads, found, b)
  }

  /** What the event did to the ledger: at most one call, and none when it was cut off too early to be seen. */
  ghost function Effect(w: World, a: Standing, event: Event, b: Standing): (ops: seq<LedgerOp>)
    ensures |ops| <= 1
  {
    match event
    case Committed(tx) => [Transact(tx)]
    case CutCommit(tx, left, _, _) => if left == a.disk then [] else [Transact(tx)]
    case CommittedFiles(tx, files) => [Transact(Linked(w, a.disk, tx, files).transaction)]
    case CutFiles(tx, files, left, _, _) =>
      if left == a.disk then [] else [Transact(Linked(w, a.disk, tx, files).transaction)]
    case Saved => []
    case CutSave(_, _, _) => []
    case Adjusting(op) => [op]
    case CutAdjusting(op, _, _, _) => if SameDurable(b.ledger, a.ledger) then [] else [op]
  }

  /** Some clean history mirrors the ledger in memory. */
  ghost predicate Kept(w: World, a: Standing) {
    exists rs, s :: Mirrors(w, a.disk, rs, s, a.ledger)
  }

  /** One event, as a step of a ledger run. */
  ghost predicate Stepped(w: World, a: Standing, ops: seq<LedgerOp>, b: Standing) {
    && Kept(w, b) && |ops| <= 1
    && (ops == [] ==> SameDurable(b.ledger, a.ledger))
    && (ops != [] ==> Step(a.ledger, ops[0]).Some? && SameDurable(b.ledger, Step(a.ledger, ops[0]).value))
  }

  lemma SteppedNothing(w: World, a: Standing, b: Standing, rs: seq<ArcaneDelta>, s: LedgerState)
    requires Mirrors(w, b.disk, rs, s, b.ledger) && SameDurable(b.ledger, a.ledger)
    ensures Stepped(w, a, [], b)
  {
    hide Mirrors, SameDurable;
  }

  lemma SteppedOnce(w: World, a: Standing, op: LedgerOp, b: Standing, rs: seq<ArcaneDelta>, s: LedgerState)
    requires Mirrors(w, b.disk, rs, s, b.ledger)
    requires Step(a.ledger, op).Some? && SameDurable(b.ledger, Step(a.ledger, op).value)
    ensures Stepped(w, a, [op], b)
  {
    hide Mirrors, SameDurable, Step;
  }

  lemma SameOneself(m: LedgerState)
    ensures SameDurable(m, m)
  {
  }

  lemma LoadsAsMirrors(w: World, found: Disk, rs: seq<ArcaneDelta>, m: LedgerState, b: Standing)
    requires LoadsAs(w, found, rs, m) && Loaded(w, found, b)
    ensures Mirrors(w, b.disk, rs, b.ledger, b.ledger) && SameDurable(b.ledger, m)
  {
    hide LoadPlan, LoadedDisk, Clean;
  }

  // ----- commits -----

  lemma TransactStep(m: LedgerState, tx: Transaction)
    ensures Step(m, Transact(tx)) == Some(if TakesEffect(m, tx) then After(m, tx) else m)
    ensures TakesEffect(m, tx) ==> Applies(m, tx)
  {
    hide TakesEffect, After;
    hide Applies;
    assert TakesEffect(m, tx) ==> Applies(m, tx) by { AppliesWhenEffective(m, tx); }
  }

  lemma AppliesWhenEffective(m: LedgerState, tx: Transaction)
    ensures TakesEffect(m, tx) ==> Applies(m, tx)
  {
    hide Applies, Duplicate;
  }

  /** A transaction the journal can hold either writes a record that takes effect, or writes nothing. */
  lemma CommitsParts(w: World, a: Standing, tx: Transaction)
    requires Commits(w, a, tx)
    ensures tx.linked == []
    ensures WritesRecord(a.ledger, tx) ==>
              && TakesEffect(a.ledger, tx) && Fits(a.ledger) && Readable(w, a.disk, DeltaFor(a.ledger, tx))
    ensures !WritesRecord(a.ledger, tx) ==> !TakesEffect(a.ledger, tx)
  {
    if WritesRecord(a.ledger, tx) {
      LoadableIff(w, a.disk, a.ledger, tx);
      hide Applies, Loadable, Fits, Readable;
      RecordTakesEffect(a.ledger, tx);
    } else if TakesEffect(a.ledger, tx) {
      hide WritesRecord, Applies, TakesEffect;
      AppliesWhenEffective(a.ledger, tx);
      AppliesAccepted(a.ledger, tx);
      RecordFrom(a.ledger, tx);
    }
  }

  lemma RecordFrom(s: LedgerState, tx: Transaction)
    requires TakesEffect(s, tx) && Accepts(s, tx) && tx.linked == []
    ensures WritesRecord(s, tx)
  {
    hide Accepts, Applies, Duplicate;
  }

  /** A transaction that writes no record touches neither disk nor ledger. */
  lemma NothingWritten(w: World, d: Disk, rs: seq<ArcaneDelta>, s: LedgerState, m: LedgerState, tx: Transaction)
    requires Mirrors(w, d, rs, s, m) && tx.linked == [] && !WritesRecord(m, tx)
    ensures CommitPlan(w, d, m, tx) == Plan([], None) || CommitPlan(w, d, m, tx) == Plan([], Some(m))
  {
    hide Accepts, Applies, Duplicate, Clean, After, Fits;
  }

  lemma CommittedSteps(w: World, a: Standing, tx: Transaction, b: Standing)
    requires Kept(w, a) && Leads(w, a, Committed(tx), b)
    ensures Stepped(w, a, [Transact(tx)], b)
  {
    var rs, s :| Mirrors(w, a.disk, rs, s, a.ledger);
    var plan := CommitPlan(w, a.disk, a.ledger, tx);
    assert Commits(w, a, tx) && Ended(plan, a, b);
    EndedIs(plan, a, b);
    hide *;
    CommitsParts(w, a, tx);
    TransactStep(a.ledger, tx);
    if WritesRecord(a.ledger, tx) {
      CommitMirrors(w, a.disk, rs, s, a.ledger, tx);
      CommitEnds(w, a.disk, rs, s, a.ledger, tx);
      SameOneself(b.ledger);
      SteppedOnce(w, a, Transact(tx), b, rs + [DeltaFor(a.ledger, tx)], After(s, tx));
    } else {
      NothingWritten(w, a.disk, rs, s, a.ledger, tx);
      NoOps(a.disk);
      SameOneself(a.ledger);
      SteppedOnce(w, a, Transact(tx), b, rs, s);
    }
  }

  lemma EndedIs(plan: Plan, a: Standing, b: Standing)
    requires Ended(plan, a, b)
    ensures b.disk == PerformAll(a.disk, plan.ops)
    ensures b.ledger == if plan.outcome.Some? then plan.outcome.value else a.ledger
  {
    hide PerformAll;
  }

  lemma CutCommitSteps(w: World, a: Standing, tx: Transaction, left: Disk, loads: nat, found: Disk, b: Standing)
    requires Kept(w, a) && Leads(w, a, CutCommit(tx, left, loads, found), b)
    ensures Stepped(w, a, if left == a.disk then [] else [Transact(tx)], b)
  {
    var rs, s :| Mirrors(w, a.disk, rs, s, a.ledger);
    var plan := CommitPlan(w, a.disk, a.ledger, tx);
    assert Commits(w, a, tx) && CutOff(w, a, plan.ops, left, loads, found, b);
    CutOffIs(w, a, plan.ops, left, loads, found, b);
    hide *;
    CommitsParts(w, a, tx);
    TransactStep(a.ledger, tx);
    if WritesRecord(a.ledger, tx) {
      CommitCrashSafe(w, a.disk, rs, s, a.ledger, tx, left, loads, found);
      if left == a.disk {
        LoadsAsMirrors(w, found, rs, a.ledger, b);
        SteppedNothing(w, a, b, rs, b.ledger);
      } else {
        LoadsAsMirrors(w, found, rs + [DeltaFor(a.ledger, tx)], After(a.ledger, tx), b);
        SteppedOnce(w, a, Transact(tx), b, rs + [DeltaFor(a.ledger, tx)], b.ledger);
      }
    } else {
      NothingWritten(w, a.disk, rs, s, a.ledger, tx);
      NoOps(a.disk);
      ReloadSteps(w, a, rs, s, loads, found, b);
    }
  }

  lemma CutOffIs(w: World, a: Standing, ops: seq<DiskOp>, left: Disk, loads: nat, found: Disk, b: Standing)
    requires CutOff(w, a, ops, left, loads, found, b)
    ensures CrashLeaves(a.disk, ops, left) && CrashedLoads(w, left, loads, found) && Loaded(w, found, b)
  {
    hide CrashLeaves, CrashedLoads, Loaded;
  }

  /** Loading a clean disk again, after any number of loads that did not finish. */
  lemma ReloadSteps(w: World, a: Standing, rs: seq<ArcaneDelta>, s: LedgerState, loads: nat, found: Disk, b: Standing)
    requires Mirrors(w, a.disk, rs, s, a.ledger) && CrashedLoads(w, a.disk, loads, found) && Loaded(w, found, b)
    ensures Stepped(w, a, [], b)
  {
    MirrorsParts(w, a.disk, rs, s, a.ledger);
    LoadsStayClean(w, a.disk, rs, s, loads, found);
    LoadClean(w, a.disk, rs, s);
    assert b == Standing(a.disk, s) by { hide LoadPlan, LoadedDisk; }
    hide *;
    SameOneself(s);
    MirrorsIs(w, a.disk, rs, s, s);
    SameBack(a.ledger, s);
    SteppedNothing(w, a, b, rs, s);
  }

  // ----- commits with files -----

  lemma CommitsFilesParts(w: World, a: Standing, tx: Transaction, files: seq<LinkedFile>)
    requires CommitsFiles(w, a, tx, files)
    ensures FilesAdmissible(w, a.disk, tx, files) && TakesEffect(a.ledger, Linked(w, a.disk, tx, files).transaction)
    ensures Readable(w, a.disk, DeltaFor(a.ledger, Linked(w, a.disk, tx, files).transaction))
  {
    hide FilesAdmissible, TakesEffect, Readable, Linked;
  }

  /** A linked commit that runs to its end leaves a disk that mirrors its ledger. */
  lemma FilesMirror(w: World, d: Disk, rs: seq<ArcaneDelta>, s: LedgerState, m: LedgerState, tx: Transaction,
                    files: seq<LinkedFile>)
    requires Mirrors(w, d, rs, s, m) && Fits(m) && FilesAdmissible(w, d, tx, files)
    requires TakesEffect(m, Linked(w, d, tx, files).transaction)
    requires Readable(w, d, DeltaFor(m, Linked(w, d, tx, files).transaction))
    ensures var linked := Linked(w, d, tx, files).transaction;
            var plan := CommitLinkedPlan(w, d, m, tx, files);
            && Applies(m, linked) && Applies(s, linked) && plan.outcome.Some?
            && SameDurable(plan.outcome.value, After(m, linked))
            && Mirrors(w, PerformAll(d, plan.ops), rs + [DeltaFor(m, linked)], After(s, linked), plan.outcome.value)
            && FilesDone(PerformAll(d, plan.ops).files, d.files, Linked(w, d, tx, files))
  {
    hide *;
    var lc := Linked(w, d, tx, files);
    var d1 := d.(linked := Some(lc));
    var plan, twin := CommitLinkedPlan(w, d, m, tx, files), CommitLinkedPlan(w, d, s, tx, files);
    MirrorsParts(w, d, rs, s, m);
    MirrorsBlind(w, d, rs, s, m, lc.transaction);
    DurableIsRest(m, s);
    CommitLinkedBlind(w, d, s, m.attribution, tx, files);
    SameEnds(plan, twin);
    LinkedIsCommittable(w, d, rs, s, tx, files);
    LinkedPlanIsLoad(w, d, rs, s, tx, files);
    LinkedEnds(w, d, rs, s, tx, files);
    LoadMid(w, d, rs, s, lc, d1);
    LoadFinished(w, d, rs, s, lc, LoadedDisk(w, d1));
    WrittenThenLoaded(w, d, lc, plan.ops);
    FinishedFiles(w, d, lc, DeltaFor(s, lc.transaction), LoadedDisk(w, d1));
    SameBack(After(m, lc.transaction), After(s, lc.transaction));
    SameTwice(plan.outcome.value, After(s, lc.transaction), After(m, lc.transaction));
    MirrorsIs(w, LoadedDisk(w, d1), rs + [DeltaFor(s, lc.transaction)], After(s, lc.transaction), plan.outcome.value);
  }

  lemma SameEnds(a: Plan, b: Plan)
    requires SameEnd(a, b)
    ensures a.ops == b.ops && (a.outcome.Some? <==> b.outcome.Some?)
    ensures a.outcome.Some? ==> SameDurable(a.outcome.value, b.outcome.value)
  {
    hide SameDurable;
  }

  lemma WrittenThenLoaded(w: World, d: Disk, lc: LinkedCommit, ops: seq<DiskOp>)
    requires ops == [WriteLinked(lc)] + LoadPlan(w, d.(linked := Some(lc))).ops
    ensures PerformAll(d, ops) == LoadedDisk(w, d.(linked := Some(lc)))
  {
    hide LoadPlan;
    var rest := LoadPlan(w, d.(linked := Some(lc))).ops;
    PerformConcat(d, [WriteLinked(lc)], rest);
    OneOp(d, WriteLinked(lc));
    hide PerformAll;
  }

  lemma LinkedEnds(w: World, d: Disk, rs: seq<ArcaneDelta>, s: LedgerState, tx: Transaction, files: seq<LinkedFile>)
    requires LinkedCommittable(w, d, rs, s, Linked(w, d, tx, files)) && FilesAdmissible(w, d, tx, files)
    ensures var lc := Linked(w, d, tx, files);
            CommitLinkedPlan(w, d, s, tx, files).outcome == Some(After(s, lc.transaction))
  {
    hide *;
    var lc := Linked(w, d, tx, files);
    LinkedParts(w, d, rs, s, lc);
    AppliesAccepted(s, lc.transaction);
    StartUnderway(d, lc);
    FinishFromStart(w, d, rs, s, lc, d.(linked := Some(lc)));
    CommitLinkedAdmitted(w, d, s, tx, files);
  }

  lemma CommittedFilesSteps(w: World, a: Standing, tx: Transaction, files: seq<LinkedFile>, b: Standing)
    requires Kept(w, a) && Fits(a.ledger) && Leads(w, a, CommittedFiles(tx, files), b)
    ensures Stepped(w, a, [Transact(Linked(w, a.disk, tx, files).transaction)], b)
  {
    var rs, s :| Mirrors(w, a.disk, rs, s, a.ledger);
    var plan := CommitLinkedPlan(w, a.disk, a.ledger, tx, files);
    assert CommitsFiles(w, a, tx, files) && Ended(plan, a, b);
    hide *;
    EndedIs(plan, a, b);
    var linked := Linked(w, a.disk, tx, files).transaction;
    CommitsFilesParts(w, a, tx, files);
    TransactStep(a.ledger, linked);
    FilesMirror(w, a.disk, rs, s, a.ledger, tx, files);
    SteppedOnce(w, a, Transact(linked), b, rs + [DeltaFor(a.ledger, linked)], After(s, linked));
  }

  lemma CutFilesSteps(w: World, a: Standing, tx: Transaction, files: seq<LinkedFile>, left: Disk, loads: nat,
                      found: Disk, b: Standing)
    requires Kept(w, a) && Fits(a.ledger) && Leads(w, a, CutFiles(tx, files, left, loads, found), b)
    ensures Stepped(w, a, if left == a.disk then [] else [Transact(Linked(w, a.disk, tx, files).transaction)], b)
  {
    var rs, s :| Mirrors(w, a.disk, rs, s, a.ledger);
    var plan := CommitLinkedPlan(w, a.disk, a.ledger, tx, files);
    assert CommitsFiles(w, a, tx, files) && CutOff(w, a, plan.ops, left, loads, found, b);
    hide *;
    CutOffIs(w, a, plan.ops, left, loads, found, b);
    var linked := Linked(w, a.disk, tx, files).transaction;
    CommitsFilesParts(w, a, tx, files);
    TransactStep(a.ledger, linked);
    LinkedCommitCrashSafe(w, a.disk, rs, s, a.ledger, tx, files, left, loads, found);
    if left == a.disk {
      LoadsAsMirrors(w, found, rs, a.ledger, b);
      SteppedNothing(w, a, b, rs, b.ledger);
    } else {
      LoadsAsMirrors(w, found, rs + [DeltaFor(a.ledger, linked)], After(a.ledger, linked), b);
      SteppedOnce(w, a, Transact(linked), b, rs + [DeltaFor(a.ledger, linked)], b.ledger);
    }
  }

  // ----- checkpoints and adjustments -----

  /** A checkpoint that was cut off and loaded again: what was durable before, or what was to be saved. */
  lemma CutSaveEnds(w: World, a: Standing, rs: seq<ArcaneDelta>, s: LedgerState, saved: LedgerState, left: Disk,
                    loads: nat, found: Disk, b: Standing)
    requires Mirrors(w, a.disk, rs, s, a.ledger) && Conserved(saved)
    requires CutWhileSaving(w, a, saved, left, loads, found, b)
    ensures exists records :: Mirrors(w, b.disk, records, b.ledger, b.ledger)
    ensures SameDurable(b.ledger, a.ledger) || SameDurable(b.ledger, saved)
  {
    CutWhileIs(w, a, saved, left, loads, found, b);
    hide *;
    CutOffIs(w, a, SaveOps(w, a.disk, saved), left, loads, found, b);
    LoadedIs(w, found, b);
    CheckpointCrashSafe(w, a.disk, rs, s, a.ledger, saved, left, loads, found);
    ComesIs(w, found, a.ledger, saved);
    var records :| Clean(w, LoadedDisk(w, found), records, LoadPlan(w, found).outcome.value);
    SameOneself(b.ledger);
    MirrorsIs(w, b.disk, records, b.ledger, b.ledger);
  }

  lemma ComesIs(w: World, f: Disk, m: LedgerState, saved: LedgerState)
    requires Comes(w, f, m, saved)
    ensures LoadPlan(w, f).outcome.Some?
    ensures SameDurable(LoadPlan(w, f).outcome.value, m) || SameDurable(LoadPlan(w, f).outcome.value, saved)
    ensures exists records :: Clean(w, LoadedDisk(w, f), records, LoadPlan(w, f).outcome.value)
  {
    hide LoadPlan, LoadedDisk, Clean, SameDurable;
  }

  lemma CutWhileIs(w: World, a: Standing, saved: LedgerState, left: Disk, loads: nat, found: Disk, b: Standing)
    requires CutWhileSaving(w, a, saved, left, loads, found, b)
    ensures Decodes(w, Durable(saved)) && Distinguishes(w, Durable(saved), a.disk.snapshot)
    ensures loads == 0 || Rested(a.disk, a.ledger, saved)
    ensures CutOff(w, a, SaveOps(w, a.disk, saved), left, loads, found, b)
  {
    hide Decodes, Distinguishes, CutOff, SaveOps, Rested;
  }

  lemma LoadedIs(w: World, found: Disk, b: Standing)
    requires Loaded(w, found, b)
    ensures LoadPlan(w, found).outcome == Some(b.ledger) && b.disk == LoadedDisk(w, found)
  {
    hide LoadPlan, LoadedDisk;
  }

  lemma SavedSteps(w: World, a: Standing, b: Standing)
    requires Kept(w, a) && Conserved(a.ledger) && Leads(w, a, Saved, b)
    ensures Stepped(w, a, [], b)
  {
    var rs, s :| Mirrors(w, a.disk, rs, s, a.ledger);
    assert Decodes(w, Durable(a.ledger)) && b == Standing(PerformAll(a.disk, SaveOps(w, a.disk, a.ledger)), a.ledger);
    hide *;
    MirrorsParts(w, a.disk, rs, s, a.ledger);
    SaveMirrors(w, a.disk, rs, s, a.ledger);
    SameOneself(a.ledger);
    SteppedNothing(w, a, b, [], Durable(a.ledger));
  }

  lemma CutSaveSteps(w: World, a: Standing, left: Disk, loads: nat, found: Disk, b: Standing)
    requires Kept(w, a) && Conserved(a.ledger) && Leads(w, a, CutSave(left, loads, found), b)
    ensures Stepped(w, a, [], b)
  {
    var rs, s :| Mirrors(w, a.disk, rs, s, a.ledger);
    assert CutWhileSaving(w, a, a.ledger, left, loads, found, b);
    hide *;
    CutSaveEnds(w, a, rs, s, a.ledger, left, loads, found, b);
    var records :| Mirrors(w, b.disk, records, b.ledger, b.ledger);
    SteppedNothing(w, a, b, records, b.ledger);
  }

  lemma AdjustsParts(a: Standing, op: LedgerOp)
    requires Adjusts(a, op)
    ensures op.AdjustDeep? && AdjustAllowed(a.ledger, op) && Step(a.ledger, op) == Some(Adjusted(a.ledger, op))
  {
    hide AdjustAllowed, Adjusted;
  }

  lemma AdjustKeepsConserved(s: LedgerState, op: LedgerOp)
    requires op.AdjustDeep? && AdjustAllowed(s, op) && Conserved(s)
    ensures Conserved(Adjusted(s, op))
  {
    hide AdjustAllowed, GrandTotal;
    AdjustedTotals(s, op, op.resonance);
  }

  lemma AdjustingSteps(w: World, a: Standing, op: LedgerOp, b: Standing)
    requires Kept(w, a) && Conserved(a.ledger) && Leads(w, a, Adjusting(op), b)
    ensures Stepped(w, a, [op], b)
  {
    var rs, s :| Mirrors(w, a.disk, rs, s, a.ledger);
    var next := Adjusted(a.ledger, op);
    assert Adjusts(a, op) && Decodes(w, Durable(next))
           && b == Standing(PerformAll(a.disk, SaveOps(w, a.disk, next)), next);
    hide *;
    AdjustsParts(a, op);
    AdjustKeepsConserved(a.ledger, op);
    MirrorsParts(w, a.disk, rs, s, a.ledger);
    SaveMirrors(w, a.disk, rs, s, next);
    SameOneself(next);
    SteppedOnce(w, a, op, b, [], Durable(next));
  }

  lemma CutAdjustingSteps(w: World, a: Standing, op: LedgerOp, left: Disk, loads: nat, found: Disk, b: Standing)
    requires Kept(w, a) && Conserved(a.ledger) && Leads(w, a, CutAdjusting(op, left, loads, found), b)
    ensures Stepped(w, a, if SameDurable(b.ledger, a.ledger) then [] else [op], b)
  {
    var rs, s :| Mirrors(w, a.disk, rs, s, a.ledger);
    assert Adjusts(a, op) && CutWhileSaving(w, a, Adjusted(a.ledger, op), left, loads, found, b);
    hide *;
    AdjustsParts(a, op);
    AdjustKeepsConserved(a.ledger, op);
    CutSaveEnds(w, a, rs, s, Adjusted(a.ledger, op), left, loads, found, b);
    var records :| Mirrors(w, b.disk, records, b.ledger, b.ledger);
    if SameDurable(b.ledger, a.ledger) {
      SteppedNothing(w, a, b, records, b.ledger);
    } else {
      SteppedOnce(w, a, op, b, records, b.ledger);
    }
  }

  /** Every event, finished or cut off, is at most one call on the ledger, and leaves a disk that mirrors it. */
  lemma EventSteps(w: World, a: Standing, event: Event, b: Standing)
    requires Kept(w, a) && Fits(a.ledger) && Conserved(a.ledger) && Leads(w, a, event, b)
    ensures Stepped(w, a, Effect(w, a, event, b), b)
  {
    assert Stepped(w, a, Effect(w, a, event, b), b) by {
      match event
      case Committed(tx) =>
        CommittedSteps(w, a, tx, b);
        hide Stepped, Leads;
      case CutCommit(tx, left, loads, found) =>
        CutCommitSteps(w, a, tx, left, loads, found, b);
        hide Stepped, Leads;
      case CommittedFiles(tx, files) =>
        CommittedFilesSteps(w, a, tx, files, b);
        hide Stepped, Leads;
      case CutFiles(tx, files, left, loads, found) =>
        CutFilesSteps(w, a, tx, files, left, loads, found, b);
        hide Stepped, Leads;
      case Saved =>
        SavedSteps(w, a, b);
        hide Stepped, Leads;
      case CutSave(left, loads, found) =>
        CutSaveSteps(w, a, left, loads, found, b);
        hide Stepped, Leads;
      case Adjusting(op) =>
        AdjustingSteps(w, a, op, b);
        hide Stepped, Leads;
      case CutAdjusting(op, left, loads, found) =>
        CutAdjustingSteps(w, a, op, left, loads, found, b);
        hide Stepped, Leads;
    }
  }

  // ----- lives -----

  datatype Leg = Leg(event: Event, to: Standing)

  function Final(a: Standing, life: seq<Leg>): Standing {
    if life == [] then a else life[|life| - 1].to
  }

  /** Each event leads to the next moment. */
  ghost predicate Life(w: World, a: Standing, life: seq<Leg>) {
    forall i | 0 <= i < |life| :: Leads(w, Final(a, life[..i]), life[i].event, life[i].to)
  }

  ghost function Effects(w: World, a: Standing, life: seq<Leg>): seq<LedgerOp> {
    if life == [] then []
    else
      var front, last := life[..|life| - 1], life[|life| - 1];
      Effects(w, a, front) + Effect(w, Final(a, front), last.event, last.to)
  }

  /** The run does not see the provenance queue. */
  lemma StepBlind(m: LedgerState, t: LedgerState, op: LedgerOp)
    requires SameDurable(m, t) && Step(m, op).Some?
    ensures Step(t, op).Some? && SameDurable(Step(m, op).value, Step(t, op).value)
  {
    hide *;
    SameBack(m, t);
    DurableIsRest(t, m);
    match op
    case Transact(tx) =>
      TransactBlind(m, t.attribution, tx);
      TransactStep(m, tx);
      TransactStep(t, tx);
    case AdjustDeep(_, _, _, _) =>
      AdjustBlind(m, t.attribution, op);
  }

  lemma AdjustBlind(s: LedgerState, q: seq<Attribution>, op: LedgerOp)
    requires op.AdjustDeep? && Step(s, op).Some?
    ensures Step(s.(attribution := q), op).Some?
    ensures SameDurable(Step(s, op).value, Step(s.(attribution := q), op).value)
  {
    var m := s.(attribution := q);
    StepAllowed(s, op);
    AllowedBlind(s, q, op);
    AdjustedBlind(s, q, op);
    hide *;
    StepAllowed(m, op);
    SameIsDurable(Adjusted(s, op), q);
    SameBack(Adjusted(m, op), Adjusted(s, op));
  }

  lemma StepAllowed(s: LedgerState, op: LedgerOp)
    requires op.AdjustDeep?
    ensures Step(s, op).Some? <==> AdjustAllowed(s, op)
    ensures AdjustAllowed(s, op) ==> Step(s, op) == Some(Adjusted(s, op))
  {
    hide AdjustAllowed, Adjusted;
  }

  lemma AllowedBlind(s: LedgerState, q: seq<Attribution>, op: LedgerOp)
    requires op.AdjustDeep?
    ensures AdjustAllowed(s.(attribution := q), op) <==> AdjustAllowed(s, op)
  {
    hide Total, GrandTotal, Blank, UnitsOf;
    assert AdjustRequested(s.(attribution := q), op) <==> AdjustRequested(s, op);
    hide AdjustRequested;
  }

  lemma AdjustedBlind(s: LedgerState, q: seq<Attribution>, op: LedgerOp)
    requires op.AdjustDeep? && AdjustAllowed(s, op) && AdjustAllowed(s.(attribution := q), op)
    ensures Adjusted(s.(attribution := q), op) == Adjusted(s, op).(attribution := q)
  {
    hide AdjustAllowed, AdjustRequested, Total, GrandTotal, Put, UnitsOf;
  }

  lemma TransactBlind(s: LedgerState, q: seq<Attribution>, tx: Transaction)
    ensures var m := s.(attribution := q);
            && (TakesEffect(m, tx) <==> TakesEffect(s, tx)) && SameDurable(s, m)
            && (TakesEffect(s, tx) ==> Applies(s, tx) && Applies(m, tx) && SameDurable(After(s, tx), After(m, tx)))
  {
    AppliesBlind(s, q, tx);
    GatesBlind(s, q, tx);
    AppliesWhenEffective(s, tx);
    SameIsDurable(s, q);
    SameBack(s.(attribution := q), s);
    if Applies(s, tx) {
      AfterBlind(s, q, tx);
      SameBack(After(s.(attribution := q), tx), After(s, tx));
    }
    hide Applies, After, Duplicate, SameDurable;
  }

  lemma SoundParts(m: LedgerState, t: LedgerState)
    requires SameDurable(m, t) && Sound(t)
    ensures Fits(m) && Conserved(m) && ReceiptsIndexed(m)
  {
    DurableIsRest(m, t);
    hide GrandTotal;
  }

  lemma RunStep(s: LedgerState, ops: seq<LedgerOp>, op: LedgerOp)
    requires Run(s, ops).Some?
    ensures Run(s, ops + [op]) == Step(Run(s, ops).value, op)
  {
    hide Step;
    assert (ops + [op])[..|ops + [op]| - 1] == ops;
  }

  lemma LifeFront(w: World, a: Standing, life: seq<Leg>)
    requires Life(w, a, life) && life != []
    ensures var front, last := life[..|life| - 1], life[|life| - 1];
            && Life(w, a, front) && Leads(w, Final(a, front), last.event, last.to)
            && Final(a, life) == last.to
            && Effects(w, a, life) == Effects(w, a, front) + Effect(w, Final(a, front), last.event, last.to)
  {
    hide Leads, Effect;
    var front := life[..|life| - 1];
    forall i | 0 <= i < |front| ensures Leads(w, Final(a, front[..i]), front[i].event, front[i].to) {
      assert front[..i] == life[..i];
    }
  }

  /** Every life of a world is a run of its ledger. Finish or cut off commits, linked commits, checkpoints and
      adjustments in any order, with any number of broken loads in between: what stands in memory at the end is, the
      provenance queue aside, the ledger after a run that took each event's call in order, once or, if it was cut off
      before anything was written, not at all. */
  lemma {:induction false} LifeIsRun(w: World, a: Standing, life: seq<Leg>)
    requires Kept(w, a) && Sound(a.ledger) && Life(w, a, life)
    ensures Kept(w, Final(a, life)) && |Effects(w, a, life)| <= |life|
    ensures Run(a.ledger, Effects(w, a, life)).Some?
    ensures SameDurable(Final(a, life).ledger, Run(a.ledger, Effects(w, a, life)).value)
  {
    hide *;
    if life == [] {
      LifeStart(w, a);
      SameOneself(a.ledger);
    } else {
      var front, last := life[..|life| - 1], life[|life| - 1];
      LifeFront(w, a, life);
      LifeIsRun(w, a, front);
      var before, ops := Final(a, front), Effects(w, a, front);
      var t := Run(a.ledger, ops).value;
      RunSound(a.ledger, ops);
      SoundParts(before.ledger, t);
      EventSteps(w, before, last.event, last.to);
      var effect := Effect(w, before, last.event, last.to);
      SteppedIs(w, before, effect, last.to);
      if effect == [] {
        assert ops + effect == ops;
        SameTwice(last.to.ledger, before.ledger, t);
      } else {
        assert effect == [effect[0]];
        RunStep(a.ledger, ops, effect[0]);
        StepBlind(before.ledger, t, effect[0]);
        SameTwice(last.to.ledger, Step(before.ledger, effect[0]).value, Step(t, effect[0]).value);
      }
    }
  }

  lemma LifeStart(w: World, a: Standing)
    ensures Final(a, []) == a && Effects(w, a, []) == [] && Run(a.ledger, []) == Some(a.ledger)
  {
  }

  lemma SteppedIs(w: World, a: Standing, ops: seq<LedgerOp>, b: Standing)
    requires Stepped(w, a, ops, b)
    ensures Kept(w, b) && |ops| <= 1
    ensures ops == [] ==> SameDurable(b.ledger, a.ledger)
    ensures ops != [] ==> Step(a.ledger, ops[0]).Some? && SameDurable(b.ledger, Step(a.ledger, ops[0]).value)
  {
    hide Kept, Step, SameDurable;
  }

  /** So every ledger that is ever loaded or written fits, conserves and indexes its receipts. */
  lemma LifeConserves(w: World, a: Standing, life: seq<Leg>)
    requires Kept(w, a) && Sound(a.ledger) && Life(w, a, life)
    ensures var m := Final(a, life).ledger; Fits(m) && Conserved(m) && ReceiptsIndexed(m)
  {
    hide *;
    LifeIsRun(w, a, life);
    RunSound(a.ledger, Effects(w, a, life));
    SoundParts(Final(a, life).ledger, Run(a.ledger, Effects(w, a, life)).value);
  }

  /** What a commit has acknowledged is never lost and never repeated: whatever happens to the world after it, the
      transaction stays decided, and submitting it again changes neither disk nor ledger. */
  lemma AcknowledgedStays(w: World, a: Standing, tx: Transaction, b: Standing, life: seq<Leg>)
    requires Kept(w, a) && Sound(a.ledger) && TakesEffect(a.ledger, tx)
    requires Leads(w, a, Committed(tx), b) && Life(w, b, life)
    ensures var end := Final(b, life);
            Duplicate(end.ledger, tx.id) && CommitPlan(w, end.disk, end.ledger, tx) == Plan([], Some(end.ledger))
  {
    hide *;
    CommittedSound(w, a, tx, b);
    LifeIsRun(w, b, life);
    var end, ops := Final(b, life), Effects(w, b, life);
    RetryChangesNothing(a.ledger, tx, ops);
    DuplicateBlind(end.ledger, Run(b.ledger, ops).value, tx.id);
    KeptRepeats(w, end, tx);
  }

  lemma CommittedSound(w: World, a: Standing, tx: Transaction, b: Standing)
    requires Kept(w, a) && Sound(a.ledger) && TakesEffect(a.ledger, tx) && Leads(w, a, Committed(tx), b)
    ensures Kept(w, b) && Sound(b.ledger) && Applies(a.ledger, tx) && b.ledger == After(a.ledger, tx) && tx.linked == []
  {
    var rs, s :| Mirrors(w, a.disk, rs, s, a.ledger);
    var plan := CommitPlan(w, a.disk, a.ledger, tx);
    assert Commits(w, a, tx) && Ended(plan, a, b);
    hide *;
    EndedIs(plan, a, b);
    CommitsParts(w, a, tx);
    AppliesWhenEffective(a.ledger, tx);
    CommitEnds(w, a.disk, rs, s, a.ledger, tx);
    CommittedSteps(w, a, tx, b);
    SteppedIs(w, a, [Transact(tx)], b);
    TransactStep(a.ledger, tx);
    StepSound(a.ledger, Transact(tx));
  }

  lemma DuplicateBlind(m: LedgerState, t: LedgerState, id: TransactionId)
    requires SameDurable(m, t)
    ensures Duplicate(m, id) <==> Duplicate(t, id)
  {
    DurableIsRest(m, t);
  }

  lemma KeptRepeats(w: World, a: Standing, tx: Transaction)
    requires Kept(w, a) && tx.linked == [] && Duplicate(a.ledger, tx.id)
    ensures CommitPlan(w, a.disk, a.ledger, tx) == Plan([], Some(a.ledger))
  {
    var rs, s :| Mirrors(w, a.disk, rs, s, a.ledger);
    hide *;
    MirrorsParts(w, a.disk, rs, s, a.ledger);
    CleanGate(w, a.disk, rs, s, tx);
    CommitPlanRepeats(w, a.disk, a.ledger, tx);
  }

  /** A caller that was cut off may simply submit again: after the reload, a second commit of the same transaction ends
      with it applied exactly once, wherever the first one was cut off. */
  lemma RetryAfterCrash(w: World, a: Standing, tx: Transaction, left: Disk, loads: nat, found: Disk, b: Standing,
                        c: Standing)
    requires Kept(w, a) && Sound(a.ledger) && TakesEffect(a.ledger, tx)
    requires Leads(w, a, CutCommit(tx, left, loads, found), b) && Leads(w, b, Committed(tx), c)
    ensures Applies(a.ledger, tx) && SameDurable(c.ledger, After(a.ledger, tx))
  {
    hide *;
    AppliesWhenEffective(a.ledger, tx);
    var once := Transact(tx);
    CutCommitSteps(w, a, tx, left, loads, found, b);
    SteppedIs(w, a, if left == a.disk then [] else [once], b);
    CommittedSteps(w, b, tx, c);
    SteppedIs(w, b, [once], c);
    TransactStep(a.ledger, tx);
    if left == a.disk {
      StepBlind(b.ledger, a.ledger, once);
      SameTwice(c.ledger, Step(b.ledger, once).value, Step(a.ledger, once).value);
    } else {
      StepBlind(b.ledger, After(a.ledger, tx), once);
      AppliedIsDuplicate(a.ledger, tx);
      RepeatSteps(After(a.ledger, tx), tx);
      SameTwice(c.ledger, Step(b.ledger, once).value, After(a.ledger, tx));
    }
  }

  lemma RepeatSteps(s: LedgerState, tx: Transaction)
    requires Duplicate(s, tx.id)
    ensures Step(s, Transact(tx)) == Some(s)
  {
    hide Duplicate, Applies, After;
  }
}
