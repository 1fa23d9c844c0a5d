/** The ledger object: its fields are updated in place, and every disk operation is recorded. */
module ArcaneLedgerClass {
  import opened Prelude
  import opened CurrentUnits
  import opened LedgerModel
  import opened LedgerLaws
  import opened AttributionQueue
  import opened LedgerRuns
  import opened Frames
  import opened Journal
  import opened Recovery
  import opened Validation
  import opened Staging

  datatype CommitOutcome = Applied(receipt: Receipt) | AlreadyApplied(remembered: Option<Receipt>)

  class ArcaneLedger {
    const world: World
    var genesisTotal: nat
    var registry: set<Resonance>
    var accounts: Accounts
    var lastDeltaSeq: nat
    var originHighWater: map<nat, nat>
    var recentReceipts: map<TransactionId, Receipt>
    var receiptOrder: seq<TransactionId>
    var externalAdjustment: int
    var lastCleanTotal: nat
    var drossGeneratedTotal: nat
    var pendingDrossAttribution: seq<Attribution>
    /** The world directory this ledger is saved in, and the operations performed on it. */
    var disk: Disk
    ghost var trace: seq<DiskOp>

    constructor (world: World, disk: Disk)
      ensures this.world == world && this.disk == disk && State() == disk.snapshot && trace == []
    {
      this.world, this.disk, trace := world, disk, [];
      genesisTotal, registry, accounts := disk.snapshot.genesisTotal, disk.snapshot.registry, disk.snapshot.accounts;
      lastDeltaSeq, originHighWater := disk.snapshot.lastDeltaSeq, disk.snapshot.highWater;
      recentReceipts, receiptOrder := disk.snapshot.receipts, disk.snapshot.receiptOrder;
      externalAdjustment, lastCleanTotal := disk.snapshot.externalAdjustment, disk.snapshot.lastCleanTotal;
      pendingDrossAttribution, drossGeneratedTotal := disk.snapshot.attribution, 0;
    }

    function State(): LedgerState
      reads this
    {
      LedgerState(genesisTotal, registry, accounts, lastDeltaSeq, originHighWater, recentReceipts, receiptOrder,
                  externalAdjustment, lastCleanTotal, pendingDrossAttribution)
    }

    // ----- provenance -----

    method ConsumeAttribution(owner: Owner, units: nat)
      modifies this`pendingDrossAttribution
      ensures pendingDrossAttribution == Consume(old(pendingDrossAttribution), owner, units)
    {
      hide Consume, Reduced;
      var remaining: nat := units;
      var index := 0;
      assert pendingDrossAttribution[..0] == [];
      assert pendingDrossAttribution[0..] == pendingDrossAttribution;
      while remaining != 0 && index < |pendingDrossAttribution|
        invariant 0 <= index <= |pendingDrossAttribution|
        invariant pendingDrossAttribution[..index] + Consume(pendingDrossAttribution[index..], owner, remaining)
                  == Consume(old(pendingDrossAttribution), owner, units)
        decreases |pendingDrossAttribution| - index
      {
        ghost var q := pendingDrossAttribution;
        var entry := pendingDrossAttribution[index];
        ConsumeStep(q, index, owner, remaining);
        if entry.owner != owner {
          assert q[..index] + [entry] == q[..index + 1];
          index := index + 1;
        } else {
          var consumed := Min(entry.contribution.units, remaining);
          remaining := remaining - consumed;
          if entry.contribution.units == consumed {
            pendingDrossAttribution := pendingDrossAttribution[..index] + pendingDrossAttribution[index + 1..];
            assert pendingDrossAttribution[..index] == q[..index];
            assert pendingDrossAttribution[index..] == q[index + 1..];
          } else {
            pendingDrossAttribution := pendingDrossAttribution[index := Reduced(entry, consumed)];
            assert pendingDrossAttribution[..index + 1] == q[..index] + [Reduced(entry, consumed)];
            assert pendingDrossAttribution[index + 1..] == q[index + 1..];
            index := index + 1;
          }
        }
      }
      ghost var q := pendingDrossAttribution;
      ConsumeNothing(q[index..], owner, remaining);
      assert q[..index] + q[index..] == q;
    }

    method UpdatePendingDrossAttribution(tx: Transaction)
      modifies this`pendingDrossAttribution
      requires forall m | m in tx.debits + tx.credits :: Total(m.current) <= U64_MAX
      ensures pendingDrossAttribution == Provenance(old(pendingDrossAttribution), tx)
    {
      hide Total, Consume;
      for i := 0 to |tx.debits|
        invariant pendingDrossAttribution == ConsumeAll(old(pendingDrossAttribution), tx.debits[..i])
      {
        var m := tx.debits[i];
        assert tx.debits[..i + 1][..i] == tx.debits[..i];
        assert m in tx.debits + tx.credits;
        if m.owner.Dross? {
          var units, fits := TotalChecked(m.current);
          ConsumeAttribution(m.owner, units);
        }
      }
      assert tx.debits[..|tx.debits|] == tx.debits;
      ghost var consumed := pendingDrossAttribution;
      for i := 0 to |tx.credits|
        invariant pendingDrossAttribution == QueueAll(consumed, tx, tx.credits[..i])
      {
        var m := tx.credits[i];
        assert tx.credits[..i + 1][..i] == tx.credits[..i];
        assert m in tx.debits + tx.credits;
        if m.owner.Dross? {
          var units, fits := TotalChecked(m.current);
          if units != 0 {
            var entry := Attribution(m.owner, Contribution(Actor(tx.authority), SourceClass(tx), units,
                                                           tx.id.sequence, tx.id.sequence, FULL_CONFIDENCE));
            pendingDrossAttribution := pendingDrossAttribution + [entry];
            pendingDrossAttribution := KeepNewest(pendingDrossAttribution, MAX_PENDING_DROSS_ATTRIBUTION);
          }
        }
      }
      assert tx.credits[..|tx.credits|] == tx.credits;
    }

    method EnvironmentalDrossAttribution(owner: Owner, requested: nat) returns (out: seq<Contribution>)
      ensures out == Attributed(pendingDrossAttribution, owner, requested)
    {
      var remaining: nat := requested;
      out := [];
      var q := pendingDrossAttribution;
      assert q[0..] == q;
      var i := 0;
      while i < |q| && remaining != 0
        invariant 0 <= i <= |q|
        invariant out + Attributed(q[i..], owner, remaining) == Attributed(q, owner, requested)
      {
        assert q[i..][0] == q[i] && q[i..][1..] == q[i + 1..];
        if q[i].owner == owner {
          var take := Min(q[i].contribution.units, remaining);
          remaining := remaining - take;
          if take != 0 {
            out := out + [q[i].contribution.(units := take)];
          }
        }
        i := i + 1;
      }
      assert Attributed(q[i..], owner, remaining) == [];
    }

    // ----- applying -----

    /** All or nothing while the planet-wide total fits: an error then leaves every field as it was, so
        the checks made after the accounts are written never fire. On a ledger whose total does not fit
        the closing sum fails after the write, and exactly then. */
    method ApplyValidated(tx: Transaction, sequence: nat) returns (r: Result<Receipt, LedgerError>)
      modifies this`accounts, this`originHighWater, this`recentReceipts, this`receiptOrder,
               this`pendingDrossAttribution, this`lastCleanTotal, this`drossGeneratedTotal
      ensures r.Ok? <==> Applies(old(State()), tx) && Fits(old(State()))
      ensures r.Ok? ==> State() == Recorded(old(State()), tx, sequence).(lastCleanTotal := GrandTotal(accounts))
      ensures r.Ok? ==> r.value == ReceiptFor(old(State()), tx, sequence)
      ensures r.Ok? ==> drossGeneratedTotal == Min(U64_MAX, old(drossGeneratedTotal) + DrossGenerated(tx))
      ensures !Applies(old(State()), tx) ==> State() == old(State()) && drossGeneratedTotal == old(drossGeneratedTotal)
      ensures r.Err? && Applies(old(State()), tx) ==>
                r.error == Overflow && State() == Recorded(old(State()), tx, sequence)
    {
      ghost var s := State();
      hide Applies, Moved, Settle, Staged, Recorded, ReceiptFor, Provenance, GrandTotal, Fits, UnitsMoved,
           DrossGenerated, Touched, Total, Balanced, ReceiptOf, EvictedReceipts, KeepNewest, Lookup, VersionOf,
           HighWater;
      var staged, versions, verdict := StageTransaction(State(), tx);
      if verdict.Fail? {
        return Err(verdict.error);
      }
      WriteStage(tx, sequence, staged, versions);
      AcceptedSums(s, tx);
      var moved, generated, sum;
      moved, verdict := SumMoved(tx.debits, false);
      generated, verdict := MeasureDross(tx);
      assert verdict.Pass?;
      drossGeneratedTotal := Min(U64_MAX, drossGeneratedTotal + generated);
      ghost var mid := State();
      UpdatePendingDrossAttribution(tx);
      ProvenanceLast(this, mid, s, tx, sequence);
      RecordedTotal(s, tx, sequence);
      FitsIs(s);
      sum, verdict := SumAccounts(accounts);
      StateAccounts(this);
      if verdict.Fail? {
        return Err(verdict.error);
      }
      lastCleanTotal := sum;
      TotalLast(this, s, tx, sequence, sum);
      r := Ok(ReceiptOf(tx, sequence, versions));
    }

    /** Write the stage over the accounts and record the receipt, evicting the oldest ones. */
    method WriteStage(tx: Transaction, sequence: nat, staged: Stage, versions: map<Owner, nat>)
      requires Applies(State(), tx)
      requires staged == Staged(Settle(Moved(accounts, tx).value, Touched(tx)), Touched(tx))
      requires ReceiptOf(tx, sequence, versions) == ReceiptFor(State(), tx, sequence)
      modifies this`accounts, this`originHighWater, this`recentReceipts, this`receiptOrder
      ensures State() == Recorded(old(State()), tx, sequence).(attribution := pendingDrossAttribution)
    {
      ghost var s := State();
      hide Applies, Moved, Settle, Staged, Recorded, ReceiptFor, Provenance, GrandTotal, Fits, UnitsMoved,
           DrossGenerated, Touched, Total, Balanced, ReceiptOf, EvictedReceipts, KeepNewest, Lookup, VersionOf,
           HighWater;
      RecordedFields(s, tx, sequence);
      MovedParts(s, tx);
      MovedIs(accounts, tx);
      var high := HighWater(State(), tx.id.origin);
      accounts := WriteBack(accounts, Moved(accounts, tx).value, Touched(tx), staged);
      originHighWater := originHighWater[tx.id.origin := Max(high, tx.id.sequence)];
      recentReceipts := recentReceipts[tx.id := ReceiptOf(tx, sequence, versions)];
      receiptOrder := receiptOrder + [tx.id];
      recentReceipts, receiptOrder := EvictReceipts(recentReceipts, receiptOrder);
      StageWritten(this, s, tx, sequence);
    }

    /** In-memory entry point. Its effect is one step of a ledger run. */
    method Apply(tx: Transaction) returns (r: Result<CommitOutcome, LedgerError>)
      modifies this`accounts, this`originHighWater, this`recentReceipts, this`receiptOrder,
               this`pendingDrossAttribution, this`lastCleanTotal, this`drossGeneratedTotal, this`lastDeltaSeq
      requires Fits(State())
      ensures Some(State()) == Step(old(State()), Transact(tx))
      ensures r.Ok? <==> Duplicate(old(State()), tx.id) || TakesEffect(old(State()), tx)
      ensures r.Ok? && !Duplicate(old(State()), tx.id) ==>
                r.value == Applied(Receipt(tx.id, old(lastDeltaSeq) + 1,
                                           map o | o in Touched(tx) :: VersionOf(old(accounts), o) + 1))
      ensures r.Ok? && Duplicate(old(State()), tx.id) ==>
                r.value == AlreadyApplied(if tx.id in old(recentReceipts) then Some(old(recentReceipts)[tx.id])
                                          else None)
    {
      ghost var s := State();
      hide Applies, Fits, Recorded, ReceiptFor, GrandTotal, Touched, VersionOf, Duplicate, Step, TakesEffect;
      ReceiptIs(s, tx, lastDeltaSeq + 1);
      DuplicateSteps(s, tx);
      r := Submit(tx);
    }

    method Submit(tx: Transaction) returns (r: Result<CommitOutcome, LedgerError>)
      modifies this`accounts, this`originHighWater, this`recentReceipts, this`receiptOrder,
               this`pendingDrossAttribution, this`lastCleanTotal, this`drossGeneratedTotal, this`lastDeltaSeq
      requires Fits(State())
      ensures Duplicate(old(State()), tx.id) ==> State() == old(State()) && r.Ok?
      ensures !Duplicate(old(State()), tx.id) ==>
                Some(State()) == Step(old(State()), Transact(tx)) && (r.Ok? <==> TakesEffect(old(State()), tx))
      ensures r.Ok? && !Duplicate(old(State()), tx.id) ==>
                r.value == Applied(ReceiptFor(old(State()), tx, old(lastDeltaSeq) + 1))
      ensures r.Ok? && Duplicate(old(State()), tx.id) ==>
                r.value == AlreadyApplied(if tx.id in old(recentReceipts) then Some(old(recentReceipts)[tx.id])
                                          else None)
    {
      hide *;
      if Duplicate(State(), tx.id) {
        return Ok(AlreadyApplied(if tx.id in recentReceipts then Some(recentReceipts[tx.id]) else None));
      }
      var receipt := ApplyNext(tx);
      r := if receipt.Ok? then Ok(Applied(receipt.value)) else Err(receipt.error);
    }

    /** Apply a transaction that has not been decided yet under the next delta number. */
    method ApplyNext(tx: Transaction) returns (r: Result<Receipt, LedgerError>)
      modifies this`accounts, this`originHighWater, this`recentReceipts, this`receiptOrder,
               this`pendingDrossAttribution, this`lastCleanTotal, this`drossGeneratedTotal, this`lastDeltaSeq
      requires Fits(State()) && !Duplicate(State(), tx.id)
      ensures Some(State()) == Step(old(State()), Transact(tx))
      ensures r.Ok? <==> TakesEffect(old(State()), tx)
      ensures r.Ok? ==> r.value == ReceiptFor(old(State()), tx, old(lastDeltaSeq) + 1)
    {
      hide Applies, Fits, Recorded, ReceiptFor, GrandTotal;
      if lastDeltaSeq >= U64_MAX {
        return Err(Overflow);
      }
      var sequence := lastDeltaSeq + 1;
      ghost var s := State();
      r := ApplyValidated(tx, sequence);
      if r.Ok? {
        lastDeltaSeq := sequence;
        AfterIs(s, tx);
      }
    }

    // ----- operator adjustments -----

    /** Change Deep's mixture. A band that is short or overflows leaves it as it was; a change that only the
        total cannot hold stays. */
    method ShiftDeep(op: LedgerOp) returns (verdict: Verdict)
      requires op.AdjustDeep? && AdjustRequested(State(), op)
      modifies this`accounts
      ensures verdict.Pass? <==> !BandBlocked(old(State()), op)
                                 && (0 < op.delta ==> Total(old(accounts)[Deep].current) + op.delta <= U64_MAX)
      ensures accounts == if BandBlocked(old(State()), op) then old(accounts)
                          else old(accounts)[Deep := ShiftedDeep(old(State()), op)]
    {
      hide Total, Put, Plus, Minus, Single, Blank;
      var deep, r, delta := accounts[Deep], op.resonance, op.delta;
      var units := if delta > 0 then delta else -delta;
      var part := Single(r, units);
      var current;
      TotalSingle(r, units);
      assert UnitsOf(part, r) == units;
      if delta > 0 {
        current, verdict := CheckedAdd(deep.current, part);
        AddedBand(deep.current, r, units, part, current);
      } else {
        current, verdict := CheckedSub(deep.current, part);
        TakenBand(deep.current, r, units, part, current);
      }
      accounts := accounts[Deep := deep.(current := current)];
    }

    /** The development escape hatch. It succeeds exactly when the adjustment is allowed and the books balance, and
        then a checkpoint is written. Whatever happens it leaves exactly the ledger of `AdjustEnd`: every check after
        the first comes too late to undo what was changed before it. */
    method OperatorAdjustDeep(op: LedgerOp) returns (verdict: Verdict)
      requires op.AdjustDeep?
      modifies this`accounts, this`externalAdjustment, this`lastCleanTotal, this`disk, this`trace
      ensures State() == AdjustEnd(old(State()), op)
      ensures verdict.Pass? <==> AdjustAllowed(old(State()), op) && Conserved(old(State()))
      ensures verdict.Pass? ==> Some(State()) == Step(old(State()), op)
      ensures Performed(if verdict.Pass? then SaveOps(world, old(disk), State()) else [])
    {
      hide Total, Blank, Put, GrandTotal, Conserved, PerformAll, SaveOps, BandBlocked, ShiftedDeep, CountEnd,
           AdjustAllowed;
      ghost var s, d0, t0 := State(), disk, trace;
      AdjustCases(s, op);
      NoOps(d0);
      assert t0 + [] == t0;
      if !op.development || Blank(op.actor) || op.delta == 0 {
        return Fail(PermissionDenied);
      }
      if op.resonance !in registry {
        return Fail(UnknownResonance);
      }
      if Deep !in accounts {
        return Fail(MissingAccount);
      }
      verdict := ShiftDeep(op);
      if verdict.Fail? {
        return;
      }
      verdict := CountAdjustment(op.delta);
      if verdict.Fail? {
        return;
      }
      AdjustDone(s, op);
      verdict := Save();
    }

    /** Count a change of Deep that has been made: its version, the external adjustment, the grand total. */
    method CountAdjustment(delta: int) returns (verdict: Verdict)
      requires Deep in accounts
      modifies this`accounts, this`externalAdjustment, this`lastCleanTotal
      ensures State() == CountEnd(old(State()), delta)
      ensures verdict.Pass? <==> Counts(old(State()), delta)
    {
      hide GrandTotal;
      var deep := accounts[Deep];
      if deep.version >= U64_MAX {
        return Fail(Overflow);
      }
      accounts := accounts[Deep := deep.(version := deep.version + 1)];
      if !(-I128_BOUND <= externalAdjustment + delta < I128_BOUND) {
        return Fail(Overflow);
      }
      externalAdjustment := externalAdjustment + delta;
      var sum;
      sum, verdict := SumAccounts(accounts);
      if verdict.Pass? {
        lastCleanTotal := sum;
      }
    }

    // ----- the world directory -----

    /** Perform one disk operation. */
    method Do(op: DiskOp)
      modifies this`disk, this`trace
      ensures disk == Perform(old(disk), op) && trace == old(trace) + [op]
    {
      disk := Perform(disk, op);
      trace := trace + [op];
    }

    /** The call performed exactly the operations of `plan`, on the disk and in the trace. */
    twostate predicate Performed(ops: seq<DiskOp>)
      reads this
    {
      disk == PerformAll(old(disk), ops) && trace == old(trace) + ops
    }

    /** A pending coordinator record admits only its own transaction. */
    method GateOpen(tx: Transaction) returns (open: bool)
      ensures open == LinkedGate(disk, tx)
    {
      if tx.linked != [] {
        if disk.linked.None? {
          return false;
        }
        var pending := disk.linked.value;
        return pending.transaction.id == tx.id && pending.transaction.linked == tx.linked;
      }
      return disk.linked.None?;
    }

    /** Make the pending record durable, then append its frame. */
    method WriteRecord(delta: ArcaneDelta) returns (verdict: Verdict)
      modifies this`disk, this`trace
      ensures verdict == if |world.codec.encode(delta)| < TWO32 then Pass else Fail(InvalidTransaction)
      ensures Performed(if verdict.Pass? then WrittenOps(world, old(disk), delta) else [WritePending(delta)])
    {
      hide PerformAll, Frame, Perform;
      ghost var d0, t0 := disk, trace;
      Do(WritePending(delta));
      OneOp(d0, WritePending(delta));
      var frame := EncodeFrame(world.codec, delta);
      if frame.None? {
        return Fail(InvalidTransaction);
      }
      WrittenSteps(d0, delta, frame.value);
      if disk.log == [] {
        Do(AppendLog(Magic));
      }
      Do(AppendLog(frame.value));
      assert trace == t0 + WrittenOps(world, d0, delta);
      verdict := Pass;
    }

    /** The durable commit: pending record, log frame, apply, clear the record, in this order. Between
        any two of them a crash leaves a disk that `Recovery` speaks of. */
    method Commit(tx: Transaction) returns (r: Result<CommitOutcome, LedgerError>)
      modifies this
      ensures var plan := CommitPlan(world, old(disk), old(State()), tx);
              && Performed(plan.ops)
              && (r.Ok? <==> plan.outcome.Some?)
              && (r.Ok? ==> State() == plan.outcome.value)
      ensures r.Err? && Fits(old(State())) ==> State() == old(State())
      ensures r.Ok? && !Duplicate(old(State()), tx.id) ==>
                r.value == Applied(Receipt(tx.id, old(lastDeltaSeq) + 1,
                                           map o | o in Touched(tx) :: VersionOf(old(accounts), o) + 1))
      ensures r.Ok? && Duplicate(old(State()), tx.id) ==>
                r.value == AlreadyApplied(if tx.id in old(recentReceipts) then Some(old(recentReceipts)[tx.id])
                                          else None)
    {
      hide Applies, Accepts, Fits, Recorded, ReceiptFor, GrandTotal, PerformAll, Frame, Perform, CommitPlan,
           LinkedGate, Duplicate, WrittenOps, WritePlan, Touched, VersionOf;
      ghost var s, d0, t0 := State(), disk, trace;
      ReceiptIs(s, tx, lastDeltaSeq + 1);
      CommitPlanForm(world, d0, s, tx);
      NoOps(d0);
      assert t0 + [] == t0;
      var open := GateOpen(tx);
      if !open {
        return Err(InvalidTransaction);
      }
      if Duplicate(State(), tx.id) {
        return Ok(AlreadyApplied(if tx.id in recentReceipts then Some(recentReceipts[tx.id]) else None));
      }
      var verdict := ValidateTransaction(State(), tx);
      if verdict.Fail? {
        return Err(verdict.error);
      }
      if lastDeltaSeq >= U64_MAX {
        return Err(Overflow);
      }
      r := WriteAndApply(tx);
    }

    /** The part of a commit after validation. */
    method WriteAndApply(tx: Transaction) returns (r: Result<CommitOutcome, LedgerError>)
      requires lastDeltaSeq < U64_MAX
      modifies this
      ensures var plan := WritePlan(world, old(disk), old(State()), tx);
              && Performed(plan.ops)
              && (r.Ok? <==> plan.outcome.Some?)
              && (r.Ok? ==> State() == plan.outcome.value)
      ensures r.Err? && Fits(old(State())) ==> State() == old(State())
      ensures r.Ok? ==> r.value == Applied(ReceiptFor(old(State()), tx, old(lastDeltaSeq) + 1))
    {
      hide Applies, Fits, Recorded, ReceiptFor, GrandTotal, PerformAll, Frame, Perform, WrittenOps, After,
           DrossGenerated;
      ghost var s, d0, t0 := State(), disk, trace;
      var delta := ArcaneDelta(lastDeltaSeq + 1, tx);
      var verdict := WriteRecord(delta);
      StateUntouched(this, s);
      if verdict.Fail? {
        return Err(verdict.error);
      }
      ghost var ops := WrittenOps(world, d0, delta);
      var applied := ApplyValidated(tx, delta.sequence);
      match applied {
        case Err(e) =>
          r := Err(e);
        case Ok(receipt) =>
          lastDeltaSeq := delta.sequence;
          AfterIs(s, tx);
          Do(RemovePending);
          PerformConcat(d0, ops, [RemovePending]);
          OneOp(PerformAll(d0, ops), RemovePending);
          assert trace == t0 + (ops + [RemovePending]);
          r := Ok(Applied(receipt));
      }
    }

    /** Bring the files of a coordinator record to their after bytes. */
    method ApplyLinkedFiles(lc: LinkedCommit) returns (verdict: Verdict)
      modifies this`disk, this`trace
      ensures var plan := LinkedFiles(world, old(disk).files, lc, Zipped(lc));
              Performed(plan.ops) && (verdict.Pass? <==> plan.ok)
    {
      hide PutFile, FileBytes, PerformAll, Perform;
      ghost var d0, t0 := disk, trace;
      NoOps(d0);
      assert t0 + [] == t0;
      for i := 0 to Zipped(lc)
        invariant LinkedFiles(world, d0.files, lc, i).ok
        invariant disk == PerformAll(d0, LinkedFiles(world, d0.files, lc, i).ops)
        invariant trace == t0 + LinkedFiles(world, d0.files, lc, i).ops
        invariant disk.files == LinkedFiles(world, d0.files, lc, i).files
      {
        var f, l := lc.files[i], lc.transaction.linked[i];
        ghost var prev := LinkedFiles(world, d0.files, lc, i);
        if !world.pathAllowed(f) || f.subsystem != l.subsystem || f.operationId != l.operationId {
          LinkedFilesStuck(world, d0.files, lc, i + 1, Zipped(lc));
          return Fail(Corrupt);
        }
        var sum := world.codec.checksum(FileBytes(disk.files, f.path));
        if sum != l.afterChecksum {
          if sum != l.beforeChecksum {
            LinkedFilesStuck(world, d0.files, lc, i + 1, Zipped(lc));
            return Fail(Corrupt);
          }
          ghost var d1 := disk;
          Do(ReplaceFile(f));
          ReplaceOne(d1, f);
          OneOp(d1, ReplaceFile(f));
          PerformConcat(d0, prev.ops, [ReplaceFile(f)]);
          assert trace == t0 + (prev.ops + [ReplaceFile(f)]);
        }
      }
      verdict := Pass;
    }

    /** Finish the coordinator record on disk, if there is one. */
    method RecoverLinkedCommit() returns (verdict: Verdict)
      modifies this
      ensures var plan := LinkedPlan(world, old(disk), old(State()));
              && Performed(plan.ops)
              && (verdict.Pass? <==> plan.outcome.Some?)
              && (verdict.Pass? ==> State() == plan.outcome.value)
    {
      hide LinkedPlan, PerformAll;
      LinkedNothing(world, disk, State());
      NoOps(disk);
      assert trace + [] == trace;
      if disk.linked.None? {
        return Pass;
      }
      var finished := FinishLinked();
      verdict := if finished.Ok? then Pass else Fail(finished.error);
    }

    /** Bring the files of the pending coordinator record to their after bytes, commit its transaction and remove the
        record; the answer is the commit's. */
    method FinishLinked() returns (r: Result<CommitOutcome, LedgerError>)
      requires disk.linked.Some?
      modifies this
      ensures var plan := LinkedPlan(world, old(disk), old(State()));
              && Performed(plan.ops)
              && (r.Ok? <==> plan.outcome.Some?)
              && (r.Ok? ==> State() == plan.outcome.value)
      ensures var tx := old(disk).linked.value.transaction;
              r.Ok? && !Duplicate(old(State()), tx.id) ==>
                r.value == Applied(Receipt(tx.id, old(lastDeltaSeq) + 1,
                                           map o | o in Touched(tx) :: VersionOf(old(accounts), o) + 1))
    {
      hide CommitPlan, LinkedFiles, PerformAll, Fits, Perform, Touched, VersionOf, Duplicate;
      ghost var s, d0, t0 := State(), disk, trace;
      var lc := disk.linked.value;
      var verdict := ApplyLinkedFiles(lc);
      ghost var fp := LinkedFiles(world, d0.files, lc, Zipped(lc));
      if verdict.Fail? {
        return Err(verdict.error);
      }
      ghost var d1 := disk;
      r := Commit(lc.transaction);
      ghost var cp := CommitPlan(world, d1, s, lc.transaction);
      PerformConcat(d0, fp.ops, cp.ops);
      assert trace == t0 + (fp.ops + cp.ops);
      if r.Err? {
        assert fp.ops + cp.ops + [] == fp.ops + cp.ops;
        return;
      }
      ghost var d2 := disk;
      Do(RemoveLinked);
      OneOp(d2, RemoveLinked);
      PerformConcat(d0, fp.ops + cp.ops, [RemoveLinked]);
      assert trace == t0 + (fp.ops + cp.ops + [RemoveLinked]);
    }

    /** Describe the files of a linked commit by their checksums before and after. */
    method BuildLinks(files: seq<LinkedFile>) returns (links: seq<LinkedMutation>, verdict: Verdict)
      ensures verdict.Pass?
              <==> (forall f | f in files :: world.pathAllowed(f)) && TotalBytes(files) <= MAX_LINKED_BYTES
      ensures verdict.Pass? ==> links == Links(world, disk, files)
    {
      hide LinkOf;
      links := [];
      var total := 0;
      for i := 0 to |files|
        invariant forall k | 0 <= k < i :: world.pathAllowed(files[k])
        invariant total == TotalBytes(files[..i]) <= MAX_LINKED_BYTES
        invariant |links| == i && forall k | 0 <= k < i :: links[k] == LinkOf(world, disk, files[k])
      {
        assert files[..i + 1][..i] == files[..i];
        if !world.pathAllowed(files[i]) {
          assert files[i] in files;
          return links, Fail(InvalidTransaction);
        }
        total := total + |AfterBytes(files[i])|;
        if total > MAX_LINKED_BYTES {
          TotalBytesGrow(files, i + 1);
          return links, Fail(InvalidTransaction);
        }
        links := links + [LinkOf(world, disk, files[i])];
      }
      assert files[..|files|] == files;
      verdict := Pass;
    }

    /** Start a linked commit: the coordinator record first, then the files, then the journal. */
    method CommitLinkedFiles(tx: Transaction, files: seq<LinkedFile>) returns (r: Result<CommitOutcome, LedgerError>)
      modifies this
      ensures var plan := CommitLinkedPlan(world, old(disk), old(State()), tx, files);
              && Performed(plan.ops)
              && (r.Ok? <==> plan.outcome.Some?)
              && (r.Ok? ==> State() == plan.outcome.value)
      ensures r.Ok? ==>
                r.value == Applied(Receipt(tx.id, old(lastDeltaSeq) + 1,
                                           map o | o in Touched(tx) :: VersionOf(old(accounts), o) + 1))
    {
      hide LinkedPlan, Accepts, PerformAll, Perform, TotalBytes, LinkOf, Touched, VersionOf, Duplicate;
      ghost var s, d0, t0 := State(), disk, trace;
      NoOps(d0);
      assert t0 + [] == t0;
      if files == [] || |files| > MAX_LINKED_FILES || disk.linked.Some? {
        return Err(InvalidTransaction);
      }
      var links, verdict := BuildLinks(files);
      if verdict.Fail? {
        return Err(verdict.error);
      }
      var linked := tx.(linked := links);
      var lc := LinkedCommit(linked, files);
      assert lc == Linked(world, disk, tx, files);
      verdict := ValidateTransaction(State(), linked);
      if verdict.Fail? {
        return Err(verdict.error);
      }
      if !world.recordFits(lc) {
        return Err(InvalidTransaction);
      }
      AcceptedIsFresh(s, linked);
      SameTouched(tx, linked);
      Do(WriteLinked(lc));
      ghost var d1 := disk;
      OneOp(d0, WriteLinked(lc));
      WriteLinkedEffect(d0, lc);
      StateUntouched(this, s);
      ghost var rest := LinkedPlan(world, d1, s);
      assert CommitLinkedPlan(world, d0, s, tx, files) == Plan([WriteLinked(lc)] + rest.ops, rest.outcome);
      hide CommitLinkedPlan;
      r := FinishLinked();
      PerformConcat(d0, [WriteLinked(lc)], rest.ops);
      assert trace == t0 + ([WriteLinked(lc)] + rest.ops);
    }

    /** Repair the tail of the log from the pending record and list the records to replay. */
    method RepairLog() returns (records: seq<ArcaneDelta>, verdict: Verdict)
      requires lastDeltaSeq == disk.snapshot.lastDeltaSeq
      modifies this`disk, this`trace
      ensures verdict.Pass? <==> ReplayOps(world, old(disk)).Some?
      ensures verdict.Pass? ==> records == ReplayOps(world, old(disk)).value.records
      ensures Performed(if verdict.Pass? then ReplayOps(world, old(disk)).value.ops else [])
    {
      hide PerformAll, Decode, Frame, Perform;
      ghost var d0, t0 := disk, trace;
      NoOps(d0);
      assert t0 + [] == t0;
      var log := disk.log;
      if |log| > MAX_DELTA_BYTES || !(Magic <= log) {
        return [], Fail(Corrupt);
      }
      var validEnd, complete;
      records, validEnd, complete := DecodeFrames(world.codec, log);
      if disk.pending.None? {
        return records, if complete then Pass else Fail(Corrupt);
      }
      var p := disk.pending.value;
      var logged := exists i :: 0 <= i < |records| && records[i].sequence == p.sequence;
      if complete && logged {
        Do(RemovePending);
        OneOp(d0, RemovePending);
        return records, Pass;
      }
      var last := if records == [] then lastDeltaSeq else records[|records| - 1].sequence;
      if last >= U64_MAX || p.sequence != last + 1 || validEnd > |log| {
        return records, Fail(Corrupt);
      }
      var frame := EncodeFrame(world.codec, p);
      if frame.None? {
        return records, Fail(InvalidTransaction);
      }
      Do(ReplaceLog(log[..validEnd] + frame.value));
      records := records + [p];
      Do(RemovePending);
      TwoOps(d0, ReplaceLog(log[..validEnd] + frame.value), RemovePending);
      verdict := Pass;
    }

    /** Replay the log over a freshly decoded snapshot. */
    method ReplayDeltaLog() returns (verdict: Verdict)
      requires State() == disk.snapshot
      modifies this
      ensures var plan := ReplayPlan(world, old(disk));
              && Performed(plan.ops)
              && (verdict.Pass? <==> plan.outcome.Some?)
              && (verdict.Pass? ==> State() == plan.outcome.value)
    {
      hide PerformAll, ReplayOps, ApplyRecords;
      ghost var s := State();
      var records;
      records, verdict := RepairLog();
      StateUntouched(this, s);
      if verdict.Fail? {
        return;
      }
      verdict := ReplayRecords(records);
    }

    method ReplayRecords(records: seq<ArcaneDelta>) returns (verdict: Verdict)
      modifies this`accounts, this`originHighWater, this`recentReceipts, this`receiptOrder,
               this`pendingDrossAttribution, this`lastCleanTotal, this`drossGeneratedTotal, this`lastDeltaSeq
      ensures var outcome := ApplyRecords(old(State()), records);
              (verdict.Pass? <==> outcome.Some?) && (verdict.Pass? ==> State() == outcome.value)
    {
      hide Applies, Recorded, GrandTotal, Fits;
      ghost var s := State();
      for i := 0 to |records|
        invariant ApplyRecords(s, records[..i]) == Some(State())
      {
        assert records[..i + 1][..i] == records[..i];
        var record := records[i];
        if record.sequence > lastDeltaSeq {
          ghost var t := State();
          if lastDeltaSeq >= U64_MAX || record.sequence != lastDeltaSeq + 1 {
            ApplyRecordsStuck(s, records, i + 1);
            return Fail(Corrupt);
          }
          var applied := ApplyValidated(record.transaction, record.sequence);
          if applied.Err? {
            NotBoth(t, record.transaction);
            ApplyRecordsStuck(s, records, i + 1);
            return Fail(applied.error);
          }
          lastDeltaSeq := record.sequence;
          AfterIs(t, record.transaction);
        }
      }
      assert records[..|records|] == records;
      verdict := Pass;
    }

    method AdoptSnapshot(s: LedgerState)
      modifies this
      ensures State() == s && disk == old(disk) && trace == old(trace)
    {
      genesisTotal, registry, accounts, lastDeltaSeq := s.genesisTotal, s.registry, s.accounts, s.lastDeltaSeq;
      originHighWater, recentReceipts, receiptOrder := s.highWater, s.receipts, s.receiptOrder;
      externalAdjustment, lastCleanTotal := s.externalAdjustment, s.lastCleanTotal;
      pendingDrossAttribution := s.attribution;
    }

    /** Whether a snapshot can be read back: its size, its number of accounts, and every account in turn. */
    method DecodeSnapshot(snapshot: LedgerState) returns (ok: bool)
      ensures ok <==> Decodes(world, snapshot)
    {
      hide Total;
      if !world.snapshotFits(snapshot) || |snapshot.accounts| > MAX_OWNERS {
        return false;
      }
      var rest := snapshot.accounts.Keys;
      while rest != {}
        invariant rest <= snapshot.accounts.Keys
        invariant forall o | o in snapshot.accounts && o !in rest ::
                    AccountSound(snapshot.registry, snapshot.accounts[o])
        decreases |rest|
      {
        var o :| o in rest;
        var account := snapshot.accounts[o];
        var _, fits := TotalChecked(account.current);
        if fits.Fail? || account.current == Empty || !(account.current.parts.Keys <= snapshot.registry) {
          assert !AccountSound(snapshot.registry, account);
          return false;
        }
        rest := rest - {o};
      }
      ok := true;
    }

    /** Load the world: restore an interrupted checkpoint, replay the log, finish a linked commit. */
    method Load() returns (verdict: Verdict)
      modifies this
      ensures var plan := LoadPlan(world, old(disk));
              && Performed(plan.ops)
              && (verdict.Pass? <==> plan.outcome.Some?)
              && (verdict.Pass? ==> State() == plan.outcome.value)
    {
      hide ReplayPlan, LinkedPlan, PerformAll, GrandTotal, Perform, Decodes;
      ghost var d0, t0 := disk, trace;
      NoOps(d0);
      assert t0 + [] == t0;
      ghost var restore: seq<DiskOp> := [];
      var decoded := DecodeSnapshot(disk.snapshot);
      if !decoded {
        return Fail(Corrupt);
      }
      if world.fingerprint(disk.snapshot) != disk.manifest {
        if disk.snapshotBackup.None? {
          return Fail(Corrupt);
        }
        decoded := DecodeSnapshot(disk.snapshotBackup.value);
        if !decoded || world.fingerprint(disk.snapshotBackup.value) != disk.manifest || disk.logBackup.None? {
          return Fail(Corrupt);
        }
        var snapshot, log := disk.snapshotBackup.value, disk.logBackup.value;
        Do(WriteSnapshot(snapshot));
        Do(ReplaceLog(log));
        restore := [WriteSnapshot(snapshot), ReplaceLog(log)];
        TwoOps(d0, WriteSnapshot(snapshot), ReplaceLog(log));
        assert trace == t0 + restore;
      }
      assert RestoreOps(world, d0) == Some(restore);
      AdoptSnapshot(disk.snapshot);
      ghost var d1 := disk;
      verdict := ReplayDeltaLog();
      ghost var replay := ReplayPlan(world, d1);
      PerformConcat(d0, restore, replay.ops);
      assert trace == t0 + (restore + replay.ops);
      if verdict.Fail? {
        return;
      }
      ghost var d2, t := disk, State();
      verdict := RecoverLinkedCommit();
      ghost var linked := LinkedPlan(world, d2, t);
      PerformConcat(d1, replay.ops, linked.ops);
      PerformConcat(d0, restore, replay.ops + linked.ops);
      assert trace == t0 + (restore + (replay.ops + linked.ops));
      if verdict.Fail? {
        return;
      }
      verdict := ValidateTotal();
    }

    method ValidateTotal() returns (verdict: Verdict)
      ensures verdict.Pass? <==> Conserved(State())
    {
      var sum := 0;
      var rest := accounts;
      while rest.Keys != {}
        invariant sum + GrandTotal(rest) == GrandTotal(accounts)
        decreases |rest|
      {
        var o :| o in rest.Keys;
        SumMapPick(rest, AccountWeight(), o);
        var units := TotalUnchecked(rest[o].current);
        sum := sum + units;
        rest := rest - {o};
      }
      verdict := if sum == genesisTotal + externalAdjustment then Pass else Fail(Corrupt);
    }

    /** Checkpoint: back up the old pair, write the new snapshot, reset the log, update the manifest. */
    method Save() returns (verdict: Verdict)
      modifies this`disk, this`trace
      ensures verdict.Pass? <==> Conserved(State())
      ensures Performed(if Conserved(old(State())) then SaveOps(world, old(disk), old(State())) else [])
    {
      hide GrandTotal;
      ghost var d0, t0, s := disk, trace, State();
      verdict := ValidateTotal();
      if verdict.Fail? {
        return;
      }
      Do(WriteSnapshotBackup(disk.snapshot));
      Do(WriteLogBackup(disk.log));
      Do(WriteSnapshot(Durable(State())));
      Do(ReplaceLog(Magic));
      Do(RemovePending);
      Do(WriteManifest(world.fingerprint(Durable(State()))));
      SavePrefix(world, d0, s, 6);
      assert SaveOps(world, d0, s)[..6] == SaveOps(world, d0, s);
    }
  }

  function ReceiptOf(tx: Transaction, sequence: nat, versions: map<Owner, nat>): Receipt {
    Receipt(tx.id, sequence, versions)
  }

  /** Stage every movement of a transaction. It fails, with nothing written yet, exactly when the
      transaction does not apply. */
  method StageTransaction(s: LedgerState, tx: Transaction)
    returns (staged: Stage, versions: map<Owner, nat>, verdict: Verdict)
    ensures verdict.Pass? <==> Applies(s, tx)
    ensures verdict.Pass? ==> staged == Staged(Settle(Moved(s.accounts, tx).value, Touched(tx)), Touched(tx))
    ensures verdict.Pass? ==> forall n :: ReceiptOf(tx, n, versions) == ReceiptFor(s, tx, n)
  {
    hide *;
    staged, versions := map[], map[];
    verdict := ValidateTransaction(s, tx);
    if verdict.Fail? {
      NotAccepted(s, tx);
      return;
    }
    TouchedCovers(tx);
    var touched := Touched(tx);
    staged, verdict := StageDebits(s.accounts, touched, tx.debits);
    if verdict.Fail? {
      NotMoved(s, tx);
      return;
    }
    ghost var b := DebitAll(s.accounts, tx.debits).value;
    staged, verdict := StageCredits(b, touched, staged, tx.credits);
    if verdict.Fail? {
      NotMoved(s, tx);
      return;
    }
    MovedIs(s.accounts, tx);
    staged, versions, verdict := AdvanceVersions(s.accounts, CreditAll(b, tx.credits).value, touched, staged);
    if verdict.Fail? {
      NotAdvanced(s, tx);
      return;
    }
    NowApplies(s, tx);
    ReceiptsAgree(s, tx, versions);
  }

  // ----- what the staged write establishes -----

  lemma DuplicateSteps(s: LedgerState, tx: Transaction)
    ensures Duplicate(s, tx.id) ==> Step(s, Transact(tx)) == Some(s) && !TakesEffect(s, tx)
  {
    hide Duplicate, Applies, After;
  }

  /** Validation admits only the next sequence of its origin. */
  lemma AcceptedIsFresh(s: LedgerState, tx: Transaction)
    requires Accepts(s, tx)
    ensures !Duplicate(s, tx.id)
  {
    hide ReadsNameTouched, ReadsCurrent, Authorized, DebitAvailable, CreditAllowed, Balanced, Registered, OriginFits,
         LinkedWellFormed, Blank;
  }

  lemma SameTouched(tx: Transaction, linked: Transaction)
    requires linked == tx.(linked := linked.linked)
    ensures Touched(linked) == Touched(tx)
  {
    hide Owners;
  }

  lemma LinkedNothing(w: World, d: Disk, s: LedgerState)
    ensures d.linked.None? ==> LinkedPlan(w, d, s) == Plan([], Some(s))
  {
    hide CommitPlan, LinkedFiles;
  }

  lemma ReceiptsAgree(s: LedgerState, tx: Transaction, versions: map<Owner, nat>)
    requires versions == map o | o in Touched(tx) :: VersionOf(s.accounts, o) + 1
    ensures forall n :: ReceiptOf(tx, n, versions) == ReceiptFor(s, tx, n)
  {
    hide Touched, VersionOf;
  }

  lemma StageWritten(ledger: ArcaneLedger, s: LedgerState, tx: Transaction, sequence: nat)
    requires Applies(s, tx)
    requires var order := s.receiptOrder + [tx.id];
             && ledger.accounts == Settle(Moved(s.accounts, tx).value, Touched(tx))
             && ledger.originHighWater == s.highWater[tx.id.origin := Max(HighWater(s, tx.id.origin), tx.id.sequence)]
             && ledger.recentReceipts == EvictedReceipts(s.receipts[tx.id := ReceiptFor(s, tx, sequence)], order)
             && ledger.receiptOrder == KeepNewest(order, MAX_TRANSACTION_HISTORY)
    requires ledger.State() == s.(accounts := ledger.accounts, highWater := ledger.originHighWater,
                                  receipts := ledger.recentReceipts, receiptOrder := ledger.receiptOrder)
    ensures ledger.State() == Recorded(s, tx, sequence).(attribution := ledger.pendingDrossAttribution)
  {
    RecordedFields(s, tx, sequence);
    hide Applies, Moved, Settle, Touched, HighWater, EvictedReceipts, KeepNewest, ReceiptFor, Recorded;
    var t := Recorded(s, tx, sequence);
    assert ledger.State().attribution == ledger.pendingDrossAttribution;
  }

  lemma ProvenanceLast(ledger: ArcaneLedger, mid: LedgerState, s: LedgerState, tx: Transaction, sequence: nat)
    requires Applies(s, tx)
    requires mid == Recorded(s, tx, sequence).(attribution := s.attribution)
    requires ledger.State() == mid.(attribution := ledger.pendingDrossAttribution)
    requires ledger.pendingDrossAttribution == Provenance(s.attribution, tx)
    ensures ledger.State() == Recorded(s, tx, sequence)
  {
    RecordedFields(s, tx, sequence);
    hide *;
  }

  lemma StateAccounts(ledger: ArcaneLedger)
    ensures ledger.State().accounts == ledger.accounts && ledger.State().attribution == ledger.pendingDrossAttribution
  {
  }

  lemma TotalLast(ledger: ArcaneLedger, s: LedgerState, tx: Transaction, sequence: nat, sum: nat)
    requires Applies(s, tx) && ledger.lastCleanTotal == sum
    requires ledger.State() == Recorded(s, tx, sequence).(lastCleanTotal := sum)
    ensures ledger.State().accounts == ledger.accounts
  {
  }

  method EvictReceipts(receipts: map<TransactionId, Receipt>, order: seq<TransactionId>)
    returns (kept: map<TransactionId, Receipt>, queue: seq<TransactionId>)
    ensures kept == EvictedReceipts(receipts, order)
    ensures queue == KeepNewest(order, MAX_TRANSACTION_HISTORY)
  {
    kept, queue := receipts, order;
    ghost var cut := 0;
    while |queue| > MAX_TRANSACTION_HISTORY
      invariant 0 <= cut <= Excess(order, MAX_TRANSACTION_HISTORY)
      invariant queue == order[cut..]
      invariant kept == receipts - (set id | id in order[..cut])
      decreases |queue|
    {
      assert order[..cut + 1] == order[..cut] + [queue[0]];
      kept := kept - {queue[0]};
      queue := queue[1..];
      cut := cut + 1;
    }
  }

  lemma AddedBand(deep: Current, r: Resonance, units: nat, part: Current, current: Current)
    requires part == Single(r, units) && 0 < units
    requires Total(deep) + units > U64_MAX && BandOverflows(deep, part) ==> PartlyAdded(deep, part, current)
    requires !(Total(deep) + units > U64_MAX && BandOverflows(deep, part)) ==> current == Plus(deep, part)
    ensures current == if UnitsOf(deep, r) + units > U64_MAX then deep else Put(deep, r, UnitsOf(deep, r) + units)
  {
    UnitsWithinTotal(deep, r);
    assert BandOverflows(deep, part) <==> UnitsOf(deep, r) + units > U64_MAX by {
      assert r in part.parts;
    }
    assert forall n | n != r :: UnitsOf(part, n) == 0;
    assert UnitsOf(part, r) == units;
    hide Total, Plus, Put, Single, BandOverflows;
    SameUnits(current, if UnitsOf(deep, r) + units > U64_MAX then deep else Put(deep, r, UnitsOf(deep, r) + units));
  }

  lemma TakenBand(deep: Current, r: Resonance, units: nat, part: Current, current: Current)
    requires part == Single(r, units) && 0 < units && PartlyTaken(deep, part, current)
    requires Covers(deep, part) ==> current == Minus(deep, part)
    ensures Covers(deep, part) <==> units <= UnitsOf(deep, r)
    ensures current == if units <= UnitsOf(deep, r) then Put(deep, r, UnitsOf(deep, r) - units) else deep
  {
    assert forall n | n != r :: UnitsOf(part, n) == 0;
    assert UnitsOf(part, r) == units;
    hide Put, Single;
    SameUnits(current, if units <= UnitsOf(deep, r) then Put(deep, r, UnitsOf(deep, r) - units) else deep);
  }

  /** A change of Deep that can be counted. */
  ghost predicate Counts(t: LedgerState, delta: int)
    requires Deep in t.accounts
  {
    var deep := t.accounts[Deep];
    && deep.version < U64_MAX
    && -I128_BOUND <= t.externalAdjustment + delta < I128_BOUND
    && GrandTotal(t.accounts[Deep := deep.(version := deep.version + 1)]) <= U64_MAX
  }

  /** The ways an adjustment can end, stage by stage. */
  lemma AdjustCases(s: LedgerState, op: LedgerOp)
    requires op.AdjustDeep?
    ensures !AdjustRequested(s, op) ==> AdjustEnd(s, op) == s && !AdjustAllowed(s, op)
    ensures AdjustRequested(s, op) && BandBlocked(s, op) ==> AdjustEnd(s, op) == s && !AdjustAllowed(s, op)
    ensures AdjustRequested(s, op) && !BandBlocked(s, op) ==>
              var shifted := s.(accounts := s.accounts[Deep := ShiftedDeep(s, op)]);
              if 0 < op.delta && U64_MAX < Total(s.accounts[Deep].current) + op.delta
              then AdjustEnd(s, op) == shifted && !AdjustAllowed(s, op)
              else
                && AdjustEnd(s, op) == CountEnd(shifted, op.delta)
                && (AdjustAllowed(s, op) <==> Counts(shifted, op.delta))
  {
    hide Total, GrandTotal, Blank, Put;
    if AdjustRequested(s, op) {
      if BandBlocked(s, op) {
        if AdjustAllowed(s, op) {
          AllowedUnblocked(s, op);
        }
      } else {
        ShiftedSum(s, op);
      }
    }
  }

  lemma ShiftedSum(s: LedgerState, op: LedgerOp)
    requires op.AdjustDeep? && AdjustRequested(s, op) && !BandBlocked(s, op)
    ensures var deep := ShiftedDeep(s, op);
            GrandTotal(s.accounts[Deep := deep][Deep := deep.(version := deep.version + 1)])
              == GrandTotal(s.accounts) + op.delta
  {
    hide Put, Total, Blank;
    var deep := s.accounts[Deep];
    TotalPut(deep.current, op.resonance, UnitsOf(deep.current, op.resonance) + op.delta);
    var bumped := ShiftedDeep(s, op).(version := deep.version + 1);
    assert s.accounts[Deep := ShiftedDeep(s, op)][Deep := bumped] == s.accounts[Deep := bumped];
    SumMapPut(s.accounts, AccountWeight(), Deep, bumped);
  }

  lemma AdjustDone(s: LedgerState, op: LedgerOp)
    requires op.AdjustDeep? && AdjustAllowed(s, op)
    ensures Some(AdjustEnd(s, op)) == Step(s, op) && (Conserved(AdjustEnd(s, op)) <==> Conserved(s))
  {
    hide AdjustAllowed, AdjustEnd, Adjusted, Conserved;
    AllowedEnds(s, op);
  }

  method TotalUnchecked(c: Current) returns (total: nat)
    ensures total == Total(c)
  {
    total := 0;
    var rest := c.parts;
    while rest.Keys != {}
      invariant total + SumMap(rest, Weight()) == Total(c)
      decreases |rest|
    {
      var n :| n in rest.Keys;
      SumMapPick(rest, Weight(), n);
      total := total + rest[n];
      rest := rest - {n};
    }
  }

  lemma NotBoth(s: LedgerState, tx: Transaction)
    requires !(Applies(s, tx) && Fits(s))
    ensures Applies(s, tx) ==> !Fits(s)
  {
  }

  lemma StateUntouched(ledger: ArcaneLedger, s: LedgerState)
    requires ledger.genesisTotal == s.genesisTotal && ledger.registry == s.registry && ledger.accounts == s.accounts
    requires ledger.lastDeltaSeq == s.lastDeltaSeq && ledger.originHighWater == s.highWater
    requires ledger.recentReceipts == s.receipts && ledger.receiptOrder == s.receiptOrder
    requires ledger.externalAdjustment == s.externalAdjustment && ledger.lastCleanTotal == s.lastCleanTotal
    requires ledger.pendingDrossAttribution == s.attribution
    ensures ledger.State() == s
  {
  }

  /** What a commit does once its transaction passed validation. */
  ghost function WritePlan(w: World, d: Disk, s: LedgerState, tx: Transaction): Plan {
    var delta := DeltaFor(s, tx);
    if |w.codec.encode(delta)| >= TWO32 then Plan([WritePending(delta)], None)
    else if Applies(s, tx) && Fits(s) then Plan(WrittenOps(w, d, delta) + [RemovePending], Some(After(s, tx)))
    else Plan(WrittenOps(w, d, delta), None)
  }

  function WrittenOps(w: World, d: Disk, delta: ArcaneDelta): seq<DiskOp> {
    [WritePending(delta)] + HeaderOps(d) + [AppendLog(Frame(w.codec, delta))]
  }

  lemma CommitPlanForm(w: World, d: Disk, s: LedgerState, tx: Transaction)
    ensures CommitPlan(w, d, s, tx)
            == if !LinkedGate(d, tx) then Plan([], None)
               else if Duplicate(s, tx.id) then Plan([], Some(s))
               else if !Accepts(s, tx) || s.lastDeltaSeq >= U64_MAX then Plan([], None)
               else WritePlan(w, d, s, tx)
  {
    hide LinkedGate, Duplicate, Accepts, Applies, Fits, After, Frame;
  }

  lemma WrittenSteps(d: Disk, delta: ArcaneDelta, frame: seq<byte>)
    ensures var start := Perform(d, WritePending(delta));
            var headed := if d.log == [] then Perform(start, AppendLog(Magic)) else start;
            PerformAll(d, [WritePending(delta)] + HeaderOps(d) + [AppendLog(frame)])
              == Perform(headed, AppendLog(frame))
    ensures Perform(d, WritePending(delta)).log == d.log
  {
    var ops := [WritePending(delta)] + HeaderOps(d) + [AppendLog(frame)];
    if d.log == [] {
      assert ops == [WritePending(delta), AppendLog(Magic), AppendLog(frame)];
      ThreeOps(d, WritePending(delta), AppendLog(Magic), AppendLog(frame));
    } else {
      assert ops == [WritePending(delta), AppendLog(frame)];
      TwoOps(d, WritePending(delta), AppendLog(frame));
    }
  }

  lemma {:induction false} LinkedFilesStuck(w: World, files: map<string, seq<byte>>, lc: LinkedCommit, k: nat, n: nat)
    requires k <= n <= |lc.files| && n <= |lc.transaction.linked| && !LinkedFiles(w, files, lc, k).ok
    ensures LinkedFiles(w, files, lc, n) == LinkedFiles(w, files, lc, k)
  {
    if k < n {
      LinkedFilesStuck(w, files, lc, k, n - 1);
    }
  }

  lemma {:induction false} TotalBytesGrow(files: seq<LinkedFile>, k: nat)
    requires k <= |files|
    ensures TotalBytes(files[..k]) <= TotalBytes(files)
    decreases |files|
  {
    if k == |files| {
      assert files[..k] == files;
    } else {
      TotalBytesGrow(files[..|files| - 1], k);
      assert files[..|files| - 1][..k] == files[..k];
    }
  }

  lemma {:induction false} ApplyRecordsStuck(s: LedgerState, rs: seq<ArcaneDelta>, k: nat)
    requires k <= |rs| && ApplyRecords(s, rs[..k]).None?
    ensures ApplyRecords(s, rs).None?
    decreases |rs|
  {
    if k == |rs| {
      assert rs[..k] == rs;
    } else {
      ApplyRecordsStuck(s, rs[..|rs| - 1], k) by { assert rs[..|rs| - 1][..k] == rs[..k]; }
    }
  }

  lemma NotAccepted(s: LedgerState, tx: Transaction)
    requires !Accepts(s, tx)
    ensures !Applies(s, tx)
  {
    hide Accepts;
  }

  lemma TouchedCovers(tx: Transaction)
    ensures Owners(tx.debits) <= Touched(tx) && Owners(tx.credits) <= Touched(tx)
  {
  }

  lemma NotMoved(s: LedgerState, tx: Transaction)
    requires DebitAll(s.accounts, tx.debits).None?
             || CreditAll(DebitAll(s.accounts, tx.debits).value, tx.credits).None?
    ensures !Applies(s, tx)
  {
    hide Accepts, DebitAll, CreditAll;
  }

  lemma MovedIs(a: Accounts, tx: Transaction)
    requires DebitAll(a, tx.debits).Some? && CreditAll(DebitAll(a, tx.debits).value, tx.credits).Some?
    ensures Moved(a, tx) == CreditAll(DebitAll(a, tx.debits).value, tx.credits)
    ensures forall o :: VersionOf(Moved(a, tx).value, o) == VersionOf(a, o)
    ensures forall o | o !in Touched(tx) :: Lookup(Moved(a, tx).value, o) == Lookup(a, o)
  {
    hide DebitAll, CreditAll, Touched, Lookup, VersionOf;
    forall o ensures VersionOf(Moved(a, tx).value, o) == VersionOf(a, o) {
      MovedBalances(a, tx, o);
    }
    forall o | o !in Touched(tx) ensures Lookup(Moved(a, tx).value, o) == Lookup(a, o) {
      UntouchedLookup(a, tx, o);
    }
  }

  lemma MovedParts(s: LedgerState, tx: Transaction)
    requires Applies(s, tx)
    ensures DebitAll(s.accounts, tx.debits).Some?
            && CreditAll(DebitAll(s.accounts, tx.debits).value, tx.credits).Some?
  {
    hide Accepts, DebitAll, CreditAll, VersionsBelowMaximum;
  }

  lemma NotAdvanced(s: LedgerState, tx: Transaction)
    requires !VersionsBelowMaximum(s.accounts, Touched(tx))
    ensures !Applies(s, tx)
  {
    hide Accepts, Moved, VersionsBelowMaximum;
  }

  lemma NowApplies(s: LedgerState, tx: Transaction)
    requires Accepts(s, tx) && Moved(s.accounts, tx).Some? && VersionsBelowMaximum(s.accounts, Touched(tx))
    ensures Applies(s, tx)
  {
    hide Accepts, Moved, VersionsBelowMaximum;
  }

  lemma RecordedFields(s: LedgerState, tx: Transaction, sequence: nat)
    requires Applies(s, tx)
    ensures var t := Recorded(s, tx, sequence);
            var order := s.receiptOrder + [tx.id];
            && t.accounts == Settle(Moved(s.accounts, tx).value, Touched(tx))
            && t.highWater == s.highWater[tx.id.origin := Max(HighWater(s, tx.id.origin), tx.id.sequence)]
            && t.receipts == EvictedReceipts(s.receipts[tx.id := ReceiptFor(s, tx, sequence)], order)
            && t.receiptOrder == KeepNewest(order, MAX_TRANSACTION_HISTORY)
            && t.attribution == Provenance(s.attribution, tx)
            && t.genesisTotal == s.genesisTotal && t.registry == s.registry && t.lastDeltaSeq == s.lastDeltaSeq
            && t.externalAdjustment == s.externalAdjustment && t.lastCleanTotal == s.lastCleanTotal
    ensures ReceiptFor(s, tx, sequence)
            == Receipt(tx.id, sequence, map o | o in Touched(tx) :: VersionOf(s.accounts, o) + 1)
  {
    hide Applies, Moved, Settle, Provenance, EvictedReceipts, KeepNewest;
  }

  lemma AcceptedSums(s: LedgerState, tx: Transaction)
    requires Applies(s, tx)
    ensures Balanced(tx) && UnitsMoved(tx.debits, false) <= U64_MAX
    ensures forall m | m in tx.debits + tx.credits :: Total(m.current) <= U64_MAX
  {
    hide *;
    AppliedParts(s, tx);
    BalancedSums(tx);
  }

  lemma MixtureBounds(ms: seq<ArcaneMove>)
    requires Total(Mixture(ms)) <= U64_MAX
    ensures UnitsMoved(ms, false) <= U64_MAX
    ensures forall m | m in ms :: Total(m.current) <= U64_MAX
  {
    hide Total, Mixture, UnitsMoved;
    UnitsMovedBounded(ms, |ms|, false);
    MixtureGrows(ms, 0);
  }

  lemma BalancedSums(tx: Transaction)
    requires Balanced(tx)
    ensures UnitsMoved(tx.debits, false) <= U64_MAX
    ensures forall m | m in tx.debits + tx.credits :: Total(m.current) <= U64_MAX
  {
    hide Total, Transformed, UnitsMoved, Mixture;
    MixtureBounds(tx.debits);
    MixtureBounds(tx.credits);
  }

  lemma RecordedTotal(s: LedgerState, tx: Transaction, sequence: nat)
    requires Applies(s, tx)
    ensures GrandTotal(Recorded(s, tx, sequence).accounts) == GrandTotal(s.accounts)
  {
    RecordedFields(s, tx, sequence);
    AppliedParts(s, tx);
    AppliedConserves(s, tx, Root);
    hide *;
  }

  lemma FitsIs(s: LedgerState)
    ensures Fits(s) <==> GrandTotal(s.accounts) <= U64_MAX
  {
  }

  lemma AfterIs(s: LedgerState, tx: Transaction)
    requires Applies(s, tx)
    ensures After(s, tx) == Recorded(s, tx, s.lastDeltaSeq + 1).(
                              lastCleanTotal := GrandTotal(Recorded(s, tx, s.lastDeltaSeq + 1).accounts),
                              lastDeltaSeq := s.lastDeltaSeq + 1)
  {
    hide Applies, Recorded, GrandTotal;
  }
}
