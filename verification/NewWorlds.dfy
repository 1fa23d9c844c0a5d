/** How a world directory begins: its first checkpoint, and a journal whose header has yet to be written. */
module NewWorlds {
  import opened Prelude
  import opened CurrentUnits
  import opened LedgerModel
  import opened AttributionQueue
  import opened LedgerRuns
  import opened Frames
  import opened Journal
  import opened Recovery
  import opened RunningLedger
  import opened WorldRuns

  /** Whatever stood in the directory, a finished checkpoint of a conserving ledger mirrors it and loads as it, exactly
      when its snapshot can be read back. */
  lemma FirstSaveMirrors(w: World, d: Disk, m: LedgerState)
    requires Faithful(w.codec) && d.linked.None? && Conserved(m)
    ensures var saved := PerformAll(d, SaveOps(w, d, m));
            && (Mirrors(w, saved, [], Durable(m), m) <==> Decodes(w, Durable(m)))
            && LoadPlan(w, saved).outcome == if Decodes(w, Durable(m)) then Some(Durable(m)) else None
  {
    var saved := SaveStep(w, d, m, 6);
    assert saved.snapshot == Durable(m) && saved.log == Magic && saved.pending.None? && saved.linked.None?
           && saved.manifest == w.fingerprint(Durable(m));
    hide SaveStep;
    SavePrefix(w, d, m, 6);
    assert SaveOps(w, d, m)[..6] == SaveOps(w, d, m);
    hide SaveOps, PerformAll;
    if Decodes(w, Durable(m)) {
      AloneClean(w, saved, m);
      LoadClean(w, saved, [], Durable(m));
    } else {
      assert RestoreOps(w, saved).None?;
    }
    hide LoadPlan, Clean;
    if Decodes(w, Durable(m)) {
      DurableTwice(m);
      MirrorsIs(w, saved, [], Durable(m), m);
    } else if Mirrors(w, saved, [], Durable(m), m) {
      MirrorsDecode(w, saved, [], Durable(m), m);
    }
  }

  lemma AloneClean(w: World, d: Disk, m: LedgerState)
    requires Faithful(w.codec) && d.pending.None? && d.linked.None? && d.log == Magic
    requires d.snapshot == Durable(m) && d.manifest == w.fingerprint(Durable(m))
    requires Conserved(m) && Decodes(w, Durable(m))
    ensures Clean(w, d, [], Durable(m))
  {
    LogHeaderAlone(w.codec);
    hide Faithful, Decodes, Log;
  }

  /** A new world with any account table that a snapshot can hold starts a life: all that is proved of lives and runs
      holds of it from its first checkpoint on. */
  lemma WorldBegins(w: World, d: Disk, genesis: nat, registry: set<Resonance>, accounts: Accounts)
    requires Faithful(w.codec) && d.linked.None? && GrandTotal(accounts) == genesis <= U64_MAX
    requires Decodes(w, LedgerState(genesis, registry, accounts, 0, map[], map[], [], 0, genesis, []))
    ensures var s := LedgerState(genesis, registry, accounts, 0, map[], map[], [], 0, genesis, []);
            Kept(w, Standing(PerformAll(d, SaveOps(w, d, s)), s)) && Sound(s)
  {
    var s := LedgerState(genesis, registry, accounts, 0, map[], map[], [], 0, genesis, []);
    assert Durable(s) == s && SameDurable(s, s);
    hide *;
    GenesisSound(genesis, registry, accounts);
    BeginsSound(s);
    FirstSaveMirrors(w, d, s);
    BeginsKept(w, Standing(PerformAll(d, SaveOps(w, d, s)), s), s);
  }

  lemma BeginsSound(s: LedgerState)
    requires Sound(s)
    ensures Conserved(s)
  {
    hide Fits, Conserved, ReceiptsIndexed, Backed;
  }

  lemma BeginsKept(w: World, a: Standing, s: LedgerState)
    requires Mirrors(w, a.disk, [], s, a.ledger)
    ensures Kept(w, a)
  {
    hide Mirrors;
  }

  // ----- a journal without its header -----

  /** The first commit to an empty journal writes the header too, and leaves a disk that mirrors its ledger. */
  lemma EmptyLogCommit(w: World, d: Disk, s: LedgerState, tx: Transaction)
    requires d.log == [] && Clean(w, d.(log := Magic), [], s)
    requires TakesEffect(s, tx) && Fits(s) && tx.linked == [] && Readable(w, d.(log := Magic), DeltaFor(s, tx))
    ensures Applies(s, tx) && CommitPlan(w, d, s, tx).outcome == Some(After(s, tx))
    ensures Mirrors(w, PerformAll(d, CommitPlan(w, d, s, tx).ops), [DeltaFor(s, tx)], After(s, tx), After(s, tx))
  {
    hide *;
    var headed := d.(log := Magic);
    SameOneself(s);
    CleanGate(w, headed, [], s, tx);
    MirrorsIs(w, headed, [], s, s);
    CommitMirrors(w, headed, [], s, s, tx);
    CommitOpsPhases(w, headed, s, tx);
    ReadableShort(w, headed, DeltaFor(s, tx));
    CommitPlanRuns(w, headed, s, tx);
    HeaderProgram(w, d, s, tx);
    assert [] + [DeltaFor(s, tx)] == [DeltaFor(s, tx)];
  }

  lemma HeaderProgram(w: World, d: Disk, s: LedgerState, tx: Transaction)
    requires d.log == [] && d.pending.None? && TakesEffect(s, tx) && Fits(s)
    requires LinkedGate(d.(log := Magic), tx) && |w.codec.encode(DeltaFor(s, tx))| < TWO32
    ensures Applies(s, tx) && CommitPlan(w, d, s, tx).outcome == Some(After(s, tx))
    ensures CommitPlan(w, d, s, tx).ops
            == [WritePending(DeltaFor(s, tx))]
               + [AppendLog(Magic), AppendLog(Frame(w.codec, DeltaFor(s, tx))), RemovePending]
    ensures PerformAll(d, CommitPlan(w, d, s, tx).ops) == Appended(w, d.(log := Magic), DeltaFor(s, tx))
  {
    AppliesAccepted(s, tx);
    HeaderGate(d, tx);
    HeaderPlan(w, d, s, tx);
    hide *;
    HeaderPerformed(d, DeltaFor(s, tx), Frame(w.codec, DeltaFor(s, tx)));
    AppendedIs(w, d.(log := Magic), DeltaFor(s, tx));
  }

  lemma AppendedIs(w: World, d: Disk, delta: ArcaneDelta)
    ensures Appended(w, d, delta) == d.(log := d.log + Frame(w.codec, delta))
  {
    hide Frame;
  }

  lemma HeaderGate(d: Disk, tx: Transaction)
    ensures LinkedGate(d, tx) <==> LinkedGate(d.(log := Magic), tx)
  {
  }

  lemma HeaderPlan(w: World, d: Disk, s: LedgerState, tx: Transaction)
    requires d.log == [] && LinkedGate(d, tx) && |w.codec.encode(DeltaFor(s, tx))| < TWO32
    requires !Duplicate(s, tx.id) && s.lastDeltaSeq < U64_MAX && Accepts(s, tx) && Applies(s, tx) && Fits(s)
    ensures CommitPlan(w, d, s, tx)
            == Plan([WritePending(DeltaFor(s, tx))]
                    + [AppendLog(Magic), AppendLog(Frame(w.codec, DeltaFor(s, tx))), RemovePending],
                    Some(After(s, tx)))
  {
    hide LinkedGate, Duplicate, Accepts, Applies, After, Fits, Frame;
    var start, frame := WritePending(DeltaFor(s, tx)), AppendLog(Frame(w.codec, DeltaFor(s, tx)));
    assert [start] + [AppendLog(Magic)] + [frame] + [RemovePending]
           == [start] + [AppendLog(Magic), frame, RemovePending];
  }

  lemma HeaderPerformed(d: Disk, delta: ArcaneDelta, frame: seq<byte>)
    requires d.log == [] && d.pending.None?
    ensures PerformAll(d, [WritePending(delta)] + [AppendLog(Magic), AppendLog(frame), RemovePending])
            == d.(log := Magic + frame)
  {
    hide PerformAll;
    PerformConcat(d, [WritePending(delta)], [AppendLog(Magic), AppendLog(frame), RemovePending]);
    OneOp(d, WritePending(delta));
    ThreeOps(Perform(d, WritePending(delta)), AppendLog(Magic), AppendLog(frame), RemovePending);
    assert [] + Magic == Magic;
  }

  /** A commit to an empty journal that is cut off inside the header leaves a world that never loads, though its
      record is durable. */
  lemma HeaderCutStrands(w: World, d: Disk, s: LedgerState, tx: Transaction, k: nat)
    requires d.log == [] && Clean(w, d.(log := Magic), [], s) && k < |Magic|
    requires TakesEffect(s, tx) && Fits(s) && tx.linked == [] && Readable(w, d.(log := Magic), DeltaFor(s, tx))
    ensures var cut := d.(pending := Some(DeltaFor(s, tx)), log := Magic[..k]);
            && CrashLeaves(d, CommitPlan(w, d, s, tx).ops, cut)
            && LoadPlan(w, cut).outcome.None? && LoadedDisk(w, cut) == cut
  {
    hide *;
    var headed, delta := d.(log := Magic), DeltaFor(s, tx);
    CleanSnapshot(w, headed, [], s);
    CleanGate(w, headed, [], s, tx);
    ReadableShort(w, headed, delta);
    HeaderProgram(w, d, s, tx);
    CutInHeader(d, delta, AppendLog(Frame(w.codec, delta)), k);
    HeaderlessFails(w, d.(pending := Some(delta), log := Magic[..k]));
  }

  lemma CleanSnapshot(w: World, d: Disk, rs: seq<ArcaneDelta>, s: LedgerState)
    requires Clean(w, d, rs, s)
    ensures Decodes(w, d.snapshot) && w.fingerprint(d.snapshot) == d.manifest
  {
    hide ApplyRecords, Faithful, Log, Decodable, Decodes;
  }

  lemma CutInHeader(d: Disk, delta: ArcaneDelta, frame: DiskOp, k: nat)
    requires d.log == [] && k < |Magic|
    ensures CrashLeaves(d, [WritePending(delta)] + [AppendLog(Magic), frame, RemovePending],
                        d.(pending := Some(delta), log := Magic[..k]))
    ensures !(Magic <= Magic[..k])
  {
    var tail := [AppendLog(Magic), frame, RemovePending];
    var ops := [WritePending(delta)] + tail;
    var started, cut := Perform(d, ops[0]), d.(pending := Some(delta), log := Magic[..k]);
    assert ops[1..] == tail && started == d.(pending := Some(delta));
    assert TornAppend(started, tail[0], cut) by {
      assert [] + Magic[..k] == Magic[..k];
    }
    assert CrashLeaves(started, tail, cut);
  }

  lemma HeaderlessFails(w: World, d: Disk)
    requires Decodes(w, d.snapshot) && w.fingerprint(d.snapshot) == d.manifest && !(Magic <= d.log)
    ensures LoadPlan(w, d) == Plan([], None) && LoadedDisk(w, d) == d
  {
    assert RestoreOps(w, d) == Some([]);
    hide Decodes, RestoreOps;
    assert ReplayOps(w, d).None?;
    NoOps(d);
    assert [] + ReplayPlan(w, d).ops == [];
  }
}
