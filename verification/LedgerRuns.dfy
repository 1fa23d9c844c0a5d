/** Whole runs of the ledger: transactions, retries and operator adjustments in any order. */
module LedgerRuns {
  import opened Prelude
  import opened CurrentUnits
  import opened LedgerModel
  import opened LedgerLaws
  import opened AttributionQueue

  const I128_BOUND: int := 0x8000_0000_0000_0000_0000_0000_0000_0000

  datatype LedgerOp =
    | Transact(tx: Transaction)
    | AdjustDeep(actor: string, development: bool, resonance: Resonance, delta: int)

  /** An id at or below its origin's high-water mark has already been decided. */
  predicate Duplicate(s: LedgerState, id: TransactionId) {
    id.origin in s.highWater && id.sequence <= s.highWater[id.origin]
  }

  predicate AdjustRequested(s: LedgerState, op: LedgerOp)
    requires op.AdjustDeep?
  {
    op.development && !Blank(op.actor) && op.delta != 0 && op.resonance in s.registry && Deep in s.accounts
  }

  ghost predicate AdjustAllowed(s: LedgerState, op: LedgerOp)
    requires op.AdjustDeep?
  {
    && AdjustRequested(s, op)
    && (op.delta > 0 ==> Total(s.accounts[Deep].current) + op.delta <= U64_MAX)
    && (op.delta < 0 ==> -op.delta <= UnitsOf(s.accounts[Deep].current, op.resonance))
    && s.accounts[Deep].version < U64_MAX
    && -I128_BOUND <= s.externalAdjustment + op.delta < I128_BOUND
    && GrandTotal(s.accounts) + op.delta <= U64_MAX
  }

  ghost function Adjusted(s: LedgerState, op: LedgerOp): LedgerState
    requires op.AdjustDeep? && AdjustAllowed(s, op)
  {
    var deep := s.accounts[Deep];
    var units := UnitsOf(deep.current, op.resonance) + op.delta;
    var accounts :=
      s.accounts[Deep := deep.(current := Put(deep.current, op.resonance, units), version := deep.version + 1)];
    s.(accounts := accounts, externalAdjustment := s.externalAdjustment + op.delta,
       lastCleanTotal := GrandTotal(accounts))
  }

  /** Deep's band of the resonance cannot take the change on its own: it is short, or it would overflow. */
  predicate BandBlocked(s: LedgerState, op: LedgerOp)
    requires op.AdjustDeep? && AdjustRequested(s, op)
  {
    var units := UnitsOf(s.accounts[Deep].current, op.resonance) + op.delta;
    units < 0 || (U64_MAX < units && 0 < op.delta)
  }

  /** Deep with its band changed, before anything else is. */
  function ShiftedDeep(s: LedgerState, op: LedgerOp): Account
    requires op.AdjustDeep? && AdjustRequested(s, op) && !BandBlocked(s, op)
  {
    var deep := s.accounts[Deep];
    deep.(current := Put(deep.current, op.resonance, UnitsOf(deep.current, op.resonance) + op.delta))
  }

  /** What the checks after Deep's mixture leave: the version, the external adjustment and the grand total in turn. */
  ghost function CountEnd(t: LedgerState, delta: int): LedgerState
    requires Deep in t.accounts
  {
    var deep := t.accounts[Deep];
    var bumped := t.accounts[Deep := deep.(version := deep.version + 1)];
    if U64_MAX <= deep.version then t
    else if !(-I128_BOUND <= t.externalAdjustment + delta < I128_BOUND) then t.(accounts := bumped)
    else if U64_MAX < GrandTotal(bumped) then t.(accounts := bumped, externalAdjustment := t.externalAdjustment + delta)
    else t.(accounts := bumped, externalAdjustment := t.externalAdjustment + delta,
            lastCleanTotal := GrandTotal(bumped))
  }

  /** What an adjustment leaves in memory, whether or not it succeeds: each check is made after the changes before
      it. */
  ghost function AdjustEnd(s: LedgerState, op: LedgerOp): LedgerState
    requires op.AdjustDeep?
  {
    if !AdjustRequested(s, op) || BandBlocked(s, op) then s
    else
      var shifted := s.(accounts := s.accounts[Deep := ShiftedDeep(s, op)]);
      if 0 < op.delta && U64_MAX < Total(s.accounts[Deep].current) + op.delta then shifted
      else CountEnd(shifted, op.delta)
  }

  ghost predicate TakesEffect(s: LedgerState, tx: Transaction) {
    !Duplicate(s, tx.id) && s.lastDeltaSeq < U64_MAX && Applies(s, tx)
  }

  /** One call. A rejected or repeated transaction leaves the ledger alone; a run contains only
      operator adjustments that succeed. */
  ghost function Step(s: LedgerState, op: LedgerOp): Option<LedgerState> {
    match op
    case Transact(tx) => Some(if TakesEffect(s, tx) then After(s, tx) else s)
    case AdjustDeep(_, _, _, _) => if AdjustAllowed(s, op) then Some(Adjusted(s, op)) else None
  }

  ghost function Run(s: LedgerState, ops: seq<LedgerOp>): Option<LedgerState> {
    if ops == [] then Some(s)
    else
      match Run(s, ops[..|ops| - 1])
      case None => None
      case Some(t) => Step(t, ops[|ops| - 1])
  }

  // ----- the invariant of every reachable ledger -----

  ghost predicate Conserved(s: LedgerState) {
    GrandTotal(s.accounts) == s.genesisTotal + s.externalAdjustment
  }

  /** The receipt map is indexed by exactly the ids in the bounded, duplicate-free queue, and no
      queued id lies above its origin's high-water mark. */
  ghost predicate ReceiptsIndexed(s: LedgerState) {
    && |s.receiptOrder| <= MAX_TRANSACTION_HISTORY
    && (forall i, j | 0 <= i < j < |s.receiptOrder| :: s.receiptOrder[i] != s.receiptOrder[j])
    && (forall id :: id in s.receipts <==> id in s.receiptOrder)
    && (forall id | id in s.receipts :: s.receipts[id].id == id && s.receipts[id].deltaSequence <= s.lastDeltaSeq)
    && (forall id | id in s.receiptOrder :: Duplicate(s, id))
  }

  ghost predicate Sound(s: LedgerState) {
    Fits(s) && Conserved(s) && ReceiptsIndexed(s) && Backed(s)
  }

  lemma AdjustedTotals(s: LedgerState, op: LedgerOp, r: Resonance)
    requires op.AdjustDeep? && AdjustAllowed(s, op)
    ensures GrandTotal(Adjusted(s, op).accounts) == GrandTotal(s.accounts) + op.delta
    ensures BandTotal(Adjusted(s, op).accounts, r)
            == BandTotal(s.accounts, r) + if r == op.resonance then op.delta else 0
  {
    hide Put, Total;
    var deep := s.accounts[Deep];
    var units := UnitsOf(deep.current, op.resonance) + op.delta;
    var next := deep.(current := Put(deep.current, op.resonance, units), version := deep.version + 1);
    TotalPut(deep.current, op.resonance, units);
    SumMapPut(s.accounts, AccountWeight(), Deep, next);
    SumMapPut(s.accounts, BandWeight(r), Deep, next);
  }

  /** An adjustment leaves the ledger alone exactly when it is refused outright or its band cannot take the change. */
  lemma AdjustKeepsLedgerIff(s: LedgerState, op: LedgerOp)
    requires op.AdjustDeep?
    ensures AdjustEnd(s, op) == s <==> !AdjustRequested(s, op) || BandBlocked(s, op)
  {
    if AdjustRequested(s, op) && !BandBlocked(s, op) {
      var deep := s.accounts[Deep];
      assert UnitsOf(ShiftedDeep(s, op).current, op.resonance) == UnitsOf(deep.current, op.resonance) + op.delta;
      assert AdjustEnd(s, op).accounts[Deep].current == ShiftedDeep(s, op).current;
      hide Put, Total, GrandTotal;
    }
  }

  /** An allowed adjustment ends as the run says, and keeps conservation if it held. */
  lemma AllowedEnds(s: LedgerState, op: LedgerOp)
    requires op.AdjustDeep? && AdjustAllowed(s, op)
    ensures AdjustEnd(s, op) == Adjusted(s, op) && !BandBlocked(s, op)
    ensures Conserved(AdjustEnd(s, op)) <==> Conserved(s)
  {
    hide *;
    AllowedUnblocked(s, op);
    AdjustedTotals(s, op, Root);
    AllowedFits(s, op);
    EndsAdjusted(s, op);
    AdjustedConserves(s, op);
  }

  lemma AllowedFits(s: LedgerState, op: LedgerOp)
    requires op.AdjustDeep? && AdjustAllowed(s, op)
    ensures AdjustRequested(s, op) && GrandTotal(s.accounts) + op.delta <= U64_MAX
  {
    hide GrandTotal, Total, Blank;
  }

  lemma EndsAdjusted(s: LedgerState, op: LedgerOp)
    requires op.AdjustDeep? && AdjustAllowed(s, op) && AdjustRequested(s, op) && !BandBlocked(s, op)
    requires GrandTotal(Adjusted(s, op).accounts) <= U64_MAX
    ensures AdjustEnd(s, op) == Adjusted(s, op)
  {
    hide *;
    AdjustedForm(s, op);
    AllowedParts(s, op);
    EndsCounted(s, op);
  }

  lemma AdjustedForm(s: LedgerState, op: LedgerOp)
    requires op.AdjustDeep? && AdjustAllowed(s, op) && AdjustRequested(s, op) && !BandBlocked(s, op)
    ensures var deep := ShiftedDeep(s, op);
            var bumped := s.accounts[Deep := deep][Deep := deep.(version := deep.version + 1)];
            Adjusted(s, op)
            == s.(accounts := bumped, externalAdjustment := s.externalAdjustment + op.delta,
                  lastCleanTotal := GrandTotal(bumped))
  {
    hide Put, GrandTotal, AdjustAllowed, BandBlocked;
    var deep := ShiftedDeep(s, op);
    assert s.accounts[Deep := deep][Deep := deep.(version := deep.version + 1)] == Adjusted(s, op).accounts;
  }

  lemma AllowedParts(s: LedgerState, op: LedgerOp)
    requires op.AdjustDeep? && AdjustAllowed(s, op) && AdjustRequested(s, op) && !BandBlocked(s, op)
    ensures 0 < op.delta ==> Total(s.accounts[Deep].current) + op.delta <= U64_MAX
    ensures ShiftedDeep(s, op).version == s.accounts[Deep].version < U64_MAX
    ensures -I128_BOUND <= s.externalAdjustment + op.delta < I128_BOUND
  {
    hide Put, GrandTotal, Total, BandBlocked, AdjustRequested;
  }

  lemma EndsCounted(s: LedgerState, op: LedgerOp)
    requires op.AdjustDeep? && AdjustRequested(s, op) && !BandBlocked(s, op)
    requires 0 < op.delta ==> Total(s.accounts[Deep].current) + op.delta <= U64_MAX
    requires ShiftedDeep(s, op).version < U64_MAX && -I128_BOUND <= s.externalAdjustment + op.delta < I128_BOUND
    requires var deep := ShiftedDeep(s, op);
             GrandTotal(s.accounts[Deep := deep][Deep := deep.(version := deep.version + 1)]) <= U64_MAX
    ensures var deep := ShiftedDeep(s, op);
            var bumped := s.accounts[Deep := deep][Deep := deep.(version := deep.version + 1)];
            AdjustEnd(s, op)
            == s.(accounts := bumped, externalAdjustment := s.externalAdjustment + op.delta,
                  lastCleanTotal := GrandTotal(bumped))
  {
    hide Total, GrandTotal, BandBlocked, AdjustRequested, ShiftedDeep;
  }

  lemma AdjustedConserves(s: LedgerState, op: LedgerOp)
    requires op.AdjustDeep? && AdjustAllowed(s, op)
    requires GrandTotal(Adjusted(s, op).accounts) == GrandTotal(s.accounts) + op.delta
    ensures Conserved(Adjusted(s, op)) <==> Conserved(s)
  {
    hide Put, Total, GrandTotal, AdjustAllowed;
  }

  lemma AllowedUnblocked(s: LedgerState, op: LedgerOp)
    requires op.AdjustDeep? && AdjustAllowed(s, op)
    ensures !BandBlocked(s, op)
  {
    hide Total, GrandTotal, Blank;
    UnitsWithinTotal(s.accounts[Deep].current, op.resonance);
  }

  function FullDeep(): LedgerState {
    LedgerState(U64_MAX, {Root, Tide}, map[Deep := Account(Single(Root, U64_MAX), 1, None)], 0, map[], map[], [], 0,
                U64_MAX, [])
  }

  /** One unit too many for Deep's total, in a band that has room: the adjustment fails, and Deep holds the unit. */
  lemma FailedAdjustChangesDeep()
    ensures var s, op := FullDeep(), AdjustDeep("operator", true, Tide, 1);
            && Sound(s) && AdjustRequested(s, op) && !AdjustAllowed(s, op)
            && UnitsOf(AdjustEnd(s, op).accounts[Deep].current, Tide) == 1
            && !Conserved(AdjustEnd(s, op))
  {
    var s, op := FullDeep(), AdjustDeep("operator", true, Tide, 1);
    var deep := s.accounts[Deep];
    TotalSingle(Root, U64_MAX);
    SumMapPick(s.accounts, AccountWeight(), Deep);
    assert s.accounts - {Deep} == map[];
    GenesisSound(U64_MAX, s.registry, s.accounts);
    assert Root != Tide && UnitsOf(deep.current, Tide) == 0;
    hide *;
    FullDeepEnd(s, op);
  }

  lemma FullDeepEnd(s: LedgerState, op: LedgerOp)
    requires s == FullDeep() && op == AdjustDeep("operator", true, Tide, 1)
    requires Total(s.accounts[Deep].current) == U64_MAX && GrandTotal(s.accounts) == U64_MAX
    requires UnitsOf(s.accounts[Deep].current, Tide) == 0
    ensures AdjustRequested(s, op) && !AdjustAllowed(s, op)
    ensures UnitsOf(AdjustEnd(s, op).accounts[Deep].current, Tide) == 1 && !Conserved(AdjustEnd(s, op))
  {
    assert op.actor[0] == 'o' && op.actor[0] in op.actor && !WhiteSpace('o');
    hide Total, GrandTotal, Blank, Put;
    var deep := s.accounts[Deep];
    TotalPut(deep.current, Tide, 1);
    SumMapPut(s.accounts, AccountWeight(), Deep, ShiftedDeep(s, op));
  }

  /** `ReceiptsIndexed` for the parts it speaks of. */
  ghost predicate Indexed(receipts: map<TransactionId, Receipt>, order: seq<TransactionId>, high: map<nat, nat>,
                          last: nat)
  {
    && (forall i, j | 0 <= i < j < |order| :: order[i] != order[j])
    && (forall id :: id in receipts <==> id in order)
    && (forall id | id in receipts :: receipts[id].id == id && receipts[id].deltaSequence <= last)
    && (forall id | id in order :: id.origin in high && id.sequence <= high[id.origin])
  }

  lemma PushIndexed(receipts: map<TransactionId, Receipt>, order: seq<TransactionId>, high: map<nat, nat>, last: nat,
                    receipt: Receipt, high': map<nat, nat>)
    requires Indexed(receipts, order, high, last)
    requires receipt.deltaSequence == last + 1
    requires !(receipt.id.origin in high && receipt.id.sequence <= high[receipt.id.origin])
    requires high' == high[receipt.id.origin := receipt.id.sequence]
    ensures Indexed(receipts[receipt.id := receipt], order + [receipt.id], high', last + 1)
  {
    var id := receipt.id;
    assert forall i | 0 <= i < |order| :: order[i] in order && order[i] != id;
    forall k | k in order + [id] ensures k.origin in high' && k.sequence <= high'[k.origin] {
      assert k in order || k == id;
    }
  }

  lemma AppliedHistory(s: LedgerState, tx: Transaction)
    requires Applies(s, tx)
    ensures var t := After(s, tx);
            var receipt := ReceiptFor(s, tx, s.lastDeltaSeq + 1);
            && t.lastDeltaSeq == s.lastDeltaSeq + 1
            && t.highWater == s.highWater[tx.id.origin := tx.id.sequence]
            && t.receipts == EvictedReceipts(s.receipts[tx.id := receipt], s.receiptOrder + [tx.id])
            && t.receiptOrder == KeepNewest(s.receiptOrder + [tx.id], MAX_TRANSACTION_HISTORY)
  {
    hide Moved, Settle, Provenance, EvictedReceipts, KeepNewest, ReceiptFor, ReadsNameTouched, ReadsCurrent,
         Authorized, Balanced, Registered, DebitAvailable, CreditAllowed, VersionsBelowMaximum, OriginFits, Blank,
         LinkedWellFormed;
  }

  lemma AppliedReceipts(s: LedgerState, tx: Transaction)
    requires ReceiptsIndexed(s) && !Duplicate(s, tx.id) && Applies(s, tx)
    ensures ReceiptsIndexed(After(s, tx))
  {
    hide After, Applies, EvictedReceipts, Touched;
    var receipt := ReceiptFor(s, tx, s.lastDeltaSeq + 1);
    AppliedHistory(s, tx);
    PushIndexed(s.receipts, s.receiptOrder, s.highWater, s.lastDeltaSeq, receipt, After(s, tx).highWater);
    EvictIndexed(s.receipts[tx.id := receipt], s.receiptOrder + [tx.id], After(s, tx).highWater, s.lastDeltaSeq + 1);
  }

  lemma EvictIndexed(receipts: map<TransactionId, Receipt>, order: seq<TransactionId>, high: map<nat, nat>, last: nat)
    requires Indexed(receipts, order, high, last)
    ensures Indexed(EvictedReceipts(receipts, order), KeepNewest(order, MAX_TRANSACTION_HISTORY), high, last)
  {
    EvictionExact(receipts, order);
    forall id | id in KeepNewest(order, MAX_TRANSACTION_HISTORY) ensures id in order {}
  }

  /** A transaction that is applied is remembered, as the newest of at most 4,096, with the delta it became and the next
      version of every owner it touched; the receipts that stay are what they were. */
  lemma AppliedRemembers(s: LedgerState, tx: Transaction)
    requires ReceiptsIndexed(s) && !Duplicate(s, tx.id) && Applies(s, tx)
    ensures var t, all := After(s, tx), s.receiptOrder + [tx.id];
            && t.receiptOrder == (if |all| <= 4_096 then all else all[|all| - 4_096..])
            && tx.id in t.receipts
            && t.receipts[tx.id]
               == Receipt(tx.id, s.lastDeltaSeq + 1, map o | o in Touched(tx) :: VersionOf(s.accounts, o) + 1)
            && (forall id :: id in t.receipts <==> id in t.receiptOrder)
            && forall id | id in t.receipts && id != tx.id :: id in s.receipts && t.receipts[id] == s.receipts[id]
  {
    hide *;
    AppliedHistory(s, tx);
    AppliedReceipts(s, tx);
    ReceiptIs(s, tx, s.lastDeltaSeq + 1);
    ReceiptsAre(s);
    ReceiptsAre(After(s, tx));
    NewestKept(s.receipts, s.receiptOrder, tx.id, ReceiptFor(s, tx, s.lastDeltaSeq + 1));
  }

  lemma ReceiptsAre(s: LedgerState)
    requires ReceiptsIndexed(s)
    ensures forall id :: id in s.receipts <==> id in s.receiptOrder
  {
    hide Duplicate;
  }

  /** The newest receipt stays, and the others stay as they were or go. */
  lemma NewestKept(receipts: map<TransactionId, Receipt>, order: seq<TransactionId>, id: TransactionId,
                   receipt: Receipt)
    ensures var all, kept := order + [id], EvictedReceipts(receipts[id := receipt], order + [id]);
            var newest := KeepNewest(all, MAX_TRANSACTION_HISTORY);
            && newest == (if |all| <= 4_096 then all else all[|all| - 4_096..]) && id in newest
            && (id in kept ==> kept[id] == receipt)
            && forall other | other in kept && other != id :: other in receipts && kept[other] == receipts[other]
  {
    var all := order + [id];
    assert all[|all| - 1] == id;
    var newest := KeepNewest(all, MAX_TRANSACTION_HISTORY);
    assert newest[|newest| - 1] == id;
  }

  /** The receipt of a transaction names the next version of every touched owner. */
  lemma ReceiptIs(s: LedgerState, tx: Transaction, sequence: nat)
    ensures ReceiptFor(s, tx, sequence)
            == Receipt(tx.id, sequence, map o | o in Touched(tx) :: VersionOf(s.accounts, o) + 1)
  {
    hide Touched, VersionOf;
  }

  /** An adjustment changes one band of Deep, its version and the count of outside changes, and nothing else. */
  lemma AdjustedExact(s: LedgerState, op: LedgerOp)
    requires op.AdjustDeep? && AdjustAllowed(s, op)
    ensures var t := Adjusted(s, op);
            && Deep in s.accounts && t.accounts.Keys == s.accounts.Keys
            && (forall o | o in s.accounts && o != Deep :: t.accounts[o] == s.accounts[o])
            && t.accounts[Deep].version == s.accounts[Deep].version + 1
            && t.accounts[Deep].contentId == s.accounts[Deep].contentId
            && (forall r ::
                  UnitsOf(t.accounts[Deep].current, r)
                  == UnitsOf(s.accounts[Deep].current, r) + if r == op.resonance then op.delta else 0)
            && t.externalAdjustment == s.externalAdjustment + op.delta
            && t == s.(accounts := t.accounts, externalAdjustment := t.externalAdjustment,
                       lastCleanTotal := GrandTotal(t.accounts))
  {
    hide Put, Total, GrandTotal, Blank;
  }

  lemma EvictionExact(receipts: map<TransactionId, Receipt>, order: seq<TransactionId>)
    requires forall i, j | 0 <= i < j < |order| :: order[i] != order[j]
    requires forall id :: id in receipts <==> id in order
    ensures forall id ::
              id in EvictedReceipts(receipts, order) <==> id in KeepNewest(order, MAX_TRANSACTION_HISTORY)
  {
    var cut := Excess(order, MAX_TRANSACTION_HISTORY);
    assert order == order[..cut] + order[cut..];
    forall id ensures id in EvictedReceipts(receipts, order) <==> id in order[cut..] {
      assert id in order <==> id in order[..cut] || id in order[cut..];
    }
  }

  lemma StepSound(s: LedgerState, op: LedgerOp)
    requires Sound(s) && Step(s, op).Some?
    ensures Sound(Step(s, op).value)
  {
    hide Moved, Settle, Accepts, Put, Provenance, Total;
    match op
    case Transact(tx) =>
      if TakesEffect(s, tx) {
        AppliedConserves(s, tx, Root);
        AppliedReceipts(s, tx);
        AppliedBacked(s, tx);
      }
    case AdjustDeep(_, _, _, _) =>
      AdjustedTotals(s, op, Root);
      var t := Adjusted(s, op);
      forall o: Owner | o.Dross? ensures CurrentOf(t.accounts, o) == CurrentOf(s.accounts, o) {}
  }

  /** Every reachable ledger conserves, fits, indexes its receipts and backs its provenance. */
  lemma {:induction false} RunSound(s: LedgerState, ops: seq<LedgerOp>)
    requires Sound(s) && Run(s, ops).Some?
    ensures Sound(Run(s, ops).value)
  {
    hide Sound, Step;
    if ops != [] {
      RunSound(s, ops[..|ops| - 1]);
      StepSound(Run(s, ops[..|ops| - 1]).value, ops[|ops| - 1]);
    }
  }

  /** A world starts with no history: any conserving account table begins a sound run. */
  lemma GenesisSound(genesis: nat, registry: set<Resonance>, accounts: Accounts)
    requires GrandTotal(accounts) == genesis <= U64_MAX
    ensures Sound(LedgerState(genesis, registry, accounts, 0, map[], map[], [], 0, genesis, []))
  {
  }

  // ----- counting -----

  /** How many transactions of one origin took effect during a run. */
  ghost function AppliedOf(s: LedgerState, ops: seq<LedgerOp>, origin: nat): nat {
    if ops == [] then 0
    else
      var front, op := ops[..|ops| - 1], ops[|ops| - 1];
      AppliedOf(s, front, origin)
      + if Run(s, front).Some? && op.Transact? && op.tx.id.origin == origin && TakesEffect(Run(s, front).value, op.tx)
        then 1 else 0
  }

  ghost function AppliedInAll(s: LedgerState, ops: seq<LedgerOp>): nat {
    if ops == [] then 0
    else
      var front, op := ops[..|ops| - 1], ops[|ops| - 1];
      AppliedInAll(s, front)
      + if Run(s, front).Some? && op.Transact? && TakesEffect(Run(s, front).value, op.tx) then 1 else 0
  }

  /** High-water marks count each origin's applied transactions and the delta sequence counts all. */
  lemma {:induction false} RunCounts(s: LedgerState, ops: seq<LedgerOp>, origin: nat)
    requires Run(s, ops).Some?
    ensures HighWater(Run(s, ops).value, origin) == HighWater(s, origin) + AppliedOf(s, ops, origin)
    ensures Run(s, ops).value.lastDeltaSeq == s.lastDeltaSeq + AppliedInAll(s, ops)
  {
    hide Moved, Settle, Provenance, ReadsNameTouched, ReadsCurrent, Authorized, Balanced, Registered, DebitAvailable,
         CreditAllowed, AdjustAllowed, GrandTotal;
    if ops != [] {
      RunCounts(s, ops[..|ops| - 1], origin);
    }
  }

  /** Submitting a transaction again after it took effect changes nothing, whatever came between. */
  lemma RetryChangesNothing(s: LedgerState, tx: Transaction, between: seq<LedgerOp>)
    requires TakesEffect(s, tx) && Run(After(s, tx), between).Some?
    ensures Duplicate(Run(After(s, tx), between).value, tx.id)
    ensures Step(Run(After(s, tx), between).value, Transact(tx)) == Some(Run(After(s, tx), between).value)
  {
    hide Moved, Settle, Provenance, ReadsNameTouched, ReadsCurrent, Authorized, Balanced, Registered, DebitAvailable,
         CreditAllowed, AdjustAllowed, GrandTotal, Run;
    RunCounts(After(s, tx), between, tx.id.origin);
    RunKeepsOrigin(After(s, tx), between, tx.id.origin);
  }

  lemma {:induction false} RunKeepsOrigin(s: LedgerState, ops: seq<LedgerOp>, origin: nat)
    requires Run(s, ops).Some? && origin in s.highWater
    ensures origin in Run(s, ops).value.highWater
  {
    hide Moved, Settle, Provenance, Accepts, AdjustAllowed, GrandTotal;
    if ops != [] {
      RunKeepsOrigin(s, ops[..|ops| - 1], origin);
    }
  }

  // ----- widths -----

  /** Every counter of the ledger in its width and no more origins than are kept. */
  ghost predicate WithinWidths(s: LedgerState) {
    && (forall o | o in s.accounts :: s.accounts[o].version <= U64_MAX)
    && (forall origin | origin in s.highWater :: s.highWater[origin] <= U64_MAX)
    && |s.highWater| <= MAX_TRANSACTION_HISTORY && s.lastDeltaSeq <= U64_MAX
  }

  /** No run carries a version or a sequence over, or remembers more origins than it may. */
  lemma {:induction false} RunStaysInWidth(s: LedgerState, ops: seq<LedgerOp>)
    requires WithinWidths(s) && Run(s, ops).Some?
    ensures WithinWidths(Run(s, ops).value)
  {
    hide WithinWidths, Step;
    if ops != [] {
      RunStaysInWidth(s, ops[..|ops| - 1]);
      StepStaysInWidth(Run(s, ops[..|ops| - 1]).value, ops[|ops| - 1]);
    }
  }

  lemma StepStaysInWidth(s: LedgerState, op: LedgerOp)
    requires WithinWidths(s) && Step(s, op).Some?
    ensures WithinWidths(Step(s, op).value)
  {
    match op
    case Transact(tx) =>
      if TakesEffect(s, tx) {
        VersionsStayInWidth(s, tx);
        MarksStayInWidth(s, tx);
      }
    case AdjustDeep(_, _, _, _) =>
  }

  lemma VersionsStayInWidth(s: LedgerState, tx: Transaction)
    requires WithinWidths(s) && Applies(s, tx)
    ensures forall o | o in After(s, tx).accounts :: After(s, tx).accounts[o].version <= U64_MAX
  {
    assert VersionsBelowMaximum(s.accounts, Touched(tx));
    hide Applies, After, Touched, Plus, Owned;
    forall o | o in After(s, tx).accounts ensures After(s, tx).accounts[o].version <= U64_MAX {
      AppliedBalances(s, tx, o);
    }
  }

  lemma MarksStayInWidth(s: LedgerState, tx: Transaction)
    requires WithinWidths(s) && Applies(s, tx)
    ensures var marks := After(s, tx).highWater;
            |marks| <= MAX_TRANSACTION_HISTORY && forall origin | origin in marks :: marks[origin] <= U64_MAX
  {
    hide Applies, After;
    AppliedHistory(s, tx);
    MarksContinue(s, tx);
    OneMoreMark(s.highWater, tx.id.origin, tx.id.sequence);
  }

  lemma MarksContinue(s: LedgerState, tx: Transaction)
    requires Applies(s, tx)
    ensures tx.id.sequence <= U64_MAX && (tx.id.origin in s.highWater || |s.highWater| < MAX_TRANSACTION_HISTORY)
  {
    hide Moved, VersionsBelowMaximum, ReadsNameTouched, ReadsCurrent, Authorized, Balanced, Registered, DebitAvailable,
         CreditAllowed, Blank, LinkedWellFormed;
  }

  lemma OneMoreMark(marks: map<nat, nat>, origin: nat, mark: nat)
    ensures |marks[origin := mark]| == if origin in marks then |marks| else |marks| + 1
  {
    assert marks[origin := mark].Keys == marks.Keys + {origin};
    assert |marks[origin := mark]| == |marks[origin := mark].Keys| && |marks| == |marks.Keys|;
  }

  // ----- resonances -----

  /** What a run declares it does to one resonance: transforms of applied transactions, plus adjustments. */
  ghost function DeclaredNet(s: LedgerState, ops: seq<LedgerOp>, r: Resonance): int {
    if ops == [] then 0
    else
      var front, op := ops[..|ops| - 1], ops[|ops| - 1];
      DeclaredNet(s, front, r)
      + match op
        case Transact(tx) =>
          if Run(s, front).Some? && TakesEffect(Run(s, front).value, tx) then TransformNet(tx.transforms, r) else 0
        case AdjustDeep(_, _, resonance, delta) => if resonance == r then delta else 0
  }

  /** A resonance's planet-wide total changes by the declared transforms and adjustments, never otherwise. */
  lemma {:induction false} RunResonance(s: LedgerState, ops: seq<LedgerOp>, r: Resonance)
    requires Run(s, ops).Some?
    ensures BandTotal(Run(s, ops).value.accounts, r) == BandTotal(s.accounts, r) + DeclaredNet(s, ops, r)
  {
    hide After, Adjusted, Applies, AdjustAllowed, TransformNet;
    if ops != [] {
      var front, op := ops[..|ops| - 1], ops[|ops| - 1];
      RunResonance(s, front, r);
      var t := Run(s, front).value;
      match op
      case Transact(tx) =>
        if TakesEffect(t, tx) {
          AppliedConserves(t, tx, r);
        }
      case AdjustDeep(_, _, _, _) =>
        AdjustedTotals(t, op, r);
    }
  }
}
