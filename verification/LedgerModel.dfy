/** The Current ledger as a value: accounts, transactions, and what one transaction does to them. */
module LedgerModel {
  import opened Prelude
  import opened CurrentUnits

  const MAX_TRANSACTION_ACCOUNTS: nat := 128
  const MAX_TRANSACTION_HISTORY: nat := 4_096
  const MAX_PENDING_DROSS_ATTRIBUTION: nat := 4_096
  const MAX_LINKED_MUTATIONS: nat := 16
  const FULL_CONFIDENCE: nat := 1_000

  // ----- identities -----

  datatype AtlasPos = AtlasPos(face: nat, u: nat, v: nat)

  datatype BlockPos = BlockPos(face: nat, u: nat, y: nat, v: nat)

  datatype DrossMedium = Soil | Water | Air

  datatype Owner =
    | Deep
    | Ambient(region: AtlasPos)
    | Heart(country: nat)
    | Block(pos: BlockPos, generation: nat)
    | Item(id: nat)
    | Mob(id: nat)
    | Player(player: nat)
    | Working(id: nat)
    | Alchemy(id: nat)
    | Dross(region: AtlasPos, medium: DrossMedium)
    | Scar(id: nat)
    | Geography
    | ItemDross(id: nat)
    | AlchemyDross(id: nat)

  datatype Account = Account(current: Current, version: nat, contentId: Option<string>)

  type Accounts = map<Owner, Account>

  // ----- transactions -----

  datatype AccountRead = AccountRead(owner: Owner, expectedVersion: nat)

  datatype ArcaneMove = ArcaneMove(owner: Owner, current: Current, contentId: Option<string>)

  datatype ResonanceTransform = ResonanceTransform(from: Resonance, to: Resonance, units: nat)

  datatype LinkedMutation =
    LinkedMutation(subsystem: string, operationId: nat, beforeChecksum: nat, afterChecksum: nat)

  datatype Authority =
    | System
    | PlayerAuthority(player: nat)
    | ModAuthority(modId: string)
    | Operator(actor: string, development: bool)
    | SystemForPlayer(player: nat)

  datatype TransactionId = TransactionId(origin: nat, sequence: nat)

  datatype Transaction = Transaction(
    id: TransactionId,
    readSet: seq<AccountRead>,
    debits: seq<ArcaneMove>,
    credits: seq<ArcaneMove>,
    transforms: seq<ResonanceTransform>,
    authority: Authority,
    reason: string,
    contentId: string,
    linked: seq<LinkedMutation>)

  datatype Receipt = Receipt(id: TransactionId, deltaSequence: nat, touchedVersions: map<Owner, nat>)

  /** One entry of the provenance queue for environmental dross. */
  datatype Attribution = Attribution(owner: Owner, contribution: Contribution)

  datatype Contribution = Contribution(
    actor: Option<nat>, sourceClass: string, units: nat, firstStep: nat, lastStep: nat, confidencePermille: nat)

  datatype LedgerState = LedgerState(
    genesisTotal: nat,
    registry: set<Resonance>,
    accounts: Accounts,
    lastDeltaSeq: nat,
    highWater: map<nat, nat>,
    receipts: map<TransactionId, Receipt>,
    receiptOrder: seq<TransactionId>,
    externalAdjustment: int,
    lastCleanTotal: nat,
    attribution: seq<Attribution>)

  // ----- reading the accounts -----

  function CurrentOf(a: Accounts, o: Owner): Current {
    if o in a then a[o].current else Empty
  }

  function VersionOf(a: Accounts, o: Owner): nat {
    if o in a then a[o].version else 0
  }

  function HighWater(s: LedgerState, origin: nat): nat {
    if origin in s.highWater then s.highWater[origin] else 0
  }

  ghost function BandWeight(r: Resonance): Account -> nat {
    (a: Account) => UnitsOf(a.current, r)
  }

  ghost function AccountWeight(): Account -> nat {
    (a: Account) => Total(a.current)
  }

  /** Planet-wide units of one resonance. */
  ghost function BandTotal(a: Accounts, r: Resonance): nat {
    SumMap(a, BandWeight(r))
  }

  /** Planet-wide units of everything. */
  ghost function GrandTotal(a: Accounts): nat {
    SumMap(a, AccountWeight())
  }

  // ----- what a list of movements amounts to -----

  function Mixture(ms: seq<ArcaneMove>): Current {
    if ms == [] then Empty else Plus(Mixture(ms[..|ms| - 1]), ms[|ms| - 1].current)
  }

  /** The part of a list of movements that names one owner. */
  function Owned(ms: seq<ArcaneMove>, o: Owner): Current {
    if ms == [] then Empty
    else
      var rest := Owned(ms[..|ms| - 1], o);
      if ms[|ms| - 1].owner == o then Plus(rest, ms[|ms| - 1].current) else rest
  }

  function Owners(ms: seq<ArcaneMove>): set<Owner> {
    set m | m in ms :: m.owner
  }

  function Touched(tx: Transaction): set<Owner> {
    Owners(tx.debits) + Owners(tx.credits)
  }

  function TransformStep(c: Current, t: ResonanceTransform): Current
    requires t.units <= UnitsOf(c, t.from)
  {
    Plus(Put(c, t.from, UnitsOf(c, t.from) - t.units), Single(t.to, t.units))
  }

  /** The mixture after the declared relabellings, when every one of them is possible. */
  function Transformed(c: Current, ts: seq<ResonanceTransform>): Option<Current> {
    if ts == [] then Some(c)
    else
      var t := ts[|ts| - 1];
      match Transformed(c, ts[..|ts| - 1])
      case None => None
      case Some(d) =>
        if t.units == 0 || t.from == t.to || UnitsOf(d, t.from) < t.units then None
        else Some(TransformStep(d, t))
  }

  /** Units the declared transforms add to (or, when negative, remove from) one resonance. */
  function TransformNet(ts: seq<ResonanceTransform>, r: Resonance): int {
    if ts == [] then 0
    else
      var t := ts[|ts| - 1];
      TransformNet(ts[..|ts| - 1], r)
      + (if t.to == r then t.units as int else 0) - (if t.from == r then t.units as int else 0)
  }

  // ----- when a transaction is accepted -----

  predicate WhiteSpace(c: char) {
    || '\t' <= c <= '\r' || c == ' ' || c == '\U{85}' || c == '\U{A0}' || c == '\U{1680}'
    || '\U{2000}' <= c <= '\U{200A}' || c == '\U{2028}' || c == '\U{2029}' || c == '\U{202F}'
    || c == '\U{205F}' || c == '\U{3000}'
  }

  predicate Blank(text: string) {
    forall c | c in text :: WhiteSpace(c)
  }

  predicate SequenceContinues(s: LedgerState, id: TransactionId) {
    HighWater(s, id.origin) < U64_MAX && id.sequence == HighWater(s, id.origin) + 1
  }

  predicate OriginFits(s: LedgerState, id: TransactionId) {
    id.origin in s.highWater || |s.highWater| < MAX_TRANSACTION_HISTORY
  }

  /** The read set names every touched owner exactly once. */
  ghost predicate ReadsNameTouched(tx: Transaction) {
    && |tx.readSet| == |Touched(tx)|
    && (forall i, j | 0 <= i < j < |tx.readSet| :: tx.readSet[i].owner != tx.readSet[j].owner)
    && (forall o | o in Touched(tx) :: exists i :: 0 <= i < |tx.readSet| && tx.readSet[i].owner == o)
  }

  ghost predicate ReadsCurrent(s: LedgerState, tx: Transaction) {
    forall i | 0 <= i < |tx.readSet| && tx.readSet[i].owner in Touched(tx) ::
      tx.readSet[i].expectedVersion == VersionOf(s.accounts, tx.readSet[i].owner)
  }

  predicate Permits(s: LedgerState, authority: Authority, o: Owner, creditOnly: bool) {
    match authority
    case System => true
    case SystemForPlayer(_) => true
    case PlayerAuthority(player) => creditOnly || o == Player(player)
    case ModAuthority(modId) =>
      && o.Working?
      && !Blank(modId)
      && ((creditOnly && o !in s.accounts)
          || (o in s.accounts && s.accounts[o].contentId == Some("mod:" + modId)))
    case Operator(actor, development) => development && !Blank(actor)
  }

  predicate MayTouch(s: LedgerState, tx: Transaction, o: Owner) {
    Permits(s, tx.authority, o, o !in Owners(tx.debits))
  }

  ghost predicate Authorized(s: LedgerState, tx: Transaction) {
    forall o | o in Touched(tx) :: MayTouch(s, tx, o)
  }

  /** Each debit on its own is available; several debits of one owner are not added up here. */
  ghost predicate DebitAvailable(s: LedgerState, m: ArcaneMove) {
    && Total(m.current) <= U64_MAX
    && m.current != Empty
    && m.owner in s.accounts
    && Covers(s.accounts[m.owner].current, m.current)
  }

  ghost predicate CreditAllowed(s: LedgerState, tx: Transaction, m: ArcaneMove) {
    && Total(m.current) <= U64_MAX
    && m.current != Empty
    && (m.owner in s.accounts && m.contentId.Some? && s.accounts[m.owner].contentId != m.contentId ==>
          Total(Owned(tx.debits, m.owner)) <= U64_MAX
          && Owned(tx.debits, m.owner) == s.accounts[m.owner].current)
  }

  ghost predicate Balanced(tx: Transaction) {
    && Total(Mixture(tx.debits)) <= U64_MAX
    && Total(Mixture(tx.credits)) <= U64_MAX
    && Transformed(Mixture(tx.debits), tx.transforms) == Some(Mixture(tx.credits))
  }

  ghost predicate Registered(s: LedgerState, tx: Transaction) {
    Mixture(tx.debits).parts.Keys + Mixture(tx.credits).parts.Keys <= s.registry
  }

  predicate LinkedWellFormed(tx: Transaction) {
    && |tx.linked| <= MAX_LINKED_MUTATIONS
    && forall l | l in tx.linked ::
         l.subsystem != "" && l.operationId != 0 && l.beforeChecksum != l.afterChecksum
  }

  ghost predicate Accepts(s: LedgerState, tx: Transaction) {
    && SequenceContinues(s, tx.id)
    && OriginFits(s, tx.id)
    && !Blank(tx.reason) && !Blank(tx.contentId)
    && 1 <= |Touched(tx)| <= MAX_TRANSACTION_ACCOUNTS
    && ReadsNameTouched(tx)
    && ReadsCurrent(s, tx)
    && Authorized(s, tx)
    && (forall m | m in tx.debits :: DebitAvailable(s, m))
    && (forall m | m in tx.credits :: CreditAllowed(s, tx, m))
    && Balanced(tx)
    && Registered(s, tx)
    && LinkedWellFormed(tx)
  }

  // ----- what an accepted transaction does to the accounts -----

  function Debit(a: Accounts, m: ArcaneMove): Accounts
    requires m.owner in a && Covers(a[m.owner].current, m.current)
  {
    a[m.owner := a[m.owner].(current := Minus(a[m.owner].current, m.current))]
  }

  ghost function DebitAll(a: Accounts, ms: seq<ArcaneMove>): Option<Accounts> {
    if ms == [] then Some(a)
    else
      var m := ms[|ms| - 1];
      match DebitAll(a, ms[..|ms| - 1])
      case None => None
      case Some(b) =>
        if m.owner in b && Covers(b[m.owner].current, m.current) then Some(Debit(b, m)) else None
  }

  function Opened(a: Accounts, m: ArcaneMove): Account {
    if m.owner in a then a[m.owner] else Account(Empty, 0, m.contentId)
  }

  /** A credit opens an absent account; an emptied or unnamed account takes the credit's identity. */
  function Credited(acc: Account, m: ArcaneMove): Account {
    Account(Plus(acc.current, m.current), acc.version,
            if acc.current == Empty || acc.contentId.None? then m.contentId else acc.contentId)
  }

  ghost function CreditAll(a: Accounts, ms: seq<ArcaneMove>): Option<Accounts> {
    if ms == [] then Some(a)
    else
      var m := ms[|ms| - 1];
      match CreditAll(a, ms[..|ms| - 1])
      case None => None
      case Some(b) =>
        if Total(Opened(b, m).current) + Total(m.current) <= U64_MAX
        then Some(b[m.owner := Credited(Opened(b, m), m)]) else None
  }

  /** Touched accounts advance one version; those left empty disappear. */
  function Settle(a: Accounts, touched: set<Owner>): Accounts {
    map o | o in a && !(o in touched && a[o].current == Empty) ::
      if o in touched then a[o].(version := a[o].version + 1) else a[o]
  }

  ghost function Moved(a: Accounts, tx: Transaction): Option<Accounts> {
    match DebitAll(a, tx.debits)
    case None => None
    case Some(b) => CreditAll(b, tx.credits)
  }

  ghost predicate VersionsBelowMaximum(a: Accounts, touched: set<Owner>) {
    forall o | o in touched :: VersionOf(a, o) < U64_MAX
  }

  /** The transaction passes validation and every staged step of it succeeds. */
  ghost predicate Applies(s: LedgerState, tx: Transaction) {
    && Accepts(s, tx)
    && Moved(s.accounts, tx).Some?
    && VersionsBelowMaximum(s.accounts, Touched(tx))
  }

  function ReceiptFor(s: LedgerState, tx: Transaction, sequence: nat): Receipt {
    Receipt(tx.id, sequence, map o | o in Touched(tx) :: VersionOf(s.accounts, o) + 1)
  }

  // ----- bounded receipt history -----

  function Excess<T>(queue: seq<T>, bound: nat): nat {
    if |queue| <= bound then 0 else |queue| - bound
  }

  function KeepNewest<T>(queue: seq<T>, bound: nat): seq<T> {
    queue[Excess(queue, bound)..]
  }

  function EvictedReceipts(receipts: map<TransactionId, Receipt>,
                           order: seq<TransactionId>): map<TransactionId, Receipt>
  {
    receipts - (set id | id in order[..Excess(order, MAX_TRANSACTION_HISTORY)])
  }

  // ----- provenance of environmental dross -----

  /** Oldest first, remove `units` of what is queued for one owner. */
  function Consume(q: seq<Attribution>, o: Owner, units: nat): seq<Attribution> {
    if q == [] || units == 0 then q
    else if q[0].owner != o then [q[0]] + Consume(q[1..], o, units)
    else
      var consumed := Min(q[0].contribution.units, units);
      if q[0].contribution.units == consumed then Consume(q[1..], o, units - consumed)
      else
        [q[0].(contribution := q[0].contribution.(units := q[0].contribution.units - consumed))]
        + Consume(q[1..], o, units - consumed)
  }

  ghost function ConsumeAll(q: seq<Attribution>, ms: seq<ArcaneMove>): seq<Attribution> {
    if ms == [] then q
    else
      var m := ms[|ms| - 1];
      var rest := ConsumeAll(q, ms[..|ms| - 1]);
      if m.owner.Dross? then Consume(rest, m.owner, Total(m.current)) else rest
  }

  function Actor(authority: Authority): Option<nat> {
    match authority
    case PlayerAuthority(player) => Some(player)
    case SystemForPlayer(player) => Some(player)
    case _ => None
  }

  const MAX_SOURCE_LABEL_BYTES: nat := 96

  function SourceClass(tx: Transaction): string {
    var text := tx.contentId + ": " + tx.reason;
    text[..Min(|text|, MAX_SOURCE_LABEL_BYTES)]
  }

  ghost function AttributionOf(tx: Transaction, m: ArcaneMove): Attribution {
    Attribution(m.owner,
                Contribution(Actor(tx.authority), SourceClass(tx), Total(m.current),
                             tx.id.sequence, tx.id.sequence, FULL_CONFIDENCE))
  }

  ghost function QueueAll(q: seq<Attribution>, tx: Transaction, ms: seq<ArcaneMove>): seq<Attribution> {
    if ms == [] then q
    else
      var m := ms[|ms| - 1];
      var rest := QueueAll(q, tx, ms[..|ms| - 1]);
      if m.owner.Dross? && Total(m.current) != 0
      then KeepNewest(rest + [AttributionOf(tx, m)], MAX_PENDING_DROSS_ATTRIBUTION)
      else rest
  }

  ghost function Provenance(q: seq<Attribution>, tx: Transaction): seq<Attribution> {
    QueueAll(ConsumeAll(q, tx.debits), tx, tx.credits)
  }

  // ----- the whole state after one applied transaction -----

  /** Everything `apply_validated` records except the closing total and the delta counter. */
  ghost function Recorded(s: LedgerState, tx: Transaction, sequence: nat): LedgerState
    requires Applies(s, tx)
  {
    var order := s.receiptOrder + [tx.id];
    s.(accounts := Settle(Moved(s.accounts, tx).value, Touched(tx)),
       highWater := s.highWater[tx.id.origin := Max(HighWater(s, tx.id.origin), tx.id.sequence)],
       receipts := EvictedReceipts(s.receipts[tx.id := ReceiptFor(s, tx, sequence)], order),
       receiptOrder := KeepNewest(order, MAX_TRANSACTION_HISTORY),
       attribution := Provenance(s.attribution, tx))
  }

  ghost function After(s: LedgerState, tx: Transaction): LedgerState
    requires Applies(s, tx)
  {
    var t := Recorded(s, tx, s.lastDeltaSeq + 1);
    t.(lastCleanTotal := GrandTotal(t.accounts), lastDeltaSeq := s.lastDeltaSeq + 1)
  }

  ghost predicate Fits(s: LedgerState) {
    GrandTotal(s.accounts) <= U64_MAX
  }

  /** An account that may stand in a snapshot: it holds something, in 64 bits, and only registered resonances. */
  ghost predicate AccountSound(registry: set<Resonance>, account: Account) {
    account.current != Empty && Total(account.current) <= U64_MAX && account.current.parts.Keys <= registry
  }

  ghost predicate AccountsSound(s: LedgerState) {
    forall o | o in s.accounts :: AccountSound(s.registry, s.accounts[o])
  }
}
