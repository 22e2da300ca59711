/**
 * The append protocol (src/service/ledger.rs): one SQL statement of one transaction at a time.
 *
 * A transaction keeps its uncommitted writes to itself; other transactions see the committed
 * tables only. A statement that needs a row lock or a unique key that an open transaction holds
 * waits until that transaction has ended.
 */
module LedgerModel {
  import opened Text
  import opened Uuids
  import opened Merkle

  // ---------------------------------------------------------------- tables

  // The first day of a month.
  type Month = nat

  datatype ChainRow = ChainRow(head: Option<Uuid>, owner: Option<Uuid>)
  datatype EventRec = EventRec(chain: Uuid, key: string, row: EventRow)
  datatype Usage = Usage(commits: nat, tsa: nat)
  datatype Db = Db(chains: map<Uuid, ChainRow>, events: seq<EventRec>, usage: map<(Uuid, Month), Usage>)

  // The events of one chain, in the order they were inserted.
  function ChainEvents(events: seq<EventRec>, chain: Uuid): seq<EventRow> {
    if events == [] then []
    else
      var before, last := ChainEvents(events[..|events| - 1], chain), events[|events| - 1];
      if last.chain == chain then before + [last.row] else before
  }

  function History(db: Db, chain: Uuid): seq<EventRow> {
    ChainEvents(db.events, chain)
  }

  // COALESCE(MAX(sequence), 0)
  function MaxSequence(rows: seq<EventRow>): I64 {
    if rows == [] then 0
    else
      var before, last := MaxSequence(rows[..|rows| - 1]), rows[|rows| - 1].sequence;
      if last > before then last else before
  }

  predicate HasSequence(rows: seq<EventRow>, n: I64) {
    rows != [] && (rows[|rows| - 1].sequence == n || HasSequence(rows[..|rows| - 1], n))
  }

  predicate HasId(events: seq<EventRec>, id: Uuid) {
    events != [] && (events[|events| - 1].row.eventId == id || HasId(events[..|events| - 1], id))
  }

  function FindKey(events: seq<EventRec>, chain: Uuid, key: string): Option<EventRec> {
    if events == [] then None
    else
      var last := events[|events| - 1];
      if last.chain == chain && last.key == key then Some(last) else FindKey(events[..|events| - 1], chain, key)
  }

  // Rows with sequence <= n: the prefix that is signed for an event.
  function UpTo(rows: seq<EventRow>, n: I64): seq<EventRow> {
    if rows == [] then []
    else
      var before, last := UpTo(rows[..|rows| - 1], n), rows[|rows| - 1];
      if last.sequence <= n then before + [last] else before
  }

  function HeadOf(rows: seq<EventRow>): Option<Uuid> {
    if rows == [] then None else Some(rows[|rows| - 1].eventId)
  }

  function OrNil(head: Option<Uuid>): Uuid {
    if head.Some? then head.value else NIL
  }

  function ChainRowOf(db: Db, chain: Uuid): Option<ChainRow> {
    if chain in db.chains then Some(db.chains[chain]) else None
  }

  function UsageOf(db: Db, account: Uuid, month: Month): Usage {
    if (account, month) in db.usage then db.usage[(account, month)] else Usage(0, 0)
  }

  // ---------------------------------------------------------------- plans and limits

  datatype TsaMode = Machine | Qualified

  datatype Capabilities = Capabilities(commitsLimit: Option<int>, tsaLimit: Option<int>, tsaMode: TsaMode) {
    predicate CanCommit(current: int) { commitsLimit.Some? ==> current < commitsLimit.value }
    predicate CanUseTsa(current: int) { tsaLimit.Some? ==> current < tsaLimit.value }
    predicate TsaAvailable() { tsaMode.Machine? }
  }

  const I32_MAX := 0x7fff_ffff

  // ---------------------------------------------------------------- transactions

  datatype LedgerError =
    | ChainNotFound | ChainAccessDenied | DuplicateIdempotencyKey | DuplicateChainSequence
    | UsageLimitExceeded | TsaLimitExceeded | QualifiedTsaUnavailable | DatabaseError

  // `legacy` requests come through POST /events and look their key up; the others come through
  // POST /v1/events and plan their event before inserting it.
  datatype Request = Request(chain: Uuid, fileHash: string, key: string, eventId: Option<Uuid>, legacy: bool)

  datatype Reply = Open | Cached(eventId: Uuid, head: Option<Uuid>) | Appended | Failed(error: LedgerError)

  // The statement a transaction runs next.
  type Statement = n: nat | n <= ENDED
  const LOCK_CHAIN := 0
  const CHECK_OWNER := 1
  const LOOK_UP := 2
  const LOCK_USAGE := 3
  const CHECK_LIMITS := 4
  const READ_HEAD := 5
  const READ_SEQUENCE := 6
  const INSERT := 7
  const MOVE_HEAD := 8
  const COUNT := 9
  const SIGN := 10
  const COMMIT := 11
  const ENDED := 12

  datatype Caller = Caller(account: Uuid, month: Month, req: Request)

  // `row` is the transaction's own version of the chain row, `wrote` whether it changed that row;
  // `plan` is the (parent, sequence) a v1 request reserved; `event` is filled in field by field.
  datatype Tx = Tx(caller: Caller, next: Statement, row: ChainRow, wrote: bool, plan: Option<(Uuid, I64)>,
                   usage: Usage, limits: Capabilities, event: EventRow, signed: seq<EventRow>, reply: Reply)
  {
    predicate Past(n: Statement) { n < next < ENDED }
    predicate HoldsChain(chain: Uuid) { Past(LOCK_CHAIN) && caller.req.chain == chain }
    predicate HoldsUsage(account: Uuid,
                         month: Month) { Past(LOCK_USAGE) && caller.account == account && caller.month == month }
    predicate HoldsId(id: Uuid) { Past(INSERT) && event.eventId == id }

    function Fail(e: LedgerError): Tx { this.(next := ENDED, reply := Failed(e)) }
  }

  function NewTx(account: Uuid, month: Month, req: Request): Tx {
    Tx(Caller(account, month, req), LOCK_CHAIN, ChainRow(None, None), false, None, Usage(0, 0),
       Capabilities(None, None, Machine), EventRow(0, NIL, NIL, req.fileHash), [], Open)
  }

  // The committed data that the statements of one transaction read: its chain's row and events,
  // an event of the chain under its key, whether its event id is taken, and its usage row.
  datatype Seen = Seen(chain: Option<ChainRow>, events: seq<EventRow>, sameKey: Option<EventRec>, idTaken: bool,
                       usage: Usage)

  function Look(db: Db, tx: Tx): Seen {
    var req := tx.caller.req;
    Seen(ChainRowOf(db, req.chain), History(db, req.chain), FindKey(db.events, req.chain, req.key),
         HasId(db.events, tx.event.eventId), UsageOf(db, tx.caller.account, tx.caller.month))
  }

  // The chain row a SELECT of this transaction returns.
  function VisibleRow(seen: Seen, tx: Tx): ChainRow {
    if tx.wrote || seen.chain.None? then tx.row else seen.chain.value
  }

  // INSERT INTO chains ... ON CONFLICT DO NOTHING, else SELECT ... FOR UPDATE
  function LockChain(seen: Seen, tx: Tx): Tx {
    match seen.chain
    case Some(row) => tx.(row := row, next := CHECK_OWNER)
    case None => tx.(row := ChainRow(None, Some(tx.caller.account)), wrote := true, next := CHECK_OWNER)
  }

  // Another account's chain is refused, an ownerless one claimed.
  function CheckOwner(tx: Tx): Tx {
    match tx.row.owner
    case Some(owner) => if owner != tx.caller.account then tx.Fail(ChainAccessDenied) else tx.(next := LOOK_UP)
    case None => tx.(row := tx.row.(owner := Some(tx.caller.account)), wrote := true, next := LOOK_UP)
  }

  // A known key answers from the table; dropping the transaction rolls it back.
  function CheckReplay(seen: Seen, tx: Tx): Tx {
    match seen.sameKey
    case Some(e) => tx.(next := ENDED, reply := Cached(e.row.eventId, VisibleRow(seen, tx).head))
    case None => tx.(next := LOCK_USAGE)
  }

  // plan_next_event
  function PlanEvent(seen: Seen, tx: Tx, newId: Uuid): Tx {
    var max := MaxSequence(seen.events);
    if max == I64_MAX then tx.Fail(DatabaseError)
    else tx.(plan := Some((OrNil(VisibleRow(seen, tx).head), max + 1)),
             event := tx.event.(eventId := ChooseId(tx, newId)),
             next := LOCK_USAGE)
  }

  function ChooseId(tx: Tx, newId: Uuid): Uuid {
    if tx.caller.req.eventId.Some? then tx.caller.req.eventId.value else newId
  }

  function LockUsage(seen: Seen, tx: Tx): Tx {
    tx.(usage := seen.usage, next := CHECK_LIMITS)
  }

  function CheckLimits(tx: Tx, limits: Capabilities): Tx {
    if !limits.CanCommit(tx.usage.commits) then tx.Fail(UsageLimitExceeded)
    else if !limits.CanUseTsa(tx.usage.tsa) then tx.Fail(TsaLimitExceeded)
    else if !limits.TsaAvailable() then tx.Fail(QualifiedTsaUnavailable)
    else tx.(limits := limits, next := READ_HEAD)
  }

  function ReadHead(seen: Seen, tx: Tx): Tx {
    tx.(event := tx.event.(parentId := OrNil(VisibleRow(seen, tx).head)), next := READ_SEQUENCE)
  }

  function ReadSequence(seen: Seen, tx: Tx, newId: Uuid): Tx {
    var max := MaxSequence(seen.events);
    if max == I64_MAX then tx.Fail(DatabaseError)
    else
      var id := if tx.caller.req.legacy then ChooseId(tx, newId) else tx.event.eventId;
      tx.(event := tx.event.(sequence := max + 1, eventId := id), next := INSERT)
  }

  // The primary key and the (chain, key) constraint, which the error mapping does not know by
  // name, report a database error; (chain, sequence) has an error of its own.
  function InsertEvent(seen: Seen, tx: Tx): Tx {
    if seen.idTaken || seen.sameKey.Some? then tx.Fail(DatabaseError)
    else if HasSequence(seen.events, tx.event.sequence) then tx.Fail(DuplicateChainSequence)
    else tx.(next := MOVE_HEAD)
  }

  function MoveHead(tx: Tx): Tx {
    tx.(row := tx.row.(head := Some(tx.event.eventId)), wrote := true, next := COUNT)
  }

  function CountUsage(tx: Tx): Tx {
    if tx.usage.commits >= I32_MAX || tx.usage.tsa >= I32_MAX then tx.Fail(DatabaseError)
    else tx.(usage := Usage(tx.usage.commits + 1, tx.usage.tsa + 1), next := SIGN)
  }

  // proof_snapshot_at_event: the signed list is the chain up to the new event's sequence number.
  function SignSnapshot(seen: Seen, tx: Tx): Tx {
    tx.(signed := UpTo(seen.events + [tx.event], tx.event.sequence), next := COMMIT)
  }

  // One statement of a transaction. `limits` and `newId` are what the capability query and the
  // random generator return.
  function Act(seen: Seen, tx: Tx, limits: Capabilities, newId: Uuid): Tx {
    if tx.next <= LOOK_UP then
      if tx.next == LOCK_CHAIN then LockChain(seen, tx)
      else if tx.next == CHECK_OWNER then CheckOwner(tx)
      else if tx.caller.req.legacy then CheckReplay(seen, tx)
      else PlanEvent(seen, tx, newId)
    else if tx.next <= READ_SEQUENCE then
      if tx.next == LOCK_USAGE then LockUsage(seen, tx)
      else if tx.next == CHECK_LIMITS then CheckLimits(tx, limits)
      else if tx.next == READ_HEAD then ReadHead(seen, tx)
      else ReadSequence(seen, tx, newId)
    else
      if tx.next == INSERT then InsertEvent(seen, tx)
      else if tx.next == MOVE_HEAD then MoveHead(tx)
      else if tx.next == COUNT then CountUsage(tx)
      else if tx.next == SIGN then SignSnapshot(seen, tx)
      else if tx.next == COMMIT then tx.(next := ENDED, reply := Appended)
      else tx
  }

  // What a commit makes visible.
  function Commit(db: Db, tx: Tx): Db {
    Db(db.chains[tx.caller.req.chain := tx.row],
       db.events + [EventRec(tx.caller.req.chain, tx.caller.req.key, tx.event)],
       db.usage[(tx.caller.account, tx.caller.month) := tx.usage])
  }

  // ---------------------------------------------------------------- interleavings

  // `log` is a history variable: who committed which event, in which month, under which limits.
  datatype Entry = Entry(caller: Caller, event: EventRow, limits: Capabilities, usage: Usage, signed: seq<EventRow>)

  function EntryOf(tx: Tx): Entry {
    Entry(tx.caller, tx.event, tx.limits, tx.usage, tx.signed)
  }

  datatype State = State(db: Db, txs: map<nat, Tx>, log: seq<Entry>)

  // `t` waits for `u`: its next statement needs a row or a key that `u` holds.
  predicate WaitsFor(t: Tx, u: Tx) {
    || (t.next == LOCK_CHAIN && u.HoldsChain(t.caller.req.chain))
    || (t.next == LOCK_USAGE && u.HoldsUsage(t.caller.account, t.caller.month))
    || (t.next == INSERT && u.HoldsId(t.event.eventId))
  }

  ghost predicate Blocked(s: State, id: nat)
    requires id in s.txs
  {
    exists u | u in s.txs && u != id :: WaitsFor(s.txs[id], s.txs[u])
  }

  datatype Action =
    | Begin(id: nat, account: Uuid, month: Month, req: Request)
    | Advance(id: nat, limits: Capabilities, newId: Uuid)
    | Fault(id: nat)

  ghost predicate Enabled(s: State, a: Action) {
    match a
    case Begin(id, _, _, _) => id !in s.txs
    case Advance(id, _, _) => id in s.txs && s.txs[id].next != ENDED && !Blocked(s, id)
    case Fault(id) => id in s.txs && s.txs[id].next != ENDED
  }

  function Step(s: State, a: Action): State
    requires !a.Begin? ==> a.id in s.txs
  {
    match a
    case Begin(id, account, month, req) => s.(txs := s.txs[id := NewTx(account, month, req)])
    case Fault(id) => s.(txs := s.txs[id := s.txs[id].Fail(DatabaseError)])
    case Advance(id, limits, newId) =>
      var tx := s.txs[id];
      var moved := s.txs[id := Act(Look(s.db, tx), tx, limits, newId)];
      if tx.next == COMMIT then
        State(Commit(s.db, tx), moved, s.log + [EntryOf(tx)])
      else s.(txs := moved)
  }

  // A run: every state follows from the one before by an enabled action.
  ghost predicate IsRun(states: seq<State>, actions: seq<Action>) {
    && |states| == |actions| + 1
    && forall i | 0 <= i < |actions| :: Enabled(states[i], actions[i]) && states[i + 1] == Step(states[i], actions[i])
  }
}
