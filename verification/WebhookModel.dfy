/**
 * Webhook deliveries (src/paddle/processor.rs, webhook_store.rs, linking.rs) as a state machine.
 *
 * A delivery takes one statement at a time. Reads outside its transaction see committed rows; its
 * own writes stay with it until it commits. Statements that touch only rows the delivery has
 * already locked are taken together with the statement before them.
 */
module WebhookModel {
  import opened Text
  import opened Uuids
  import opened Structure
  import opened PaddleEvents

  // ---------------------------------------------------------------- tables

  datatype Status = Received | Processing | Processed | Failed | Waiting
  datatype Hook = Hook(id: string, hash: string, account: Option<Uuid>, at: Time, status: Status)
  {
    predicate Settled() { status == Processed || status == Waiting }
    predicate Claimable() { status == Received || status == Failed }
  }

  datatype Account = Account(customer: Option<string>, billing: Billing)

  // `owners` is the unique index on the accounts' Paddle customer ids.
  datatype Store = Store(hooks: seq<Hook>, accounts: map<Uuid, Account>, owners: map<string, Uuid>,
                         links: seq<(string, string)>)

  function Get(hooks: seq<Hook>, id: string): Option<Hook> {
    if hooks == [] then None
    else if hooks[0].id == id then Some(hooks[0])
    else Get(hooks[1..], id)
  }

  // Writes the row of an event, new or known.
  function Put(hooks: seq<Hook>, row: Hook): seq<Hook> {
    if hooks == [] then [row]
    else if hooks[0].id == row.id then [row] + hooks[1..]
    else [hooks[0]] + Put(hooks[1..], row)
  }

  function Later(a: Option<Time>, t: Time): Option<Time> {
    if a.Some? && a.value >= t then a else Some(t)
  }

  // MAX(event_occurred_at) over the processed events of an account.
  function Last(hooks: seq<Hook>, account: Uuid): Option<Time> {
    if hooks == [] then None
    else
      var rest := Last(hooks[1..], account);
      if hooks[0].account == Some(account) && hooks[0].status == Processed then Later(rest, hooks[0].at) else rest
  }

  function OwnerOf(store: Store, customer: Option<string>): Option<Uuid> {
    if customer.Some? && customer.value in store.owners then Some(store.owners[customer.value]) else None
  }

  // The unique index on subscription ids: does another account hold this one?
  predicate Taken(accounts: map<Uuid, Account>, account: Uuid, subscription: Option<string>) {
    subscription.Some? && exists a | a in accounts :: a != account && accounts[a].billing.subscription == subscription
  }

  // link_paddle_customer_to_account and save_paddle_customer_id: one conditional UPDATE under the
  // unique index on customer ids.
  datatype LinkResult = Linked | CustomerTaken | AccountTaken | NoAccount

  function LinkCustomer(store: Store, account: Uuid, customer: string): (r: (Store, LinkResult)) {
    if customer in store.owners then (store, if store.owners[customer] == account then Linked else CustomerTaken)
    else if account !in store.accounts then (store, NoAccount)
    else if store.accounts[account].customer.Some? then (store, AccountTaken)
    else
      (store.(accounts := store.accounts[account := store.accounts[account].(customer := Some(customer))],
              owners := store.owners[customer := account]), Linked)
  }

  // ---------------------------------------------------------------- a delivery in progress

  // `hash` is the SHA-256 of the delivered bytes, `event` what they say.
  datatype Delivery = Delivery(event: PaddleEvent, hash: string)

  datatype Outcome = WasProcessed | Idempotent | WaitingForAccountLink | Ignored
  datatype Reply = Open | Done(outcome: Outcome) | Refused(error: WebhookError)

  type Statement = n: nat | n <= ENDED
  const FIND := 0
  const RESOLVE := 1
  const INSERT := 2
  const FIND_AGAIN := 3
  const RESOLVE_AGAIN := 4
  const CLAIM := 5
  const REREAD := 6
  const PARK := 7
  const READ_LAST := 8
  const DECIDE := 9
  const UPDATE := 10
  const COMMIT := 11
  const ENDED := 12

  // `account` and `plan` are what the look-up of the customer returned, `inserted` whether the
  // delivery wrote a new row, `mine` its own version of that row, `plans` the plan table it read,
  // `billing` its own version of the account's billing.
  datatype Tx = Tx(d: Delivery, next: Statement, account: Option<Uuid>, plan: Uuid, inserted: bool,
                   mine: Option<Hook>, plans: Plans, billing: Option<Billing>, reply: Reply)
  {
    predicate HoldsRow(id: string) { next < ENDED && mine.Some? && mine.value.id == id }
    predicate HoldsAccount(a: Uuid) { next < ENDED && billing.Some? && account == Some(a) }

    function Fail(e: WebhookError): Tx { this.(next := ENDED, reply := Refused(e)) }
    function Finish(o: Outcome): Tx { this.(next := ENDED, reply := Done(o)) }
    function Decision(): Result<Write, WebhookError> { Decide(d.event, plan, plans) }
  }

  function NewTx(d: Delivery): Tx {
    Tx(d, FIND, None, NIL, false, None, Plans(map[], map[]), None, Open)
  }

  // The committed data a statement reads: the event's row, the account of the event's customer and
  // its billing; and of the account looked up before, the last processed time, the billing, and
  // whether the event's subscription id is another account's.
  datatype Seen = Seen(row: Option<Hook>, owner: Option<Uuid>, found: Option<Billing>, last: Option<Time>,
                       billing: Option<Billing>, taken: bool)

  function BillingOf(store: Store, account: Option<Uuid>): Option<Billing> {
    if account.Some? && account.value in store.accounts then Some(store.accounts[account.value].billing) else None
  }

  function Look(store: Store, t: Tx): Seen {
    var owner := OwnerOf(store, t.d.event.CustomerId());
    Seen(Get(store.hooks, t.d.event.eventId), owner, BillingOf(store, owner),
         if t.account.Some? then Last(store.hooks, t.account.value) else None,
         BillingOf(store, t.account),
         t.account.Some? && Taken(store.accounts, t.account.value, t.d.event.data.id))
  }

  // ---------------------------------------------------------------- statements

  // classify_existing_event
  function Classify(row: Hook, t: Tx): Tx {
    if row.hash != t.d.hash then t.Fail(PayloadHashConflict)
    else if row.Settled() then t.Finish(Idempotent)
    else if row.Claimable() then t.(next := RESOLVE_AGAIN)
    else t.Fail(InvalidStatusTransition)
  }

  function Find(seen: Seen, t: Tx): Tx {
    if t.d.event.Kind() == Unhandled then t.Finish(Ignored)
    else if seen.row.None? then t.(next := RESOLVE)
    else Classify(seen.row.value, t)
  }

  function Resolve(seen: Seen, t: Tx): Tx {
    if t.d.event.CustomerId().None? then t.Fail(MissingField("customer_id"))
    else t.(account := seen.owner, plan := if seen.found.Some? then seen.found.value.plan else NIL,
            next := if t.next == RESOLVE then INSERT else CLAIM)
  }

  // A row that is already there is a unique violation: roll back and look again.
  function Insert(seen: Seen, t: Tx): Tx {
    if seen.row.Some? then t.(next := FIND_AGAIN)
    else t.(inserted := true, next := CLAIM,
            mine := Some(Hook(t.d.event.eventId, t.d.hash, t.account, t.d.event.occurredAt, Received)))
  }

  function FindAgain(seen: Seen, t: Tx): Tx {
    if seen.row.None? then t.Fail(DatabaseError) else Classify(seen.row.value, t)
  }

  // mark_processing; a delivery that lost the race rolls back and reads the row again.
  function Claim(seen: Seen, t: Tx): Tx {
    var row := if t.mine.Some? then t.mine else seen.row;
    if row.None? || !row.value.Claimable() then t.(mine := None, next := REREAD)
    else t.(mine := Some(row.value.(status := Processing)), next := if t.account.None? then PARK else READ_LAST)
  }

  function Reread(seen: Seen, t: Tx): Tx {
    if seen.row.Some? && seen.row.value.Settled() then t.Finish(Idempotent) else t.Fail(InvalidStatusTransition)
  }

  function Mark(t: Tx, status: Status): Tx {
    t.(mine := if t.mine.Some? then Some(t.mine.value.(status := status)) else None, next := COMMIT)
  }

  // insert_pending_link and mark_waiting_for_account_link
  function Park(t: Tx): Tx {
    Mark(t, Waiting).(reply := Done(WaitingForAccountLink))
  }

  // An event older than one already processed for the account is marked without being applied.
  function ReadLast(seen: Seen, t: Tx): Tx {
    if seen.last.Some? && t.d.event.occurredAt < seen.last.value then Mark(t, Processed).(reply := Done(WasProcessed))
    else t.(next := DECIDE)
  }

  // A refused event is marked failed, and that is committed.
  function MakeDecision(t: Tx, plans: Plans): Tx {
    var with := t.(plans := plans);
    if with.Decision().Err? then Mark(with, Failed).(reply := Refused(with.Decision().error)) else with.(next := UPDATE)
  }

  // A violated unique index aborts the transaction, so that the failed mark is lost with it.
  function Update(seen: Seen, t: Tx): Tx {
    if seen.billing.None? || t.Decision().Err? then Mark(t, Processed).(reply := Done(WasProcessed))
    else
      var b := t.Decision().value.On(seen.billing.value);
      if b.subscription != seen.billing.value.subscription && seen.taken then t.Fail(DatabaseError)
      else Mark(t, Processed).(billing := Some(b), reply := Done(WasProcessed))
  }

  function Act(seen: Seen, t: Tx, plans: Plans): Tx {
    if t.next <= FIND_AGAIN then
      if t.next == FIND then Find(seen, t)
      else if t.next == RESOLVE then Resolve(seen, t)
      else if t.next == INSERT then Insert(seen, t)
      else FindAgain(seen, t)
    else if t.next <= PARK then
      if t.next == RESOLVE_AGAIN then Resolve(seen, t)
      else if t.next == CLAIM then Claim(seen, t)
      else if t.next == REREAD then Reread(seen, t)
      else Park(t)
    else
      if t.next == READ_LAST then ReadLast(seen, t)
      else if t.next == DECIDE then MakeDecision(t, plans)
      else if t.next == UPDATE then Update(seen, t)
      else t.(next := ENDED)
  }

  function PutBilling(accounts: map<Uuid, Account>, account: Option<Uuid>, billing: Option<Billing>): map<Uuid,
                      Account> {
    if account.Some? && billing.Some? && account.value in accounts
    then accounts[account.value := accounts[account.value].(billing := billing.value)]
    else accounts
  }

  function Email(e: PaddleEvent): string {
    if e.CustomerEmail().Some? then e.CustomerEmail().value else ""
  }

  // What a commit makes visible.
  function Commit(store: Store, t: Tx): Store {
    if t.mine.None? then store
    else
      Store(Put(store.hooks, t.mine.value), PutBilling(store.accounts, t.account, t.billing), store.owners,
            if t.mine.value.status == Waiting && t.d.event.CustomerId().Some?
            then store.links + [(t.d.event.CustomerId().value, Email(t.d.event))] else store.links)
  }

  // ---------------------------------------------------------------- interleavings

  // `log` is a history variable: the writes that reached an account, in commit order, each with
  // the delivery it came from and the plan and plan table that decided it.
  datatype Applied = Applied(d: Delivery, account: Uuid, plan: Uuid, plans: Plans)
  {
    function Decision(): Result<Write, WebhookError> { Decide(d.event, plan, plans) }
  }

  datatype State = State(store: Store, txs: map<nat, Tx>, log: seq<Applied>)

  function Logged(t: Tx): seq<Applied> {
    if t.billing.Some? && t.account.Some? then [Applied(t.d, t.account.value, t.plan, t.plans)] else []
  }

  // `t` waits for `u`: its next statement needs a key or a row that `u` has written.
  predicate WaitsFor(t: Tx, u: Tx) {
    || ((t.next == INSERT || (t.next == CLAIM && t.mine.None?)) && u.HoldsRow(t.d.event.eventId))
    || (t.next == UPDATE && t.account.Some? && u.HoldsAccount(t.account.value))
  }

  ghost predicate Blocked(s: State, id: nat)
    requires id in s.txs
  {
    exists u | u in s.txs && u != id :: WaitsFor(s.txs[id], s.txs[u])
  }

  datatype Action =
    | Deliver(id: nat, d: Delivery)
    | Advance(id: nat, plans: Plans)
    | Fault(id: nat)
    | Link(account: Uuid, customer: string)

  ghost predicate Enabled(s: State, a: Action) {
    match a
    case Deliver(id, _) => id !in s.txs
    case Advance(id, _) => id in s.txs && s.txs[id].next != ENDED && !Blocked(s, id)
    case Fault(id) => id in s.txs && s.txs[id].next != ENDED
    case Link(account, _) => forall u | u in s.txs :: !s.txs[u].HoldsAccount(account)
  }

  function Step(s: State, a: Action): State
    requires a.Advance? || a.Fault? ==> a.id in s.txs
  {
    match a
    case Deliver(id, d) => s.(txs := s.txs[id := NewTx(d)])
    case Fault(id) => s.(txs := s.txs[id := s.txs[id].Fail(DatabaseError)])
    case Link(account, customer) => s.(store := LinkCustomer(s.store, account, customer).0)
    case Advance(id, plans) =>
      var t := s.txs[id];
      var moved := s.txs[id := Act(Look(s.store, t), t, plans)];
      if t.next == COMMIT then State(Commit(s.store, t), moved, s.log + Logged(t)) else s.(txs := moved)
  }

  ghost predicate IsRun(states: seq<State>, actions: seq<Action>) {
    && |states| == |actions| + 1
    && forall i | 0 <= i < |actions| :: Enabled(states[i], actions[i]) && states[i + 1] == Step(states[i], actions[i])
  }
}
