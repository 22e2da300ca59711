/** `process_paddle_webhook` as one uninterrupted call, and runs of such calls. */
module WebhookStore {
  import opened Text
  import opened Uuids
  import opened PaddleEvents
  import opened WebhookModel
  import opened WebhookInvariant
  import opened WebhookRuns
  import opened WebhookOrder

  // ---------------------------------------------------------------- one delivery alone

  function NewRow(d: Delivery, account: Option<Uuid>): Hook {
    Hook(d.event.eventId, d.hash, account, d.event.occurredAt, Received)
  }

  function SetRow(store: Store, row: Hook, status: Status): Store {
    store.(hooks := Put(store.hooks, row.(status := status)))
  }

  // What a delivery does to the tables when nothing else happens meanwhile.
  function DeliverAlone(store: Store, d: Delivery, plans: Plans): (Store, Reply) {
    var row := Get(store.hooks, d.event.eventId);
    var customer := d.event.CustomerId();
    var account := OwnerOf(store, customer);
    if d.event.Kind() == Unhandled then (store, Done(Ignored))
    else if row.Some? && row.value.hash != d.hash then (store, Refused(PayloadHashConflict))
    else if row.Some? && row.value.Settled() then (store, Done(Idempotent))
    else if row.Some? && !row.value.Claimable() then (store, Refused(InvalidStatusTransition))
    else if customer.None? then (store, Refused(MissingField("customer_id")))
    else
      ClaimAlone(store, d, if row.Some? then row.value else NewRow(d, account), account, plans)
  }

  function ClaimAlone(store: Store, d: Delivery, mine: Hook, account: Option<Uuid>, plans: Plans): (Store, Reply)
    requires d.event.CustomerId().Some?
  {
    if account.Some? then ApplyAlone(store, d, mine, account.value, plans)
    else
      (SetRow(store, mine, Waiting).(links := store.links + [(d.event.CustomerId().value, Email(d.event))]),
       Done(WaitingForAccountLink))
  }

  function ApplyAlone(store: Store, d: Delivery, mine: Hook, account: Uuid, plans: Plans): (Store, Reply) {
    var billing := BillingOf(store, Some(account));
    if Before(d.event.occurredAt, Last(store.hooks, account)) then (SetRow(store, mine, Processed), Done(WasProcessed))
    else DecideAlone(store, d, mine, account, if billing.Some? then billing.value.plan else NIL, plans)
  }

  function DecideAlone(store: Store, d: Delivery, mine: Hook, account: Uuid, plan: Uuid, plans: Plans): (Store, Reply) {
    var decision := Decide(d.event, plan, plans);
    if decision.Err? then (SetRow(store, mine, Status.Failed), Refused(decision.error))
    else UpdateAlone(store, d, mine, account, decision.value)
  }

  function UpdateAlone(store: Store, d: Delivery, mine: Hook, account: Uuid, write: Write): (Store, Reply) {
    var billing := BillingOf(store, Some(account));
    if billing.None? then (SetRow(store, mine, Processed), Done(WasProcessed))
    else
      var after := write.On(billing.value);
      if after.subscription != billing.value.subscription && Taken(store.accounts, account, d.event.data.id)
      then (store, Refused(DatabaseError))
      else (SetRow(store, mine, Processed).(accounts := PutBilling(store.accounts, Some(account), Some(after))),
            Done(WasProcessed))
  }

  // Does the decided write reach the account?
  predicate Writes(store: Store, d: Delivery, account: Uuid, plan: Uuid, plans: Plans) {
    var billing, decision := BillingOf(store, Some(account)), Decide(d.event, plan, plans);
    && billing.Some? && decision.Ok?
    && (decision.value.On(billing.value).subscription == billing.value.subscription
        || !Taken(store.accounts, account, d.event.data.id))
  }

  // The write that a delivery alone applies, if any: its event is handled, new or to be retried
  // with the same bytes, of a linked account, and not older than the newest processed one.
  function AppliedAlone(store: Store, d: Delivery, plans: Plans): seq<Applied> {
    var row, account := Get(store.hooks, d.event.eventId), OwnerOf(store, d.event.CustomerId());
    if d.event.Kind() == Unhandled || account.None?
       || (row.Some? && (row.value.hash != d.hash || !row.value.Claimable()))
    then []
    else AppliedTo(store, d, account.value, plans)
  }

  function AppliedTo(store: Store, d: Delivery, account: Uuid, plans: Plans): seq<Applied> {
    var billing := BillingOf(store, Some(account));
    var plan := if billing.Some? then billing.value.plan else NIL;
    if !Before(d.event.occurredAt, Last(store.hooks, account)) && Writes(store, d, account, plan, plans)
    then [Applied(d, account, plan, plans)] else []
  }

  // Those are the writes to the accounts: a delivery changes no account but by what it applies.
  lemma AppliedIsWritten(store: Store, d: Delivery, plans: Plans, a: Uuid)
    ensures BillingOf(DeliverAlone(store, d, plans).0, Some(a)) ==
      Replay(BillingOf(store, Some(a)), AppliedAlone(store, d, plans), a)
  {
    var applied := AppliedAlone(store, d, plans);
    if applied != [] { assert applied[..0] == []; }
  }

  // Running a delivery to its end without interruption.
  function Complete(store: Store, t: Tx, plans: Plans): (Store, Tx)
    decreases ENDED - t.next
  {
    if t.next == ENDED then (store, t)
    else if t.next == COMMIT then (Commit(store, t), t.(next := ENDED))
    else
      ActAdvances(Look(store, t), t, plans);
      Complete(store, Act(Look(store, t), t, plans), plans)
  }

  lemma ActAdvances(seen: Seen, t: Tx, plans: Plans)
    requires t.next < ENDED
    ensures t.next < Act(seen, t, plans).next && Act(seen, t, plans).d == t.d
  {
  }

  lemma CompleteNext(store: Store, t: Tx, plans: Plans)
    requires t.next < COMMIT
    ensures Complete(store, t, plans) == Complete(store, Act(Look(store, t), t, plans), plans)
  {
  }

  lemma CompleteEnds(store: Store, t: Tx, plans: Plans)
    requires t.next >= COMMIT
    ensures Complete(store, t, plans) == (if t.next == ENDED then store else Commit(store, t), t.(next := ENDED))
  {
  }

  // What a completed delivery leaves behind.
  function Result(r: (Store, Tx)): (Store, Reply) {
    (r.0, r.1.reply)
  }

  // A delivery at work: it holds its row and knows its account.
  predicate AtWork(t: Tx) {
    READ_LAST <= t.next <= UPDATE && t.account.Some? && t.mine.Some? && t.billing.None?
  }

  lemma CompleteUpdates(store: Store, t: Tx, plans: Plans)
    requires AtWork(t) && t.next == UPDATE && t.Decision().Ok?
    ensures Result(Complete(store, t, plans)) ==
      UpdateAlone(store, t.d, t.mine.value, t.account.value, t.Decision().value)
    ensures Logged(Complete(store, t, plans).1) ==
      if Writes(store, t.d, t.account.value, t.plan, t.plans)
      then [Applied(t.d, t.account.value, t.plan, t.plans)] else []
  {
    CompleteNext(store, t, plans);
    CompleteEnds(store, Update(Look(store, t), t), plans);
  }

  lemma CompleteDecides(store: Store, t: Tx, plans: Plans)
    requires AtWork(t) && t.next == DECIDE
    ensures Result(Complete(store, t, plans)) == DecideAlone(store, t.d, t.mine.value, t.account.value, t.plan, plans)
    ensures Logged(Complete(store, t, plans).1) ==
      if Writes(store, t.d, t.account.value, t.plan, plans) then [Applied(t.d, t.account.value, t.plan, plans)] else []
  {
    CompleteNext(store, t, plans);
    var t1 := MakeDecision(t, plans);
    if t1.next == COMMIT { CompleteEnds(store, t1, plans); } else { CompleteUpdates(store, t1, plans); }
  }

  lemma CompleteApplies(store: Store, t: Tx, plans: Plans)
    requires AtWork(t) && t.next == READ_LAST
    requires var b := BillingOf(store, t.account); t.plan == if b.Some? then b.value.plan else NIL
    ensures Result(Complete(store, t, plans)) == ApplyAlone(store, t.d, t.mine.value, t.account.value, plans)
    ensures Logged(Complete(store, t, plans).1) == AppliedTo(store, t.d, t.account.value, plans)
  {
    CompleteNext(store, t, plans);
    var t1 := ReadLast(Look(store, t), t);
    if t1.next == COMMIT { CompleteEnds(store, t1, plans); } else { CompleteDecides(store, t1, plans); }
  }

  // The row as it is claimed.
  function Claimed(store: Store, d: Delivery, account: Option<Uuid>): Hook {
    var row := Get(store.hooks, d.event.eventId);
    (if row.Some? then row.value else NewRow(d, account)).(status := Processing)
  }

  // From the claim on; the row is the delivery's own or a committed one.
  lemma CompleteClaims(store: Store, t: Tx, plans: Plans)
    requires t.next == CLAIM && t.billing.None? && t.reply == Open && t.d.event.CustomerId().Some?
    requires t.account == OwnerOf(store, t.d.event.CustomerId())
    requires var b := BillingOf(store, t.account); t.plan == if b.Some? then b.value.plan else NIL
    requires var row := Get(store.hooks, t.d.event.eventId);
      if row.Some? then t.mine.None? && row.value.Claimable() else t.mine == Some(NewRow(t.d, t.account))
    ensures Result(Complete(store, t, plans)) ==
      ClaimAlone(store, t.d, Claimed(store, t.d, t.account), t.account, plans)
    ensures Logged(Complete(store, t, plans).1) ==
      if t.account.Some? then AppliedTo(store, t.d, t.account.value, plans) else []
  {
    CompleteNext(store, t, plans);
    var t1 := Claim(Look(store, t), t);
    if t1.next == READ_LAST {
      CompleteApplies(store, t1, plans);
    } else {
      CompleteNext(store, t1, plans);
      CompleteEnds(store, Park(t1), plans);
    }
  }

  lemma CompleteReprocesses(store: Store, t: Tx, plans: Plans)
    requires t.next == FIND || t.next == RESOLVE_AGAIN
    requires t == NewTx(t.d).(next := t.next)
    requires var row := Get(store.hooks, t.d.event.eventId);
      row.Some? && row.value.Claimable() && row.value.hash == t.d.hash && t.d.event.Kind() != Unhandled
    ensures Result(Complete(store, t, plans)) == DeliverAlone(store, t.d, plans)
    ensures Logged(Complete(store, t, plans).1) == AppliedAlone(store, t.d, plans)
    decreases RESOLVE_AGAIN - t.next
  {
    CompleteNext(store, t, plans);
    if t.next == FIND {
      CompleteReprocesses(store, t.(next := RESOLVE_AGAIN), plans);
    } else if t.d.event.CustomerId().Some? {
      CompleteClaims(store, Resolve(Look(store, t), t), plans);
    } else {
      CompleteEnds(store, Resolve(Look(store, t), t), plans);
    }
  }

  lemma CompleteStores(store: Store, t: Tx, plans: Plans)
    requires t == NewTx(t.d).(next := RESOLVE) && Get(store.hooks, t.d.event.eventId).None?
    requires t.d.event.Kind() != Unhandled
    ensures Result(Complete(store, t, plans)) == DeliverAlone(store, t.d, plans)
    ensures Logged(Complete(store, t, plans).1) == AppliedAlone(store, t.d, plans)
  {
    CompleteNext(store, t, plans);
    var t1 := Resolve(Look(store, t), t);
    if t.d.event.CustomerId().Some? {
      CompleteNext(store, t1, plans);
      CompleteClaims(store, Insert(Look(store, t1), t1), plans);
    } else {
      CompleteEnds(store, t1, plans);
    }
  }

  // Main result: a delivery that runs alone does what DeliverAlone says, statement by statement.
  lemma DeliveryAlone(store: Store, d: Delivery, plans: Plans)
    ensures Result(Complete(store, NewTx(d), plans)) == DeliverAlone(store, d, plans)
    ensures Logged(Complete(store, NewTx(d), plans).1) == AppliedAlone(store, d, plans)
  {
    var t := NewTx(d);
    CompleteNext(store, t, plans);
    var t1 := Find(Look(store, t), t);
    if t1.next == RESOLVE { CompleteStores(store, t1, plans); }
    else if t1.next == RESOLVE_AGAIN { CompleteReprocesses(store, t, plans); }
    else { CompleteEnds(store, t1, plans); }
  }

  // ---------------------------------------------------------------- one call after another

  ghost predicate SerialRun(of: EventOf, start: Store, states: seq<State>, actions: seq<Action>) {
    Reachable(of, start, states, actions) && forall i | 0 <= i < |actions| :: Serial(states[i], actions[i])
  }

  lemma ExtendSerialRun(of: EventOf, start: Store, states: seq<State>, actions: seq<Action>, a: Action)
    requires SerialRun(of, start, states, actions) && Genuine(of, a)
    requires Enabled(states[|actions|], a) && Serial(states[|actions|], a)
    ensures SerialRun(of, start, states + [Step(states[|actions|], a)], actions + [a])
  {
    var ss, aa := states + [Step(states[|actions|], a)], actions + [a];
    ExtendRun(states, actions, a, Step(states[|actions|], a));
    forall i | 0 <= i < |aa| ensures Genuine(of, aa[i]) && Serial(ss[i], aa[i]) {
      if i < |actions| { assert aa[i] == actions[i] && ss[i] == states[i]; }
    }
  }

  ghost predicate AllEnded(txs: map<nat, Tx>) {
    forall u | u in txs :: txs[u].next == ENDED
  }

  ghost predicate Alone(txs: map<nat, Tx>, id: nat) {
    id in txs && forall u | u in txs && u != id :: txs[u].next == ENDED
  }

  lemma AloneIsEnabled(s: State, id: nat, plans: Plans)
    requires Alone(s.txs, id) && s.txs[id].next < ENDED
    ensures Enabled(s, Advance(id, plans)) && Serial(s, Advance(id, plans))
  {
  }

  lemma StepCompletes(s: State, id: nat, plans: Plans)
    requires id in s.txs && s.txs[id].next < ENDED
    ensures var after := Step(s, Advance(id, plans));
      && Complete(after.store, after.txs[id], plans) == Complete(s.store, s.txs[id], plans)
      && s.txs[id].next < after.txs[id].next
  {
    ActAdvances(Look(s.store, s.txs[id]), s.txs[id], plans);
  }

  // Before its commit a delivery that is under way has changed nothing.
  ghost predicate UnderWay(t: Tx) {
    t.next < COMMIT ==> t.billing.None?
  }

  lemma ActStaysUnderWay(seen: Seen, t: Tx, plans: Plans)
    requires t.next < COMMIT && UnderWay(t)
    ensures UnderWay(Act(seen, t, plans))
    ensures Act(seen, t, plans).next == ENDED ==> Logged(Act(seen, t, plans)) == []
  {
  }

  // What a delivery under way still adds to the log.
  function ToLog(store: Store, t: Tx, plans: Plans): seq<Applied> {
    if t.next == ENDED then [] else Logged(Complete(store, t, plans).1)
  }

  lemma StepLogs(s: State, id: nat, plans: Plans)
    requires id in s.txs && s.txs[id].next < ENDED && UnderWay(s.txs[id])
    ensures var after := Step(s, Advance(id, plans));
      UnderWay(after.txs[id]) &&
      after.log + ToLog(after.store, after.txs[id], plans) == s.log + ToLog(s.store, s.txs[id], plans)
  {
    var t := s.txs[id];
    if t.next < COMMIT {
      ActStaysUnderWay(Look(s.store, t), t, plans);
      CompleteNext(s.store, t, plans);
    } else {
      CompleteEnds(s.store, t, plans);
      assert s.log + Logged(t) + [] == s.log + Logged(t);
    }
  }

  // A run goes on with a delivery that has the tables to itself.
  lemma {:induction false} RunOn(of: EventOf, start: Store, states: seq<State>, actions: seq<Action>, id: nat,
                                 plans: Plans)
      returns (more: seq<State>, done: seq<Action>)
    requires SerialRun(of, start, states, actions) && Alone(states[|actions|].txs, id)
    requires UnderWay(states[|actions|].txs[id])
    ensures SerialRun(of, start, more, done) && AllEnded(more[|done|].txs)
    ensures var s := states[|actions|];
      && more[|done|].store == Complete(s.store, s.txs[id], plans).0
      && more[|done|].log == s.log + ToLog(s.store, s.txs[id], plans)
    decreases ENDED - states[|actions|].txs[id].next
  {
    var s, a := states[|actions|], Advance(id, plans);
    if s.txs[id].next == ENDED {
      assert s.log + [] == s.log;
      return states, actions;
    }
    AloneIsEnabled(s, id, plans);
    ExtendSerialRun(of, start, states, actions, a);
    StepCompletes(s, id, plans);
    StepLogs(s, id, plans);
    more, done := RunOn(of, start, states + [Step(s, a)], actions + [a], id, plans);
  }

  datatype Operation = Delivered(d: Delivery, plans: Plans) | Linked(account: Uuid, customer: string)

  function Perform(store: Store, op: Operation): Store {
    match op
    case Delivered(d, plans) => DeliverAlone(store, d, plans).0
    case Linked(account, customer) => LinkCustomer(store, account, customer).0
  }

  function PerformAll(store: Store, ops: seq<Operation>): Store {
    if ops == [] then store else Perform(PerformAll(store, ops[..|ops| - 1]), ops[|ops| - 1])
  }

  // The writes the operations apply, in order.
  function AppliedBy(store: Store, op: Operation): seq<Applied> {
    if op.Delivered? then AppliedAlone(store, op.d, op.plans) else []
  }

  function AppliedAll(store: Store, ops: seq<Operation>): seq<Applied> {
    if ops == [] then []
    else
      var before := ops[..|ops| - 1];
      AppliedAll(store, before) + AppliedBy(PerformAll(store, before), ops[|ops| - 1])
  }

  lemma RunOperation(of: EventOf, start: Store, states: seq<State>, actions: seq<Action>, op: Operation)
      returns (more: seq<State>, done: seq<Action>)
    requires SerialRun(of, start, states, actions) && AllEnded(states[|actions|].txs)
    requires op.Delivered? ==> op.d.event == of(op.d.hash)
    ensures SerialRun(of, start, more, done) && AllEnded(more[|done|].txs)
    ensures more[|done|].store == Perform(states[|actions|].store, op)
    ensures more[|done|].log == states[|actions|].log + AppliedBy(states[|actions|].store, op)
  {
    var s := states[|actions|];
    match op
    case Linked(account, customer) =>
      var a := Link(account, customer);
      ExtendSerialRun(of, start, states, actions, a);
      more, done := states + [Step(s, a)], actions + [a];
      assert s.log + [] == s.log;
    case Delivered(d, plans) =>
      var id := UnusedId(s.txs);
      var a := Deliver(id, d);
      ExtendSerialRun(of, start, states, actions, a);
      DeliveryAlone(s.store, d, plans);
      more, done := RunOn(of, start, states + [Step(s, a)], actions + [a], id, plans);
  }

  lemma {:induction false} RunOperations(of: EventOf, start: Store, ops: seq<Operation>)
      returns (states: seq<State>, actions: seq<Action>)
    requires StoreOk(of, start) && forall i | 0 <= i < |ops| && ops[i].Delivered? :: ops[i].d.event == of(ops[i].d.hash)
    ensures SerialRun(of, start, states, actions) && AllEnded(states[|actions|].txs)
    ensures states[|actions|].store == PerformAll(start, ops) && states[|actions|].log == AppliedAll(start, ops)
    decreases |ops|
  {
    if ops == [] {
      states, actions := [State(start, map[], [])], [];
    } else {
      states, actions := RunOperations(of, start, ops[..|ops| - 1]);
      states, actions := RunOperation(of, start, states, actions, ops[|ops| - 1]);
    }
  }

  // Main result: the events that deliveries and links, taken one after another, apply to an account
  // never go back in time; no event is applied twice, the account's billing is what the applied
  // events make of it, and its newest processed event is the last one applied.
  lemma AtomicDeliveriesKeepOrder(of: EventOf, start: Store, ops: seq<Operation>)
    requires StoreOk(of, start) && forall i | 0 <= i < |ops| && ops[i].Delivered? :: ops[i].d.event == of(ops[i].d.hash)
    ensures InOrder(start.hooks, AppliedAll(start, ops))
    ensures MaximaMatch(start, PerformAll(start, ops), AppliedAll(start, ops))
    ensures LogOk(start, PerformAll(start, ops), AppliedAll(start, ops))
  {
    var states, actions := RunOperations(of, start, ops);
    SerialRunsKeepOrder(of, start, states, actions, |actions|);
    RunKeeps(of, start, states, actions, |actions|);
  }
}
