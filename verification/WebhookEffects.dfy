/** What a delivery replies and writes, said of the event and of the tables alone. */
module WebhookEffects {
  import opened Text
  import opened Uuids
  import opened PaddleEvents
  import opened WebhookModel
  import opened WebhookInvariant
  import opened WebhookRuns
  import opened WebhookStore

  // ---------------------------------------------------------------- every run

  // Main result: in every run a commit that bills an account does to it what the event says, field by
  // field, decided with the plan the delivery had read, and leaves every other account alone; any
  // other step leaves all billing alone.
  lemma CommitHasEffect(of: EventOf, start: Store, states: seq<State>, actions: seq<Action>, n: nat, a: Uuid)
    requires Reachable(of, start, states, actions) && n < |actions| && a in states[n].store.accounts
    ensures a in states[n + 1].store.accounts
    ensures var before, after := states[n].store.accounts[a].billing, states[n + 1].store.accounts[a].billing;
      if Bills(states[n], actions[n], a) then
        var t := states[n].txs[actions[n].id]; Effect(t.d.event, t.plan, t.plans, before, after)
      else after == before
  {
    var s, step := states[n], actions[n];
    RunKeeps(of, start, states, actions, n);
    if step.Link? {
      LinkAdds(s.store, step.account, step.customer);
    } else if step.Advance? && s.txs[step.id].next == COMMIT {
      var t := s.txs[step.id];
      assert TxOk(of, Look(s.store, t), t);
      BillingAfterCommit(s.store, t, Some(a));
      if Bills(s, step, a) { DecisionHasEffect(t.d.event, t.plan, t.plans, s.store.accounts[a].billing); }
    }
  }

  // The step commits a delivery with a change of the account's billing.
  predicate Bills(s: State, step: Action, a: Uuid) {
    step.Advance? && step.id in s.txs && s.txs[step.id].next == COMMIT
    && s.txs[step.id].billing.Some? && s.txs[step.id].account == Some(a)
  }

  // ---------------------------------------------------------------- one call alone

  // The event reaches its account: it is handled, new or to be retried with the same bytes, of a
  // linked account, not older than the newest processed event, not refused, and its subscription
  // id, if it changes the account's, is no other account's.
  ghost predicate Reaches(store: Store, d: Delivery, plans: Plans, a: Uuid) {
    var row := Get(store.hooks, d.event.eventId);
    var customer := Customer(d.event);
    && d.event.Kind() != Unhandled
    && (row.Some? ==> row.value.hash == d.hash && (row.value.status == Received || row.value.status == Status.Failed))
    && customer.Some? && customer.value in store.owners && store.owners[customer.value] == a && a in store.accounts
    && !(Last(store.hooks, a).Some? && d.event.occurredAt < Last(store.hooks, a).value)
    && Decide(d.event, store.accounts[a].billing.plan, plans).Ok?
    && (Renames(d.event, store.accounts[a].billing, plans) ==>
          forall b | b in store.accounts && b != a :: store.accounts[b].billing.subscription != d.event.data.id)
  }

  // The payload's customer id, else that of its customer object.
  ghost function Customer(e: PaddleEvent): Option<string> {
    if e.data.customerId.Some? then e.data.customerId
    else if e.data.customer.Some? then e.data.customer.value.id else None
  }

  // Creations, upgrades and renewals write the event's subscription id.
  ghost predicate Renames(e: PaddleEvent, b: Billing, plans: Plans) {
    && e.data.id.Some? && e.data.id != b.subscription
    && (e.Kind() == Created
        || (e.Kind() == Updated && b.plan in plans.byId
            && forall plan: Plan | Buys(e, plans, plan) :: plan.priority >= plans.byId[b.plan].priority))
  }

  lemma RenamesIff(e: PaddleEvent, b: Billing, plans: Plans)
    requires Decide(e, b.plan, plans).Ok?
    ensures Decide(e, b.plan, plans).value.On(b).subscription != b.subscription <==> Renames(e, b, plans)
  {
    if e.Kind() == Updated { assert Buys(e, plans, LoadPlan(e, plans).value); }
  }

  lemma WritesIff(store: Store, d: Delivery, plans: Plans, a: Uuid)
    requires a in store.accounts
    ensures Writes(store, d, a, store.accounts[a].billing.plan, plans) <==>
      && Decide(d.event, store.accounts[a].billing.plan, plans).Ok?
      && (Renames(d.event, store.accounts[a].billing, plans) ==>
            forall b | b in store.accounts && b != a :: store.accounts[b].billing.subscription != d.event.data.id)
  {
    var b := store.accounts[a].billing;
    if Decide(d.event, b.plan, plans).Ok? { RenamesIff(d.event, b, plans); }
  }

  lemma AppliedIff(store: Store, d: Delivery, plans: Plans, a: Uuid)
    ensures AppliedAlone(store, d, plans) != [] && AppliedAlone(store, d, plans)[0].account == a <==>
      Reaches(store, d, plans, a)
    ensures Reaches(store, d, plans, a) ==>
      AppliedAlone(store, d, plans) == [Applied(d, a, store.accounts[a].billing.plan, plans)]
  {
    assert Customer(d.event) == d.event.CustomerId();
    if a in store.accounts { WritesIff(store, d, plans, a); }
  }

  // Main result: a call alone does to an account what its event says, field by field, if the event
  // reaches it, and otherwise nothing.
  lemma CallHasEffect(store: Store, d: Delivery, plans: Plans, a: Uuid)
    requires a in store.accounts
    ensures a in DeliverAlone(store, d, plans).0.accounts
    ensures var before, after := store.accounts[a].billing, DeliverAlone(store, d, plans).0.accounts[a].billing;
      if Reaches(store, d, plans, a) then Effect(d.event, before.plan, plans, before, after) else after == before
  {
    var b := store.accounts[a].billing;
    AppliedIff(store, d, plans, a);
    AppliedIsWritten(store, d, plans, a);
    var applied := AppliedAlone(store, d, plans);
    if applied != [] { assert applied[..0] == []; }
    if Reaches(store, d, plans, a) { DecisionHasEffect(d.event, b.plan, plans, b); }
  }

  // ---------------------------------------------------------------- the event's row

  // The newest processed event of an account.
  ghost predicate IsProcessed(row: Hook, a: Uuid) {
    row.account == Some(a) && row.status == Processed
  }

  lemma {:induction false} LastIs(hooks: seq<Hook>, a: Uuid)
    ensures var last := Last(hooks, a);
      && (last.None? ==> forall i | 0 <= i < |hooks| :: !IsProcessed(hooks[i], a))
      && (last.Some? ==> (forall i | 0 <= i < |hooks| && IsProcessed(hooks[i], a) :: hooks[i].at <= last.value)
                         && exists i | 0 <= i < |hooks| :: IsProcessed(hooks[i], a) && hooks[i].at == last.value)
    decreases |hooks|
  {
    if hooks != [] {
      var rest := hooks[1..];
      LastIs(rest, a);
      assert forall i | 0 <= i < |rest| :: rest[i] == hooks[i + 1];
      forall i | 0 <= i < |hooks| && IsProcessed(hooks[i], a)
        ensures Last(hooks, a).Some? && hooks[i].at <= Last(hooks, a).value
      {
        if i > 0 { assert IsProcessed(rest[i - 1], a); }
      }
      if Last(rest, a).Some? {
        var i :| 0 <= i < |rest| && IsProcessed(rest[i], a) && rest[i].at == Last(rest, a).value;
        assert IsProcessed(hooks[i + 1], a) && hooks[i + 1].at == Last(rest, a).value;
      }
    }
  }

  // How a call alone ends: its reply, and the status it leaves on the event's row, if it writes one.
  datatype Ending = Ending(reply: Reply, status: Option<Status>)

  // A call that reaches nobody's row: the event is not handled, in conflict, settled, in progress or
  // of no customer.
  ghost predicate Stops(store: Store, d: Delivery, reply: Reply) {
    var row := Get(store.hooks, d.event.eventId);
    if d.event.Kind() == Unhandled then reply == Done(Ignored)
    else if row.Some? && row.value.hash != d.hash then reply == Refused(PayloadHashConflict)
    else if row.Some? && (row.value.status == Processed || row.value.status == Waiting) then reply == Done(Idempotent)
    else if row.Some? && row.value.status == Processing then reply == Refused(InvalidStatusTransition)
    else Customer(d.event).None? && reply == Refused(MissingField("customer_id"))
  }

  // A call that works on the row of its event.
  ghost function EndingOf(store: Store, d: Delivery, plans: Plans): Ending
    requires Customer(d.event).Some?
  {
    if Customer(d.event).value !in store.owners then Ending(Done(WaitingForAccountLink), Some(Waiting))
    else
      var a := store.owners[Customer(d.event).value];
      var last := Last(store.hooks, a);
      var read := if a in store.accounts then store.accounts[a].billing.plan else NIL;
      var decision := Decide(d.event, read, plans);
      if last.Some? && d.event.occurredAt < last.value then Ending(Done(WasProcessed), Some(Processed))
      else if decision.Err? then Ending(Refused(decision.error), Some(Status.Failed))
      else if a in store.accounts && !Writes(store, d, a, read, plans) then Ending(Refused(DatabaseError), None)
      else Ending(Done(WasProcessed), Some(Processed))
  }

  // The event's row as it is, or as a first delivery writes it.
  ghost function Held(store: Store, d: Delivery): Hook {
    var row := Get(store.hooks, d.event.eventId);
    if row.Some? then row.value
    else
      var customer := Customer(d.event);
      Hook(d.event.eventId, d.hash,
           if customer.Some? && customer.value in store.owners then Some(store.owners[customer.value]) else None,
           d.event.occurredAt, Received)
  }

  // The tables after a call that works on its row; a pending link has the customer's e-mail, if any.
  ghost predicate EndsIn(store: Store, d: Delivery, e: Ending, after: Store)
    requires Customer(d.event).Some?
  {
    && after.owners == store.owners
    && (var email := if d.event.data.customer.Some? then d.event.data.customer.value.email else None;
        after.links == if e.reply != Done(WaitingForAccountLink) then store.links
                       else store.links + [(Customer(d.event).value, if email.Some? then email.value else "")])
    && after.hooks == if e.status.None? then store.hooks
                      else Put(store.hooks, Held(store, d).(status := e.status.value))
  }

  lemma AppliedEnds(store: Store, d: Delivery, plans: Plans)
    requires Customer(d.event).Some? && Customer(d.event).value in store.owners
    ensures var a, e := store.owners[Customer(d.event).value], EndingOf(store, d, plans);
      var r := ApplyAlone(store, d, Held(store, d), a, plans);
      r.1 == e.reply && EndsIn(store, d, e, r.0)
  {
  }

  lemma WorkingEnds(store: Store, d: Delivery, plans: Plans)
    requires Customer(d.event).Some?
    ensures var e, owner := EndingOf(store, d, plans), OwnerOf(store, Customer(d.event));
      var r := ClaimAlone(store, d, Held(store, d), owner, plans);
      r.1 == e.reply && EndsIn(store, d, e, r.0)
  {
    if Customer(d.event).value in store.owners { AppliedEnds(store, d, plans); }
  }

  lemma StopsOrWorks(store: Store, d: Delivery, plans: Plans)
    ensures var r := DeliverAlone(store, d, plans);
      if Stops(store, d, r.1) then r.0 == store
      else
        && Customer(d.event).Some?
        && r == ClaimAlone(store, d, Held(store, d), OwnerOf(store, Customer(d.event)), plans)
  {
    assert Customer(d.event) == d.event.CustomerId();
  }

  // Main result: a call alone either stops and changes nothing, or ends as its event and the tables
  // say: with its reply, with the status on the event's own row, which it writes if there was none,
  // and, if no account is linked, with one more pending link. No other row changes.
  lemma CallEnds(store: Store, d: Delivery, plans: Plans, id: string)
    ensures var (after, reply) := DeliverAlone(store, d, plans);
      if Stops(store, d, reply) then after == store
      else
        && Customer(d.event).Some? && reply == EndingOf(store, d, plans).reply
        && EndsIn(store, d, EndingOf(store, d, plans), after)
        && Get(after.hooks, id) ==
             if id != Held(store, d).id || EndingOf(store, d, plans).status.None? then Get(store.hooks, id)
             else Some(Held(store, d).(status := EndingOf(store, d, plans).status.value))
  {
    StopsOrWorks(store, d, plans);
    if Customer(d.event).Some? {
      WorkingEnds(store, d, plans);
      var status := EndingOf(store, d, plans).status;
      if status.Some? { GetPut(store.hooks, Held(store, d).(status := status.value), id); }
    }
  }

  // ---------------------------------------------------------------- links

  // A customer is linked to an account exactly if neither is linked yet; being linked already counts
  // as linked, and the three refusals change nothing.
  lemma LinkIs(store: Store, account: Uuid, customer: string)
    ensures var (after, r) := LinkCustomer(store, account, customer);
      if customer in store.owners then
        after == store && r == if store.owners[customer] == account then LinkResult.Linked else CustomerTaken
      else if account !in store.accounts then after == store && r == NoAccount
      else if store.accounts[account].customer.Some? then after == store && r == AccountTaken
      else
        && r == LinkResult.Linked && after.owners == store.owners[customer := account]
        && after.hooks == store.hooks && after.links == store.links
        && after.accounts == store.accounts[account := Account(Some(customer), store.accounts[account].billing)]
  {
  }
}
