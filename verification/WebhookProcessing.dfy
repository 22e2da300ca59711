/** The webhook and linking code as it updates its tables (src/paddle/processor.rs, linking.rs). */
module WebhookProcessing {
  import opened Text
  import opened Uuids
  import opened PaddleEvents
  import opened WebhookModel
  import opened WebhookInvariant
  import opened WebhookStore

  lemma {:induction false} PutPut(hooks: seq<Hook>, row: Hook, after: Hook)
    requires row.id == after.id
    ensures Put(Put(hooks, row), after) == Put(hooks, after)
    decreases |hooks|
  {
    if hooks != [] && hooks[0].id != row.id {
      PutPut(hooks[1..], row, after);
      assert ([hooks[0]] + Put(hooks[1..], row))[1..] == Put(hooks[1..], row);
    } else if hooks != [] {
      assert ([row] + hooks[1..])[1..] == hooks[1..];
    } else {
      assert [row][1..] == [];
    }
  }

  // How an attempt to apply an event ends: written, refused with the transaction alive, or with
  // the transaction aborted by the database.
  datatype Attempt = Written | RefusedWith(error: WebhookError) | Aborted

  // An UPDATE of one account under the unique index on subscription ids.
  function UpdateOf(accounts: map<Uuid, Account>, account: Uuid, write: Write,
                    subscription: Option<string>): (map<Uuid, Account>, Attempt) {
    if account !in accounts then (accounts, Written)
    else
      var before, after := accounts[account].billing, write.On(accounts[account].billing);
      if after.subscription != before.subscription && Taken(accounts, account, subscription) then (accounts, Aborted)
      else (accounts[account := accounts[account].(billing := after)], Written)
  }

  function ApplyOf(accounts: map<Uuid, Account>, account: Uuid, plan: Uuid, e: PaddleEvent, plans: Plans): (map<Uuid,
                   Account>, Attempt) {
    var decision := Decide(e, plan, plans);
    if decision.Err? then (accounts, RefusedWith(decision.error))
    else UpdateOf(accounts, account, decision.value, e.data.id)
  }

  // What a written event has done to its account, and to no other.
  ghost predicate HasDone(before: map<Uuid, Account>, account: Uuid, plan: Uuid, e: PaddleEvent, plans: Plans,
                          after: map<Uuid, Account>) {
    if account !in before then after == before
    else
      && account in after && Effect(e, plan, plans, before[account].billing, after[account].billing)
      && after == before[account := Account(before[account].customer, after[account].billing)]
  }

  lemma ApplyHasDone(accounts: map<Uuid, Account>, account: Uuid, plan: Uuid, e: PaddleEvent, plans: Plans)
    ensures var (after, r) := ApplyOf(accounts, account, plan, e, plans);
      if r.Written? then HasDone(accounts, account, plan, e, plans, after) else after == accounts
  {
    if account in accounts && Decide(e, plan, plans).Ok? {
      DecisionHasEffect(e, plan, plans, accounts[account].billing);
    }
  }

  class WebhookProcessor {
    var hooks: seq<Hook>
    var accounts: map<Uuid, Account>
    var owners: map<string, Uuid>
    var links: seq<(string, string)>

    function Contents(): Store reads this { Store(hooks, accounts, owners, links) }

    // ---------------------------------------------------------------- rows

    method InsertReceived(d: Delivery, account: Option<Uuid>)
      requires Get(hooks, d.event.eventId).None?
      modifies `hooks
      ensures hooks == Put(old(hooks), NewRow(d, account))
    {
      hooks := Put(hooks, NewRow(d, account));
    }

    // UPDATE ... SET status = 'processing' WHERE id = ... AND status IN ('received', 'failed')
    method MarkProcessing(id: string) returns (claimed: bool)
      modifies `hooks
      ensures claimed <==> Get(old(hooks), id).Some? && Get(old(hooks), id).value.Claimable()
      ensures var row := Get(old(hooks), id);
        hooks == if claimed then Put(old(hooks), row.value.(status := Processing)) else old(hooks)
    {
      var row := Get(hooks, id);
      claimed := row.Some? && row.value.Claimable();
      if claimed { hooks := Put(hooks, row.value.(status := Processing)); }
    }

    // mark_processed, mark_failed, mark_waiting_for_account_link
    method MarkAs(id: string, status: Status)
      modifies `hooks
      ensures var row := Get(old(hooks), id);
        hooks == if row.Some? && row.value.status == Processing
                 then Put(old(hooks), row.value.(status := status)) else old(hooks)
    {
      var row := Get(hooks, id);
      if row.Some? && row.value.status == Processing { hooks := Put(hooks, row.value.(status := status)); }
    }

    // ---------------------------------------------------------------- handlers

    method UpdateAccount(account: Uuid, write: Write, subscription: Option<string>) returns (r: Attempt)
      modifies `accounts
      ensures (accounts, r) == UpdateOf(old(accounts), account, write, subscription)
    {
      r := Written;
      if account in accounts {
        var before := accounts[account];
        var after := write.On(before.billing);
        if after.subscription != before.billing.subscription && Taken(accounts, account, subscription) {
          return Aborted;
        }
        accounts := accounts[account := before.(billing := after)];
      }
    }

    method SubscriptionCreated(account: Uuid, plan: Uuid, e: PaddleEvent, plans: Plans) returns (r: Attempt)
      requires e.Kind() == Created
      modifies `accounts
      ensures (accounts, r) == ApplyOf(old(accounts), account, plan, e, plans)
      ensures r.Written? ==> HasDone(old(accounts), account, plan, e, plans, accounts)
      ensures !r.Written? ==> accounts == old(accounts)
    {
      ApplyHasDone(accounts, account, plan, e, plans);
      var bought := LoadPlan(e, plans);
      if bought.Err? { return RefusedWith(bought.error); }
      var end := PeriodEnd(e);
      if end.Err? { return RefusedWith(end.error); }
      r := UpdateAccount(account, Activate(bought.value.id, end.value, e.data.id), e.data.id);
    }

    method SubscriptionUpdated(account: Uuid, plan: Uuid, e: PaddleEvent, plans: Plans) returns (r: Attempt)
      requires e.Kind() == Updated
      modifies `accounts
      ensures (accounts, r) == ApplyOf(old(accounts), account, plan, e, plans)
      ensures r.Written? ==> HasDone(old(accounts), account, plan, e, plans, accounts)
      ensures !r.Written? ==> accounts == old(accounts)
    {
      ApplyHasDone(accounts, account, plan, e, plans);
      var bought := LoadPlan(e, plans);
      if bought.Err? { return RefusedWith(bought.error); }
      if plan !in plans.byId { return RefusedWith(DatabaseError); }
      var end := PeriodEnd(e);
      if end.Err? { return RefusedWith(end.error); }
      if bought.value.priority > plans.byId[plan].priority {
        r := UpdateAccount(account, Activate(bought.value.id, end.value, e.data.id), e.data.id);
      } else if bought.value.priority < plans.byId[plan].priority {
        r := UpdateAccount(account, Schedule(bought.value.id), e.data.id);
      } else {
        r := UpdateAccount(account, Refresh(end.value, e.data.id), e.data.id);
      }
    }

    method SubscriptionCanceled(account: Uuid, plan: Uuid, e: PaddleEvent, plans: Plans) returns (r: Attempt)
      requires e.Kind() == Canceled
      modifies `accounts
      ensures (accounts, r) == ApplyOf(old(accounts), account, plan, e, plans)
      ensures r.Written? ==> HasDone(old(accounts), account, plan, e, plans, accounts)
      ensures !r.Written? ==> accounts == old(accounts)
    {
      ApplyHasDone(accounts, account, plan, e, plans);
      var end := PeriodEnd(e);
      if end.Err? { return RefusedWith(end.error); }
      r := UpdateAccount(account, MarkEnded(end.value), e.data.id);
    }

    method ApplyEvent(account: Uuid, plan: Uuid, e: PaddleEvent, plans: Plans) returns (r: Attempt)
      requires e.Kind() != Unhandled
      modifies `accounts
      ensures (accounts, r) == ApplyOf(old(accounts), account, plan, e, plans)
      ensures r.Written? ==> HasDone(old(accounts), account, plan, e, plans, accounts)
      ensures !r.Written? ==> accounts == old(accounts)
    {
      ApplyHasDone(accounts, account, plan, e, plans);
      match e.Kind()
      case Created => r := SubscriptionCreated(account, plan, e, plans);
      case Updated => r := SubscriptionUpdated(account, plan, e, plans);
      case PastDue => r := UpdateAccount(account, MarkLate, e.data.id);
      case Canceled => r := SubscriptionCanceled(account, plan, e, plans);
    }

    // ---------------------------------------------------------------- deliveries

    // The second half of a linked delivery, its row being claimed; `begun` is what a rollback
    // restores.
    method SkipOrApply(d: Delivery, begun: Store, mine: Hook, account: Uuid, plan: Uuid, plans: Plans)
        returns (reply: Reply)
      requires Contents() == SetRow(begun, mine, Processing) && mine.id == d.event.eventId
      requires d.event.Kind() != Unhandled
      requires Get(begun.hooks, mine.id).Some? ==> Get(begun.hooks, mine.id).value.status != Processed
      requires var b := BillingOf(begun, Some(account)); plan == if b.Some? then b.value.plan else NIL
      modifies this
      ensures (Contents(), reply) == ApplyAlone(begun, d, mine, account, plans)
    {
      var id := d.event.eventId;
      var claimed := mine.(status := Processing);
      GetPut(begun.hooks, claimed, id);
      PutPut(begun.hooks, claimed, mine.(status := Processed));
      PutPut(begun.hooks, claimed, mine.(status := Status.Failed));
      LastPut(begun.hooks, claimed, account);
      var last := Last(hooks, account);
      var skip := last.Some? && d.event.occurredAt < last.value;
      if !skip {
        var r := ApplyEvent(account, plan, d.event, plans);
        if r.Aborted? {
          hooks := begun.hooks;
          return Refused(DatabaseError);
        }
        if r.RefusedWith? {
          MarkAs(id, Status.Failed);
          return Refused(r.error);
        }
      }
      MarkAs(id, Processed);
      return Done(WasProcessed);
    }

    method Park(d: Delivery, begun: Store, mine: Hook) returns (reply: Reply)
      requires Contents() == SetRow(begun, mine, Processing) && mine.id == d.event.eventId && d.event.CustomerId().Some?
      modifies this
      ensures (Contents(), reply) == ClaimAlone(begun, d, mine, None, Plans(map[], map[]))
    {
      var claimed := mine.(status := Processing);
      GetPut(begun.hooks, claimed, d.event.eventId);
      PutPut(begun.hooks, claimed, mine.(status := Waiting));
      links := links + [(d.event.CustomerId().value, Email(d.event))];
      MarkAs(d.event.eventId, Waiting);
      return Done(WaitingForAccountLink);
    }

    // reprocess_existing_webhook, for a row that can be claimed.
    method ReprocessExisting(d: Delivery, existing: Hook, plans: Plans) returns (reply: Reply)
      requires Get(hooks, d.event.eventId) == Some(existing) && existing.id == d.event.eventId
      requires existing.Claimable() && existing.hash == d.hash && d.event.Kind() != Unhandled
      modifies this
      ensures (Contents(), reply) == DeliverAlone(old(Contents()), d, plans)
    {
      var begun := Contents();
      var customer := d.event.CustomerId();
      if customer.None? { return Refused(MissingField("customer_id")); }
      var account := OwnerOf(begun, customer);
      var claimed := MarkProcessing(existing.id);
      assert claimed;
      if account.None? {
        reply := Park(d, begun, existing);
      } else {
        var billing := BillingOf(begun, account);
        reply := SkipOrApply(d, begun, existing, account.value,
                             if billing.Some? then billing.value.plan else NIL, plans);
      }
    }

    // store_unlinked_webhook and process_linked_webhook, for an event with no row yet.
    method StoreNew(d: Delivery, plans: Plans) returns (reply: Reply)
      requires Get(hooks, d.event.eventId).None? && d.event.Kind() != Unhandled && d.event.CustomerId().Some?
      modifies this
      ensures (Contents(), reply) == DeliverAlone(old(Contents()), d, plans)
    {
      var begun := Contents();
      var account := OwnerOf(begun, d.event.CustomerId());
      var mine := NewRow(d, account);
      InsertReceived(d, account);
      GetPut(begun.hooks, mine, mine.id);
      PutPut(begun.hooks, mine, mine.(status := Processing));
      var claimed := MarkProcessing(d.event.eventId);
      assert claimed;
      if account.None? {
        reply := Park(d, begun, mine);
      } else {
        var billing := BillingOf(begun, account);
        reply := SkipOrApply(d, begun, mine, account.value, if billing.Some? then billing.value.plan else NIL, plans);
      }
    }

    method ProcessPaddleWebhook(d: Delivery, plans: Plans) returns (reply: Reply)
      modifies this
      ensures (Contents(), reply) == DeliverAlone(old(Contents()), d, plans)
    {
      if d.event.Kind() == Unhandled { return Done(Ignored); }
      var existing := Get(hooks, d.event.eventId);
      if existing.Some? {
        FoundUnderItsId(hooks, d.event.eventId);
        if existing.value.hash != d.hash { return Refused(PayloadHashConflict); }
        if existing.value.Settled() { return Done(Idempotent); }
        if !existing.value.Claimable() { return Refused(InvalidStatusTransition); }
        reply := ReprocessExisting(d, existing.value, plans);
        return;
      }
      if d.event.CustomerId().None? { return Refused(MissingField("customer_id")); }
      reply := StoreNew(d, plans);
    }

    // ---------------------------------------------------------------- links

    method LinkPaddleCustomer(account: Uuid, customer: string) returns (r: LinkResult)
      modifies this
      ensures (Contents(), r) == LinkCustomer(old(Contents()), account, customer)
    {
      if customer in owners {
        return if owners[customer] == account then LinkResult.Linked else CustomerTaken;
      }
      if account !in accounts { return NoAccount; }
      if accounts[account].customer.Some? { return AccountTaken; }
      accounts := accounts[account := accounts[account].(customer := Some(customer))];
      owners := owners[customer := account];
      return LinkResult.Linked;
    }

    // ensure_paddle_customer: an account that has a customer keeps it; `created` is the id of the
    // customer that the Paddle client would create.
    method EnsurePaddleCustomer(account: Uuid, created: string) returns (r: Option<string>)
      requires IndexOk(accounts, owners)
      modifies this
      ensures IndexOk(accounts, owners)
      ensures r.Some? ==> account in accounts && accounts[account].customer == r
      ensures account !in old(accounts) ==> r == None && Contents() == old(Contents())
      ensures account in old(accounts) && old(accounts)[account].customer.Some? ==>
        r == old(accounts)[account].customer && Contents() == old(Contents())
      ensures account in old(accounts) && old(accounts)[account].customer.None? ==>
        (r == None <==> created in old(owners)) && Contents() == LinkCustomer(old(Contents()), account, created).0
    {
      if account !in accounts { return None; }
      if accounts[account].customer.Some? { return accounts[account].customer; }
      LinkAdds(Contents(), account, created);
      var linked := LinkPaddleCustomer(account, created);
      r := if linked.Linked? then Some(created) else None;
    }
  }

  lemma {:induction false} FoundUnderItsId(hooks: seq<Hook>, id: string)
    requires Get(hooks, id).Some?
    ensures Get(hooks, id).value.id == id
    decreases |hooks|
  {
    if hooks[0].id != id { FoundUnderItsId(hooks[1..], id); }
  }
}
