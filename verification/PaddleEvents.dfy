/** Paddle events and what they do to an account's billing (src/paddle/models.rs, processor.rs). */
module PaddleEvents {
  import opened Text
  import opened Uuids
  import opened Structure

  datatype Customer = Customer(id: Option<string>, email: Option<string>)
  datatype EventData = EventData(id: Option<string>, customerId: Option<string>, customer: Option<Customer>,
                                 periodEnd: Option<Time>, items: Option<seq<Option<string>>>)
  datatype PaddleEvent = PaddleEvent(eventId: string, eventType: string, occurredAt: Time, data: EventData)
  {
    // The payload's own customer id, else the id of its customer object.
    function CustomerId(): Option<string> {
      if data.customerId.Some? then data.customerId
      else if data.customer.Some? then data.customer.value.id
      else None
    }

    function CustomerEmail(): Option<string> {
      if data.customer.Some? then data.customer.value.email else None
    }

    // The price of the first item.
    function PriceId(): Option<string> {
      if data.items.Some? && data.items.value != [] then data.items.value[0] else None
    }

    function Kind(): Kind { KindOf(Normalized(eventType)) }
  }

  // replace('.', "_").to_lowercase(); no other character lower-cases to a letter of the four names.
  function Normalized(s: string): (r: string)
    ensures |r| == |s|
  {
    seq(|s|, i requires 0 <= i < |s| => if s[i] == '.' then '_' else Lower(s[i]))
  }

  datatype Kind = Created | Updated | PastDue | Canceled | Unhandled

  function KindOf(normalized: string): Kind {
    if normalized == "subscription_created" then Created
    else if normalized == "subscription_updated" then Updated
    else if normalized == "subscription_past_due" then PastDue
    else if normalized == "subscription_canceled" then Canceled
    else Unhandled
  }

  datatype WebhookError =
    | PayloadHashConflict | InvalidStatusTransition | PlanNotFound | MissingField(name: string) | DatabaseError

  // ---------------------------------------------------------------- plans and billing

  datatype Plan = Plan(id: Uuid, priority: int)
  datatype Plans = Plans(byPrice: map<string, Plan>, byId: map<Uuid, Plan>)

  datatype Subscription = NoSubscription | Active | Late | Ended
  datatype Billing = Billing(plan: Uuid, pending: Option<Uuid>, status: Subscription, periodEnd: Option<Time>,
                             subscription: Option<string>)

  // The UPDATE statements of the four handlers.
  datatype Write =
    | Activate(plan: Uuid, periodEnd: Time, subscription: Option<string>)
    | Schedule(pending: Uuid)
    | Refresh(periodEnd: Time, subscription: Option<string>)
    | MarkLate
    | MarkEnded(periodEnd: Time)
  {
    function On(b: Billing): Billing {
      match this
      case Activate(p, end, sub) => Billing(p, None, Active, Some(end), Coalesce(sub, b.subscription))
      case Schedule(p) => b.(pending := Some(p))
      case Refresh(end, sub) =>
        b.(status := Active, periodEnd := Some(end), subscription := Coalesce(sub, b.subscription))
      case MarkLate => b.(status := Late)
      case MarkEnded(end) => b.(status := Ended, periodEnd := Some(end))
    }
  }

  function Coalesce<T>(a: Option<T>, b: Option<T>): Option<T> {
    if a.Some? then a else b
  }

  function LoadPlan(e: PaddleEvent, plans: Plans): Result<Plan, WebhookError> {
    var price := e.PriceId();
    if price.None? then Err(MissingField("price_id"))
    else if price.value !in plans.byPrice then Err(PlanNotFound)
    else Ok(plans.byPrice[price.value])
  }

  function PeriodEnd(e: PaddleEvent): Result<Time, WebhookError> {
    if e.data.periodEnd.Some? then Ok(e.data.periodEnd.value) else Err(MissingField("current_period_end"))
  }

  function DecideCreated(e: PaddleEvent, plans: Plans): Result<Write, WebhookError> {
    var plan := LoadPlan(e, plans);
    if plan.Err? then Err(plan.error)
    else if PeriodEnd(e).Err? then Err(PeriodEnd(e).error)
    else Ok(Activate(plan.value.id, PeriodEnd(e).value, e.data.id))
  }

  // An upgrade takes effect at once, a downgrade is scheduled, the same plan is renewed. `current`
  // is the plan the account had when the delivery looked the account up.
  function DecideUpdated(e: PaddleEvent, current: Uuid, plans: Plans): Result<Write, WebhookError> {
    var plan := LoadPlan(e, plans);
    if plan.Err? then Err(plan.error)
    else if current !in plans.byId then Err(DatabaseError)
    else if PeriodEnd(e).Err? then Err(PeriodEnd(e).error)
    else if plan.value.priority > plans.byId[current].priority then
      Ok(Activate(plan.value.id, PeriodEnd(e).value, e.data.id))
    else if plan.value.priority < plans.byId[current].priority then Ok(Schedule(plan.value.id))
    else Ok(Refresh(PeriodEnd(e).value, e.data.id))
  }

  // What apply_event decides to write before it touches the account.
  function Decide(e: PaddleEvent, current: Uuid, plans: Plans): Result<Write, WebhookError> {
    match e.Kind()
    case Created => DecideCreated(e, plans)
    case Updated => DecideUpdated(e, current, plans)
    case PastDue => Ok(MarkLate)
    case Canceled => if PeriodEnd(e).Err? then Err(PeriodEnd(e).error) else Ok(MarkEnded(PeriodEnd(e).value))
    case Unhandled => Err(DatabaseError)
  }

  // ---------------------------------------------------------------- what an event does, field by field

  // The price of the first item, if it is the price of a plan.
  ghost predicate Buys(e: PaddleEvent, plans: Plans, plan: Plan) {
    && e.data.items.Some? && e.data.items.value != [] && e.data.items.value[0].Some?
    && e.data.items.value[0].value in plans.byPrice && plans.byPrice[e.data.items.value[0].value] == plan
  }

  // A plan put in force: nothing is pending, the subscription is active until the event's period end,
  // under the event's subscription id or, if it has none, the old one.
  ghost predicate Activated(e: PaddleEvent, plan: Uuid, before: Billing, after: Billing) {
    && after.plan == plan && after.pending == None && after.status == Active
    && e.data.periodEnd.Some? && after.periodEnd == e.data.periodEnd
    && after.subscription == if e.data.id.Some? then e.data.id else before.subscription
  }

  // A downgrade only waits.
  ghost predicate Scheduled(plan: Uuid, before: Billing, after: Billing) {
    && after.pending == Some(plan) && after.plan == before.plan && after.status == before.status
    && after.periodEnd == before.periodEnd && after.subscription == before.subscription
  }

  // The same plan is renewed, whatever is pending.
  ghost predicate Renewed(e: PaddleEvent, before: Billing, after: Billing) {
    && after.plan == before.plan && after.pending == before.pending && after.status == Active
    && e.data.periodEnd.Some? && after.periodEnd == e.data.periodEnd
    && after.subscription == if e.data.id.Some? then e.data.id else before.subscription
  }

  ghost predicate ChangesTo(e: PaddleEvent, plan: Plan, read: Plan, before: Billing, after: Billing) {
    if plan.priority > read.priority then Activated(e, plan.id, before, after)
    else if plan.priority < read.priority then Scheduled(plan.id, before, after)
    else Renewed(e, before, after)
  }

  // What an event does to the billing of its account; `read` is the plan it is compared with.
  ghost predicate Effect(e: PaddleEvent, read: Uuid, plans: Plans, before: Billing, after: Billing) {
    match e.Kind()
    case Created => exists plan: Plan :: Buys(e, plans, plan) && Activated(e, plan.id, before, after)
    case Updated =>
      read in plans.byId
      && exists plan: Plan :: Buys(e, plans, plan) && ChangesTo(e, plan, plans.byId[read], before, after)
    case PastDue =>
      && after.status == Late && after.plan == before.plan && after.pending == before.pending
      && after.periodEnd == before.periodEnd && after.subscription == before.subscription
    case Canceled =>
      && after.status == Ended && e.data.periodEnd.Some? && after.periodEnd == e.data.periodEnd
      && after.plan == before.plan && after.pending == before.pending && after.subscription == before.subscription
    case Unhandled => false
  }

  lemma DecisionHasEffect(e: PaddleEvent, read: Uuid, plans: Plans, b: Billing)
    requires Decide(e, read, plans).Ok?
    ensures Effect(e, read, plans, b, Decide(e, read, plans).value.On(b))
  {
    if e.Kind() == Created || e.Kind() == Updated { assert Buys(e, plans, LoadPlan(e, plans).value); }
  }

  // Which events are refused, and as what.
  lemma RefusalIs(e: PaddleEvent, read: Uuid, plans: Plans)
    requires e.Kind() != Unhandled
    ensures var decision := Decide(e, read, plans);
      var priced := e.data.items.Some? && e.data.items.value != [] && e.data.items.value[0].Some?;
      var paid := e.Kind() == Created || e.Kind() == Updated;
      if paid && !priced then decision == Err(MissingField("price_id"))
      else if paid && e.data.items.value[0].value !in plans.byPrice then decision == Err(PlanNotFound)
      else if e.Kind() == Updated && read !in plans.byId then decision == Err(DatabaseError)
      else if e.Kind() != PastDue && e.data.periodEnd.None? then decision == Err(MissingField("current_period_end"))
      else decision.Ok?
  {
  }

  // ---------------------------------------------------------------- the kind of an event

  // The same letter in any case, a dot being an underscore.
  predicate SameLetter(a: char, b: char) {
    Lower(if a == '.' then '_' else a) == Lower(if b == '.' then '_' else b)
  }

  lemma SameKind(s: string, t: string)
    requires |s| == |t| && forall i | 0 <= i < |s| :: SameLetter(s[i], t[i])
    ensures KindOf(Normalized(s)) == KindOf(Normalized(t))
  {
    forall i | 0 <= i < |s| ensures Normalized(s)[i] == Normalized(t)[i] {
      assert SameLetter(s[i], t[i]);
    }
    assert Normalized(s) == Normalized(t);
  }

  lemma KindNames(s: string)
    requires forall i | 0 <= i < |s| :: s[i] == '_' || 'a' <= s[i] <= 'z'
    ensures KindOf(Normalized(s)) ==
      if s == "subscription_created" then Created
      else if s == "subscription_updated" then Updated
      else if s == "subscription_past_due" then PastDue
      else if s == "subscription_canceled" then Canceled
      else Unhandled
  {
    assert Normalized(s) == s;
  }

  // ---------------------------------------------------------------- plans that rise and fall

  // A plan table in which the row found by price is the row found by id.
  ghost predicate PlansAgree(plans: Plans) {
    forall p | p in plans.byPrice ::
      plans.byPrice[p].id in plans.byId && plans.byId[plans.byPrice[p].id] == plans.byPrice[p]
  }

  // Decided against the plan in force, an update never lowers it: a cheaper plan only waits, and a
  // dearer one clears whatever waited.
  lemma UpdatesNeverLowerThePlan(e: PaddleEvent, b: Billing, plans: Plans)
    requires PlansAgree(plans) && e.Kind() == Updated && Decide(e, b.plan, plans).Ok?
    ensures var after := Decide(e, b.plan, plans).value.On(b);
      && b.plan in plans.byId && after.plan in plans.byId
      && plans.byId[after.plan].priority >= plans.byId[b.plan].priority
      && (after.plan != b.plan ==>
            plans.byId[after.plan].priority > plans.byId[b.plan].priority && after.pending == None)
      && (after.pending != b.pending && after.pending.Some? ==>
            after.pending.value in plans.byId && plans.byId[after.pending.value].priority < plans.byId[b.plan].priority
            && after.plan == b.plan)
  {
    var price := e.PriceId().value;
    assert plans.byPrice[price].id in plans.byId;
  }

  // Does the account get a plan below the one it had?
  predicate Lowers(before: Billing, after: Billing, plans: Plans) {
    && before.plan in plans.byId && after.plan in plans.byId
    && plans.byId[after.plan].priority < plans.byId[before.plan].priority
  }

  // Decided against any other plan, an update lowers the plan in force exactly if its
  // own plan lies above the plan that was read and below the one in force.
  lemma UpdateLowersIff(e: PaddleEvent, read: Uuid, b: Billing, plans: Plans)
    requires PlansAgree(plans) && e.Kind() == Updated && Decide(e, read, plans).Ok? && b.plan in plans.byId
    ensures read in plans.byId && LoadPlan(e, plans).Ok?
    ensures Lowers(b, Decide(e, read, plans).value.On(b), plans) <==>
      plans.byId[read].priority < LoadPlan(e, plans).value.priority < plans.byId[b.plan].priority
    ensures Lowers(b, Decide(e, read, plans).value.On(b), plans) ==> read != b.plan
  {
    assert plans.byPrice[e.PriceId().value].id in plans.byId;
  }
}
