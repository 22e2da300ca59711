/** When a subscription update lowers the plan an account has in force. */
module WebhookPlans {
  import opened Text
  import opened Uuids
  import opened PaddleEvents
  import opened WebhookModel
  import opened WebhookInvariant
  import opened WebhookRuns
  import opened WebhookOrder
  import opened WebhookRace
  import opened WebhookStore

  // ---------------------------------------------------------------- every run

  // Main result: in every run the commit of an update lowers the plan in force exactly if the
  // event's plan lies above the one that the delivery read before its transaction and below the
  // one in force now. So the plan it read is no longer the account's.
  lemma CommitLowersIff(of: EventOf, start: Store, states: seq<State>, actions: seq<Action>, n: nat, t: Tx, b: Billing)
    requires Reachable(of, start, states, actions) && n < |actions| && actions[n].Advance?
    requires t == states[n].txs[actions[n].id] && t.next == COMMIT && t.billing.Some? && t.d.event.Kind() == Updated
    requires BillingOf(states[n].store, t.account) == Some(b) && PlansAgree(t.plans) && b.plan in t.plans.byId
    ensures t.plan in t.plans.byId && LoadPlan(t.d.event, t.plans).Ok?
    ensures BillingOf(states[n + 1].store, t.account).Some?
    ensures Lowers(b, BillingOf(states[n + 1].store, t.account).value, t.plans) <==>
      t.plans.byId[t.plan].priority < LoadPlan(t.d.event, t.plans).value.priority < t.plans.byId[b.plan].priority
    ensures Lowers(b, BillingOf(states[n + 1].store, t.account).value, t.plans) ==> t.plan != b.plan
  {
    var store := states[n].store;
    RunKeeps(of, start, states, actions, n);
    assert TxOk(of, Look(store, t), t);
    BillingAfterCommit(store, t, t.account);
    UpdateLowersIff(t.d.event, t.plan, b, t.plans);
  }

  // Main result: it does happen. Take any two new updates of one linked account, one to a plan
  // above the present one and a later one to a plan in between. There is a run in which both are
  // applied in the order of their times, and the second one lowers the plan that the first one
  // has put in force.
  lemma StaleUpgradeLowers(of: EventOf, start: Store, high: Delivery, mid: Delivery, account: Uuid, plans: Plans)
      returns (states: seq<State>, actions: seq<Action>)
    requires StoreOk(of, start) && high.event == of(high.hash) && mid.event == of(mid.hash) && PlansAgree(plans)
    requires high.event.eventId != mid.event.eventId && high.event.occurredAt <= mid.event.occurredAt
    requires high.event.Kind() == mid.event.Kind() == Updated
    requires Ready(start, high, account, plans) && Ready(start, mid, account, plans)
    requires LoadPlan(high.event, plans).Ok? && LoadPlan(mid.event, plans).Ok?
    requires start.accounts[account].billing.plan in plans.byId
    requires plans.byId[start.accounts[account].billing.plan].priority < LoadPlan(mid.event, plans).value.priority
    requires LoadPlan(mid.event, plans).value.priority < LoadPlan(high.event, plans).value.priority
    ensures Reachable(of, start, states, actions) && actions != [] && InOrder(start.hooks, states[|actions|].log)
    ensures var before := BillingOf(states[|actions| - 1].store, Some(account));
      var after := BillingOf(states[|actions|].store, Some(account));
      && before.Some? && before.value.plan == LoadPlan(high.event, plans).value.id
      && after.Some? && after.value.plan == LoadPlan(mid.event, plans).value.id
      && Lowers(before.value, after.value, plans)
  {
    var b := start.accounts[account].billing;
    states, actions := BothApplied(of, start, mid, high, account, plans);
    ForwardInTime(start.hooks, Applied(high, account, b.plan, plans), Applied(mid, account, b.plan, plans));
    assert high.event.PriceId().value in plans.byPrice && mid.event.PriceId().value in plans.byPrice;
  }

  lemma ForwardInTime(hooks: seq<Hook>, older: Applied, newer: Applied)
    requires older.account == newer.account && older.d.event.occurredAt <= newer.d.event.occurredAt
    requires !Before(older.d.event.occurredAt, Last(hooks, older.account))
    ensures InOrder(hooks, [older, newer])
  {
    assert [older, newer][..1] == [older];
    assert [older][..0] == [];
  }

  // ---------------------------------------------------------------- one call after another

  // A billing whose plan is in the table.
  ghost predicate Planned(b: Option<Billing>, plans: Plans) {
    b.Some? && b.value.plan in plans.byId
  }

  // The account's plan ends below the one it had.
  ghost predicate Falls(before: Option<Billing>, after: Option<Billing>, plans: Plans) {
    before.Some? && after.Some? && Lowers(before.value, after.value, plans)
  }

  // The call creates a subscription of the account with a plan below the one in force.
  ghost predicate CreatesBelow(store: Store, op: Operation, a: Uuid, plans: Plans) {
    && op.Delivered? && op.d.event.Kind() == Created
    && AppliedAlone(store, op.d, plans) != [] && AppliedAlone(store, op.d, plans)[0].account == a
    && LoadPlan(op.d.event, plans).Ok? && Planned(BillingOf(store, Some(a)), plans)
    && LoadPlan(op.d.event, plans).value.priority < plans.byId[BillingOf(store, Some(a)).value.plan].priority
  }

  lemma AppliedFallsIff(store: Store, op: Operation, a: Uuid, plans: Plans)
    requires PlansAgree(plans) && op.Delivered? && Planned(BillingOf(store, Some(a)), plans)
    ensures var b := BillingOf(store, Some(a));
      var after := Replay(b, AppliedAlone(store, op.d, plans), a);
      Planned(after, plans) && (Falls(b, after, plans) <==> CreatesBelow(store, op, a, plans))
  {
    var b, applied := BillingOf(store, Some(a)), AppliedAlone(store, op.d, plans);
    if applied != [] && applied[0].account == a {
      assert applied[..0] == [] && applied[0].plan == b.value.plan;
      if op.d.event.Kind() == Updated { UpdatesNeverLowerThePlan(op.d.event, b.value, plans); }
      if op.d.event.Kind() == Created { assert op.d.event.PriceId().value in plans.byPrice; }
    }
  }

  // A call alone lowers the plan in force exactly if it creates a subscription below it.
  lemma CallLowersIff(store: Store, op: Operation, a: Uuid, plans: Plans)
    requires PlansAgree(plans) && Planned(BillingOf(store, Some(a)), plans) && (op.Delivered? ==> op.plans == plans)
    ensures var after := BillingOf(Perform(store, op), Some(a));
      Planned(after, plans) && (Falls(BillingOf(store, Some(a)), after, plans) <==> CreatesBelow(store, op, a, plans))
  {
    if op.Delivered? {
      AppliedIsWritten(store, op.d, plans, a);
      AppliedFallsIff(store, op, a, plans);
    }
  }

  // The account's billing after the first k calls.
  function BillingAt(start: Store, ops: seq<Operation>, k: nat, a: Uuid): Option<Billing>
    requires k <= |ops|
  {
    BillingOf(PerformAll(start, ops[..k]), Some(a))
  }

  lemma BillingNext(start: Store, ops: seq<Operation>, k: nat, a: Uuid)
    requires k < |ops|
    ensures BillingAt(start, ops, k + 1, a) == BillingOf(Perform(PerformAll(start, ops[..k]), ops[k]), Some(a))
  {
    assert ops[..k + 1][..k] == ops[..k];
  }

  lemma {:induction false} StaysPlanned(start: Store, ops: seq<Operation>, k: nat, a: Uuid, plans: Plans)
    requires PlansAgree(plans) && Planned(BillingOf(start, Some(a)), plans) && k <= |ops|
    requires forall i | 0 <= i < |ops| && ops[i].Delivered? :: ops[i].plans == plans
    ensures Planned(BillingAt(start, ops, k, a), plans)
    decreases k
  {
    if k > 0 {
      StaysPlanned(start, ops, k - 1, a, plans);
      BillingNext(start, ops, k - 1, a);
      CallLowersIff(PerformAll(start, ops[..k - 1]), ops[k - 1], a, plans);
    }
  }

  // Main result: of calls one after another exactly those lower the plan in force that create a
  // subscription below it.
  lemma CallsLowerIff(start: Store, ops: seq<Operation>, k: nat, a: Uuid, plans: Plans)
    requires PlansAgree(plans) && Planned(BillingOf(start, Some(a)), plans) && k < |ops|
    requires forall i | 0 <= i < |ops| && ops[i].Delivered? :: ops[i].plans == plans
    ensures Planned(BillingAt(start, ops, k, a), plans) && Planned(BillingAt(start, ops, k + 1, a), plans)
    ensures Falls(BillingAt(start, ops, k, a), BillingAt(start, ops, k + 1, a), plans) <==>
      CreatesBelow(PerformAll(start, ops[..k]), ops[k], a, plans)
  {
    StaysPlanned(start, ops, k, a, plans);
    StaysPlanned(start, ops, k + 1, a, plans);
    BillingNext(start, ops, k, a);
    CallLowersIff(PerformAll(start, ops[..k]), ops[k], a, plans);
  }

  // So without such a creation the plan at the end is not below the one at the start.
  lemma {:induction false} CallsNeverLower(start: Store, ops: seq<Operation>, k: nat, a: Uuid, plans: Plans)
    requires PlansAgree(plans) && Planned(BillingOf(start, Some(a)), plans) && k <= |ops|
    requires forall i | 0 <= i < |ops| && ops[i].Delivered? :: ops[i].plans == plans
    requires forall i | 0 <= i < |ops| :: !CreatesBelow(PerformAll(start, ops[..i]), ops[i], a, plans)
    ensures Planned(BillingAt(start, ops, k, a), plans)
    ensures !Falls(BillingOf(start, Some(a)), BillingAt(start, ops, k, a), plans)
    decreases k
  {
    if k == 0 {
      assert ops[..0] == [];
    } else {
      CallsNeverLower(start, ops, k - 1, a, plans);
      CallsLowerIff(start, ops, k - 1, a, plans);
    }
  }

  // It does happen: a new creation for a linked account sets its plan, whatever it was.
  lemma CreationLowers(start: Store, d: Delivery, a: Uuid, plans: Plans)
    requires PlansAgree(plans) && Ready(start, d, a, plans) && d.event.Kind() == Created
    requires Planned(BillingOf(start, Some(a)), plans) && LoadPlan(d.event, plans).Ok?
    requires LoadPlan(d.event, plans).value.priority < plans.byId[BillingOf(start, Some(a)).value.plan].priority
    ensures Falls(BillingOf(start, Some(a)), BillingOf(Perform(start, Delivered(d, plans)), Some(a)), plans)
  {
    CallLowersIff(start, Delivered(d, plans), a, plans);
  }
}
