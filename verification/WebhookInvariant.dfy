/** What every interleaving of webhook deliveries and account links keeps. */
module WebhookInvariant {
  import opened Text
  import opened Uuids
  import opened PaddleEvents
  import opened WebhookModel

  // ---------------------------------------------------------------- the tables

  lemma {:induction false} GetPut(hooks: seq<Hook>, row: Hook, id: string)
    ensures Get(Put(hooks, row), id) == if id == row.id then Some(row) else Get(hooks, id)
    decreases |hooks|
  {
    if hooks != [] && hooks[0].id != row.id {
      GetPut(hooks[1..], row, id);
      assert ([hooks[0]] + Put(hooks[1..], row))[1..] == Put(hooks[1..], row);
    } else if hooks != [] {
      assert ([row] + hooks[1..])[1..] == hooks[1..];
    }
  }

  // Writing a row that was not processed before moves the maximum only if it is processed now.
  lemma {:induction false} LastPut(hooks: seq<Hook>, row: Hook, account: Uuid)
    requires Get(hooks, row.id).Some? ==> Get(hooks, row.id).value.status != Processed
    ensures Last(Put(hooks, row), account) ==
      if row.account == Some(account) && row.status == Processed then Later(Last(hooks, account), row.at)
      else Last(hooks, account)
    decreases |hooks|
  {
    if hooks == [] {
      assert [row][1..] == [];
    } else if hooks[0].id == row.id {
      assert ([row] + hooks[1..])[1..] == hooks[1..];
    } else {
      LastPut(hooks[1..], row, account);
      assert ([hooks[0]] + Put(hooks[1..], row))[1..] == Put(hooks[1..], row);
    }
  }

  // The event that delivered bytes with a given hash carry.
  type EventOf = string -> PaddleEvent

  // A committed row: never in between, waiting exactly if no account was linked, and otherwise of
  // the account that owns the event's customer id.
  ghost predicate RowOk(of: EventOf, owners: map<string, Uuid>, id: string, row: Hook) {
    var e := of(row.hash);
    && row.id == id == e.eventId && row.at == e.occurredAt
    && (row.Settled() || row.status == Failed)
    && (row.status == Waiting <==> row.account.None?)
    && (row.account.Some? ==> (e.CustomerId().Some? && e.CustomerId().value in owners
                               && row.account == Some(owners[e.CustomerId().value])))
  }

  ghost predicate HooksOk(of: EventOf, owners: map<string, Uuid>, hooks: seq<Hook>) {
    forall id: string :: Get(hooks, id).Some? ==> RowOk(of, owners, id, Get(hooks, id).value)
  }

  // The index lists the accounts by their customer ids.
  ghost predicate IndexOk(accounts: map<Uuid, Account>, owners: map<string, Uuid>) {
    && (forall c | c in owners :: owners[c] in accounts && accounts[owners[c]].customer == Some(c))
    && (forall a | a in accounts && accounts[a].customer.Some? ::
          accounts[a].customer.value in owners && owners[accounts[a].customer.value] == a)
  }

  ghost predicate StoreOk(of: EventOf, store: Store) {
    HooksOk(of, store.owners, store.hooks) && IndexOk(store.accounts, store.owners)
  }

  // ---------------------------------------------------------------- a delivery

  // A delivery's own version of its row against the committed one.
  ghost predicate MineOk(seen: Seen, t: Tx, mine: Hook) {
    && mine.id == t.d.event.eventId && mine.hash == t.d.hash && mine.account == t.account
    && mine.at == t.d.event.occurredAt
    && (if t.inserted then seen.row.None?
        else seen.row.Some? && seen.row.value.status == Failed && seen.row.value.account == mine.account
             && seen.row.value.hash == mine.hash)
  }

  // What it knows about the row before it holds it.
  ghost predicate KnowsRow(seen: Seen, t: Tx) {
    && (t.next == RESOLVE_AGAIN || (t.next == CLAIM && !t.inserted) ==>
          seen.row.Some? && seen.row.value.hash == t.d.hash)
    && (t.next == CLAIM && !t.inserted && seen.row.value.account.Some? ==> t.account == seen.row.value.account)
  }

  ghost predicate HoldsRight(seen: Seen, t: Tx) {
    && (t.mine.Some? <==> (t.next == CLAIM && t.inserted) || t.next >= PARK)
    && (t.mine.Some? ==> MineOk(seen, t, t.mine.value))
    && (t.next == CLAIM && t.inserted ==> t.mine.value.status == Received)
    && (t.inserted ==> t.next >= CLAIM)
    && (t.next == PARK ==> t.account.None?)
    && (READ_LAST <= t.next <= UPDATE ==> t.account.Some?)
    && (t.next == UPDATE ==> t.Decision().Ok?)
    && (t.next < COMMIT ==> t.billing.None? && t.reply == Open)
  }

  // An uncommitted change of billing is the decided write on the committed billing.
  ghost predicate BillingOk(seen: Seen, t: Tx) {
    && t.account.Some? && seen.billing.Some? && t.Decision().Ok?
    && t.mine.Some? && t.mine.value.status == Processed
    && t.billing == Some(t.Decision().value.On(seen.billing.value))
  }

  ghost predicate ReadyOk(seen: Seen, t: Tx) {
    t.next == COMMIT ==>
      && t.mine.Some? && (t.mine.value.Settled() || t.mine.value.status == Failed)
      && (t.mine.value.status == Waiting <==> t.account.None?)
      && (t.reply.Refused? <==> t.mine.value.status == Failed)
      && (t.billing.Some? ==> BillingOk(seen, t))
  }

  ghost predicate TxOk(of: EventOf, seen: Seen, t: Tx) {
    && t.d.event == of(t.d.hash)
    && (t.next < ENDED ==>
          && (t.account.Some? ==> seen.owner == t.account && seen.billing.Some?)
          && KnowsRow(seen, t) && HoldsRight(seen, t) && ReadyOk(seen, t))
  }

  // No two open deliveries hold the same row or the same account.
  ghost predicate Apart(t: Tx, u: Tx) {
    && !(t.next < ENDED && t.mine.Some? && u.HoldsRow(t.mine.value.id))
    && !(t.next < ENDED && t.billing.Some? && t.account.Some? && u.HoldsAccount(t.account.value))
  }

  ghost predicate TxsOk(of: EventOf, store: Store, txs: map<nat, Tx>) {
    && (forall id | id in txs :: TxOk(of, Look(store, txs[id]), txs[id]))
    && (forall t, u | t in txs && u in txs && t != u :: Apart(txs[t], txs[u]))
  }

  // ---------------------------------------------------------------- the log

  // The billing of an account after the logged writes.
  function Replay(b: Option<Billing>, log: seq<Applied>, account: Uuid): Option<Billing> {
    if log == [] then b
    else
      var before, last := Replay(b, log[..|log| - 1], account), log[|log| - 1];
      if last.account == account && before.Some? && last.Decision().Ok?
      then Some(last.Decision().value.On(before.value))
      else before
  }

  // A logged write comes from a decision that was made, and its event is marked processed.
  ghost predicate EntryOk(hooks: seq<Hook>, e: Applied) {
    var row := Get(hooks, e.d.event.eventId);
    && e.Decision().Ok?
    && row.Some? && row.value.status == Processed && row.value.account == Some(e.account)
    && row.value.at == e.d.event.occurredAt
  }

  ghost predicate LogOk(start: Store, store: Store, log: seq<Applied>) {
    && store.accounts.Keys == start.accounts.Keys
    && (forall i | 0 <= i < |log| :: EntryOk(store.hooks, log[i]))
    && (forall i, j | 0 <= i < j < |log| :: log[i].d.event.eventId != log[j].d.event.eventId)
    && (forall a: Uuid :: BillingOf(store, Some(a)) == Replay(BillingOf(start, Some(a)), log, a))
  }

  ghost predicate Inv(of: EventOf, start: Store, s: State) {
    StoreOk(of, s.store) && TxsOk(of, s.store, s.txs) && LogOk(start, s.store, s.log)
  }

  // ---------------------------------------------------------------- one statement

  ghost predicate SeenOk(of: EventOf, seen: Seen, t: Tx) {
    seen.row.Some? ==>
      var row := seen.row.value;
      && row.id == t.d.event.eventId && row.at == of(row.hash).occurredAt
      && (row.Settled() || row.status == Failed) && (row.status == Waiting <==> row.account.None?)
      && (row.account.Some? && row.hash == t.d.hash && t.d.event == of(t.d.hash) ==> seen.owner == row.account)
  }

  lemma StoreOkSeen(of: EventOf, store: Store, t: Tx)
    requires StoreOk(of, store)
    ensures SeenOk(of, Look(store, t), t)
  {
    var id := t.d.event.eventId;
    assert Get(store.hooks, id).Some? ==> RowOk(of, store.owners, id, Get(store.hooks, id).value);
  }

  // The tables at a later time: rows keep their content until they settle and then stay, owners
  // stay, and what the delivery holds has not changed.
  ghost predicate RowEvolves(before: Option<Hook>, after: Option<Hook>) {
    before.Some? ==>
      && after.Some? && after.value.hash == before.value.hash && after.value.account == before.value.account
      && (before.value.Settled() ==> after == before)
  }

  ghost predicate Moves(before: Seen, after: Seen, t: Tx) {
    && RowEvolves(before.row, after.row)
    && (t.next < ENDED && t.mine.Some? ==> after.row == before.row)
    && (before.owner.Some? ==> after.owner == before.owner)
    && (before.billing.Some? ==> after.billing.Some?)
    && (t.next < ENDED && t.billing.Some? ==> after.billing == before.billing)
  }

  lemma TxOkMoves(of: EventOf, before: Seen, after: Seen, t: Tx)
    requires TxOk(of, before, t) && Moves(before, after, t)
    ensures TxOk(of, after, t)
  {
  }

  // What a statement leaves as it is, and what it takes hold of.
  ghost predicate MovesOn(t: Tx, after: Tx) {
    && after.d == t.d && t.next < after.next
    && (after.next < ENDED && after.mine.Some? && after.mine.value.id == t.d.event.eventId ==>
          (t.mine.Some? && t.mine.value.id == t.d.event.eventId)
          || t.next == INSERT || (t.next == CLAIM && t.mine.None?))
    && (after.next < ENDED && after.billing.Some? && after.account.Some? ==>
          (t.billing.Some? && t.account == after.account) || (t.next == UPDATE && t.account == after.account))
  }

  lemma FindMovesOn(seen: Seen, t: Tx, plans: Plans)
    requires (t.next == FIND || t.next == FIND_AGAIN) && t.billing.None?
    ensures MovesOn(t, Act(seen, t, plans))
  {
  }

  lemma InsertMovesOn(seen: Seen, t: Tx, plans: Plans)
    requires (t.next == RESOLVE || t.next == INSERT) && t.billing.None?
    ensures MovesOn(t, Act(seen, t, plans))
  {
  }

  lemma MiddleActMovesOn(seen: Seen, t: Tx, plans: Plans)
    requires RESOLVE_AGAIN <= t.next <= PARK && t.billing.None?
    ensures MovesOn(t, Act(seen, t, plans))
  {
  }

  lemma LateActMovesOn(seen: Seen, t: Tx, plans: Plans)
    requires READ_LAST <= t.next < ENDED && (t.next < COMMIT ==> t.billing.None?)
    ensures MovesOn(t, Act(seen, t, plans))
  {
  }

  lemma ActMovesOn(seen: Seen, t: Tx, plans: Plans)
    requires t.next < ENDED && (t.next < COMMIT ==> t.billing.None?)
    ensures MovesOn(t, Act(seen, t, plans))
  {
    if t.next == RESOLVE || t.next == INSERT {
      InsertMovesOn(seen, t, plans);
    } else if t.next <= FIND_AGAIN {
      FindMovesOn(seen, t, plans);
    } else if t.next <= PARK {
      MiddleActMovesOn(seen, t, plans);
    } else {
      LateActMovesOn(seen, t, plans);
    }
  }

  lemma MoveApart(t: Tx, after: Tx, u: Tx)
    requires Apart(t, u) && !WaitsFor(t, u) && MovesOn(t, after)
    requires after.next < ENDED && after.mine.Some? ==> after.mine.value.id == t.d.event.eventId
    ensures Apart(after, u) && Apart(u, after)
  {
  }

  // What the delivery sees after a statement of its own: the same, but for the account it looks at.
  ghost predicate SeesOn(seen: Seen, t: Tx, now: Seen, after: Tx) {
    && now.row == seen.row && now.owner == seen.owner
    && (now.billing == seen.billing || t.account != after.account)
    && (now.billing == seen.found || seen.owner != after.account)
    && (seen.owner.Some? ==> seen.found.Some?)
  }

  lemma FindKeeps(of: EventOf, seen: Seen, t: Tx, now: Seen)
    requires SeenOk(of, seen, t) && TxOk(of, seen, t) && (t.next == FIND || t.next == FIND_AGAIN)
    ensures var after := if t.next == FIND then Find(seen, t) else FindAgain(seen, t);
      SeesOn(seen, t, now, after) ==> TxOk(of, now, after)
  {
  }

  lemma ResolveKeeps(of: EventOf, seen: Seen, t: Tx, now: Seen)
    requires SeenOk(of, seen, t) && TxOk(of, seen, t) && (t.next == RESOLVE || t.next == RESOLVE_AGAIN)
    requires SeesOn(seen, t, now, Resolve(seen, t))
    ensures TxOk(of, now, Resolve(seen, t))
  {
  }

  lemma InsertKeeps(of: EventOf, seen: Seen, t: Tx, now: Seen)
    requires SeenOk(of, seen, t) && TxOk(of, seen, t) && t.next == INSERT
    requires SeesOn(seen, t, now, Insert(seen, t))
    ensures TxOk(of, now, Insert(seen, t))
  {
  }

  lemma ClaimKeeps(of: EventOf, seen: Seen, t: Tx, now: Seen)
    requires SeenOk(of, seen, t) && TxOk(of, seen, t) && t.next == CLAIM
    requires SeesOn(seen, t, now, Claim(seen, t))
    ensures TxOk(of, now, Claim(seen, t))
  {
  }

  lemma MarkKeeps(of: EventOf, seen: Seen, t: Tx, now: Seen)
    requires SeenOk(of, seen, t) && TxOk(of, seen, t) && (t.next == PARK || t.next == READ_LAST)
    ensures var after := if t.next == PARK then Park(t) else ReadLast(seen, t);
      SeesOn(seen, t, now, after) ==> TxOk(of, now, after)
  {
  }

  lemma DecideKeeps(of: EventOf, seen: Seen, t: Tx, plans: Plans, now: Seen)
    requires SeenOk(of, seen, t) && TxOk(of, seen, t) && t.next == DECIDE
    requires SeesOn(seen, t, now, MakeDecision(t, plans))
    ensures TxOk(of, now, MakeDecision(t, plans))
  {
  }

  lemma UpdateKeeps(of: EventOf, seen: Seen, t: Tx, now: Seen)
    requires SeenOk(of, seen, t) && TxOk(of, seen, t) && t.next == UPDATE
    requires SeesOn(seen, t, now, Update(seen, t))
    ensures TxOk(of, now, Update(seen, t))
  {
  }

  // Every statement keeps what its delivery knows in step with the tables.
  lemma ActKeeps(of: EventOf, seen: Seen, t: Tx, plans: Plans, now: Seen)
    requires SeenOk(of, seen, t) && TxOk(of, seen, t) && t.next < ENDED
    requires SeesOn(seen, t, now, Act(seen, t, plans))
    ensures TxOk(of, now, Act(seen, t, plans))
  {
    if t.next == FIND || t.next == FIND_AGAIN { FindKeeps(of, seen, t, now); }
    else if t.next == RESOLVE || t.next == RESOLVE_AGAIN { ResolveKeeps(of, seen, t, now); }
    else if t.next == INSERT { InsertKeeps(of, seen, t, now); }
    else if t.next == CLAIM { ClaimKeeps(of, seen, t, now); }
    else if t.next == PARK || t.next == READ_LAST { MarkKeeps(of, seen, t, now); }
    else if t.next == DECIDE { DecideKeeps(of, seen, t, plans, now); }
    else if t.next == UPDATE { UpdateKeeps(of, seen, t, now); }
  }

  // ---------------------------------------------------------------- a commit, a link

  lemma CommitKeepsHooks(of: EventOf, store: Store, t: Tx)
    requires HooksOk(of, store.owners, store.hooks) && TxOk(of, Look(store, t), t) && t.next == COMMIT
    ensures HooksOk(of, store.owners, Put(store.hooks, t.mine.value))
  {
    var hooks := Put(store.hooks, t.mine.value);
    forall id: string | Get(hooks, id).Some? ensures RowOk(of, store.owners, id, Get(hooks, id).value) {
      GetPut(store.hooks, t.mine.value, id);
    }
  }

  lemma BillingKeepsIndex(accounts: map<Uuid, Account>, owners: map<string, Uuid>, account: Option<Uuid>,
                          b: Option<Billing>)
    requires IndexOk(accounts, owners)
    ensures IndexOk(PutBilling(accounts, account, b), owners)
  {
  }

  lemma CommitKeepsStore(of: EventOf, store: Store, t: Tx)
    requires StoreOk(of, store) && TxOk(of, Look(store, t), t) && t.next == COMMIT
    ensures StoreOk(of, Commit(store, t))
  {
    CommitKeepsHooks(of, store, t);
    BillingKeepsIndex(store.accounts, store.owners, t.account, t.billing);
  }

  // A link adds one customer to an account that had none, or changes nothing.
  lemma LinkAdds(store: Store, account: Uuid, customer: string)
    requires IndexOk(store.accounts, store.owners)
    ensures var after := LinkCustomer(store, account, customer).0;
      && after.hooks == store.hooks && after.links == store.links
      && IndexOk(after.accounts, after.owners)
      && after.accounts.Keys == store.accounts.Keys
      && (forall c | c in store.owners :: c in after.owners && after.owners[c] == store.owners[c])
      && (forall a | a in store.accounts :: after.accounts[a].billing == store.accounts[a].billing)
  {
  }

  lemma LinkKeepsStore(of: EventOf, store: Store, account: Uuid, customer: string)
    requires StoreOk(of, store)
    ensures StoreOk(of, LinkCustomer(store, account, customer).0)
  {
    LinkAdds(store, account, customer);
    var after := LinkCustomer(store, account, customer).0;
    forall id: string | Get(after.hooks, id).Some? ensures RowOk(of, after.owners, id, Get(after.hooks, id).value) {
      assert RowOk(of, store.owners, id, Get(store.hooks, id).value);
    }
  }

  lemma RowAfterCommit(of: EventOf, store: Store, t: Tx, id: string)
    requires TxOk(of, Look(store, t), t) && t.next == COMMIT
    ensures RowEvolves(Get(store.hooks, id), Get(Commit(store, t).hooks, id))
    ensures id != t.d.event.eventId ==> Get(Commit(store, t).hooks, id) == Get(store.hooks, id)
    ensures Get(Commit(store, t).hooks, t.d.event.eventId) == t.mine
  {
    GetPut(store.hooks, t.mine.value, id);
    GetPut(store.hooks, t.mine.value, t.d.event.eventId);
  }

  lemma BillingAfterCommit(store: Store, t: Tx, a: Option<Uuid>)
    ensures BillingOf(store, a).Some? ==> BillingOf(Commit(store, t), a).Some?
    ensures t.billing.None? || t.account != a ==> BillingOf(Commit(store, t), a) == BillingOf(store, a)
    ensures t.mine.Some? && t.account == a && BillingOf(store, a).Some? && t.billing.Some? ==>
      BillingOf(Commit(store, t), a) == t.billing
    ensures Commit(store, t).accounts.Keys == store.accounts.Keys
  {
  }

  lemma CommitMoves(of: EventOf, store: Store, t: Tx, u: Tx)
    requires TxOk(of, Look(store, t), t) && t.next == COMMIT && Apart(t, u) && TxOk(of, Look(store, u), u)
    ensures Moves(Look(store, u), Look(Commit(store, t), u), u)
  {
    RowAfterCommit(of, store, t, u.d.event.eventId);
    BillingAfterCommit(store, t, u.account);
  }

  lemma LinkMoves(store: Store, account: Uuid, customer: string, u: Tx)
    requires IndexOk(store.accounts, store.owners)
    ensures Moves(Look(store, u), Look(LinkCustomer(store, account, customer).0, u), u)
  {
    LinkAdds(store, account, customer);
  }

  // ---------------------------------------------------------------- the log

  lemma EntryAfterCommit(of: EventOf, store: Store, t: Tx, e: Applied)
    requires TxOk(of, Look(store, t), t) && t.next == COMMIT && EntryOk(store.hooks, e)
    ensures EntryOk(Commit(store, t).hooks, e) && e.d.event.eventId != t.d.event.eventId
  {
    RowAfterCommit(of, store, t, e.d.event.eventId);
  }

  lemma NewEntryOk(of: EventOf, store: Store, t: Tx)
    requires TxOk(of, Look(store, t), t) && t.next == COMMIT && t.billing.Some?
    ensures t.account.Some? && Logged(t) == [Applied(t.d, t.account.value, t.plan, t.plans)]
    ensures EntryOk(Commit(store, t).hooks, Logged(t)[0])
  {
    RowAfterCommit(of, store, t, t.d.event.eventId);
  }

  lemma EntriesAfterCommit(of: EventOf, store: Store, t: Tx, log: seq<Applied>)
    requires TxOk(of, Look(store, t), t) && t.next == COMMIT
    requires forall i | 0 <= i < |log| :: EntryOk(store.hooks, log[i])
    requires forall i, j | 0 <= i < j < |log| :: log[i].d.event.eventId != log[j].d.event.eventId
    ensures var logged := log + Logged(t);
      && (forall i | 0 <= i < |logged| :: EntryOk(Commit(store, t).hooks, logged[i]))
      && (forall i, j | 0 <= i < j < |logged| :: logged[i].d.event.eventId != logged[j].d.event.eventId)
  {
    if t.billing.Some? { NewEntryOk(of, store, t); }
    forall i | 0 <= i < |log|
      ensures EntryOk(Commit(store, t).hooks, log[i]) && log[i].d.event.eventId != t.d.event.eventId
    {
      EntryAfterCommit(of, store, t, log[i]);
    }
  }

  lemma ReplayAfterCommit(of: EventOf, start: Store, store: Store, t: Tx, log: seq<Applied>, a: Uuid)
    requires TxOk(of, Look(store, t), t) && t.next == COMMIT
    requires BillingOf(store, Some(a)) == Replay(BillingOf(start, Some(a)), log, a)
    ensures BillingOf(Commit(store, t), Some(a)) == Replay(BillingOf(start, Some(a)), log + Logged(t), a)
  {
    BillingAfterCommit(store, t, Some(a));
    if t.billing.Some? {
      NewEntryOk(of, store, t);
      assert (log + Logged(t))[..|log|] == log;
    } else {
      assert log + Logged(t) == log;
    }
  }

  lemma CommitKeepsLog(of: EventOf, start: Store, store: Store, t: Tx, log: seq<Applied>)
    requires TxOk(of, Look(store, t), t) && t.next == COMMIT && LogOk(start, store, log)
    ensures LogOk(start, Commit(store, t), log + Logged(t))
  {
    EntriesAfterCommit(of, store, t, log);
    forall a: Uuid
      ensures BillingOf(Commit(store, t), Some(a)) == Replay(BillingOf(start, Some(a)), log + Logged(t), a)
    {
      ReplayAfterCommit(of, start, store, t, log, a);
    }
    BillingAfterCommit(store, t, None);
  }

  lemma LinkKeepsLog(start: Store, store: Store, account: Uuid, customer: string, log: seq<Applied>)
    requires IndexOk(store.accounts, store.owners) && LogOk(start, store, log)
    ensures LogOk(start, LinkCustomer(store, account, customer).0, log)
  {
    LinkAdds(store, account, customer);
    var after := LinkCustomer(store, account, customer).0;
    forall a: Uuid ensures BillingOf(after, Some(a)) == BillingOf(store, Some(a)) { }
  }
}
