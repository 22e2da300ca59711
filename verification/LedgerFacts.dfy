/** Which file, chain and key every committed event is about. */
module LedgerFacts {
  import opened Uuids
  import opened LedgerModel
  import opened LedgerInvariant
  import opened LedgerRuns

  // A transaction's event is about the file it was asked for, under the id it was asked for.
  ghost predicate AsAsked(tx: Tx) {
    && tx.event.fileHash == tx.caller.req.fileHash
    && (READ_SEQUENCE < tx.next < ENDED && tx.caller.req.eventId.Some? ==>
          tx.event.eventId == tx.caller.req.eventId.value)
    && (LOOK_UP < tx.next <= READ_SEQUENCE && !tx.caller.req.legacy && tx.caller.req.eventId.Some? ==>
          tx.event.eventId == tx.caller.req.eventId.value)
  }

  lemma ActAsAsked(seen: Seen, tx: Tx, limits: Capabilities, newId: Uuid)
    requires tx.next < ENDED && AsAsked(tx)
    ensures AsAsked(Act(seen, tx, limits, newId)) && Act(seen, tx, limits, newId).caller == tx.caller
  {
  }

  ghost predicate EntryAsAsked(e: Entry) {
    && e.event.fileHash == e.caller.req.fileHash
    && (e.caller.req.eventId.Some? ==> e.event.eventId == e.caller.req.eventId.value)
  }

  ghost predicate AllAsAsked(s: State) {
    && (forall id | id in s.txs :: AsAsked(s.txs[id]))
    && (forall i | 0 <= i < |s.log| :: EntryAsAsked(s.log[i]))
  }

  lemma StepAsAsked(s: State, a: Action)
    requires Enabled(s, a) && AllAsAsked(s)
    ensures AllAsAsked(Step(s, a))
  {
    if a.Advance? {
      var tx := s.txs[a.id];
      ActAsAsked(Look(s.db, tx), tx, a.limits, a.newId);
    }
  }

  lemma {:induction false} RunAsAsked(start: Db, states: seq<State>, actions: seq<Action>, n: nat)
    requires Reachable(start, states, actions) && n < |states|
    ensures AllAsAsked(states[n])
    decreases n
  {
    if n > 0 {
      RunAsAsked(start, states, actions, n - 1);
      StepAsAsked(states[n - 1], actions[n - 1]);
    }
  }

  // Main result: in every run the record of a logged append carries the chain, the key and the file
  // hash of its request, and the event id if the request names one; it is the last event of what was
  // signed, numbered by its place there, and its parent is the event before it.
  lemma AppendsAreAsAsked(start: Db, states: seq<State>, actions: seq<Action>, n: nat, i: nat)
    requires Reachable(start, states, actions) && n < |states| && i < |states[n].log|
    ensures |start.events| + i < |states[n].db.events|
    ensures var e, rec := states[n].log[i], states[n].db.events[|start.events| + i];
      var req, k := e.caller.req, |e.signed| - 1;
      && rec.chain == req.chain && rec.key == req.key && rec.row.fileHash == req.fileHash
      && (req.eventId.Some? ==> rec.row.eventId == req.eventId.value)
      && k >= 0 && rec.row == e.event == e.signed[k] && rec.row.sequence == k + 1
      && rec.row.parentId == if k == 0 then NIL else e.signed[k - 1].eventId
  {
    RunKeeps(start, states, actions, n);
    RunAsAsked(start, states, actions, n);
    assert EntryOk(states[n].db, states[n].log[i]) && EntryAsAsked(states[n].log[i]);
    assert states[n].db.events == start.events + Records(states[n].log);
  }
}
