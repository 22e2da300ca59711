/** How the response of an append comes to be rejected: one further append before its events are read. */
module LedgerResponses {
  import opened Text
  import opened Uuids
  import opened Merkle
  import opened Signing
  import opened OfflineVerifier
  import opened LedgerModel
  import opened LedgerInvariant
  import opened LedgerRuns
  import opened LedgerStore
  import opened LedgerProofs

  // ---------------------------------------------------------------- longer runs

  lemma JoinRuns(start: Db, states: seq<State>, actions: seq<Action>, more: seq<State>, done: seq<Action>)
    requires Reachable(start, states, actions) && IsRun(more, done) && more[0] == states[|actions|]
    ensures Reachable(start, states + more[1..], actions + done)
    ensures (states + more[1..])[|actions + done|] == more[|done|]
  {
    var ss, aa := states + more[1..], actions + done;
    forall i | 0 <= i < |aa| ensures Enabled(ss[i], aa[i]) && ss[i + 1] == Step(ss[i], aa[i]) {
      if i < |actions| {
        assert aa[i] == actions[i] && ss[i] == states[i] && ss[i + 1] == states[i + 1];
      } else {
        var k := i - |actions|;
        assert aa[i] == done[k] && ss[i] == more[k] && ss[i + 1] == more[k + 1];
      }
    }
  }

  lemma {:induction false} LogStays(start: Db, states: seq<State>, actions: seq<Action>, m: nat, n: nat)
    requires Reachable(start, states, actions) && m <= n < |states|
    ensures states[m].log <= states[n].log
    decreases n
  {
    if m < n {
      LogStays(start, states, actions, m, n - 1);
      assert states[n] == Step(states[n - 1], actions[n - 1]);
    }
  }

  ghost predicate AllEnded(s: State) {
    forall u | u in s.txs :: s.txs[u].next == ENDED
  }

  // Faults end everything that is still open, and change nothing else.
  lemma {:induction false} CloseAll(start: Db, states: seq<State>, actions: seq<Action>, open: set<nat>)
      returns (more: seq<State>, done: seq<Action>)
    requires Reachable(start, states, actions)
    requires forall u | u in states[|actions|].txs && u !in open :: states[|actions|].txs[u].next == ENDED
    ensures Reachable(start, more, done) && states <= more && AllEnded(more[|done|])
    ensures more[|done|].db == states[|actions|].db && more[|done|].log == states[|actions|].log
    decreases |open|
  {
    var s := states[|actions|];
    if open == {} {
      return states, actions;
    }
    var u :| u in open;
    if u in s.txs && s.txs[u].next != ENDED {
      ExtendReachable(start, states, actions, Fault(u));
      more, done := CloseAll(start, states + [Step(s, Fault(u))], actions + [Fault(u)], open - {u});
    } else {
      more, done := CloseAll(start, states, actions, open - {u});
    }
  }

  // ---------------------------------------------------------------- one append more

  // A request that can append does so when it has the tables to itself.
  lemma AppendMore(start: Db, states: seq<State>, actions: seq<Action>, caller: Caller,
                   limits: Capabilities, newId: Uuid)
      returns (more: seq<State>, done: seq<Action>)
    requires Reachable(start, states, actions) && AllEnded(states[|actions|])
    requires CanAppend(states[|actions|].db, caller, limits, newId)
    ensures Reachable(start, more, done) && states <= more
    ensures History(states[|actions|].db, caller.req.chain) < History(more[|done|].db, caller.req.chain)
  {
    var s := states[|actions|];
    var id := UnusedId(s.txs);
    var a := Begin(id, caller.account, caller.month, caller.req);
    ExtendReachable(start, states, actions, a);
    more, done := states + [Step(s, a)], actions + [a];
    ChainsStayLinked(start, states, actions, |actions|, caller.req.chain);
    AppendsAlone(s.db, caller, limits, newId);
    var alone, steps := UninterruptedRun(more[|done|], id, limits, newId);
    JoinRuns(start, more, done, alone, steps);
    HistoryAfterCommit(s.db, alone[|steps|].txs[id], caller.req.chain);
    more, done := more + alone[1..], done + steps;
  }

  // Main result: for every append in the log of a run, and any further request that can append to
  // its chain, there is a run that goes on from there and in which the offline verifier rejects the
  // append's response, unless hashes collide.
  lemma ResponseRejected(start: Db, states: seq<State>, actions: seq<Action>, i: nat, caller: Caller,
                         limits: Capabilities, newId: Uuid, h: Sha256, verify: Ed25519, signer: ServerSigner)
      returns (more: seq<State>, done: seq<Action>)
    requires Reachable(start, states, actions) && i < |states[|actions|].log| && Honest(signer, verify)
    requires caller.req.chain == states[|actions|].log[i].caller.req.chain
    requires CanAppend(states[|actions|].db, caller, limits, newId)
    ensures Reachable(start, more, done) && states <= more
    ensures i < |more[|done|].log| && more[|done|].log[i] == states[|actions|].log[i]
    ensures var e := states[|actions|].log[i];
      var current := History(more[|done|].db, e.caller.req.chain);
      && e.signed != [] && e.signed < current
      && (CollisionFree(h, Inputs(h, e.signed) + Inputs(h, current)) ==>
            !Accepts(h, verify, Trim(HexEncode(signer.publicKey) + "\n"),
                     AppendResponse(h, signer, e.caller.req.chain, e.signed, current)))
  {
    var s := states[|actions|];
    var e := s.log[i];
    more, done := CloseAll(start, states, actions, s.txs.Keys);
    more, done := AppendMore(start, more, done, caller, limits, newId);
    LogStays(start, more, done, |actions|, |done|);
    RunKeeps(start, states, actions, |actions|);
    assert EntryOk(s.db, e);
    var current := History(more[|done|].db, e.caller.req.chain);
    if CollisionFree(h, Inputs(h, e.signed) + Inputs(h, current)) {
      AppendResponses(start, more, done, |done|, i, h, verify, signer);
    }
  }
}
