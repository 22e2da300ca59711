/** What the outside sees of the append protocol: signatures, responses and exports. */
module LedgerProofs {
  import opened Text
  import opened Uuids
  import opened Merkle
  import opened Signing
  import opened Structure
  import opened OfflineVerifier
  import opened LedgerModel
  import opened LedgerInvariant
  import opened LedgerRuns

  // ---------------------------------------------------------------- responses and exports

  // Main result: every chain of every reachable state exports to a snapshot that validates.
  lemma ExportsValidate(start: Db, states: seq<State>, actions: seq<Action>, n: nat, h: Sha256, chain: Uuid)
    requires Reachable(start, states, actions) && n < |states|
    ensures ValidateStructuralIntegrity(h, Snapshot(chain, History(states[n].db, chain)))
      == Ok(EventsRoot(h, History(states[n].db, chain)))
  {
    ChainsStayLinked(start, states, actions, n, chain);
    ExportedChainValidates(h, chain, History(states[n].db, chain));
  }

  // Main result: the response of an append, its events read again in any later state, passes the
  // offline verifier if and only if nothing else has been appended to the chain by then; cut back
  // to its own sequence number it always passes.
  lemma AppendResponses(start: Db, states: seq<State>, actions: seq<Action>, n: nat, i: nat,
                        h: Sha256, verify: Ed25519, signer: ServerSigner)
    requires Reachable(start, states, actions) && n < |states| && i < |states[n].log|
    requires Honest(signer, verify)
    requires var e := states[n].log[i];
      CollisionFree(h, Inputs(h, e.signed) + Inputs(h, History(states[n].db, e.caller.req.chain)))
    ensures var e := states[n].log[i];
      var current := History(states[n].db, e.caller.req.chain);
      && e.signed != [] && e.signed <= current
      && var file := AppendResponse(h, signer, e.caller.req.chain, e.signed, current);
         var pinned := Trim(HexEncode(signer.publicKey) + "\n");
         && (Accepts(h, verify, pinned, file) <==> current == e.signed)
         && Accepts(h, verify, pinned,
                    file.(events := file.events[..|e.signed|], proof := file.proof.(leavesCount := |e.signed|)))
  {
    RunKeeps(start, states, actions, n);
    var e := states[n].log[i];
    assert EntryOk(states[n].db, e);
    var chain := e.caller.req.chain;
    var current := History(states[n].db, chain);
    ChainsStayLinked(start, states, actions, n, chain);
    ResponseAcceptedIff(h, verify, signer, chain, e.signed, current);
    ResponsePrefixAccepted(h, verify, signer, chain, e.signed, current);
  }

  // ---------------------------------------------------------------- what gets signed

  // A snapshot is signed before its transaction commits, and stays signed if that fails. It is the
  // chain as the transaction saw it with its own event; once committed, it is in the chain.
  ghost predicate SnapshotOk(history: seq<EventRow>, tx: Tx) {
    && (tx.next < ENDED ==> tx.reply == Open)
    && (tx.signed != [] ==>
          && tx.next > SIGN && Linked(tx.signed) && tx.signed[|tx.signed| - 1] == tx.event
          && tx.signed[..|tx.signed| - 1] <= history
          && (tx.reply == Appended ==> tx.signed <= history)
          && (tx.next == ENDED && tx.reply != Appended ==> tx.reply.Failed?))
  }

  lemma SignedAtCommit(seen: Seen, tx: Tx)
    requires ChainOk(seen.chain, seen.events) && TxOk(seen, tx) && tx.next == COMMIT
    ensures tx.signed == seen.events + [tx.event] && Linked(tx.signed)
    ensures tx.signed[|tx.signed| - 1] == tx.event && tx.signed[..|tx.signed| - 1] == seen.events
  {
    LinkedAppend(seen.events, tx.event);
  }

  // Only the signing statement signs.
  lemma ActSigns(seen: Seen, tx: Tx, limits: Capabilities, newId: Uuid)
    requires SnapshotOk(seen.events, tx) && tx.next < COMMIT
    ensures var after := Act(seen, tx, limits, newId);
      && (after.next < ENDED ==> after.reply == Open)
      && if tx.next == SIGN then after.next == COMMIT else after.signed == []
  {
  }

  lemma StatementKeepsSnapshot(db: Db, tx: Tx, limits: Capabilities, newId: Uuid)
    requires ChainOk(Look(db, tx).chain, Look(db, tx).events) && TxOk(Look(db, tx), tx) && tx.next < COMMIT
    requires SnapshotOk(Look(db, tx).events, tx)
    ensures SnapshotOk(Look(db, tx).events, Act(Look(db, tx), tx, limits, newId))
  {
    var seen := Look(db, tx);
    ActSigns(seen, tx, limits, newId);
    if tx.next == SIGN {
      ActKeeps(seen, tx, limits, newId);
      SignedAtCommit(seen, Act(seen, tx, limits, newId));
    }
  }

  lemma SnapshotStays(before: seq<EventRow>, after: seq<EventRow>, tx: Tx)
    requires SnapshotOk(before, tx) && before <= after
    ensures SnapshotOk(after, tx)
  {
  }

  lemma CommitKeepsSnapshot(db: Db, tx: Tx)
    requires ChainOk(Look(db, tx).chain, Look(db, tx).events) && TxOk(Look(db, tx), tx) && tx.next == COMMIT
    requires SnapshotOk(Look(db, tx).events, tx)
    ensures SnapshotOk(History(Commit(db, tx), tx.caller.req.chain), tx.(next := ENDED, reply := Appended))
  {
    SignedAtCommit(Look(db, tx), tx);
    HistoryAfterCommit(db, tx, tx.caller.req.chain);
  }

  function ChainHistory(s: State, id: nat): seq<EventRow>
    requires id in s.txs
  {
    History(s.db, s.txs[id].caller.req.chain)
  }

  lemma OwnStepKeepsSnapshot(start: Db, s: State, a: Action)
    requires Inv(start, s) && Enabled(s, a) && a.Advance? && SnapshotOk(ChainHistory(s, a.id), s.txs[a.id])
    ensures SnapshotOk(ChainHistory(Step(s, a), a.id), Step(s, a).txs[a.id])
  {
    var tx := s.txs[a.id];
    DbOkLook(s.db, tx);
    if tx.next == COMMIT {
      CommitKeepsSnapshot(s.db, tx);
    } else {
      ActMovesOn(Look(s.db, tx), tx, a.limits, a.newId);
      StatementKeepsSnapshot(s.db, tx, a.limits, a.newId);
    }
  }

  lemma StepKeepsSnapshot(start: Db, s: State, a: Action, id: nat)
    requires Inv(start, s) && Enabled(s, a) && id in s.txs && SnapshotOk(ChainHistory(s, id), s.txs[id])
    ensures id in Step(s, a).txs && SnapshotOk(ChainHistory(Step(s, a), id), Step(s, a).txs[id])
  {
    if a.Advance? && a.id == id {
      OwnStepKeepsSnapshot(start, s, a);
    } else if a.Fault? && a.id == id {
      FaultKeepsSnapshot(ChainHistory(s, id), s.txs[id]);
    } else {
      OtherStepKeepsSnapshot(s, a, id);
    }
  }

  lemma FaultKeepsSnapshot(history: seq<EventRow>, tx: Tx)
    requires SnapshotOk(history, tx) && tx.next < ENDED
    ensures SnapshotOk(history, tx.Fail(DatabaseError))
  {
  }

  lemma OtherTxStays(s: State, a: Action, id: nat)
    requires Enabled(s, a) && id in s.txs && a.id != id
    ensures id in Step(s, a).txs && Step(s, a).txs[id] == s.txs[id]
  {
  }

  lemma HistoryGrows(s: State, a: Action, chain: Uuid)
    requires Enabled(s, a)
    ensures History(s.db, chain) <= History(Step(s, a).db, chain)
  {
    if Step(s, a).db != s.db { StepExtendsOneChain(s, a); }
  }

  lemma OtherStepKeepsSnapshot(s: State, a: Action, id: nat)
    requires Enabled(s, a) && id in s.txs && a.id != id && SnapshotOk(ChainHistory(s, id), s.txs[id])
    ensures id in Step(s, a).txs && SnapshotOk(ChainHistory(Step(s, a), id), Step(s, a).txs[id])
  {
    OtherTxStays(s, a, id);
    HistoryGrows(s, a, s.txs[id].caller.req.chain);
    SnapshotStays(ChainHistory(s, id), ChainHistory(Step(s, a), id), s.txs[id]);
  }

  lemma NextKeepsSnapshot(start: Db, states: seq<State>, actions: seq<Action>, n: nat, id: nat)
    requires Reachable(start, states, actions) && n < |actions| && id in states[n].txs
    requires SnapshotOk(ChainHistory(states[n], id), states[n].txs[id])
    ensures id in states[n + 1].txs && SnapshotOk(ChainHistory(states[n + 1], id), states[n + 1].txs[id])
  {
    RunKeeps(start, states, actions, n);
    StepKeepsSnapshot(start, states[n], actions[n], id);
  }

  lemma {:induction false} RunKeepsSnapshot(start: Db, states: seq<State>, actions: seq<Action>, n: nat, id: nat)
    requires Reachable(start, states, actions) && n < |states| && id in states[n].txs
    ensures SnapshotOk(ChainHistory(states[n], id), states[n].txs[id])
    decreases n
  {
    if n > 0 && id in states[n - 1].txs {
      RunKeepsSnapshot(start, states, actions, n - 1, id);
      NextKeepsSnapshot(start, states, actions, n - 1, id);
    } else if n > 0 {
      BegunNow(states[n - 1], actions[n - 1], id);
    }
  }

  lemma BegunNow(s: State, a: Action, id: nat)
    requires Enabled(s, a) && id !in s.txs && id in Step(s, a).txs
    ensures Step(s, a).txs[id].next == LOCK_CHAIN && Step(s, a).txs[id].signed == [] && Step(s, a).txs[id].reply == Open
  {
  }

  // A signed snapshot is a prefix of its chain exactly if its own event, the last one, has been
  // committed, by its own transaction or by a later one with the same event.
  lemma CommittedIffLast(history: seq<EventRow>, tx: Tx)
    requires SnapshotOk(history, tx) && tx.signed != [] && Numbered(history)
    ensures tx.signed <= history <==> tx.event in history
  {
    var n := |tx.signed|;
    if tx.signed <= history {
      assert history[n - 1] == tx.event;
    }
    if tx.event in history {
      var k :| 0 <= k < |history| && history[k] == tx.event;
      assert tx.signed[n - 1].sequence == n;
      assert tx.signed == tx.signed[..n - 1] + [tx.event];
    }
  }

  // The signed snapshot of a transaction that has not committed, or has failed to.
  ghost predicate Uncommitted(tx: Tx) {
    tx.signed != [] && (tx.next == COMMIT || (tx.next == ENDED && tx.reply.Failed?))
  }

  // Main result: everything a run signs is a linked chain. What an answered transaction signed is
  // a prefix of the committed chain; what another one signed is so exactly if its last event has
  // been committed all the same, which it has not while its transaction waits to commit.
  lemma SignedSnapshots(start: Db, states: seq<State>, actions: seq<Action>, n: nat, id: nat)
    requires Reachable(start, states, actions) && n < |states| && id in states[n].txs && states[n].txs[id].signed != []
    ensures var tx, history := states[n].txs[id], ChainHistory(states[n], id);
      && Linked(tx.signed) && (tx.reply == Appended || Uncommitted(tx))
      && (tx.reply == Appended ==> tx.signed <= history)
      && (tx.next == COMMIT ==> !(tx.signed <= history))
      && (tx.signed <= history <==> tx.signed[|tx.signed| - 1] in history)
  {
    RunKeepsSnapshot(start, states, actions, n, id);
    RunKeeps(start, states, actions, n);
    var tx := states[n].txs[id];
    DbOkLook(states[n].db, tx);
    CommittedIffLast(ChainHistory(states[n], id), tx);
    if tx.next == COMMIT { SignedAtCommit(Look(states[n].db, tx), tx); }
  }

  // A commit that fails leaves a signature over a chain that is not there.
  lemma FailedCommitLeavesSignature(start: Db, states: seq<State>, actions: seq<Action>, id: nat)
      returns (more: seq<State>, done: seq<Action>)
    requires Reachable(start, states, actions)
    requires id in states[|actions|].txs && states[|actions|].txs[id].next == COMMIT
    ensures Reachable(start, more, done) && id in more[|done|].txs
    ensures var end := more[|done|];
      && end.db == states[|actions|].db && end.txs[id].reply == Failed(DatabaseError)
      && Linked(end.txs[id].signed) && end.txs[id].signed != [] && !(end.txs[id].signed <= ChainHistory(end, id))
  {
    var s, a := states[|actions|], Fault(id);
    RunKeeps(start, states, actions, |actions|);
    DbOkLook(s.db, s.txs[id]);
    SignedAtCommit(Look(s.db, s.txs[id]), s.txs[id]);
    ExtendReachable(start, states, actions, a);
    more, done := states + [Step(s, a)], actions + [a];
  }

  // ---------------------------------------------------------------- accepted proofs

  // Everything the server's key signs up to a state: the snapshots of transactions, and the chains
  // that exports and verifications read and sign as they were committed at some time.
  ghost function Signatures(states: seq<State>, n: nat): SignedLog
    requires n < |states|
  {
    Snapshots(states[n]) + Exports(states, n)
  }

  ghost function Snapshots(s: State): SignedLog {
    set id | id in s.txs && s.txs[id].signed != [] :: (s.txs[id].caller.req.chain, s.txs[id].signed)
  }

  ghost function Exports(states: seq<State>, n: nat): SignedLog
    requires n < |states|
  {
    set k, c | 0 <= k <= n && c in states[k].db.chains :: (c, History(states[k].db, c))
  }

  lemma SignedIsLinked(start: Db, states: seq<State>, actions: seq<Action>, n: nat, chain: Uuid, events: seq<EventRow>)
      returns (id: nat)
    requires Reachable(start, states, actions) && n < |states| && (chain, events) in Signatures(states, n)
    requires events != []
    ensures Linked(events)
    ensures events <= History(states[n].db, chain) <==> events[|events| - 1] in History(states[n].db, chain)
    ensures !(events <= History(states[n].db, chain)) ==>
      id in states[n].txs && Uncommitted(states[n].txs[id])
      && states[n].txs[id].caller.req.chain == chain && states[n].txs[id].signed == events
  {
    id := 0;
    if (chain, events) in Snapshots(states[n]) {
      id :| id in states[n].txs && states[n].txs[id].signed == events && states[n].txs[id].caller.req.chain == chain;
      SignedSnapshots(start, states, actions, n, id);
    } else {
      var k :| 0 <= k <= n && chain in states[k].db.chains && History(states[k].db, chain) == events;
      ChainsStayLinked(start, states, actions, k, chain);
      RunExtends(start, states, actions, k, n, chain);
    }
  }

  // Main result: if nothing verifies under the key but what the server signed in the run, failed
  // appends included, a proof accepted under it shows a linked chain. That is a prefix of the
  // committed chain exactly if its last event has been committed; if not, it is the snapshot of an
  // append that has signed but not committed.
  lemma AcceptedProof(start: Db, states: seq<State>, actions: seq<Action>, n: nat, h: Sha256, verify: Ed25519,
                      pinnedKey: string, file: ProofFile) returns (chain: Uuid, events: seq<EventRow>, id: nat)
    requires Reachable(start, states, actions) && n < |states|
    requires Accepts(h, verify, pinnedKey, file)
    requires SignedOnly(h, verify, HexDecode(NormalizeKey(pinnedKey)).value, Signatures(states, n))
    requires forall entry | entry in Signatures(states, n) ::
      CollisionFree(h, Inputs(h, entry.1) + Inputs(h, Rows(file.events).value))
    ensures file.chainId == UuidText(chain) && Rows(file.events) == Some(events) && events != [] && Linked(events)
    ensures events <= History(states[n].db, chain) <==> events[|events| - 1] in History(states[n].db, chain)
    ensures !(events <= History(states[n].db, chain)) ==>
      id in states[n].txs && Uncommitted(states[n].txs[id])
      && states[n].txs[id].caller.req.chain == chain && states[n].txs[id].signed == events
  {
    chain, events := AcceptedProofIsSigned(h, verify, pinnedKey, file, Signatures(states, n));
    id := SignedIsLinked(start, states, actions, n, chain, events);
  }
}
