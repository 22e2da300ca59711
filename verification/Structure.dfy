/** The structural check shared by server, offline verifier and backups (src/service/verification.rs). */
module Structure {
  import opened Text
  import opened Uuids
  import opened Merkle

  datatype Result<+T, +E> = Ok(value: T) | Err(error: E)

  datatype StructuralFailure = ParentChain(index: nat) | Sequence(index: nat) | EmptyMerkle

  ghost predicate Linked(events: seq<EventRow>) {
    && Numbered(events)
    && (forall i | 0 < i < |events| :: events[i].parentId == events[i - 1].eventId)
    && (events != [] ==> events[0].parentId == NIL)
  }

  // What is wrong with event `i`; the first event's parent is checked before its number, later
  // events the other way round.
  function FailureAt(events: seq<EventRow>, i: nat): Option<StructuralFailure>
    requires i < |events|
  {
    if i == 0 then
      if events[0].parentId != NIL then Some(ParentChain(0))
      else if events[0].sequence != 1 then Some(Sequence(0)) else None
    else if events[i].sequence != events[i - 1].sequence + 1 then Some(Sequence(i))
    else if events[i].parentId != events[i - 1].eventId then Some(ParentChain(i))
    else None
  }

  function FirstFailure(events: seq<EventRow>, from: nat): Option<StructuralFailure>
    requires from <= |events|
    decreases |events| - from
  {
    if from == |events| then None
    else if FailureAt(events, from).Some? then FailureAt(events, from)
    else FirstFailure(events, from + 1)
  }

  // check_event_structure as a value
  function Outcome(h: Sha256, events: seq<EventRow>): Result<string, StructuralFailure> {
    if events == [] then Ok("empty")
    else match FirstFailure(events, 0)
      case Some(f) => Err(f)
      case None => if EventsRoot(h, events) == "" then Err(EmptyMerkle) else Ok(EventsRoot(h, events))
  }

  method CheckEventStructure(h: Sha256, events: seq<EventRow>) returns (r: Result<string, StructuralFailure>)
    ensures r == Outcome(h, events)
  {
    if |events| == 0 {
      return Ok("empty");
    }
    for i := 0 to |events|
      invariant FirstFailure(events, 0) == FirstFailure(events, i)
    {
      if i == 0 {
        if events[0].parentId != NIL {
          return Err(ParentChain(0));
        }
        if events[0].sequence != 1 {
          return Err(Sequence(0));
        }
      } else {
        var prev := events[i - 1];
        if events[i].sequence != prev.sequence + 1 {
          return Err(Sequence(i));
        }
        if events[i].parentId != prev.eventId {
          return Err(ParentChain(i));
        }
      }
    }
    var root, _ := BuildMerkleRoot(h, Leaves(h, events));
    if root == "" {
      return Err(EmptyMerkle);
    }
    return Ok(root);
  }

  lemma {:induction false} FirstFailureIsFirst(events: seq<EventRow>, from: nat)
    requires from <= |events|
    ensures var f := FirstFailure(events, from);
      && (f.None? ==> forall i | from <= i < |events| :: FailureAt(events, i).None?)
      && (f.Some? ==> !f.value.EmptyMerkle? && from <= f.value.index < |events|
                      && FailureAt(events, f.value.index) == f
                      && forall i | from <= i < f.value.index :: FailureAt(events, i).None?)
    decreases |events| - from
  {
    if from < |events| && FailureAt(events, from).None? {
      FirstFailureIsFirst(events, from + 1);
    }
  }

  lemma {:induction false} NoFailureNumbers(events: seq<EventRow>, n: nat)
    requires n <= |events| && forall i | 0 <= i < n :: FailureAt(events, i).None?
    ensures Numbered(events[..n])
  {
    if n > 1 {
      NoFailureNumbers(events, n - 1);
      assert FailureAt(events, n - 1).None?;
      assert events[..n - 1][n - 2].sequence == n - 1;
      assert forall i | 0 <= i < n - 1 :: events[..n][i] == events[..n - 1][i];
    } else if n == 1 {
      assert FailureAt(events, 0).None?;
    }
  }

  // The check succeeds exactly on the lists numbered 1..n whose parents chain up from nil, and it
  // then returns their root.
  lemma OutcomeCharacterized(h: Sha256, events: seq<EventRow>)
    ensures Outcome(h, events).Ok? <==> Linked(events)
    ensures Linked(events) ==> Outcome(h, events) == Ok(EventsRoot(h, events))
  {
    FirstFailureIsFirst(events, 0);
    if events != [] {
      RootNotEmpty(h, events);
      match FirstFailure(events, 0)
      case None =>
        GoodPrefix(events, |events|);
        assert events[..|events|] == events;
      case Some(f) =>
        BadEvent(events, f.index);
    }
  }

  // A failure names the first event that breaks the chain and what is wrong with it.
  lemma FailureIsFirstBreak(h: Sha256, events: seq<EventRow>, f: StructuralFailure)
    requires Outcome(h, events) == Err(f)
    ensures !f.EmptyMerkle? && f.index < |events| && FailureAt(events, f.index) == Some(f)
    ensures Linked(events[..f.index]) && !Linked(events[..f.index + 1])
    ensures f.index == 0 ==> f == if events[0].parentId != NIL then ParentChain(0) else Sequence(0)
    ensures f.index > 0 ==>
      f == if events[f.index].sequence != f.index + 1 then Sequence(f.index) else ParentChain(f.index)
  {
    FailureIsFirst(h, events, f);
    GoodPrefix(events, f.index);
    BadPrefix(events, f.index);
    if f.index > 0 { assert events[..f.index][f.index - 1].sequence == f.index; }
  }

  lemma FailureIsFirst(h: Sha256, events: seq<EventRow>, f: StructuralFailure)
    requires Outcome(h, events) == Err(f)
    ensures !f.EmptyMerkle? && f.index < |events| && FailureAt(events, f.index) == Some(f)
    ensures forall i | 0 <= i < f.index :: FailureAt(events, i).None?
  {
    FirstFailureIsFirst(events, 0);
    RootNotEmpty(h, events);
  }

  lemma RootNotEmpty(h: Sha256, events: seq<EventRow>)
    requires events != []
    ensures IsDigest(EventsRoot(h, events))
  {
    var nodes, k := Hashed(h, Leaves(h, events)), Rounds(|events|);
    if |events| > 1 { assert IsDigest(h(Below(h, nodes, k))); }
  }

  lemma GoodPrefix(events: seq<EventRow>, n: nat)
    requires n <= |events| && forall i | 0 <= i < n :: FailureAt(events, i).None?
    ensures Linked(events[..n])
  {
    NoFailureNumbers(events, n);
    forall i | 0 < i < n ensures events[i].parentId == events[i - 1].eventId {
      assert FailureAt(events, i).None?;
    }
    if n > 0 { assert FailureAt(events, 0).None?; }
  }

  lemma BadEvent(events: seq<EventRow>, i: nat)
    requires i < |events| && FailureAt(events, i).Some?
    ensures !Linked(events)
  {
  }

  lemma BadPrefix(events: seq<EventRow>, i: nat)
    requires i < |events| && FailureAt(events, i).Some?
    ensures !Linked(events[..i + 1])
  {
    var p := events[..i + 1];
    assert p[i] == events[i] && p[0] == events[0];
    assert i > 0 ==> p[i - 1] == events[i - 1];
    assert FailureAt(p, i) == FailureAt(events, i);
    BadEvent(p, i);
  }

  // ---------------------------------------------------------------- backups

  datatype EventSnapshot = EventSnapshot(chainId: Uuid, row: EventRow)
  datatype BackupSnapshot = BackupSnapshot(chainId: Uuid, events: seq<EventSnapshot>)

  const STRUCTURAL_INTEGRITY_ERROR := "snapshot appears corrupted or incomplete — restore aborted"

  function ToEventRows(snapshot: BackupSnapshot): seq<EventRow> {
    seq(|snapshot.events|, i requires 0 <= i < |snapshot.events| => snapshot.events[i].row)
  }

  function ValidateStructuralIntegrity(h: Sha256, snapshot: BackupSnapshot): Result<string, string> {
    if exists e | e in snapshot.events :: e.chainId != snapshot.chainId then Err(STRUCTURAL_INTEGRITY_ERROR)
    else match Outcome(h, ToEventRows(snapshot))
      case Ok(root) => Ok(root)
      case Err(_) => Err(STRUCTURAL_INTEGRITY_ERROR)
  }

  // A snapshot validates exactly if all its events are of its own chain and linked.
  lemma ValidatesIff(h: Sha256, snapshot: BackupSnapshot, rows: seq<EventRow>)
    requires |rows| == |snapshot.events| && forall i | 0 <= i < |rows| :: rows[i] == snapshot.events[i].row
    ensures ValidateStructuralIntegrity(h, snapshot) ==
      if Linked(rows) && forall i | 0 <= i < |rows| :: snapshot.events[i].chainId == snapshot.chainId
      then Ok(EventsRoot(h, rows)) else Err(STRUCTURAL_INTEGRITY_ERROR)
  {
    assert ToEventRows(snapshot) == rows;
    OutcomeCharacterized(h, rows);
  }

  // Exporting a chain gives a snapshot that validates exactly when the chain is linked.
  lemma ExportedChainValidates(h: Sha256, chain: Uuid, events: seq<EventRow>)
    ensures ValidateStructuralIntegrity(h, Snapshot(chain, events))
      == if Linked(events) then Ok(EventsRoot(h, events)) else Err(STRUCTURAL_INTEGRITY_ERROR)
  {
    assert ToEventRows(Snapshot(chain, events)) == events;
    OutcomeCharacterized(h, events);
  }

  function Snapshot(chain: Uuid, events: seq<EventRow>): BackupSnapshot {
    BackupSnapshot(chain, seq(|events|, i requires 0 <= i < |events| => EventSnapshot(chain, events[i])))
  }
}
