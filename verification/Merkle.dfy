/**
 * The Merkle commitment to a list of events (src/merkle.rs).
 *
 * SHA-256 (FIPS 180-4) is a parameter: any function from byte strings to 64 lower-case hex digits.
 * No such function is injective, so binding is stated for the inputs that computing the two roots
 * really hashes: when no two different ones among them collide, equal roots mean equal lists.
 */
module Merkle {
  import opened Text
  import opened Uuids

  predicate IsDigest(d: string) {
    |d| == 64 && forall i | 0 <= i < 64 :: IsLowerHex(d[i])
  }

  ghost predicate PrintsDigests(h: string -> string) {
    forall x :: IsDigest(h(x))
  }

  type Sha256 = h: string -> string | PrintsDigests(h) witness (x: string) => seq(64, i => '0')

  // An `events` row as the hash chain sees it; the creation time is neither hashed nor checked.
  datatype EventRow = EventRow(sequence: I64, eventId: Uuid, parentId: Uuid, fileHash: string)

  function LeafInput(e: EventRow): string {
    I64Bytes(e.sequence) + UuidBytes(e.eventId) + UuidBytes(e.parentId) + e.fileHash
  }

  // build_leaf
  function Leaf(h: Sha256, e: EventRow): (d: string)
    ensures IsDigest(d)
  {
    h(LeafInput(e))
  }

  function Leaves(h: Sha256, events: seq<EventRow>): (ls: seq<string>)
    ensures |ls| == |events| && forall i | 0 <= i < |ls| :: ls[i] == Leaf(h, events[i])
  {
    seq(|events|, i requires 0 <= i < |events| => Leaf(h, events[i]))
  }

  function Hashed(h: Sha256, xs: seq<string>): (ys: seq<string>)
    ensures |ys| == |xs| && forall i | 0 <= i < |ys| :: ys[i] == h(xs[i])
  {
    seq(|xs|, i requires 0 <= i < |xs| => h(xs[i]))
  }

  function Pow2(k: nat): (p: nat)
    ensures p > 0
  {
    if k == 0 then 1 else 2 * Pow2(k - 1)
  }

  // Levels above `n` nodes: the least k with n <= 2^k.
  function Rounds(n: nat): (k: nat)
    ensures n <= Pow2(k)
    ensures n > 1 ==> k > 0 && Pow2(k - 1) < n
  {
    if n <= 1 then 0 else 1 + Rounds((n + 1) / 2)
  }

  // The nodes below the left and the right child of a tree of height k. The left subtree is full
  // before the right one gets nodes; a right subtree without nodes copies the left one.
  function LeftPart(nodes: seq<string>, k: nat): (l: seq<string>)
    requires k > 0
    ensures nodes != [] ==> l != []
  {
    if |nodes| <= Pow2(k - 1) then nodes else nodes[..Pow2(k - 1)]
  }

  function RightPart(nodes: seq<string>, k: nat): (r: seq<string>)
    requires k > 0
    ensures nodes != [] ==> r != []
  {
    if |nodes| <= Pow2(k - 1) then nodes else nodes[Pow2(k - 1)..]
  }

  lemma PartSizes(nodes: seq<string>, k: nat)
    requires k > 0 && |nodes| <= Pow2(k)
    ensures |LeftPart(nodes, k)| <= Pow2(k - 1) && |RightPart(nodes, k)| <= Pow2(k - 1)
  {
  }

  // The root of a tree of height k, read from the top.
  function Tree(h: Sha256, nodes: seq<string>, k: nat): string
    requires nodes != []
    decreases k, 1
  {
    if k == 0 then nodes[0] else h(Below(h, nodes, k))
  }

  // The two child hashes of that root, as they are hashed together.
  function Below(h: Sha256, nodes: seq<string>, k: nat): string
    requires nodes != [] && k > 0
    decreases k, 0
  {
    Tree(h, LeftPart(nodes, k), k - 1) + Tree(h, RightPart(nodes, k), k - 1)
  }

  // What build_merkle_root returns: a bare leaf for one event, a tree over hashed leaves for more.
  function Root(h: Sha256, leaves: seq<string>): string {
    if leaves == [] then "empty"
    else if |leaves| == 1 then leaves[0]
    else Tree(h, Hashed(h, leaves), Rounds(|leaves|))
  }

  // recompute_root_from_events
  function EventsRoot(h: Sha256, events: seq<EventRow>): string {
    Root(h, Leaves(h, events))
  }

  // ---------------------------------------------------------------- the level loop

  // One level of the loop: neighbours are hashed in pairs, an odd last node with itself.
  function Level(h: Sha256, nodes: seq<string>): (up: seq<string>)
    ensures |up| == (|nodes| + 1) / 2
    decreases |nodes|
  {
    if nodes == [] then []
    else if |nodes| == 1 then [h(nodes[0] + nodes[0])]
    else [h(nodes[0] + nodes[1])] + Level(h, nodes[2..])
  }

  lemma {:induction false} LevelSplit(h: Sha256, a: seq<string>, b: seq<string>)
    requires |a| % 2 == 0
    ensures Level(h, a + b) == Level(h, a) + Level(h, b)
    decreases |a|
  {
    if a == [] {
      assert a + b == b;
    } else {
      assert (a + b)[2..] == a[2..] + b;
      LevelSplit(h, a[2..], b);
    }
  }

  // Building one level up does not change the root.
  lemma {:induction false} LevelKeepsTree(h: Sha256, nodes: seq<string>, k: nat)
    requires 0 < |nodes| <= Pow2(k) && k > 0
    ensures Tree(h, nodes, k) == Tree(h, Level(h, nodes), k - 1)
    decreases k
  {
    if k > 1 {
      LevelParts(h, nodes, k);
      LevelKeepsTree(h, LeftPart(nodes, k), k - 1);
      LevelKeepsTree(h, RightPart(nodes, k), k - 1);
    } else {
      LevelOfPair(h, nodes);
    }
  }

  lemma LevelOfPair(h: Sha256, nodes: seq<string>)
    requires 0 < |nodes| <= Pow2(1)
    ensures Tree(h, nodes, 1) == Level(h, nodes)[0]
  {
    assert Pow2(0) == 1;
    assert LeftPart(nodes, 1)[0] == nodes[0];
    assert |nodes| == 2 ==> RightPart(nodes, 1)[0] == nodes[1];
  }

  lemma LevelParts(h: Sha256, nodes: seq<string>, k: nat)
    requires k > 1
    ensures LeftPart(Level(h, nodes), k - 1) == Level(h, LeftPart(nodes, k))
    ensures RightPart(Level(h, nodes), k - 1) == Level(h, RightPart(nodes, k))
  {
    var quarter := Pow2(k - 2);
    assert Pow2(k - 1) == 2 * quarter;
    if |nodes| > 2 * quarter {
      var left, right := nodes[..2 * quarter], nodes[2 * quarter..];
      assert nodes == left + right;
      LevelSplit(h, left, right);
      assert |Level(h, left)| == quarter;
    }
  }

  // The inner loop over `chunks(2)`.
  method HashPairs(h: Sha256, hashed: seq<string>) returns (nextLevel: seq<string>)
    ensures nextLevel == Level(h, hashed)
  {
    nextLevel := [];
    var i := 0;
    while i < |hashed|
      invariant 0 <= i
      invariant nextLevel + Level(h, From(hashed, i)) == Level(h, hashed)
    {
      var left := hashed[i];
      var right := if i + 1 < |hashed| then hashed[i + 1] else left;
      LevelFrom(h, hashed, i);
      nextLevel := nextLevel + [h(left + right)];
      i := i + 2;
    }
  }

  function From(xs: seq<string>, i: nat): seq<string> {
    if i <= |xs| then xs[i..] else []
  }

  lemma LevelFrom(h: Sha256, xs: seq<string>, i: nat)
    requires i < |xs|
    ensures Level(h, From(xs, i)) ==
      [h(xs[i] + if i + 1 < |xs| then xs[i + 1] else xs[i])] + Level(h, From(xs, i + 2))
  {
    if i + 1 < |xs| { assert xs[i..][2..] == xs[i + 2..]; }
  }

  method BuildMerkleRoot(h: Sha256, leaves: seq<string>) returns (root: string, ghost rounds: nat)
    ensures root == Root(h, leaves)
    ensures rounds == Rounds(|leaves|)
  {
    rounds := 0;
    if |leaves| == 0 {
      return "empty", 0;
    }
    if |leaves| == 1 {
      return leaves[0], 0;
    }
    var hashed := Hashed(h, leaves);
    ghost var expected, height := Root(h, leaves), Rounds(|hashed|);
    while |hashed| > 1
      invariant |hashed| > 0
      invariant height == Rounds(|hashed|)
      invariant rounds + height == Rounds(|leaves|)
      invariant Tree(h, hashed, height) == expected
      decreases |hashed|
    {
      LevelKeepsTree(h, hashed, height);
      hashed := HashPairs(h, hashed);
      height, rounds := height - 1, rounds + 1;
    }
    root := hashed[0];
  }

  // ---------------------------------------------------------------- what is hashed

  ghost predicate Collide(h: Sha256, x: string, y: string) {
    x != y && h(x) == h(y)
  }

  ghost predicate CollisionFree(h: Sha256, inputs: set<string>) {
    forall x, y {:trigger Collide(h, x, y)} | x in inputs && y in inputs :: !Collide(h, x, y)
  }

  ghost function TreeInputs(h: Sha256, nodes: seq<string>, k: nat): set<string>
    requires nodes != []
    decreases k
  {
    if k == 0 then {}
    else {Below(h, nodes, k)} + TreeInputs(h, LeftPart(nodes, k), k - 1) + TreeInputs(h, RightPart(nodes, k), k - 1)
  }

  // Every string that is hashed while the root of these leaves is computed; a single leaf is not.
  ghost function RootInputs(h: Sha256, leaves: seq<string>): set<string> {
    if |leaves| <= 1 then {} else (set l | l in leaves) + TreeInputs(h, Hashed(h, leaves), Rounds(|leaves|))
  }

  // ... of these events is computed.
  ghost function Inputs(h: Sha256, events: seq<EventRow>): set<string> {
    (set e | e in events :: LeafInput(e)) + RootInputs(h, Leaves(h, events))
  }

  // ---------------------------------------------------------------- binding

  ghost predicate Digests(nodes: seq<string>) {
    forall i | 0 <= i < |nodes| :: |nodes[i]| == 64
  }

  // Nodes of a tree all of whose hashed strings are in `s`.
  ghost predicate Covers(h: Sha256, nodes: seq<string>, k: nat, s: set<string>)
    decreases k
  {
    && nodes != [] && Digests(nodes)
    && (k > 0 ==>
          && Below(h, nodes, k) in s
          && Covers(h, LeftPart(nodes, k), k - 1, s)
          && Covers(h, RightPart(nodes, k), k - 1, s))
  }

  lemma {:induction false} CoversMore(h: Sha256, nodes: seq<string>, k: nat, s: set<string>, t: set<string>)
    requires Covers(h, nodes, k, s) && s <= t
    ensures Covers(h, nodes, k, t)
    decreases k
  {
    if k > 0 {
      CoversMore(h, LeftPart(nodes, k), k - 1, s, t);
      CoversMore(h, RightPart(nodes, k), k - 1, s, t);
    }
  }

  lemma {:induction false} InputsCover(h: Sha256, nodes: seq<string>, k: nat)
    requires nodes != [] && Digests(nodes)
    ensures Covers(h, nodes, k, TreeInputs(h, nodes, k))
    decreases k
  {
    if k > 0 {
      var left, right := LeftPart(nodes, k), RightPart(nodes, k);
      assert Digests(left) && Digests(right);
      InputsCover(h, left, k - 1);
      InputsCover(h, right, k - 1);
      CoversMore(h, left, k - 1, TreeInputs(h, left, k - 1), TreeInputs(h, nodes, k));
      CoversMore(h, right, k - 1, TreeInputs(h, right, k - 1), TreeInputs(h, nodes, k));
    }
  }

  lemma BelowLength(h: Sha256, nodes: seq<string>, k: nat)
    requires nodes != [] && k > 0 && Digests(nodes)
    ensures |Tree(h, LeftPart(nodes, k), k - 1)| == 64 && |Below(h, nodes, k)| == 128
  {
    TreeLength(h, LeftPart(nodes, k), k - 1);
    TreeLength(h, RightPart(nodes, k), k - 1);
  }

  lemma TreeLength(h: Sha256, nodes: seq<string>, k: nat)
    requires nodes != [] && Digests(nodes)
    ensures |Tree(h, nodes, k)| == 64
  {
    if k > 0 { assert IsDigest(h(Below(h, nodes, k))); }
  }

  // Equal roots that no collision explains have equal left and equal right subtrees.
  lemma EqualChildren(h: Sha256, a: seq<string>, p: nat, b: seq<string>, q: nat, s: set<string>)
    requires p > 0 && q > 0 && Covers(h, a, p, s) && Covers(h, b, q, s)
    requires CollisionFree(h, s) && Tree(h, a, p) == Tree(h, b, q)
    ensures Tree(h, LeftPart(a, p), p - 1) == Tree(h, LeftPart(b, q), q - 1)
    ensures Tree(h, RightPart(a, p), p - 1) == Tree(h, RightPart(b, q), q - 1)
  {
    assert !Collide(h, Below(h, a, p), Below(h, b, q));
    BelowLength(h, a, p);
    BelowLength(h, b, q);
    ConcatInjective(Tree(h, LeftPart(a, p), p - 1), Tree(h, RightPart(a, p), p - 1),
                    Tree(h, LeftPart(b, q), q - 1), Tree(h, RightPart(b, q), q - 1));
  }

  lemma ConcatInjective<T>(a: seq<T>, b: seq<T>, c: seq<T>, d: seq<T>)
    requires |a| == |c| && a + b == c + d
    ensures a == c && b == d
  {
    assert (a + b)[..|a|] == a && (c + d)[..|c|] == c;
    assert (a + b)[|a|..] == b && (c + d)[|c|..] == d;
  }

  // Two lists of nodes that differ at most in copies of nodes they share.
  ghost predicate AgreeUpToCopies(a: seq<string>, b: seq<string>) {
    && (forall i | 0 <= i < |a| && i < |b| :: a[i] == b[i])
    && (forall x | x in a :: x in b)
    && (forall x | x in b :: x in a)
  }

  lemma JoinParts(a: seq<string>, b: seq<string>, k: nat)
    requires k > 0
    requires AgreeUpToCopies(LeftPart(a, k), LeftPart(b, k)) && AgreeUpToCopies(RightPart(a, k), RightPart(b, k))
    ensures AgreeUpToCopies(a, b)
  {
    PartsCover(a, k);
    PartsCover(b, k);
    forall i | 0 <= i < |a| && i < |b| ensures a[i] == b[i] {
      if i < Pow2(k - 1) {
        assert LeftPart(a, k)[i] == a[i] && LeftPart(b, k)[i] == b[i];
      } else {
        assert RightPart(a, k)[i - Pow2(k - 1)] == a[i] && RightPart(b, k)[i - Pow2(k - 1)] == b[i];
      }
    }
  }

  lemma PartsCover(nodes: seq<string>, k: nat)
    requires k > 0
    ensures forall x :: x in nodes <==> x in LeftPart(nodes, k) || x in RightPart(nodes, k)
  {
    var half := Pow2(k - 1);
    assert |nodes| > half ==> nodes == nodes[..half] + nodes[half..];
  }

  lemma SingletonsAgree(h: Sha256, a: seq<string>, b: seq<string>)
    requires |a| == 1 && |b| == 1 && Tree(h, a, 0) == Tree(h, b, 0)
    ensures AgreeUpToCopies(a, b)
  {
    assert a == b;
  }

  // Trees of the same height with the same root agree node by node; where one is longer, its
  // further nodes are copies of nodes of the other.
  lemma {:induction false} SameHeightBinds(h: Sha256, a: seq<string>, b: seq<string>, k: nat, s: set<string>)
    requires Covers(h, a, k, s) && Covers(h, b, k, s) && |a| <= Pow2(k) && |b| <= Pow2(k)
    requires CollisionFree(h, s) && Tree(h, a, k) == Tree(h, b, k)
    ensures AgreeUpToCopies(a, b)
    decreases k
  {
    if k == 0 {
      SingletonsAgree(h, a, b);
    } else {
      PartSizes(a, k);
      PartSizes(b, k);
      EqualChildren(h, a, k, b, k, s);
      SameHeightBinds(h, LeftPart(a, k), LeftPart(b, k), k - 1, s);
      SameHeightBinds(h, RightPart(a, k), RightPart(b, k), k - 1, s);
      JoinParts(a, b, k);
    }
  }

  // The strings hashed down the left edge of a tree, from its root to its first node.
  ghost function LeftEdge(h: Sha256, nodes: seq<string>, k: nat): (edge: seq<string>)
    requires nodes != []
    ensures |edge| == k
    decreases k
  {
    if k == 0 then [] else [Below(h, nodes, k)] + LeftEdge(h, LeftPart(nodes, k), k - 1)
  }

  // Each begins with the hash of the next, the last with the first node.
  ghost predicate IsEdge(h: Sha256, edge: seq<string>, first: string, s: set<string>) {
    forall i | 0 <= i < |edge| :: |edge[i]| == 128 && edge[i] in s && edge[i][..64] == EdgeRoot(h, edge[i + 1..], first)
  }

  function EdgeRoot(h: Sha256, edge: seq<string>, first: string): string {
    if edge == [] then first else h(edge[0])
  }

  lemma EdgeOn(h: Sha256, b: string, edge: seq<string>, first: string, s: set<string>)
    requires IsEdge(h, edge, first, s) && |b| == 128 && b in s && b[..64] == EdgeRoot(h, edge, first)
    ensures IsEdge(h, [b] + edge, first, s)
  {
    var longer := [b] + edge;
    forall i | 0 <= i < |longer|
      ensures |longer[i]| == 128 && longer[i] in s && longer[i][..64] == EdgeRoot(h, longer[i + 1..], first)
    {
      if i == 0 { assert longer[1..] == edge; } else { assert longer[i + 1..] == edge[i..]; }
    }
  }

  lemma {:induction false} LeftEdgeIsEdge(h: Sha256, nodes: seq<string>, k: nat, s: set<string>)
    requires Covers(h, nodes, k, s)
    ensures IsEdge(h, LeftEdge(h, nodes, k), nodes[0], s)
    ensures EdgeRoot(h, LeftEdge(h, nodes, k), nodes[0]) == Tree(h, nodes, k)
    decreases k
  {
    if k > 0 {
      var b := Below(h, nodes, k);
      LeftEdgeIsEdge(h, LeftPart(nodes, k), k - 1, s);
      BelowLength(h, nodes, k);
      assert b[..64] == Tree(h, LeftPart(nodes, k), k - 1);
      EdgeOn(h, b, LeftEdge(h, LeftPart(nodes, k), k - 1), nodes[0], s);
    }
  }

  // A hash of 64 bytes at the end of the shorter edge meets a hash of 128 on the longer one.
  lemma {:induction false} EdgesDiffer(h: Sha256, a: seq<string>, x: string, b: seq<string>, first: string,
                                       s: set<string>)
    requires IsEdge(h, a, h(x), s) && IsEdge(h, b, first, s) && |a| < |b|
    requires CollisionFree(h, s) && |x| == 64 && x in s
    ensures EdgeRoot(h, a, h(x)) != EdgeRoot(h, b, first)
    decreases |a|
  {
    if a == [] {
      assert !Collide(h, x, b[0]);
    } else {
      EdgeTail(h, a, h(x), s);
      EdgeTail(h, b, first, s);
      EdgesDiffer(h, a[1..], x, b[1..], first, s);
      assert !Collide(h, a[0], b[0]);
    }
  }

  lemma EdgeTail(h: Sha256, edge: seq<string>, first: string, s: set<string>)
    requires IsEdge(h, edge, first, s) && edge != []
    ensures IsEdge(h, edge[1..], first, s) && edge[0][..64] == EdgeRoot(h, edge[1..], first) && edge[0] in s
  {
    var tail := edge[1..];
    forall i | 0 <= i < |tail|
      ensures |tail[i]| == 128 && tail[i] in s && tail[i][..64] == EdgeRoot(h, tail[i + 1..], first)
    {
      assert tail[i] == edge[i + 1] && tail[i + 1..] == edge[i + 2..];
    }
  }

  // A tree over hashed leaves never has the root of a higher one: down the left edge, a hash of
  // 64 bytes would equal a hash of 128.
  lemma HeightsBind(h: Sha256, a: seq<string>, p: nat, b: seq<string>, q: nat, x: string, s: set<string>)
    requires p < q && Covers(h, a, p, s) && Covers(h, b, q, s) && CollisionFree(h, s)
    requires a[0] == h(x) && |x| == 64 && x in s
    ensures Tree(h, a, p) != Tree(h, b, q)
  {
    LeftEdgeIsEdge(h, a, p, s);
    LeftEdgeIsEdge(h, b, q, s);
    EdgesDiffer(h, LeftEdge(h, a, p), x, LeftEdge(h, b, q), b[0], s);
  }

  lemma LeafInputInjective(a: EventRow, b: EventRow)
    requires LeafInput(a) == LeafInput(b)
    ensures a == b
  {
    var x, y := LeafInput(a), LeafInput(b);
    assert x[..8] == I64Bytes(a.sequence) && y[..8] == I64Bytes(b.sequence);
    assert x[8..24] == UuidBytes(a.eventId) && y[8..24] == UuidBytes(b.eventId);
    assert x[24..40] == UuidBytes(a.parentId) && y[24..40] == UuidBytes(b.parentId);
    assert x[40..] == a.fileHash && y[40..] == b.fileHash;
    I64BytesInjective(a.sequence, b.sequence);
    Pow256Of16();
    BigEndianInjective(a.eventId, b.eventId, 16);
    BigEndianInjective(a.parentId, b.parentId, 16);
  }

  predicate Numbered(events: seq<EventRow>) {
    forall i | 0 <= i < |events| :: events[i].sequence == i + 1
  }

  // The hypotheses of the binding theorem for one list: 1..n numbered, hashing only strings of `s`.
  ghost predicate Committed(h: Sha256, events: seq<EventRow>, s: set<string>) {
    events != [] && Numbered(events) && Inputs(h, events) <= s
  }

  lemma LeafInputsIn(h: Sha256, events: seq<EventRow>, s: set<string>)
    requires Committed(h, events, s)
    ensures forall i | 0 <= i < |events| :: LeafInput(events[i]) in s
    ensures |events| > 1 ==> forall i | 0 <= i < |events| :: Leaf(h, events[i]) in s
  {
    forall i | 0 <= i < |events| ensures LeafInput(events[i]) in s {
      assert LeafInput(events[i]) in Inputs(h, events);
    }
    if |events| > 1 {
      var leaves := Leaves(h, events);
      forall i | 0 <= i < |events| ensures Leaf(h, events[i]) in s {
        assert leaves[i] in Inputs(h, events);
      }
    }
  }

  lemma NodesCovered(h: Sha256, events: seq<EventRow>, s: set<string>)
    requires Committed(h, events, s) && |events| > 1
    ensures Covers(h, Hashed(h, Leaves(h, events)), Rounds(|events|), s)
  {
    LeavesCovered(h, Leaves(h, events), s);
  }

  // One event against several: its leaf input begins with a zero byte, the other hashed string
  // with a hexadecimal digit.
  lemma SingletonBinds(h: Sha256, e: EventRow, b: seq<EventRow>, s: set<string>)
    requires Committed(h, [e], s) && Committed(h, b, s) && CollisionFree(h, s) && |b| > 1
    ensures EventsRoot(h, [e]) != EventsRoot(h, b)
  {
    var nodes, k := Hashed(h, Leaves(h, b)), Rounds(|b|);
    LeafInputsIn(h, [e], s);
    NodesCovered(h, b, s);
    BelowStartsWithHex(h, nodes, k);
    BigEndianLeadingZero(1, 8);
    assert [e][0] == e;
    assert LeafInput(e)[0] == 0 as char;
    assert !Collide(h, LeafInput(e), Below(h, nodes, k));
  }

  lemma {:induction false} BelowStartsWithHex(h: Sha256, nodes: seq<string>, k: nat)
    requires k > 0 && nodes != [] && |nodes[0]| == 64 && IsLowerHex(nodes[0][0])
    ensures Below(h, nodes, k) != "" && IsLowerHex(Below(h, nodes, k)[0])
  {
    if k > 1 {
      var d := h(Below(h, LeftPart(nodes, k), k - 1));
      assert IsDigest(d);
    }
  }

  // Equal leaf hashes, not explained by a collision, come from equal events.
  lemma HashedLeafBinds(h: Sha256, x: EventRow, y: EventRow, s: set<string>)
    requires CollisionFree(h, s) && LeafInput(x) in s && LeafInput(y) in s && Leaf(h, x) in s && Leaf(h, y) in s
    requires h(Leaf(h, x)) == h(Leaf(h, y))
    ensures x == y
  {
    assert !Collide(h, Leaf(h, x), Leaf(h, y));
    assert !Collide(h, LeafInput(x), LeafInput(y));
    LeafInputInjective(x, y);
  }

  // Lists of the same tree height: the shorter is a prefix of the longer, and a further event
  // would repeat an earlier one, sequence number included.
  lemma SameHeightEvents(h: Sha256, a: seq<EventRow>, b: seq<EventRow>, s: set<string>)
    requires Committed(h, a, s) && Committed(h, b, s) && CollisionFree(h, s)
    requires 1 < |a| <= |b| && Rounds(|a|) == Rounds(|b|) && EventsRoot(h, a) == EventsRoot(h, b)
    ensures a == b
  {
    var an, bn, k := Hashed(h, Leaves(h, a)), Hashed(h, Leaves(h, b)), Rounds(|a|);
    LeafInputsIn(h, a, s);
    LeafInputsIn(h, b, s);
    NodesCovered(h, a, s);
    NodesCovered(h, b, s);
    SameHeightBinds(h, an, bn, k, s);
    forall i | 0 <= i < |a| ensures a[i] == b[i] {
      assert an[i] == bn[i];
      HashedLeafBinds(h, a[i], b[i], s);
    }
    if |a| < |b| {
      assert bn[|a|] in bn;
      var j :| 0 <= j < |an| && an[j] == bn[|a|];
      HashedLeafBinds(h, a[j], b[|a|], s);
    }
  }

  // Main result: the root binds the whole list, whatever its length and whatever the file hashes.
  lemma RootBindsEvents(h: Sha256, a: seq<EventRow>, b: seq<EventRow>)
    requires a != [] && b != [] && Numbered(a) && Numbered(b)
    requires CollisionFree(h, Inputs(h, a) + Inputs(h, b))
    requires EventsRoot(h, a) == EventsRoot(h, b)
    ensures a == b
  {
    if |a| <= |b| {
      ShorterBinds(h, a, b, Inputs(h, a) + Inputs(h, b));
    } else {
      ShorterBinds(h, b, a, Inputs(h, a) + Inputs(h, b));
    }
  }

  lemma SingleLeafBinds(h: Sha256, a: seq<EventRow>, b: seq<EventRow>, s: set<string>)
    requires Committed(h, a, s) && Committed(h, b, s) && CollisionFree(h, s)
    requires |a| == |b| == 1 && EventsRoot(h, a) == EventsRoot(h, b)
    ensures a == b
  {
    LeafInputsIn(h, a, s);
    LeafInputsIn(h, b, s);
    assert !Collide(h, LeafInput(a[0]), LeafInput(b[0]));
    LeafInputInjective(a[0], b[0]);
  }

  lemma DifferentHeights(h: Sha256, a: seq<EventRow>, b: seq<EventRow>, s: set<string>)
    requires Committed(h, a, s) && Committed(h, b, s) && CollisionFree(h, s)
    requires 1 < |a| <= |b| && Rounds(|a|) != Rounds(|b|)
    ensures EventsRoot(h, a) != EventsRoot(h, b)
  {
    RoundsMonotone(|a|, |b|);
    LeafInputsIn(h, a, s);
    NodesCovered(h, a, s);
    NodesCovered(h, b, s);
    HeightsBind(h, Hashed(h, Leaves(h, a)), Rounds(|a|), Hashed(h, Leaves(h, b)), Rounds(|b|), Leaf(h, a[0]), s);
  }

  lemma ShorterBinds(h: Sha256, a: seq<EventRow>, b: seq<EventRow>, s: set<string>)
    requires Committed(h, a, s) && Committed(h, b, s) && CollisionFree(h, s)
    requires |a| <= |b| && EventsRoot(h, a) == EventsRoot(h, b)
    ensures a == b
  {
    if |b| == 1 {
      SingleLeafBinds(h, a, b, s);
    } else if |a| == 1 {
      assert a == [a[0]];
      SingletonBinds(h, a[0], b, s);
    } else if Rounds(|a|) == Rounds(|b|) {
      SameHeightEvents(h, a, b, s);
    } else {
      DifferentHeights(h, a, b, s);
    }
  }

  lemma {:induction false} RoundsMonotone(n: nat, m: nat)
    requires n <= m
    ensures Rounds(n) <= Rounds(m)
  {
    if n > 1 { RoundsMonotone((n + 1) / 2, (m + 1) / 2); }
  }

  // ---------------------------------------------------------------- arbitrary leaves

  lemma LeavesCovered(h: Sha256, leaves: seq<string>, s: set<string>)
    requires |leaves| > 1 && RootInputs(h, leaves) <= s
    ensures Covers(h, Hashed(h, leaves), Rounds(|leaves|), s)
    ensures forall i | 0 <= i < |leaves| :: leaves[i] in s
  {
    var nodes, k := Hashed(h, leaves), Rounds(|leaves|);
    InputsCover(h, nodes, k);
    CoversMore(h, nodes, k, TreeInputs(h, nodes, k), s);
    forall i | 0 <= i < |leaves| ensures leaves[i] in s {
      assert leaves[i] in RootInputs(h, leaves);
    }
  }

  // Main result: for lists of equal length the root binds the leaves, whatever strings they are.
  lemma RootBindsLeaves(h: Sha256, a: seq<string>, b: seq<string>)
    requires |a| == |b| && Root(h, a) == Root(h, b)
    requires CollisionFree(h, RootInputs(h, a) + RootInputs(h, b))
    ensures a == b
  {
    if |a| > 1 {
      var s := RootInputs(h, a) + RootInputs(h, b);
      LeavesCovered(h, a, s);
      LeavesCovered(h, b, s);
      SameHeightBinds(h, Hashed(h, a), Hashed(h, b), Rounds(|a|), s);
      forall i | 0 <= i < |a| ensures a[i] == b[i] {
        assert Hashed(h, a)[i] == Hashed(h, b)[i];
        assert !Collide(h, a[i], b[i]);
      }
    }
  }

  lemma SameRounds(n: nat)
    requires n > 1 && n % 2 == 1
    ensures Rounds(n + 1) == Rounds(n)
  {
    assert (n + 1 + 1) / 2 == (n + 1) / 2;
  }

  lemma LastTwice<T>(xs: seq<T>)
    requires xs != []
    ensures var front, last := xs[..|xs| - 1], xs[|xs| - 1]; xs == front + [last] && xs + [last] == front + [last, last]
  {
  }

  lemma LevelOfLast(h: Sha256, front: seq<string>, last: string)
    requires |front| % 2 == 0
    ensures Level(h, front + [last]) == Level(h, front + [last, last])
  {
    LevelSplit(h, front, [last]);
    LevelSplit(h, front, [last, last]);
    LevelOfOne(h, last);
  }

  // The level above does not tell an odd last node from two copies of it.
  lemma RepeatedLastNode(h: Sha256, nodes: seq<string>)
    requires |nodes| % 2 == 1
    ensures Level(h, nodes) == Level(h, nodes + [nodes[|nodes| - 1]])
  {
    LastTwice(nodes);
    LevelOfLast(h, nodes[..|nodes| - 1], nodes[|nodes| - 1]);
  }

  lemma LevelOfOne(h: Sha256, x: string)
    ensures Level(h, [x]) == [h(x + x)] == Level(h, [x, x])
  {
    assert [x, x][2..] == [];
    assert Level(h, [x, x]) == [h(x + x)] + Level(h, []);
  }

  // Without sequence numbers the root does not bind the length: any odd last leaf may be repeated.
  lemma RepeatedLastLeaf(h: Sha256, leaves: seq<string>)
    requires |leaves| > 1 && |leaves| % 2 == 1
    ensures Root(h, leaves) == Root(h, leaves + [leaves[|leaves| - 1]])
  {
    var longer := leaves + [leaves[|leaves| - 1]];
    var nodes, k := Hashed(h, leaves), Rounds(|leaves|);
    assert Hashed(h, longer) == nodes + [nodes[|nodes| - 1]];
    SameRounds(|leaves|);
    RepeatedLastNode(h, nodes);
    LevelKeepsTree(h, nodes, k);
    LevelKeepsTree(h, Hashed(h, longer), k);
  }
}
