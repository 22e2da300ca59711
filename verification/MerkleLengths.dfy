/** Lists of different lengths under one Merkle root, when nothing inside the leaves tells them apart. */
module MerkleLengths {
  import opened Merkle

  // A full binary tree with a node at each of its leaves.
  datatype Full = One(node: string) | Two(left: Full, right: Full)

  // The full tree of height k that the nodes fill up: a right subtree without nodes copies the left.
  function Filled(nodes: seq<string>, k: nat): Full
    requires nodes != []
    decreases k
  {
    if k == 0 then One(nodes[0]) else Two(Filled(LeftPart(nodes, k), k - 1), Filled(RightPart(nodes, k), k - 1))
  }

  // Its leaves from left to right.
  function Front(t: Full): (nodes: seq<string>) {
    match t
    case One(node) => [node]
    case Two(left, right) => Front(left) + Front(right)
  }

  predicate Height(t: Full, k: nat) {
    match t
    case One(_) => k == 0
    case Two(left, right) => k > 0 && Height(left, k - 1) && Height(right, k - 1)
  }

  lemma {:induction false} FilledHeight(nodes: seq<string>, k: nat)
    requires nodes != []
    ensures Height(Filled(nodes, k), k)
    decreases k
  {
    if k > 0 {
      FilledHeight(LeftPart(nodes, k), k - 1);
      FilledHeight(RightPart(nodes, k), k - 1);
    }
  }

  lemma {:induction false} FrontLength(t: Full, k: nat)
    requires Height(t, k)
    ensures |Front(t)| == Pow2(k)
  {
    if k > 0 {
      FrontLength(t.left, k - 1);
      FrontLength(t.right, k - 1);
    }
  }

  // Full trees of one height are told apart by their leaves.
  lemma {:induction false} FrontInjective(t: Full, u: Full, k: nat)
    requires Height(t, k) && Height(u, k) && Front(t) == Front(u)
    ensures t == u
  {
    if k == 0 {
      assert Front(t)[0] == t.node && Front(u)[0] == u.node;
    } else {
      FrontLength(t.left, k - 1);
      FrontLength(u.left, k - 1);
      ConcatInjective(Front(t.left), Front(t.right), Front(u.left), Front(u.right));
      FrontInjective(t.left, u.left, k - 1);
      FrontInjective(t.right, u.right, k - 1);
    }
  }

  // The leaves of the full tree: the nodes themselves and then copies of some of them.
  function Padded(nodes: seq<string>, k: nat): seq<string>
    requires nodes != []
  {
    Front(Filled(nodes, k))
  }

  lemma PaddedSize(nodes: seq<string>, k: nat)
    requires nodes != []
    ensures |Padded(nodes, k)| == Pow2(k)
  {
    FilledHeight(nodes, k);
    FrontLength(Filled(nodes, k), k);
  }

  lemma PrefixOfParts(nodes: seq<string>, k: nat, left: seq<string>, right: seq<string>)
    requires 0 < |nodes| <= Pow2(k) && k > 0 && |left| == Pow2(k - 1)
    requires LeftPart(nodes, k) <= left && RightPart(nodes, k) <= right
    ensures nodes <= left + right
  {
    if |nodes| > Pow2(k - 1) {
      assert left == nodes[..Pow2(k - 1)];
      assert nodes == left + RightPart(nodes, k);
    }
  }

  predicate BeginsPadded(nodes: seq<string>, k: nat) {
    0 < |nodes| <= Pow2(k) ==> nodes <= Padded(nodes, k)
  }

  ghost predicate AllBegin(k: nat) {
    forall nodes: seq<string> :: BeginsPadded(nodes, k)
  }

  lemma BeginsNext(nodes: seq<string>, k: nat)
    requires k > 0 && BeginsPadded(LeftPart(nodes, k), k - 1) && BeginsPadded(RightPart(nodes, k), k - 1)
    ensures BeginsPadded(nodes, k)
  {
    if 0 < |nodes| <= Pow2(k) {
      PartSizes(nodes, k);
      PaddedSize(LeftPart(nodes, k), k - 1);
      PrefixOfParts(nodes, k, Padded(LeftPart(nodes, k), k - 1), Padded(RightPart(nodes, k), k - 1));
    }
  }

  lemma AllBeginNext(k: nat)
    requires k > 0 && AllBegin(k - 1)
    ensures AllBegin(k)
  {
    forall nodes: seq<string> ensures BeginsPadded(nodes, k) {
      BeginsNext(nodes, k);
    }
  }

  lemma OneBegins(nodes: seq<string>)
    ensures BeginsPadded(nodes, 0)
  {
    if |nodes| == 1 { assert nodes == [nodes[0]]; }
  }

  lemma {:induction false} PaddedBegins(k: nat)
    ensures AllBegin(k)
  {
    if k == 0 {
      forall nodes: seq<string> ensures BeginsPadded(nodes, 0) { OneBegins(nodes); }
    } else {
      PaddedBegins(k - 1);
      AllBeginNext(k);
    }
  }

  predicate Within(t: Full, s: set<string>) {
    match t
    case One(node) => node in s
    case Two(left, right) => Within(left, s) && Within(right, s)
  }

  predicate FillsWithin(nodes: seq<string>, k: nat, s: set<string>) {
    nodes != [] && (forall x | x in nodes :: x in s) ==> Within(Filled(nodes, k), s)
  }

  ghost predicate AllWithin(k: nat, s: set<string>) {
    forall nodes: seq<string> :: FillsWithin(nodes, k, s)
  }

  lemma WithinNext(nodes: seq<string>, k: nat, s: set<string>)
    requires k > 0 && FillsWithin(LeftPart(nodes, k), k - 1, s) && FillsWithin(RightPart(nodes, k), k - 1, s)
    ensures FillsWithin(nodes, k, s)
  {
    PartsCover(nodes, k);
  }

  lemma AllWithinNext(k: nat, s: set<string>)
    requires k > 0 && AllWithin(k - 1, s)
    ensures AllWithin(k, s)
  {
    forall nodes: seq<string> ensures FillsWithin(nodes, k, s) {
      WithinNext(nodes, k, s);
    }
  }

  lemma OneWithin(nodes: seq<string>, s: set<string>)
    ensures FillsWithin(nodes, 0, s)
  {
    if nodes != [] { assert nodes[0] in nodes; }
  }

  lemma {:induction false} FilledWithin(k: nat, s: set<string>)
    ensures AllWithin(k, s)
  {
    if k == 0 {
      forall nodes: seq<string> ensures FillsWithin(nodes, 0, s) { OneWithin(nodes, s); }
    } else {
      FilledWithin(k - 1, s);
      AllWithinNext(k, s);
    }
  }

  lemma {:induction false} FrontWithin(t: Full, s: set<string>)
    requires Within(t, s)
    ensures forall x | x in Front(t) :: x in s
  {
    if t.Two? {
      FrontWithin(t.left, s);
      FrontWithin(t.right, s);
    }
  }

  // The padded list is the list itself and behind it copies of some of its nodes.
  lemma PaddedExtends(nodes: seq<string>, k: nat)
    requires 0 < |nodes| <= Pow2(k)
    ensures nodes <= Padded(nodes, k) && |Padded(nodes, k)| == Pow2(k)
    ensures forall x | x in Padded(nodes, k) :: x in nodes
  {
    var s := set x | x in nodes;
    PaddedBegins(k);
    assert BeginsPadded(nodes, k);
    FilledWithin(k, s);
    assert FillsWithin(nodes, k, s);
    FrontWithin(Filled(nodes, k), s);
    PaddedSize(nodes, k);
  }

  // ---------------------------------------------------------------- roots

  function RootOf(h: Sha256, t: Full): string {
    match t
    case One(node) => node
    case Two(left, right) => h(RootOf(h, left) + RootOf(h, right))
  }

  predicate FillsRoot(h: Sha256, nodes: seq<string>, k: nat) {
    nodes != [] && Tree(h, nodes, k) == RootOf(h, Filled(nodes, k))
  }

  lemma RootOfParts(h: Sha256, nodes: seq<string>, k: nat)
    requires nodes != [] && k > 0
    requires FillsRoot(h, LeftPart(nodes, k), k - 1) && FillsRoot(h, RightPart(nodes, k), k - 1)
    ensures FillsRoot(h, nodes, k)
  {
  }

  lemma RootOfOne(h: Sha256, nodes: seq<string>)
    requires nodes != []
    ensures FillsRoot(h, nodes, 0)
  {
  }

  ghost predicate AllFill(h: Sha256, k: nat) {
    forall nodes: seq<string> | nodes != [] :: FillsRoot(h, nodes, k)
  }

  lemma AllFillNext(h: Sha256, k: nat)
    requires k > 0 && AllFill(h, k - 1)
    ensures AllFill(h, k)
  {
    forall nodes: seq<string> | nodes != [] ensures FillsRoot(h, nodes, k) {
      RootOfParts(h, nodes, k);
    }
  }

  // The root of a list is that of its full tree.
  lemma {:induction false} RootOfFilled(h: Sha256, k: nat)
    ensures AllFill(h, k)
  {
    if k == 0 {
      forall nodes: seq<string> | nodes != [] ensures FillsRoot(h, nodes, 0) { RootOfOne(h, nodes); }
    } else {
      RootOfFilled(h, k - 1);
      AllFillNext(h, k);
    }
  }

  lemma {:induction false} FilledBinds(h: Sha256, a: seq<string>, b: seq<string>, k: nat, s: set<string>)
    requires Covers(h, a, k, s) && Covers(h, b, k, s) && CollisionFree(h, s) && Tree(h, a, k) == Tree(h, b, k)
    ensures Filled(a, k) == Filled(b, k)
    decreases k
  {
    if k > 0 {
      EqualChildren(h, a, k, b, k, s);
      FilledBinds(h, LeftPart(a, k), LeftPart(b, k), k - 1, s);
      FilledBinds(h, RightPart(a, k), RightPart(b, k), k - 1, s);
    }
  }

  // ---------------------------------------------------------------- hashed leaves

  function HashedFull(h: Sha256, t: Full): Full {
    match t
    case One(node) => One(h(node))
    case Two(left, right) => Two(HashedFull(h, left), HashedFull(h, right))
  }

  lemma HashedParts(h: Sha256, xs: seq<string>, k: nat)
    requires k > 0
    ensures LeftPart(Hashed(h, xs), k) == Hashed(h, LeftPart(xs, k))
    ensures RightPart(Hashed(h, xs), k) == Hashed(h, RightPart(xs, k))
  {
  }

  predicate FillsHashed(h: Sha256, xs: seq<string>, k: nat) {
    xs != [] && Filled(Hashed(h, xs), k) == HashedFull(h, Filled(xs, k))
  }

  lemma HashedOfParts(h: Sha256, xs: seq<string>, k: nat)
    requires xs != [] && k > 0
    requires FillsHashed(h, LeftPart(xs, k), k - 1) && FillsHashed(h, RightPart(xs, k), k - 1)
    ensures FillsHashed(h, xs, k)
  {
    HashedParts(h, xs, k);
  }

  lemma HashedOfOne(h: Sha256, xs: seq<string>)
    requires xs != []
    ensures FillsHashed(h, xs, 0)
  {
  }

  ghost predicate AllHashed(h: Sha256, k: nat) {
    forall xs: seq<string> | xs != [] :: FillsHashed(h, xs, k)
  }

  lemma AllHashedNext(h: Sha256, k: nat)
    requires k > 0 && AllHashed(h, k - 1)
    ensures AllHashed(h, k)
  {
    forall xs: seq<string> | xs != [] ensures FillsHashed(h, xs, k) {
      HashedOfParts(h, xs, k);
    }
  }

  lemma {:induction false} FilledHashed(h: Sha256, k: nat)
    ensures AllHashed(h, k)
  {
    if k == 0 {
      forall xs: seq<string> | xs != [] ensures FillsHashed(h, xs, 0) { HashedOfOne(h, xs); }
    } else {
      FilledHashed(h, k - 1);
      AllHashedNext(h, k);
    }
  }

  lemma {:induction false} HashedFullBinds(h: Sha256, t: Full, u: Full, s: set<string>)
    requires CollisionFree(h, s) && Within(t, s) && Within(u, s) && HashedFull(h, t) == HashedFull(h, u)
    ensures t == u
  {
    if t.One? {
      assert !Collide(h, t.node, u.node);
    } else {
      HashedFullBinds(h, t.left, u.left, s);
      HashedFullBinds(h, t.right, u.right, s);
    }
  }

  // ---------------------------------------------------------------- the exact condition

  lemma OneHeight(h: Sha256, a: seq<string>, b: seq<string>, k: nat, s: set<string>)
    requires |a| > 1 && |b| > 1 && RootInputs(h, a) <= s && RootInputs(h, b) <= s && CollisionFree(h, s)
    requires Rounds(|a|) == Rounds(|b|) == k
    ensures Root(h, a) == Root(h, b) <==> Filled(a, k) == Filled(b, k)
  {
    LeavesCovered(h, a, s);
    LeavesCovered(h, b, s);
    FilledHashed(h, k);
    RootOfFilled(h, k);
    assert FillsHashed(h, a, k) && FillsHashed(h, b, k);
    assert FillsRoot(h, Hashed(h, a), k) && FillsRoot(h, Hashed(h, b), k);
    if Root(h, a) == Root(h, b) {
      FilledBinds(h, Hashed(h, a), Hashed(h, b), k, s);
      FilledWithin(k, s);
      assert FillsWithin(a, k, s) && FillsWithin(b, k, s);
      HashedFullBinds(h, Filled(a, k), Filled(b, k), s);
    }
  }

  lemma TwoHeights(h: Sha256, a: seq<string>, b: seq<string>, s: set<string>)
    requires |a| > 1 && |b| > 1 && RootInputs(h, a) <= s && RootInputs(h, b) <= s && CollisionFree(h, s)
    requires Digests(a) && Rounds(|a|) < Rounds(|b|)
    ensures Root(h, a) != Root(h, b)
  {
    LeavesCovered(h, a, s);
    LeavesCovered(h, b, s);
    HeightsBind(h, Hashed(h, a), Rounds(|a|), Hashed(h, b), Rounds(|b|), a[0], s);
  }

  // Main result: two lists of several leaf hashes, of any lengths, have the same root exactly if
  // their trees have one height and, filled up with copies, the same leaves.
  lemma RootsEqualIff(h: Sha256, a: seq<string>, b: seq<string>)
    requires |a| > 1 && |b| > 1 && Digests(a) && Digests(b)
    requires CollisionFree(h, RootInputs(h, a) + RootInputs(h, b))
    ensures Root(h, a) == Root(h, b) <==>
      Rounds(|a|) == Rounds(|b|) && Padded(a, Rounds(|a|)) == Padded(b, Rounds(|b|))
  {
    var s := RootInputs(h, a) + RootInputs(h, b);
    if Rounds(|a|) == Rounds(|b|) {
      var k := Rounds(|a|);
      OneHeight(h, a, b, k, s);
      FilledHeight(a, k);
      FilledHeight(b, k);
      if Padded(a, k) == Padded(b, k) { FrontInjective(Filled(a, k), Filled(b, k), k); }
    } else if Rounds(|a|) < Rounds(|b|) {
      TwoHeights(h, a, b, s);
    } else {
      TwoHeights(h, b, a, s);
    }
  }
}
