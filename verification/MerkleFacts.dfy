/** The bytes that are hashed for an event, and the roots of small and of full lists. */
module MerkleFacts {
  import opened Uuids
  import opened Merkle

  // Main result: what is hashed for an event are its sequence number in two's complement, its id and
  // its parent's id, most significant byte first, and its file hash, in this order.
  lemma LeafLayout(h: Sha256, e: EventRow) returns (b: string)
    ensures Leaf(h, e) == h(b) && |b| == 40 + |e.fileHash|
    ensures FromBigEndian(b[..8]) == if e.sequence < 0 then e.sequence + 0x1_0000_0000_0000_0000 else e.sequence
    ensures FromBigEndian(b[8..24]) == e.eventId && FromBigEndian(b[24..40]) == e.parentId
    ensures b[40..] == e.fileHash
  {
    b := LeafInput(e);
    LeafParts(e);
    Pow256Of8();
    Pow256Of16();
    BigEndianRoundTrip(if e.sequence < 0 then e.sequence + 0x1_0000_0000_0000_0000 else e.sequence, 8);
    BigEndianRoundTrip(e.eventId, 16);
    BigEndianRoundTrip(e.parentId, 16);
  }

  lemma LeafParts(e: EventRow)
    ensures var b := LeafInput(e);
      && |b| == 40 + |e.fileHash| && b[..8] == I64Bytes(e.sequence) && b[8..24] == UuidBytes(e.eventId)
      && b[24..40] == UuidBytes(e.parentId) && b[40..] == e.fileHash
  {
  }

  // ---------------------------------------------------------------- roots

  lemma SmallRoots(h: Sha256, a: string, b: string)
    ensures Root(h, []) == "empty" && Root(h, [a]) == a && Root(h, [a, b]) == h(h(a) + h(b))
  {
    var nodes := Hashed(h, [a, b]);
    assert Pow2(0) == 1 && Rounds(2) == 1 && Rounds(1) == 0;
    assert LeftPart(nodes, 1)[0] == h(a) && RightPart(nodes, 1)[0] == h(b);
  }

  // The root of one event and of two: of their leaves, in their order.
  lemma RootOfEvents(h: Sha256, e: EventRow, f: EventRow)
    ensures EventsRoot(h, [e]) == Leaf(h, e) && EventsRoot(h, [e, f]) == h(h(Leaf(h, e)) + h(Leaf(h, f)))
  {
    assert Leaves(h, [e]) == [Leaf(h, e)] && Leaves(h, [e, f]) == [Leaf(h, e), Leaf(h, f)];
    SmallRoots(h, Leaf(h, e), Leaf(h, f));
  }

  lemma RootOfThree(h: Sha256, a: string, b: string, c: string)
    ensures Root(h, [a, b, c]) == h(h(h(a) + h(b)) + h(h(c) + h(c)))
  {
    var nodes := Hashed(h, [a, b, c]);
    assert Pow2(0) == 1 && Pow2(1) == 2 && Rounds(1) == 0 && Rounds(2) == 1 && Rounds(3) == 2;
    assert LeftPart(nodes, 2) == [h(a), h(b)] && RightPart(nodes, 2) == [h(c)];
    PairRoot(h, h(a), h(b));
    SingleRoot(h, h(c));
  }

  lemma PairRoot(h: Sha256, x: string, y: string)
    ensures Tree(h, [x, y], 1) == h(x + y)
  {
    assert Pow2(0) == 1 && LeftPart([x, y], 1) == [x] && RightPart([x, y], 1) == [y];
  }

  lemma SingleRoot(h: Sha256, x: string)
    ensures Tree(h, [x], 1) == h(x + x)
  {
    assert Pow2(0) == 1 && LeftPart([x], 1) == [x] == RightPart([x], 1);
  }

  lemma RoundsOfHalf(n: nat, k: nat)
    requires k > 0 && Pow2(k - 1) < n <= Pow2(k)
    ensures Rounds(n) == k
    decreases k
  {
    if k == 1 {
      assert n == 2 && Rounds(2) == 1 + Rounds(1);
    } else {
      assert Pow2(k - 2) < (n + 1) / 2 <= Pow2(k - 1);
      RoundsOfHalf((n + 1) / 2, k - 1);
    }
  }

  lemma HalvesOf(a: seq<string>, b: seq<string>, k: nat)
    requires k > 0 && |a| == Pow2(k - 1) && b != []
    ensures LeftPart(a + b, k) == a && RightPart(a + b, k) == b
  {
  }

  lemma TreeOfHalves(h: Sha256, a: seq<string>, b: seq<string>, k: nat)
    requires k > 0 && |a| == Pow2(k - 1) && b != []
    ensures Tree(h, a + b, k) == h(Tree(h, a, k - 1) + Tree(h, b, k - 1))
  {
    HalvesOf(a, b, k);
    assert Below(h, a + b, k) == Tree(h, a, k - 1) + Tree(h, b, k - 1);
  }

  lemma HashedConcat(h: Sha256, a: seq<string>, b: seq<string>)
    ensures Hashed(h, a + b) == Hashed(h, a) + Hashed(h, b)
  {
  }

  lemma RootIsTree(h: Sha256, leaves: seq<string>, k: nat)
    requires k > 0 && Pow2(k - 1) < |leaves| <= Pow2(k)
    ensures Root(h, leaves) == Tree(h, Hashed(h, leaves), k)
  {
    RoundsOfHalf(|leaves|, k);
  }

  // Main result: behind a full half, a list's root is the hash of the two halves' roots, the left one
  // first.
  lemma RootOfHalves(h: Sha256, left: seq<string>, right: seq<string>, k: nat)
    requires k > 0 && |left| == Pow2(k) && Pow2(k - 1) < |right| <= Pow2(k)
    ensures Root(h, left + right) == h(Root(h, left) + Root(h, right))
  {
    RootIsTree(h, left, k);
    RootIsTree(h, right, k);
    RootIsTree(h, left + right, k + 1);
    HashedConcat(h, left, right);
    TreeOfHalves(h, Hashed(h, left), Hashed(h, right), k + 1);
  }
}
