/** The lists are threaded through the free blocks themselves. Every node the allocator writes
    lies in the metadata or inside a free block, so that no write meets a caller's memory. */
module BuddyNodes {
  import opened PowersOfTwo
  import opened BuddyTree
  import opened BuddyMoves
  import opened BuddyTheorems
  import opened BuddyLists
  import opened BuddySetup
  import opened Buddy
  import FL = FreeList

  /** What a listed address is: the head of a list, or a free block. */
  datatype Place = AtHead(k: nat) | InBlock(x: Node)

  ghost predicate PlacedAt(g: Geo, t: Tree, a: int, p: Place) {
    match p
    case AtHead(k) => k <= t.top && a == HeadOf(g, k)
    case InBlock(x) => FreeNode(t, x) && a == AddrOf(g, x)
  }

  lemma PlaceOf(g: Geo, t: Tree, rings: map<int, seq<int>>, a: int) returns (p: Place)
    requires Wf(t) && ListsAgree(g, t, rings) && !FL.Unlisted(rings, a)
    ensures PlacedAt(g, t, a, p)
  {
    hide Wf, FreeNode, HeadOf, AddrOf, Addrs;
    var h :| h in rings && a in rings[h];
    var k :| 0 <= k <= t.top && h == HeadOf(g, k);
    assert ListAt(g, t, rings, k);
    if a == h {
      p := AtHead(k);
    } else {
      var s := Addrs(g, k, t.free[k]);
      assert a in s;
      var j :| 0 <= j < |s| && s[j] == a;
      AddrsAt(g, k, t.free[k], j);
      var i := t.free[k][j];
      assert i in t.free[k];
      ListedIsFree(t, k, i);
      p := InBlock(Node(k, i));
    }
  }

  /** A block has room for its node. */
  lemma RoomForNode(g: Geo, k: nat)
    requires g.leaf >= NODE_SIZE
    ensures BlkSize(g, k) >= NODE_SIZE
  {
    MulMonotone(1, Pow2(k), g.leaf);
  }

  lemma FreeInRange(g: Geo, t: Tree, end: nat, x: Node)
    requires end == g.base + t.hi * g.leaf && Wf(t) && FreeNode(t, x)
    ensures InRange(g, t, end, x)
  {
    hide Wf, FreeNode, Start, End, BlkSize, Pow2;
    FreeBetween(t, x);
    MulMonotone(t.lo, Start(x), g.leaf);
    MulMonotone(End(x), t.hi, g.leaf);
    BlockBytes(g, x);
    AddrIs(g, x);
  }

  lemma AddrIs(g: Geo, x: Node)
    ensures AddrOf(g, x) == g.base + Start(x) * g.leaf
  {}

  lemma FreeBetween(t: Tree, x: Node)
    requires Wf(t) && FreeNode(t, x)
    ensures t.lo <= Start(x) && End(x) <= t.hi
  {
    FreeFacts(t, x);
  }

  /** The bytes of two different blocks, free or in use, keep apart. */
  lemma BytesApart(g: Geo, t: Tree, x: Node, y: Node)
    requires Wf(t) && Terminal(t, x) && Terminal(t, y) && x != y
    ensures AddrOf(g, x) + BlkSize(g, x.k) <= AddrOf(g, y) || AddrOf(g, y) + BlkSize(g, y.k) <= AddrOf(g, x)
  {
    hide Wf, Terminal, AddrOf, BlkSize;
    BlocksDisjoint(t, x, y);
    DisjointBytes(g, x, y);
  }

  lemma LiveIsOther(t: Tree, x: Node, y: Node)
    requires FreeNode(t, x) && y in Live(t)
    ensures Terminal(t, x) && Terminal(t, y) && x != y
  {}

  /** The node in a free block keeps away from every block in use. */
  lemma NodeKeepsAway(g: Geo, t: Tree, x: Node)
    requires Wf(t) && FreeNode(t, x) && g.leaf >= NODE_SIZE
    ensures KeepsAway(g, Live(t), AddrOf(g, x), NODE_SIZE)
  {
    hide Wf, FreeNode, AddrOf, BlkSize, Live;
    RoomForNode(g, x.k);
    forall y | y in Live(t)
      ensures AddrOf(g, x) + NODE_SIZE <= AddrOf(g, y) || AddrOf(g, y) + BlkSize(g, y.k) <= AddrOf(g, x)
    {
      LiveIsOther(t, x, y);
      BytesApart(g, t, x, y);
    }
  }

  /** So does a head, which lies in the metadata. */
  lemma HeadKeepsAway(g: Geo, t: Tree, k: nat)
    requires k <= t.top && INFO_SIZE * (t.top + 1) <= t.lo * g.leaf
    ensures KeepsAway(g, Live(t), HeadOf(g, k), NODE_SIZE)
  {
    hide Live, Start, BlkSize;
    forall y | y in Live(t)
      ensures HeadOf(g, k) + NODE_SIZE <= AddrOf(g, y)
    {
      LiveBehind(t, y);
      MulMonotone(t.lo, Start(y), g.leaf);
    }
  }

  lemma LiveBehind(t: Tree, y: Node)
    requires y in Live(t)
    ensures t.lo <= Start(y)
  {}

  lemma FreeBehind(g: Geo, t: Tree, x: Node)
    requires Wf(t) && FreeNode(t, x)
    ensures g.base + t.lo * g.leaf <= AddrOf(g, x)
  {
    hide Wf, FreeNode, Start, End;
    FreeBetween(t, x);
    MulMonotone(t.lo, Start(x), g.leaf);
    AddrIs(g, x);
  }

  /** Two nodes at different addresses do not overlap. */
  lemma PlacesApart(g: Geo, t: Tree, a: int, p: Place, b: int, q: Place)
    requires Wf(t) && PlacedAt(g, t, a, p) && PlacedAt(g, t, b, q) && a != b
    requires g.leaf >= NODE_SIZE && INFO_SIZE * (t.top + 1) <= t.lo * g.leaf
    ensures a + NODE_SIZE <= b || b + NODE_SIZE <= a
  {
    hide Wf, FreeNode, AddrOf, BlkSize, Start;
    match (p, q)
    case (AtHead(k), AtHead(j)) =>
    case (AtHead(k), InBlock(y)) =>
      FreeBehind(g, t, y);
    case (InBlock(x), AtHead(j)) =>
      FreeBehind(g, t, x);
    case (InBlock(x), InBlock(y)) =>
      RoomForNode(g, x.k);
      RoomForNode(g, y.k);
      TerminalFree(t, x);
      TerminalFree(t, y);
      BytesApart(g, t, x, y);
  }

  /** Every node on a list lies in the records or between metadata and end, keeps away from every
      block in use, and overlaps no other node. */
  lemma NodesApart(s: BuddySystem, a: int, b: int)
    requires s.Valid() && !FL.Unlisted(s.lists.rings, a) && !FL.Unlisted(s.lists.rings, b)
    ensures 0 <= s.base <= a
    ensures a + NODE_SIZE <= s.base + INFO_SIZE * s.nsizes
            || s.base + s.tree.lo * s.leafSize <= a <= s.actualEnd - NODE_SIZE
    ensures KeepsAway(s.Geometry(), Live(s.tree), a, NODE_SIZE)
    ensures a != b ==> a + NODE_SIZE <= b || b + NODE_SIZE <= a
  {
    hide Wf, ListsAgree, FreeNode, AddrOf, BlkSize, Start, KeepsAway, Live;
    var g, t := s.Geometry(), s.tree;
    var p := PlaceOf(g, t, s.lists.rings, a);
    var q := PlaceOf(g, t, s.lists.rings, b);
    if a != b {
      PlacesApart(g, t, a, p, b, q);
    }
    match p
    case AtHead(k) =>
      HeadKeepsAway(g, t, k);
    case InBlock(x) =>
      FreeInRange(g, t, s.actualEnd, x);
      RoomForNode(g, x.k);
      NodeKeepsAway(g, t, x);
  }
}
