/** Where the buddy system's blocks lie in memory, and how its intrusive lists spell the free
    lists of the tree. */
module BuddyLists {
  import opened PowersOfTwo
  import opened BuddyTree
  import opened BuddyMoves
  import opened BuddyTheorems
  import FL = FreeList

  /** Bytes of one size class record; its list head comes first. */
  const INFO_SIZE: nat := 48

  /** Bytes of a list node: two pointers, written into the head or into the free block itself. */
  const NODE_SIZE: nat := 16

  datatype Geo = Geo(base: nat, leaf: nat)

  function BlkSize(g: Geo, k: nat): nat {
    Pow2(k) * g.leaf
  }

  function BlkAddr(g: Geo, k: nat, bi: nat): nat {
    g.base + bi * BlkSize(g, k)
  }

  function BlkIndex(g: Geo, k: nat, addr: nat): nat
    requires g.base <= addr && g.leaf > 0
  {
    PosSize(g, k);
    DivPos(addr - g.base, BlkSize(g, k));
    (addr - g.base) / BlkSize(g, k)
  }

  function BlkIndexNext(g: Geo, k: nat, addr: nat): nat
    requires g.base <= addr && g.leaf > 0
  {
    PosSize(g, k);
    DivPos(addr - g.base, BlkSize(g, k));
    (addr - g.base) / BlkSize(g, k) + (if (addr - g.base) % BlkSize(g, k) > 0 then 1 else 0)
  }

  lemma PosSize(g: Geo, k: nat)
    requires g.leaf > 0
    ensures BlkSize(g, k) > 0
  {}

  function AddrOf(g: Geo, x: Node): (a: nat)
    ensures a >= g.base
  {
    g.base + Start(x) * g.leaf
  }

  function HeadOf(g: Geo, k: nat): nat {
    g.base + INFO_SIZE * k
  }

  // ---------- addresses and block indices ----------

  lemma ScaledDiv(a: nat, b: nat, c: nat)
    requires b > 0 && c > 0
    ensures b * c > 0 && (a * c) / (b * c) == a / b && (a * c) % (b * c) == (a % b) * c
  {
    var q, r := a / b, a % b;
    DivMod(a, b);
    assert a * c == q * (b * c) + r * c;
    MulMonotone(r + 1, b, c);
    assert r * c < b * c;
    MulDiv(q, b * c, r * c);
  }

  /** The block of size k at a leaf's address is the block the leaf lies in. */
  lemma IndexOfLeaf(g: Geo, k: nat, leaf: nat)
    requires g.leaf > 0
    ensures BlkIndex(g, k, g.base + leaf * g.leaf) == BlockOf(k, leaf).i
  {
    ScaledDiv(leaf, Pow2(k), g.leaf);
  }

  lemma IndexOfBlock(g: Geo, x: Node)
    requires g.leaf > 0
    ensures BlkIndex(g, x.k, AddrOf(g, x)) == x.i && BlkAddr(g, x.k, x.i) == AddrOf(g, x)
  {
    IndexOfLeaf(g, x.k, Start(x));
    MulMod(x.i, Pow2(x.k));
    assert x.i * (Pow2(x.k) * g.leaf) == x.i * Pow2(x.k) * g.leaf;
  }

  lemma HalvesAddr(g: Geo, x: Node)
    requires x.k > 0
    ensures AddrOf(g, Left(x)) == AddrOf(g, x)
    ensures AddrOf(g, Right(x)) == AddrOf(g, x) + BlkSize(g, x.k - 1)
  {
    Halves(x);
    var p := Pow2(x.k - 1);
    assert Start(Right(x)) == Start(x) + p by {
      assert (2 * x.i + 1) * p == 2 * x.i * p + p;
    }
    assert (Start(x) + p) * g.leaf == Start(x) * g.leaf + p * g.leaf;
  }

  lemma ParentAddr(g: Geo, x: Node)
    ensures x.i % 2 == 0 ==> AddrOf(g, Parent(x)) == AddrOf(g, x)
    ensures x.i % 2 == 1 ==> AddrOf(g, Parent(x)) == AddrOf(g, Buddy(x))
  {
    Halves(Parent(x));
    Kin(Parent(x), x);
  }

  // ---------- lists of addresses ----------

  function Addrs(g: Geo, k: nat, s: seq<nat>): (r: seq<int>)
    ensures |r| == |s|
  {
    if s == [] then [] else [AddrOf(g, Node(k, s[0]))] + Addrs(g, k, s[1..])
  }

  lemma {:induction false} AddrsAt(g: Geo, k: nat, s: seq<nat>, j: nat)
    requires j < |s|
    ensures Addrs(g, k, s)[j] == AddrOf(g, Node(k, s[j]))
  {
    if j > 0 {
      AddrsAt(g, k, s[1..], j - 1);
    }
  }

  /** Dropping a block from the list of indices drops one position from the addresses. */
  lemma {:induction false} AddrsWithout(g: Geo, k: nat, s: seq<nat>, i: nat) returns (j: nat)
    requires i in s
    ensures j < |s| && s[j] == i && Addrs(g, k, s)[j] == AddrOf(g, Node(k, i))
    ensures Addrs(g, k, Without(s, i)) == Addrs(g, k, s)[..j] + Addrs(g, k, s)[j + 1..]
  {
    if s[0] == i {
      j := 0;
    } else {
      assert s == [s[0]] + s[1..];
      var j' := AddrsWithout(g, k, s[1..], i);
      j := j' + 1;
      var rest := Without(s[1..], i);
      assert Without(s, i) == [s[0]] + rest;
      assert ([s[0]] + rest)[1..] == rest;
    }
  }

  /** The lists in memory are exactly the free lists of the tree. */
  ghost predicate ListsAgree(g: Geo, t: Tree, rings: map<int, seq<int>>) {
    && |t.free| == t.top + 1
    && (forall h | h in rings :: exists k :: 0 <= k <= t.top && h == HeadOf(g, k))
    && (forall k | 0 <= k <= t.top :: ListAt(g, t, rings, k))
  }

  ghost predicate ListAt(g: Geo, t: Tree, rings: map<int, seq<int>>, k: nat)
    requires k < |t.free|
  {
    HeadOf(g, k) in rings && rings[HeadOf(g, k)] == [HeadOf(g, k)] + Addrs(g, k, t.free[k])
  }

  lemma AddrInjective(g: Geo, x: Node, y: Node)
    requires g.leaf > 0 && Start(x) < Start(y)
    ensures AddrOf(g, x) < AddrOf(g, y)
  {
    MulMonotone(Start(x) + 1, Start(y), g.leaf);
  }

  lemma NotInList(g: Geo, t: Tree, k: nat, y: Node)
    requires g.leaf > 0 && Wf(t) && k <= t.top
    requires forall z | FreeNode(t, z) :: Start(z) != Start(y)
    ensures AddrOf(g, y) !in Addrs(g, k, t.free[k])
  {
    hide Start, AddrOf, Pow2, IsNode, Meets, Addrs;
    forall j | 0 <= j < |t.free[k]|
      ensures Addrs(g, k, t.free[k])[j] != AddrOf(g, y)
    {
      AddrsAt(g, k, t.free[k], j);
      var z := Node(k, t.free[k][j]);
      assert t.free[k][j] in t.free[k] && NodeOk(t, z);
      if Start(z) < Start(y) {
        AddrInjective(g, z, y);
      } else {
        AddrInjective(g, y, z);
      }
    }
  }

  lemma HeadsBelow(g: Geo, t: Tree, k: nat, y: Node)
    requires INFO_SIZE * (t.top + 1) <= t.lo * g.leaf && t.lo <= Start(y) && k <= t.top
    ensures HeadOf(g, k) < AddrOf(g, y)
  {
    MulMonotone(t.lo, Start(y), g.leaf);
  }

  /** The block's address is not on any list yet. */
  lemma NotListed(g: Geo, t: Tree, rings: map<int, seq<int>>, y: Node)
    requires g.leaf > 0 && Wf(t) && ListsAgree(g, t, rings)
    requires INFO_SIZE * (t.top + 1) <= t.lo * g.leaf && t.lo <= Start(y)
    requires forall z | FreeNode(t, z) :: Start(z) != Start(y)
    ensures FL.Unlisted(rings, AddrOf(g, y))
  {
    hide Start, AddrOf, Pow2, Wf, Addrs, HeadOf;
    forall h | h in rings
      ensures AddrOf(g, y) !in rings[h]
    {
      var k :| 0 <= k <= t.top && h == HeadOf(g, k);
      assert ListAt(g, t, rings, k);
      NotInList(g, t, k, y);
      HeadsBelow(g, t, k, y);
    }
  }

  /** A block inside a live one, or a live one itself, is on no list. */
  lemma LiveNotListed(g: Geo, t: Tree, rings: map<int, seq<int>>, x: Node, y: Node)
    requires g.leaf > 0 && Wf(t) && ListsAgree(g, t, rings)
    requires INFO_SIZE * (t.top + 1) <= t.lo * g.leaf
    requires LiveNode(t, x) && Start(x) <= Start(y) < End(x)
    ensures FL.Unlisted(rings, AddrOf(g, y))
  {
    BlocksNotMeeting(t, x);
    forall z | FreeNode(t, z)
      ensures Start(z) != Start(y)
    {
      BlocksDisjoint(t, x, z);
      RangeNonEmpty(z);
    }
    NotListed(g, t, rings, y);
  }

  lemma BlocksNotMeeting(t: Tree, x: Node)
    requires LiveNode(t, x)
    ensures t.lo <= Start(x) && End(x) <= t.hi
  {}

  /** Replacing one list on both sides keeps them in step. */
  lemma OneListChanged(g: Geo, t: Tree, u: Tree, rings: map<int, seq<int>>, k: nat)
    requires ListsAgree(g, t, rings) && k <= t.top
    requires u.top == t.top && |u.free| == |t.free|
    requires forall j | 0 <= j <= t.top && j != k :: u.free[j] == t.free[j]
    ensures ListsAgree(g, u, rings[HeadOf(g, k) := [HeadOf(g, k)] + Addrs(g, k, u.free[k])])
  {
    var rings' := rings[HeadOf(g, k) := [HeadOf(g, k)] + Addrs(g, k, u.free[k])];
    forall j | 0 <= j <= u.top
      ensures ListAt(g, u, rings', j)
    {
      assert ListAt(g, t, rings, j);
    }
  }

  /** Pushing a block in memory is pushing it in the tree. */
  lemma PushAgrees(g: Geo, t: Tree, u: Tree, rings: map<int, seq<int>>, y: Node)
    requires ListsAgree(g, t, rings) && y.k <= t.top
    requires u.top == t.top && u.free == t.free[y.k := [y.i] + t.free[y.k]]
    ensures HeadOf(g, y.k) in rings && |rings[HeadOf(g, y.k)]| > 0
    ensures ListsAgree(g, u, rings[HeadOf(g, y.k) := [HeadOf(g, y.k), AddrOf(g, y)] + rings[HeadOf(g, y.k)][1..]])
  {
    hide HeadOf, AddrOf;
    var h := HeadOf(g, y.k);
    assert ListAt(g, t, rings, y.k);
    assert ([y.i] + t.free[y.k])[1..] == t.free[y.k];
    assert Addrs(g, y.k, u.free[y.k]) == [AddrOf(g, y)] + Addrs(g, y.k, t.free[y.k]);
    assert [h] + Addrs(g, y.k, u.free[y.k]) == [h, AddrOf(g, y)] + rings[h][1..];
    OneListChanged(g, t, u, rings, y.k);
  }

  /** Removing a block in memory is dropping it from the tree's list. */
  lemma DropAgrees(g: Geo, t: Tree, u: Tree, rings: map<int, seq<int>>, y: Node) returns (p: nat)
    requires ListsAgree(g, t, rings) && y.k <= t.top && y.i in t.free[y.k]
    requires u.top == t.top && u.free == t.free[y.k := Without(t.free[y.k], y.i)]
    ensures HeadOf(g, y.k) in rings && 0 < p < |rings[HeadOf(g, y.k)]| && rings[HeadOf(g, y.k)][p] == AddrOf(g, y)
    ensures var ring := rings[HeadOf(g, y.k)];
            ListsAgree(g, u, rings[HeadOf(g, y.k) := ring[..p] + ring[p + 1..]])
  {
    hide HeadOf, AddrOf, Without;
    var h := HeadOf(g, y.k);
    assert ListAt(g, t, rings, y.k);
    var j := AddrsWithout(g, y.k, t.free[y.k], y.i);
    p := j + 1;
    var ring := rings[h];
    assert [h] + Addrs(g, y.k, u.free[y.k]) == ring[..p] + ring[p + 1..];
    OneListChanged(g, t, u, rings, y.k);
  }
}
