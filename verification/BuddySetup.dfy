/** From the arguments of `init` to the tree it builds: where the metadata ends, which blocks
    it marks, and why every block it pushes is on no list yet. */
module BuddySetup {
  import opened PowersOfTwo
  import opened BuddyTree
  import opened BuddyMoves
  import opened BuddyTheorems
  import opened BuddySizes
  import opened BuddyLists
  import opened BuddyInit
  import FL = FreeList

  // ---------- the layout `init` computes ----------

  function Unit(leaf: nat, maxAlign: nat): nat {
    if leaf > maxAlign then leaf else maxAlign
  }

  function BitmapBytes(n: nat): nat
    requires n >= 1
  {
    RoundUp(n, 8) / 8
  }

  /** Bytes of one bitmap per size in [from, to). */
  function MapsBytes(top: nat, from: nat, to: nat): nat
    requires from <= to <= top + 1
  {
    if to <= from then 0 else MapsBytes(top, from, to - 1) + BitmapBytes(Pow2(top - (to - 1)))
  }

  /** One record per size, an alloc bitmap per size, a split bitmap per size but the smallest. */
  function MetaBytes(top: nat): nat {
    INFO_SIZE * (top + 1) + MapsBytes(top, 0, top + 1) + MapsBytes(top, 1, top + 1)
  }

  /** What `init` makes of its arguments, in leaves: `lo` of metadata, `hi` managed. */
  datatype Plan = Plan(base: nat, end: nat, top: nat, lo: nat, hi: nat)

  ghost predicate Planned(start: nat, end: nat, leaf: nat, maxAlign: nat, p: Plan)
    requires start >= 1 && IsPowerOfTwo(leaf) && IsPowerOfTwo(maxAlign)
  {
    && p.base == RoundUp(start, Unit(leaf, maxAlign)) && p.end == RoundDown(end, Unit(leaf, maxAlign))
    && p.end == p.base + p.hi * leaf
    && p.top == ExponentFor(p.hi, 0)
    && p.base + p.lo * leaf == RoundUp(p.base + MetaBytes(p.top), leaf)
  }

  // ---------- bits that are looked at ----------

  /** The byte of bit i, which is that of its buddy's bit too, belongs to the bitmap of size k. */
  predicate InBitmap(top: nat, k: nat, i: nat)
    requires k <= top
  {
    i / 8 < BitmapBytes(Pow2(top - k))
  }

  /** All bits that `init_free` looks at lie in their bitmaps. */
  ghost predicate ReadsInside(top: nat, lo: nat, hi: nat) {
    forall k | 0 <= k < top :: InBitmap(top, k, LeftIndex(lo, k)) && InBitmap(top, k, RightIndex(hi, k))
  }

  /** Metadata within seven eighths of the span, and a range that does not fill it; or no bitmap of
      more than one byte. */
  predicate Readable(top: nat, lo: nat, hi: nat) {
    top < 3 || (8 * lo <= 7 * Pow2(top) && hi < Pow2(top))
  }

  lemma BitmapHolds(top: nat, k: nat, i: nat)
    requires k <= top
    ensures top - k >= 3 ==> (InBitmap(top, k, i) <==> i < Pow2(top - k))
    ensures top - k < 3 ==> (InBitmap(top, k, i) <==> i < 8) && Pow2(top - k) <= 4
  {
    SmallPowers();
    var n := Pow2(top - k);
    if top - k >= 3 {
      PowDivides(3, top - k);
      assert n == 8 * Pow2(top - k - 3);
    }
  }

  lemma IndexInside(top: nat, lo: nat, hi: nat, k: nat)
    requires k + 3 <= top && 8 * lo <= 7 * Pow2(top) && hi < Pow2(top)
    ensures LeftIndex(lo, k) < Pow2(top - k) && RightIndex(hi, k) < Pow2(top - k)
  {
    hide Pow2, CeilDiv;
    PowAdd(top - k, k);
    EighthPower(top, k);
    BelowEnd(lo, hi, Pow2(k), Pow2(top - k));
  }

  lemma EighthPower(top: nat, k: nat)
    requires k + 3 <= top
    ensures 8 * Pow2(k) <= Pow2(top)
  {
    hide Pow2;
    SmallPowers();
    PowAdd(3, k);
    PowMonotone(k + 3, top);
  }

  lemma BelowEnd(lo: nat, hi: nat, p: nat, n: nat)
    requires p > 0 && n > 0 && lo + p <= n * p && hi < n * p
    ensures CeilDiv(lo, p) < n && hi / p < n
  {
    hide CeilDiv;
    assert (n - 1) * p == n * p - p;
    CeilIs(lo, p, n - 1);
    FloorIs(hi, p, n);
  }

  lemma EighthIndices(top: nat, lo: nat, hi: nat)
    requires top >= 3
    ensures LeftIndex(lo, top - 3) < 8 <==> 8 * lo <= 7 * Pow2(top)
    ensures RightIndex(hi, top - 3) < 8 <==> hi < Pow2(top)
  {
    hide CeilDiv;
    SmallPowers();
    PowAdd(3, top - 3);
    CeilIs(lo, Pow2(top - 3), 7);
    FloorIs(hi, Pow2(top - 3), 8);
  }

  /** The exact condition under which `init` stays inside its bitmaps. */
  lemma ReadsInsideIff(top: nat, lo: nat, hi: nat)
    requires InSpan(top, lo, hi)
    ensures ReadsInside(top, lo, hi) <==> Readable(top, lo, hi)
  {
    hide InSpan, InBitmap, LeftIndex, RightIndex, Pow2;
    if top >= 3 {
      EighthIndices(top, lo, hi);
      BitmapHolds(top, top - 3, LeftIndex(lo, top - 3));
      BitmapHolds(top, top - 3, RightIndex(hi, top - 3));
      SmallPowers();
    }
    if Readable(top, lo, hi) {
      forall k | 0 <= k < top
        ensures InBitmap(top, k, LeftIndex(lo, k)) && InBitmap(top, k, RightIndex(hi, k))
      {
        BoundaryIndices(top, lo, hi, k);
        BitmapHolds(top, k, LeftIndex(lo, k));
        BitmapHolds(top, k, RightIndex(hi, k));
        if k + 3 <= top {
          IndexInside(top, lo, hi, k);
        }
      }
    }
  }

  /** Fifty leaves of 16 bytes: the metadata takes 23 of them, and at size 4 the range holds one
      whole block, the left half of its pair. */
  lemma LoneLeftHappens()
    ensures IsPowerOfTwo(16) && Planned(16, 816, 16, 16, Plan(16, 816, 6, 23, 50))
    ensures InSpan(6, 23, 50) && Readable(6, 23, 50) && LoneLeft(23, 50, 4) && !NoLoneLeft(6, 23, 50)
  {
    hide *;
    SixteenIs();
    FiftyPlanned();
    FiftyLone();
    LoneRefutes(6, 23, 50, 4);
  }

  lemma SixteenIs()
    ensures IsPowerOfTwo(16)
  {
    hide Pow2;
    SmallPowers();
  }

  lemma FiftyPlanned()
    requires IsPowerOfTwo(16)
    ensures Planned(16, 816, 16, 16, Plan(16, 816, 6, 23, 50))
  {
    hide Pow2, MetaBytes, ExponentFor, IsPowerOfTwo, RoundUp, RoundDown;
    SmallPowers();
    MetaOfSix();
    SizesAre(50, 5, 16);
    RoundUpIs(16, 16);
    RoundDownMultiple(816, 16);
    RoundUpIs(380, 16);
  }

  lemma RoundDownMultiple(n: nat, size: nat)
    requires size > 0 && n % size == 0
    ensures RoundDown(n, size) == n
  {
    DivMod(n, size);
  }

  lemma FiftyLone()
    ensures InSpan(6, 23, 50) && Readable(6, 23, 50) && LoneLeft(23, 50, 4)
  {
    hide Pow2;
    SmallPowers();
  }

  lemma LoneRefutes(top: nat, lo: nat, hi: nat, k: nat)
    requires k < top && LoneLeft(lo, hi, k)
    ensures !NoLoneLeft(top, lo, hi)
  {}

  lemma SmallPowers()
    ensures Pow2(0) == 1 && Pow2(1) == 2 && Pow2(2) == 4 && Pow2(3) == 8
    ensures Pow2(4) == 16 && Pow2(5) == 32 && Pow2(6) == 64
  {}

  /** Seven records, 7 + 6 bitmaps of 64, 32, .., 1 bits. */
  lemma MetaOfSix()
    ensures MetaBytes(6) == 364
  {
    SmallPowers();
    hide Pow2;
    assert MapsBytes(6, 0, 4) == 15;
    assert MapsBytes(6, 0, 7) == 18;
    assert MapsBytes(6, 1, 4) == 7;
    assert MapsBytes(6, 1, 7) == 10;
  }

  /** The number of sizes: the logarithm rounded up. */
  lemma SizesAre(hi: nat, k: nat, leaf: nat)
    requires leaf > 0 && Pow2(k) <= hi < Pow2(k + 1)
    ensures ExponentFor(hi, 0) == (if hi * leaf > Pow2(k) * leaf then k + 1 else k)
  {
    hide Pow2;
    var e := ExponentFor(hi, 0);
    if hi > Pow2(k) {
      MulMonotone(Pow2(k) + 1, hi, leaf);
      PowOrder(k, e);
      if e > k + 1 {
        PowMonotone(k + 1, e - 1);
      }
    } else {
      if e > k {
        PowMonotone(k, e - 1);
      } else if e < k {
        PowOrder(e, k);
      }
    }
  }

  lemma UnitFacts(leaf: nat, maxAlign: nat)
    requires IsPowerOfTwo(leaf) && IsPowerOfTwo(maxAlign)
    ensures Unit(leaf, maxAlign) > 0 && Unit(leaf, maxAlign) % leaf == 0 && Unit(leaf, maxAlign) % maxAlign == 0
  {
    hide Pow2, ExponentFor;
    PowerOfTwoIs(leaf);
    PowerOfTwoIs(maxAlign);
    var a, b := ExponentFor(leaf, 0), ExponentFor(maxAlign, 0);
    if leaf > maxAlign {
      PowOrder(b, a);
      PowDivides(b, a);
    } else {
      PowOrder(b, a);
      PowDivides(a, b);
    }
    MulMod(1, leaf);
    MulMod(1, maxAlign);
  }

  /** Base and end are aligned to the leaf, the base to the largest alignment too. */
  lemma BaseAligned(start: nat, end: nat, leaf: nat, maxAlign: nat)
    requires start >= 1 && IsPowerOfTwo(leaf) && IsPowerOfTwo(maxAlign)
    ensures var u := Unit(leaf, maxAlign);
            && u > 0 && RoundUp(start, u) % leaf == 0 && RoundUp(start, u) % maxAlign == 0
            && RoundDown(end, u) % leaf == 0
  {
    hide IsPowerOfTwo, Unit;
    var u := Unit(leaf, maxAlign);
    UnitFacts(leaf, maxAlign);
    Positive(leaf);
    Positive(maxAlign);
    MultipleOfMultiple((start - 1) / u + 1, u, leaf);
    MultipleOfMultiple((start - 1) / u + 1, u, maxAlign);
    MultipleOfMultiple(end / u, u, leaf);
  }

  lemma Positive(n: nat)
    requires IsPowerOfTwo(n)
    ensures n > 0
  {}

  // ---------- indices ----------

  /** Byte addresses of leaves have the indices the tree talks about. */
  lemma IndicesAre(g: Geo, k: nat, n: nat)
    requires g.leaf > 0
    ensures BlkIndex(g, k, g.base + n * g.leaf) == RightIndex(n, k)
    ensures BlkIndexNext(g, k, g.base + n * g.leaf) == LeftIndex(n, k)
  {
    ScaledDiv(n, Pow2(k), g.leaf);
    var m := n % Pow2(k);
    if m > 0 {
      MulMonotone(1, m, g.leaf);
    }
  }

  lemma SpanIndices(top: nat, k: nat)
    requires k <= top
    ensures LeftIndex(Pow2(top), k) == Pow2(top - k) && RightIndex(0, k) == 0
  {
    hide Pow2;
    PowDivides(k, top);
    MulMod(Pow2(top - k), Pow2(k));
    MulMod(0, Pow2(k));
  }

  lemma TopIndex(top: nat, lo: nat, hi: nat)
    requires InSpan(top, lo, hi)
    ensures LeftIndex(lo, top) == 1
  {
    CeilIs(lo, Pow2(top), 1);
    CeilIs(lo, Pow2(top), 0);
  }

  /** What one call of `mark` adds. */
  predicate InStrip(g: Geo, n: nat, left: nat, right: nat, x: Node)
    requires g.leaf > 0 && g.base <= left && g.base <= right
  {
    x.k < n && BlkIndex(g, x.k, left) <= x.i < BlkIndexNext(g, x.k, right)
  }

  /** Marking the metadata and what lies behind the range marks exactly the blocks with
      reserved leaves. */
  lemma StripsMark(g: Geo, top: nat, lo: nat, hi: nat, x: Node)
    requires g.leaf > 0 && InSpan(top, lo, hi)
    ensures InStrip(g, top + 1, g.base, g.base + lo * g.leaf, x)
            || InStrip(g, top + 1, g.base + hi * g.leaf, g.base + Pow2(top) * g.leaf, x)
            <==> IsNode(top, x) && Meets(lo, hi, x)
  {
    hide Pow2, LeftIndex, RightIndex, BlkIndex, BlkIndexNext, Meets, InSpan;
    if x.k <= top {
      IndicesAre(g, x.k, 0);
      IndicesAre(g, x.k, lo);
      IndicesAre(g, x.k, hi);
      IndicesAre(g, x.k, Pow2(top));
      SpanIndices(top, x.k);
      MeetsAt(lo, hi, x);
      if x.k < top {
        BoundaryIndices(top, lo, hi, x.k);
      } else {
        TopIndex(top, lo, hi);
        SpanIndices(top, top);
        assert Pow2(0) == 1 by { OneIs(); }
      }
    }
  }

  lemma OneIs()
    ensures Pow2(0) == 1
  {}

  // ---------- lists ----------

  /** The heads of the first `n` sizes are initialised, and nothing else. */
  ghost predicate HeadsUpTo(g: Geo, rings: map<int, seq<int>>, n: nat) {
    && (forall h | h in rings :: exists k :: 0 <= k < n && h == HeadOf(g, k))
    && (forall k | 0 <= k < n :: EmptyAt(g, rings, k))
  }

  ghost predicate EmptyAt(g: Geo, rings: map<int, seq<int>>, k: nat) {
    HeadOf(g, k) in rings && rings[HeadOf(g, k)] == [HeadOf(g, k)]
  }

  lemma NextHead(g: Geo, rings: map<int, seq<int>>, n: nat)
    requires HeadsUpTo(g, rings, n)
    ensures FL.Unlisted(rings, HeadOf(g, n)) && HeadsUpTo(g, rings[HeadOf(g, n) := [HeadOf(g, n)]], n + 1)
  {
    forall h | h in rings
      ensures HeadOf(g, n) !in rings[h]
    {
      var k :| 0 <= k < n && h == HeadOf(g, k);
      assert EmptyAt(g, rings, k);
    }
    var rings' := rings[HeadOf(g, n) := [HeadOf(g, n)]];
    forall k | 0 <= k < n + 1
      ensures EmptyAt(g, rings', k)
    {
      if k < n {
        assert EmptyAt(g, rings, k);
      }
    }
    forall h | h in rings'
      ensures exists k :: 0 <= k < n + 1 && h == HeadOf(g, k)
    {
      if h in rings {
        var k :| 0 <= k < n && h == HeadOf(g, k);
        assert 0 <= k < n + 1 && h == HeadOf(g, k);
      } else {
        assert h == HeadOf(g, n);
      }
    }
  }

  lemma EmptyListsAgree(g: Geo, t: Tree, rings: map<int, seq<int>>)
    requires HeadsUpTo(g, rings, t.top + 1) && |t.free| == t.top + 1
    requires forall k | 0 <= k <= t.top :: t.free[k] == []
    ensures ListsAgree(g, t, rings)
  {
    forall k | 0 <= k <= t.top
      ensures ListAt(g, t, rings, k)
    {
      assert EmptyAt(g, rings, k);
    }
  }

  /** Every size has a list that can be pushed on. */
  ghost predicate HeadsReady(g: Geo, nodes: map<int, FL.Links>, n: nat) {
    forall k | 0 <= k < n :: FL.HeadReady(nodes, HeadOf(g, k))
  }

  lemma EmptyListsReady(g: Geo, nodes: map<int, FL.Links>, rings: map<int, seq<int>>, n: nat)
    requires FL.AllRings(nodes, rings) && HeadsUpTo(g, rings, n)
    ensures HeadsReady(g, nodes, n)
  {
    forall k | 0 <= k < n
      ensures FL.HeadReady(nodes, HeadOf(g, k))
    {
      assert EmptyAt(g, rings, k);
      FL.RingReady(nodes, rings, HeadOf(g, k));
    }
  }

  lemma StillReady(g: Geo, nodes: map<int, FL.Links>, n: nat, sizei: nat, a: int)
    requires HeadsReady(g, nodes, n) && sizei < n
    ensures FL.HeadReady(nodes, HeadOf(g, sizei)) && HeadsReady(g, FL.Pushed(nodes, HeadOf(g, sizei), a), n)
  {
    forall k | 0 <= k < n
      ensures FL.HeadReady(FL.Pushed(nodes, HeadOf(g, sizei), a), HeadOf(g, k))
    {
      FL.PushedReady(nodes, HeadOf(g, sizei), a, HeadOf(g, k));
    }
  }

  /** The lists built so far hold only what the finished tree `t` lists. */
  ghost predicate Towards(u: Tree, t: Tree) {
    && u.top == t.top && |u.free| == |t.free| == t.top + 1
    && forall k | 0 <= k <= t.top :: Below(u.free[k], t.free[k])
  }

  ghost predicate Below(s: seq<nat>, r: seq<nat>) {
    forall i | i in s :: i in r
  }

  lemma FreeStartsDiffer(t: Tree, x: Node, y: Node)
    requires Wf(t) && FreeNode(t, x) && FreeNode(t, y) && x != y
    ensures Start(x) != Start(y) && t.lo <= Start(x)
  {
    hide Wf, FreeNode, LiveNode, Start, End;
    TerminalFree(t, x);
    TerminalFree(t, y);
    BlocksDisjoint(t, x, y);
    RangeNonEmpty(x);
    RangeNonEmpty(y);
  }

  lemma TerminalFree(t: Tree, x: Node)
    requires FreeNode(t, x)
    ensures Terminal(t, x)
  {}

  lemma ListedIsFree(t: Tree, k: nat, i: nat)
    requires Wf(t) && k <= t.top && i in t.free[k]
    ensures FreeNode(t, Node(k, i))
  {
    assert NodeOk(t, Node(k, i));
  }

  lemma NotYetInList(g: Geo, t: Tree, u: Tree, k: nat, y: Node)
    requires g.leaf > 0 && Wf(t) && Towards(u, t) && FreeNode(t, y) && y.k <= t.top && k <= t.top
    requires y.i !in u.free[y.k]
    ensures AddrOf(g, y) !in Addrs(g, k, u.free[k])
  {
    hide Wf, FreeNode, Start, AddrOf, Addrs, Pow2;
    forall j | 0 <= j < |u.free[k]|
      ensures Addrs(g, k, u.free[k])[j] != AddrOf(g, y)
    {
      AddrsAt(g, k, u.free[k], j);
      var z := Node(k, u.free[k][j]);
      assert Below(u.free[k], t.free[k]) && z.i in u.free[k];
      ListedIsFree(t, k, z.i);
      FreeStartsDiffer(t, y, z);
      if Start(z) < Start(y) {
        AddrInjective(g, z, y);
      } else {
        AddrInjective(g, y, z);
      }
    }
  }

  /** A free block that has not been pushed yet is on no list. */
  lemma NotYetListed(g: Geo, t: Tree, u: Tree, rings: map<int, seq<int>>, y: Node)
    requires g.leaf > 0 && Wf(t) && Towards(u, t) && ListsAgree(g, u, rings)
    requires INFO_SIZE * (t.top + 1) <= t.lo * g.leaf
    requires FreeNode(t, y) && y.k <= t.top && y.i !in u.free[y.k]
    ensures FL.Unlisted(rings, AddrOf(g, y))
  {
    hide Wf, FreeNode, Start, AddrOf, Addrs, HeadOf, Towards;
    FreeAbove(t, y);
    forall h | h in rings
      ensures AddrOf(g, y) !in rings[h]
    {
      var k :| 0 <= k <= u.top && h == HeadOf(g, k);
      assert ListAt(g, u, rings, k);
      SameTop(u, t);
      NotYetInList(g, t, u, k, y);
      HeadsBelow(g, t, k, y);
    }
  }

  lemma SameTop(u: Tree, t: Tree)
    requires Towards(u, t)
    ensures u.top == t.top && |u.free| == |t.free| == t.top + 1
  {}

  lemma FreeAbove(t: Tree, y: Node)
    requires Wf(t) && FreeNode(t, y)
    ensures t.lo <= Start(y)
  {
    FreeFacts(t, y);
  }

  lemma NotLive(t: Tree, y: Node)
    requires Live(t) == {}
    ensures !LiveNode(t, y)
  {
    assert LiveNode(t, y) ==> y in Live(t);
  }

  /** The blocks `init` pushes tile the managed range: every leaf between metadata and end lies
      in exactly one block on the lists. */
  lemma InitialTiles(t: Tree, leaf: nat) returns (y: Node)
    requires Initial(t) && t.lo <= leaf < t.hi
    ensures |t.free| == t.top + 1 && y.k <= t.top && y.i in t.free[y.k] && Start(y) <= leaf < End(y)
    ensures forall z: Node | z.k <= t.top && z.i in t.free[z.k] && Start(z) <= leaf < End(z) :: z == y
  {
    InitialWf(t);
    hide Initial, Start, End, Pow2, IsNode, Meets;
    y := EveryLeafAccounted(t, leaf);
    NotLive(t, y);
    assert NodeOk(t, y);
    forall z: Node | z.k <= t.top && z.i in t.free[z.k] && Start(z) <= leaf < End(z)
      ensures z == y
    {
      assert NodeOk(t, z);
    }
  }
}
