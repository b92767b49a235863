/** The buddy allocator as the kernel uses it: addresses, bitmaps and intrusive lists. */
module Buddy {
  import opened Options
  import opened PowersOfTwo
  import opened BuddyTree
  import opened BuddyMoves
  import opened BuddyTheorems
  import opened BuddySizes
  import opened BuddyLists
  import opened BuddyInit
  import opened BuddySetup
  import FL = FreeList

  datatype InitResult = Ok | Err(why: string)

  /** What an address range handed out for `x` looks like in a well-formed system. */
  ghost predicate InRange(g: Geo, t: Tree, end: nat, x: Node) {
    g.base + t.lo * g.leaf <= AddrOf(g, x) && AddrOf(g, x) + BlkSize(g, x.k) <= end
  }

  lemma LiveInRange(g: Geo, t: Tree, x: Node)
    requires LiveNode(t, x)
    ensures InRange(g, t, g.base + t.hi * g.leaf, x)
  {
    MulMonotone(t.lo, Start(x), g.leaf);
    MulMonotone(End(x), t.hi, g.leaf);
    BlockBytes(g, x);
    hide Start, End, BlkSize, Pow2;
  }

  /** A caller's bytes keep away from every live block. */
  ghost predicate KeepsAway(g: Geo, live: set<Node>, addr: nat, size: nat) {
    forall y | y in live :: addr + size <= AddrOf(g, y) || AddrOf(g, y) + BlkSize(g, y.k) <= addr
  }

  ghost predicate Aligned(addr: nat, size: nat, align: nat) {
    IsPowerOfTwo(align) && size % align == 0 ==> addr % align == 0
  }

  /** What a caller gets: room for the request between metadata and end, away from every live
      block, and aligned when the size is a multiple of the alignment. */
  ghost predicate Serves(g: Geo, t: Tree, addr: nat, size: nat, align: nat) {
    && g.base + t.lo * g.leaf <= addr && addr + size <= g.base + t.hi * g.leaf
    && KeepsAway(g, Live(t), addr, size) && Aligned(addr, size, align)
  }

  ghost predicate ResultServes(g: Geo, t: Tree, r: AllocResult, size: nat, align: nat) {
    r.Block? ==> Serves(g, t, AddrOf(g, r.x), size, align)
  }

  lemma NewBlockKeepsAway(g: Geo, t: Tree, u: Tree, x: Node, size: nat)
    requires Wf(u) && LiveNode(u, x) && x !in Live(t) && Live(u) == Live(t) + {x} && size <= BlkSize(g, x.k)
    ensures KeepsAway(g, Live(t), AddrOf(g, x), size)
  {
    hide Wf, LiveNode, AddrOf, BlkSize, Live;
    forall y | y in Live(t)
      ensures AddrOf(g, x) + size <= AddrOf(g, y) || AddrOf(g, y) + BlkSize(g, y.k) <= AddrOf(g, x)
    {
      assert y in Live(u);
      LiveMeans(u, y);
      BlocksDisjoint(u, x, y);
      DisjointBytes(g, x, y);
    }
  }

  lemma LiveMeans(t: Tree, x: Node)
    ensures x in Live(t) ==> LiveNode(t, x)
  {}

  lemma BlockIsAligned(g: Geo, maxAlign: nat, size: nat, align: nat, x: Node)
    requires IsPowerOfTwo(g.leaf) && IsPowerOfTwo(maxAlign) && align <= maxAlign
    requires g.base % maxAlign == 0 && 0 < size <= BlkSize(g, x.k)
    ensures Aligned(AddrOf(g, x), size, align)
  {
    if IsPowerOfTwo(align) && size % align == 0 {
      BlockAligned(g.base, maxAlign, g.leaf, x.k, x.i, size, align);
      IndexOfBlock(g, x);
    }
  }

  /** Every block `alloc` hands out serves its request. */
  lemma AllocServes(g: Geo, t: Tree, maxAlign: nat, size: nat, align: nat)
    requires Wf(t) && IsPowerOfTwo(g.leaf) && IsPowerOfTwo(maxAlign)
    requires g.base % maxAlign == 0 && size > 0 && align <= maxAlign
    ensures |t.free| == t.top + 1
    ensures ResultServes(g, t, BuddyTree.Alloc(t, SizeClass(size, g.leaf)).1, size, align)
  {
    hide Wf, LiveNode, AddrOf, IsPowerOfTwo, Live, FirstFit, Carve, Leftmost, Take, SizeClass;
    WfLists(t);
    Positive(g.leaf);
    var k := SizeClass(size, g.leaf);
    AllocWf(t, k);
    SizeClassIs(size, g.leaf);
    var (u, r) := BuddyTree.Alloc(t, k);
    if r.Block? {
      LiveInRange(g, u, r.x);
      NewBlockKeepsAway(g, t, u, r.x, size);
      BlockIsAligned(g, maxAlign, size, align, r.x);
    }
  }

  /** Free block y is large enough, and no smaller free one is. */
  ghost predicate SmallestFor(g: Geo, t: Tree, size: nat, y: Node) {
    && size <= BlkSize(g, y.k)
    && forall z: Node | FreeNode(t, z) && size <= BlkSize(g, z.k) :: y.k <= z.k
  }

  /** The address is that of the first block on the list of the smallest size that serves. */
  ghost predicate FromSmallest(g: Geo, t: Tree, size: nat, addr: nat) {
    exists y: Node :: IsFirst(t, y) && SmallestFor(g, t, size, y) && addr == AddrOf(g, y)
  }

  /** No free block is large enough. */
  ghost predicate NoneServes(g: Geo, t: Tree, size: nat) {
    forall z: Node | FreeNode(t, z) :: BlkSize(g, z.k) < size
  }

  ghost predicate ResultSmallest(g: Geo, t: Tree, r: AllocResult, size: nat) {
    match r
    case NoBlock => NoneServes(g, t, size)
    case Block(x) => FromSmallest(g, t, size, AddrOf(g, x))
  }

  lemma SizeServes(g: Geo, size: nat, k: nat)
    requires IsPowerOfTwo(g.leaf)
    ensures size <= BlkSize(g, k) <==> SizeClass(size, g.leaf) <= k
  {
    hide SizeClass, Pow2;
    SizeClassIs(size, g.leaf);
    var c := SizeClass(size, g.leaf);
    if c <= k {
      PowMonotone(c, k);
      MulMonotone(Pow2(c), Pow2(k), g.leaf);
    } else {
      PowMonotone(k, c - 1);
      MulMonotone(Pow2(k), Pow2(c - 1), g.leaf);
    }
  }

  lemma AllocSmallest(g: Geo, t: Tree, size: nat)
    requires Wf(t) && IsPowerOfTwo(g.leaf)
    ensures |t.free| == t.top + 1
    ensures ResultSmallest(g, t, BuddyTree.Alloc(t, SizeClass(size, g.leaf)).1, size)
  {
    hide Wf, FreeNode, IsPowerOfTwo, SizeClass, BlkSize, BuddyTree.Alloc, Start, Inside;
    WfLists(t);
    Positive(g.leaf);
    var k := SizeClass(size, g.leaf);
    var r := BuddyTree.Alloc(t, k).1;
    if r.Block? {
      var y := AllocTakesSmallest(t, k);
      SizeServes(g, size, y.k);
      forall z: Node | FreeNode(t, z) && size <= BlkSize(g, z.k)
        ensures y.k <= z.k
      {
        SizeServes(g, size, z.k);
      }
      assert SmallestFor(g, t, size, y);
    } else {
      forall z: Node | FreeNode(t, z)
        ensures BlkSize(g, z.k) < size
      {
        SizeServes(g, size, z.k);
        if k <= z.k {
          NothingFree(t, k, z);
        }
      }
    }
  }

  /** Blocks that do not overlap as leaves do not overlap as bytes. */
  lemma DisjointBytes(g: Geo, x: Node, y: Node)
    requires !Overlap(x, y)
    ensures AddrOf(g, x) + BlkSize(g, x.k) <= AddrOf(g, y) || AddrOf(g, y) + BlkSize(g, y.k) <= AddrOf(g, x)
  {
    BlockBytes(g, x);
    BlockBytes(g, y);
    if End(x) <= Start(y) {
      MulMonotone(End(x), Start(y), g.leaf);
    } else {
      MulMonotone(End(y), Start(x), g.leaf);
    }
  }

  lemma BlockBytes(g: Geo, x: Node)
    ensures AddrOf(g, x) + BlkSize(g, x.k) == g.base + End(x) * g.leaf
  {
    var p := Pow2(x.k);
    assert End(x) == Start(x) + p;
    assert (Start(x) + p) * g.leaf == Start(x) * g.leaf + p * g.leaf;
  }

  class BuddySystem {
    var initialized: bool
    var base: nat
    var actualEnd: nat
    var nsizes: nat
    var leafSize: nat
    var maxAlignment: nat
    /** The set bits of the alloc and split bitmaps of all sizes. */
    var alloc: set<Node>
    var split: set<Node>
    var lists: FL.ListHeap
    /** The tree that bitmaps and lists encode. */
    ghost var tree: Tree

    ghost function Geometry(): Geo
      reads this
    {
      Geo(base, leafSize)
    }

    ghost predicate Valid()
      reads this, lists
    {
      Encodes(alloc)
    }

    /** Bitmaps and lists encode the tree, the alloc bits being read as `bits`. */
    ghost predicate Encodes(bits: set<Node>)
      reads this, lists
    {
      && nsizes == tree.top + 1 && tree.alloc == bits && tree.split == split
      && leafSize >= NODE_SIZE && IsPowerOfTwo(leafSize) && IsPowerOfTwo(maxAlignment) && base % maxAlignment == 0
      && actualEnd == base + tree.hi * leafSize
      && INFO_SIZE * nsizes <= tree.lo * leafSize
      && Wf(tree) && lists.Valid() && ListsAgree(Geometry(), tree, lists.rings)
    }

    /** Everything the allocator never changes after `init`. */
    twostate predicate SameGround()
      reads this
    {
      && base == old(base) && actualEnd == old(actualEnd) && nsizes == old(nsizes)
      && leafSize == old(leafSize) && maxAlignment == old(maxAlignment) && lists == old(lists)
      && tree.lo == old(tree.lo) && tree.hi == old(tree.hi) && tree.top == old(tree.top)
    }

    /** An allocator that manages nothing yet. */
    constructor ()
      ensures !initialized && fresh(lists) && lists.Valid() && lists.rings == map[]
    {
      initialized := false;
      base, actualEnd, nsizes, leafSize, maxAlignment := 0, 0, 0, 0, 0;
      alloc, split := {}, {};
      tree := Tree(0, 0, 0, {}, {}, []);
      lists := new FL.ListHeap();
    }

    // ---------- setting up ----------

    /** Places the metadata from `base` on and initialises every list head. */
    method Layout(start: nat, end: nat, leaf: nat, maxAlign: nat, ghost p: Plan) returns (cur: nat)
      requires start >= 1 && IsPowerOfTwo(leaf) && IsPowerOfTwo(maxAlign)
      requires Planned(start, end, leaf, maxAlign, p) && p.hi >= 1
      requires lists.Valid() && lists.rings == map[]
      modifies this, lists
      ensures lists == old(lists) && lists.Valid() && initialized == old(initialized)
      ensures base == p.base && actualEnd == p.end && nsizes == p.top + 1 && leafSize == leaf
              && maxAlignment == maxAlign
      ensures alloc == {} && split == {} && HeadsUpTo(Geometry(), lists.rings, nsizes)
      ensures cur == base + p.lo * leaf && INFO_SIZE * nsizes <= p.lo * leaf && base % maxAlign == 0
    {
      hide IsPowerOfTwo, Pow2, ExponentFor, RoundUp, RoundDown, HeadsUpTo, BitmapBytes;
      Positive(leaf);
      BaseAligned(start, end, leaf, maxAlign);
      leafSize, maxAlignment := leaf, maxAlign;
      var unit := Unit(leaf, maxAlign);
      cur := RoundUp(start, unit);
      base := cur;
      actualEnd := RoundDown(end, unit);
      MulMod(p.hi, leaf);
      var log := Log2((actualEnd - cur) / leaf);
      SizesAre(p.hi, log, leaf);
      nsizes := log + 1;
      if actualEnd - cur > BlkSize(Geo(base, leafSize), nsizes - 1) {
        nsizes := nsizes + 1;
      }
      cur := cur + INFO_SIZE * nsizes;
      alloc, split := {}, {};
      NoHeads(Geometry());
      for i := 0 to nsizes
        invariant lists == old(lists) && lists.Valid() && unchanged(`initialized)
        invariant base == p.base && actualEnd == p.end && nsizes == p.top + 1 && leafSize == leaf
                  && maxAlignment == maxAlign
        invariant alloc == {} && split == {} && HeadsUpTo(Geometry(), lists.rings, i)
        invariant cur == base + INFO_SIZE * nsizes + MapsBytes(p.top, 0, i)
      {
        NextHead(Geometry(), lists.rings, i);
        lists.Init(base + INFO_SIZE * i);
        cur := cur + BitmapBytes(Pow2(nsizes - 1 - i));
      }
      label Placed:
      for i := 1 to nsizes
        invariant cur == base + INFO_SIZE * nsizes + MapsBytes(p.top, 0, nsizes) + MapsBytes(p.top, 1, i)
        invariant unchanged@Placed(this) && unchanged@Placed(lists)
      {
        cur := cur + BitmapBytes(Pow2(nsizes - 1 - i));
      }
      RoundUpIs(cur, leaf);
      cur := RoundUp(cur, leafSize);
    }

    /** Marks every block that meets [left, right) as used, and as split unless it is a leaf. */
    method Mark(left: nat, right: nat)
      requires leafSize > 0 && base <= left && base <= right
      modifies this`alloc, this`split
      ensures forall x :: x in alloc <==> x in old(alloc) || InStrip(Geometry(), nsizes, left, right, x)
      ensures forall x :: x in split <==> x in old(split) || (x.k > 0 && InStrip(Geometry(), nsizes, left, right, x))
    {
      hide BlkIndex, BlkIndexNext;
      for i := 0 to nsizes
        invariant forall x :: x in alloc <==> x in old(alloc) || InStrip(Geometry(), i, left, right, x)
        invariant forall x :: x in split <==> x in old(split) || (x.k > 0 && InStrip(Geometry(), i, left, right, x))
      {
        var bi := BlkIndex(Geo(base, leafSize), i, left);
        var bj := BlkIndexNext(Geo(base, leafSize), i, right);
        ghost var b0, alloc0, split0 := bi, alloc, split;
        while bi < bj
          invariant b0 <= bi && (b0 <= bj ==> bi <= bj) && (b0 > bj ==> bi == b0)
          invariant forall x :: x in alloc <==> x in alloc0 || (x.k == i && b0 <= x.i < bi)
          invariant forall x :: x in split <==> x in split0 || (x.k > 0 && x.k == i && b0 <= x.i < bi)
        {
          alloc := alloc + {Node(i, bi)};
          if i > 0 {
            split := split + {Node(i, bi)};
          }
          bi := bi + 1;
        }
      }
    }

    /** Marks the metadata and what the largest block has behind the end of the range. */
    method MarkReserved(cur: nat, ghost p: Plan) returns (unavail: nat)
      requires leafSize > 0 && base == p.base && actualEnd == base + p.hi * leafSize && nsizes == p.top + 1
      requires cur == base + p.lo * leafSize && alloc == {} && split == {}
      requires InSpan(p.top, p.lo, p.hi) && lists.Valid() && HeadsUpTo(Geometry(), lists.rings, nsizes)
      modifies this`alloc, this`split, this`tree
      ensures actualEnd + unavail == base + BlkSize(Geometry(), p.top)
      ensures var goal := Tree(p.top, p.lo, p.hi, alloc, split, InitLists(alloc, p.top, p.lo, p.hi, p.top));
              Built(goal) && tree == Partly(goal, 0)
      ensures ListsAgree(Geometry(), tree, lists.rings) && HeadsReady(Geometry(), lists.nodes, nsizes)
    {
      hide Wf, ListsAgree, InSpan, Meets, IsNode, Pow2, InStrip, HeadsUpTo, HeadsReady, BlkSize, Partly;
      SpanFacts(p);
      SpanBytes(p, leafSize);
      Mark(base, cur);
      unavail := BlkSize(Geo(base, leafSize), nsizes - 1) - (actualEnd - base);
      Mark(actualEnd, actualEnd + unavail);
      ghost var goal := Tree(p.top, p.lo, p.hi, alloc, split, InitLists(alloc, p.top, p.lo, p.hi, p.top));
      MarkedAll(Geometry(), goal);
      tree := Partly(goal, 0);
      PartlyEmpty(goal);
      EmptyListsAgree(Geometry(), tree, lists.rings);
      EmptyListsReady(Geometry(), lists.nodes, lists.rings, nsizes);
    }

    /** Pushing leads towards the finished tree `goal`, and the lists agree so far. */
    ghost predicate Pushable(goal: Tree, sizei: nat, pushed: seq<nat>)
      reads this, lists
    {
      && lists.Valid() && ListsAgree(Geometry(), tree, lists.rings)
      && Wf(goal) && Towards(tree, goal) && sizei <= goal.top && INFO_SIZE * (goal.top + 1) <= goal.lo * leafSize
      && Distinct(pushed) && Below(pushed, goal.free[sizei])
    }

    /** Pushes the free block of the pair of `bi` if the other one is in use. The bytes are
        counted in any case; the lists stay sound as long as no block is pushed twice. */
    method InitFreePair(sizei: nat, bi: nat, ghost goal: Tree, ghost sound: bool) returns (freed: nat)
      requires HeadsReady(Geometry(), lists.nodes, nsizes) && sizei < nsizes == |tree.free| && leafSize > 0
      requires sound ==> Pushable(goal, sizei, PairPush(alloc, Node(sizei, bi), tree.free[sizei]))
      modifies this`tree, lists
      ensures HeadsReady(Geometry(), lists.nodes, nsizes)
      ensures sound ==> lists.Valid() && ListsAgree(Geometry(), tree, lists.rings)
      ensures sizei < |old(tree).free|
      ensures tree
              == old(tree).(free := old(tree).free[sizei := PairPush(alloc, Node(sizei, bi), old(tree).free[sizei])])
      ensures freed == (|tree.free[sizei]| - |old(tree).free[sizei]|) * BlkSize(Geometry(), sizei)
    {
      hide Wf, ListsAgree, HeadsReady, AddrOf, BlkAddr, BlkSize, FreeNode, Distinct, Below;
      var buddyi := if bi % 2 == 0 then bi + 1 else bi - 1;
      ghost var x := Node(sizei, bi);
      if (Node(sizei, bi) in alloc) != (Node(sizei, buddyi) in alloc) {
        if Node(sizei, bi) in alloc {
          PushInit(sizei, buddyi, goal, sound);
        } else {
          PushInit(sizei, bi, goal, sound);
        }
        freed := BlkSize(Geo(base, leafSize), sizei);
      } else {
        assert tree.free[sizei := tree.free[sizei]] == tree.free;
        freed := 0;
      }
    }

    method PushInit(sizei: nat, bi: nat, ghost goal: Tree, ghost sound: bool)
      requires HeadsReady(Geometry(), lists.nodes, nsizes) && sizei < nsizes == |tree.free| && leafSize > 0
      requires sound ==> Pushable(goal, sizei, [bi] + tree.free[sizei])
      modifies this`tree, lists
      ensures HeadsReady(Geometry(), lists.nodes, nsizes)
      ensures sound ==> lists.Valid() && ListsAgree(Geometry(), tree, lists.rings)
      ensures sizei < |old(tree).free|
      ensures tree == old(tree).(free := old(tree).free[sizei := [bi] + old(tree).free[sizei]])
    {
      hide Wf, ListsAgree, HeadsReady, AddrOf, BlkAddr, BlkSize, FreeNode, HeadOf, Pow2;
      ghost var g, y := Geometry(), Node(sizei, bi);
      ghost var next := tree.(free := tree.free[sizei := [bi] + tree.free[sizei]]);
      ghost var before := lists.nodes;
      IndexOfBlock(g, y);
      HeadIs(g, sizei);
      StillReady(g, lists.nodes, nsizes, sizei, AddrOf(g, y));
      if sound {
        FirstIsNew(bi, tree.free[sizei]);
        ListedIsFree(goal, sizei, bi);
        NotYetListed(g, goal, tree, lists.rings, y);
        PushAgrees(g, tree, next, lists.rings, y);
      }
      lists.PushLinks(base + INFO_SIZE * sizei, BlkAddr(Geo(base, leafSize), sizei, bi));
      if sound {
        lists.NotePush(HeadOf(g, sizei), AddrOf(g, y), before);
      }
      tree := next;
    }

    /** Pushes, size by size, the boundary blocks that cannot be joined with their buddy. */
    method InitFree(left: nat, ghost goal: Tree) returns (free: nat)
      requires leafSize > 0 && lists.Valid() && ListsAgree(Geometry(), tree, lists.rings)
      requires HeadsReady(Geometry(), lists.nodes, nsizes)
      requires Built(goal) && goal.alloc == alloc && nsizes == goal.top + 1
      requires tree == Partly(goal, 0) && INFO_SIZE * nsizes <= goal.lo * leafSize
      requires left == base + goal.lo * leafSize && actualEnd == base + goal.hi * leafSize
      modifies this`tree, lists
      ensures tree == goal && free == FreeSum(alloc, goal.lo, goal.hi, goal.top) * leafSize
      ensures NoLoneLeft(goal.top, goal.lo, goal.hi) ==> lists.Valid() && ListsAgree(Geometry(), tree, lists.rings)
    {
      hide Built, Wf, ListsAgree, HeadsReady, LeftIndex, RightIndex, BlkIndex, BlkIndexNext;
      hide PairPush, BlkSize, Partly, FreeSum, Below, Distinct, Towards, NoLoneLeft;
      ghost var sound := NoLoneLeft(goal.top, goal.lo, goal.hi);
      FreeSumStart(goal);
      BuiltOrder(goal, leafSize);
      if sound {
        InitialWf(goal);
      }
      var right := actualEnd;
      free := 0;
      for i := 0 to nsizes - 1
        invariant HeadsReady(Geometry(), lists.nodes, nsizes) && tree == Partly(goal, i)
        invariant sound ==> lists.Valid() && ListsAgree(Geometry(), tree, lists.rings)
        invariant free == FreeSum(alloc, goal.lo, goal.hi, i) * leafSize
      {
        ghost var g := Geometry();
        IndicesAre(g, i, goal.lo);
        IndicesAre(g, i, goal.hi);
        PartlyLists(goal, i);
        if sound {
          PairSteps(goal, i);
        }
        var lbi := BlkIndexNext(Geo(base, leafSize), i, left);
        var rbi := BlkIndex(Geo(base, leafSize), i, right);
        var a := InitFreePair(i, lbi, goal, sound);
        free := free + a;
        ghost var half := tree;
        if left < right {
          var b := InitFreePair(i, rbi, goal, sound);
          free := free + b;
        }
        LevelDone(g, goal, i, half, tree);
      }
      PartlyAll(goal);
    }

    /** Arguments that `init` sets an allocator up for. */
    ghost predicate Accepts(start: nat, end: nat, leaf: nat, maxAlign: nat)
      requires start <= end
      reads this
    {
      !initialized && end - start >= leaf && IsPowerOfTwo(leaf) && IsPowerOfTwo(maxAlign)
    }

    /** An allocator set up by the plan, with nothing handed out. */
    ghost predicate SetUpBy(leaf: nat, maxAlign: nat, p: Plan)
      reads this, lists
    {
      && Valid() && Initial(tree) && Live(tree) == {}
      && tree.top == p.top && tree.lo == p.lo && tree.hi == p.hi
      && base == p.base && actualEnd == p.end && leafSize == leaf && maxAlignment == maxAlign
    }

    /** Lays the metadata out, marks what is reserved, fills the lists and compares the sums. */
    method Populate(start: nat, end: nat, leaf: nat, maxAlign: nat, ghost p: Plan) returns (balanced: bool)
      requires start >= 1 && leaf >= NODE_SIZE && IsPowerOfTwo(leaf) && IsPowerOfTwo(maxAlign)
      requires Planned(start, end, leaf, maxAlign, p) && InSpan(p.top, p.lo, p.hi)
      requires lists.Valid() && lists.rings == map[]
      modifies this, lists
      ensures lists == old(lists) && initialized == old(initialized)
      ensures balanced <==> NoLoneLeft(p.top, p.lo, p.hi)
      ensures balanced ==> SetUpBy(leaf, maxAlign, p)
    {
      hide IsPowerOfTwo, Wf, ListsAgree, Planned, InSpan, NoLoneLeft, Meets, IsNode, Pow2;
      hide InStrip, HeadsUpTo, HeadsReady, FreeSum, BlkSize, Partly, Marked, Initial, Live;
      SpanFacts(p);
      PlanEnds(start, end, leaf, maxAlign, p);
      var cur := Layout(start, end, leaf, maxAlign, p);
      var meta := cur - base;
      SpanBytes(p, leaf);
      var unavail := MarkReserved(cur, p);
      ghost var goal := Tree(p.top, p.lo, p.hi, alloc, split, InitLists(alloc, p.top, p.lo, p.hi, p.top));
      var free := InitFree(cur, goal);
      SumCheck(goal);
      SumBytes(FreeSum(alloc, p.lo, p.hi, p.top), p.hi - p.lo, leaf);
      balanced := free == BlkSize(Geo(base, leafSize), nsizes - 1) - meta - unavail;
      if balanced {
        InitialIs(goal);
      }
    }

    /** Sets the allocator up over [start, end). */
    method Init(start: nat, end: nat, leaf: nat, maxAlign: nat, ghost p: Plan) returns (r: InitResult)
      requires start <= end
      requires Accepts(start, end, leaf, maxAlign)
               ==> start >= 1 && leaf >= NODE_SIZE && Planned(start, end, leaf, maxAlign, p)
                   && InSpan(p.top, p.lo, p.hi) && Readable(p.top, p.lo, p.hi)
                   && lists.Valid() && lists.rings == map[]
      modifies this, lists
      ensures r.Ok? <==> old(Accepts(start, end, leaf, maxAlign)) && NoLoneLeft(p.top, p.lo, p.hi)
      ensures !old(Accepts(start, end, leaf, maxAlign)) ==> unchanged(this) && unchanged(lists)
      ensures old(initialized) ==> r == Err("init twice")
      ensures !old(initialized) && end - start < leaf ==> r == Err("range too small")
      ensures !old(initialized) && end - start >= leaf && !(IsPowerOfTwo(leaf) && IsPowerOfTwo(maxAlign))
              ==> r == Err("leaf size or max_alignment not 2^n")
      ensures old(Accepts(start, end, leaf, maxAlign)) && !NoLoneLeft(p.top, p.lo, p.hi)
              ==> r == Err("allocator bug: tot != meta + free + unavail") && !initialized
      ensures r.Ok? ==> initialized && lists == old(lists) && SetUpBy(leaf, maxAlign, p)
    {
      hide IsPowerOfTwo, Wf, ListsAgree, Planned, InSpan, NoLoneLeft, Initial, Live;
      if initialized {
        return Err("init twice");
      }
      if end - start < leaf {
        return Err("range too small");
      }
      if !IsPowerOfTwo(leaf) || !IsPowerOfTwo(maxAlign) {
        return Err("leaf size or max_alignment not 2^n");
      }
      var balanced := Populate(start, end, leaf, maxAlign, p);
      if !balanced {
        return Err("allocator bug: tot != meta + free + unavail");
      }
      initialized := true;
      r := Ok;
    }

    // ---------- one move at a time ----------

    method TakeFirst(sizei: nat) returns (addr: nat)
      requires Valid() && sizei < nsizes && tree.free[sizei] != []
      modifies this`alloc, this`tree, lists
      ensures Valid() && SameGround() && tree == Take(old(tree), sizei)
      ensures LiveNode(tree, Node(sizei, old(tree).free[sizei][0]))
      ensures addr == AddrOf(Geometry(), Node(sizei, old(tree).free[sizei][0]))
    {
      hide Wf, IsNode, Pow2, AddrOf, IsPowerOfTwo;
      ghost var g, t := Geometry(), tree;
      ghost var x := Node(sizei, t.free[sizei][0]);
      TakeWf(t, sizei);
      assert ListAt(g, t, lists.rings, sizei);
      var head := base + INFO_SIZE * sizei;
      var popped := lists.Pop(head);
      assert popped.Some?;
      addr := popped.value;
      IndexOfBlock(g, x);
      var bi := BlkIndex(Geo(base, leafSize), sizei, addr);
      alloc := alloc + {Node(sizei, bi)};
      tree := Take(t, sizei);
      OneListChanged(g, t, tree, old(lists.rings), sizei);
    }

    /** Splits the live block `x` and frees its right half. */
    method SplitBlock(sizei: nat, addr: nat, ghost x: Node)
      requires Valid() && LiveNode(tree, x) && x.k == sizei > 0 && addr == AddrOf(Geometry(), x)
      modifies this`alloc, this`split, this`tree, lists
      ensures Valid() && SameGround() && tree == SplitOnce(old(tree), x)
    {
      hide Wf, IsNode, Pow2, AddrOf, IsPowerOfTwo, LiveNode, Start, End, BlkSize, BlkIndex, ListsAgree;
      ghost var g, t := Geometry(), tree;
      LiveBounds(t, x);
      Positive(leafSize);
      SplitWf(t, x);
      IndexOfBlock(g, x);
      HalvesAddr(g, x);
      IndexOfBlock(g, Left(x));
      RightHalfUnlisted(g, t, lists.rings, x);
      var bi := BlkIndex(Geo(base, leafSize), sizei, addr);
      split := split + {Node(sizei, bi)};
      var bs1 := BlkSize(Geo(base, leafSize), sizei - 1);
      var bi1 := BlkIndex(Geo(base, leafSize), sizei - 1, addr);
      alloc := alloc + {Node(sizei - 1, bi1)};
      PushAgrees(g, t, SplitOnce(t, x), lists.rings, Right(x));
      lists.Push(base + INFO_SIZE * (sizei - 1), addr + bs1);
      tree := SplitOnce(t, x);
    }

    /** Joins `x`, whose alloc bit has just been cleared, with its free buddy. */
    method JoinBlock(sizei: nat, addr: nat, bi: nat, ghost x: Node) returns (joined: nat)
      requires x !in alloc && Encodes(alloc + {x}) && LiveNode(tree, x) && Buddy(x) !in alloc
      requires x == Node(sizei, bi) && sizei < tree.top && addr == AddrOf(Geometry(), x)
      modifies this`split, this`tree, lists
      ensures Valid() && SameGround() && tree == JoinOnce(old(tree), x)
      ensures LiveNode(tree, Parent(x)) && joined == AddrOf(Geometry(), Parent(x))
    {
      hide Wf, IsNode, Pow2, AddrOf, IsPowerOfTwo, LiveNode, Start, End, BlkSize, BlkIndex, BlkAddr;
      hide ListsAgree, Without;
      hide Buddy, Parent;
      ghost var g, t := Geometry(), tree;
      Positive(leafSize);
      JoinAddrs(g, x);
      WfLists(t);
      JoinWf(t, x);
      BuddyListed(t, x);
      var buddyi := if bi % 2 == 0 then bi + 1 else bi - 1;
      var buddyAddr := BlkAddr(Geo(base, leafSize), sizei, buddyi);
      ghost var p := DropAgrees(g, t, JoinOnce(t, x), lists.rings, Buddy(x));
      lists.Remove(buddyAddr, HeadOf(g, sizei), p);
      joined := if buddyi % 2 == 0 then buddyAddr else addr;
      var spliti := BlkIndex(Geo(base, leafSize), sizei + 1, joined);
      split := split - {Node(sizei + 1, spliti)};
      tree := JoinOnce(t, x);
    }

    /** Puts `x`, whose alloc bit has just been cleared, on its free list. */
    method GiveBlock(sizei: nat, addr: nat, ghost x: Node)
      requires x !in alloc && Encodes(alloc + {x}) && LiveNode(tree, x) && Buddy(x) in alloc
      requires x.k == sizei && addr == AddrOf(Geometry(), x)
      modifies this`tree, lists
      ensures Valid() && SameGround() && tree == Give(old(tree), x)
    {
      hide Wf, IsNode, Pow2, AddrOf, IsPowerOfTwo, LiveNode, Start, End, BlkSize, ListsAgree;
      ghost var g, t := Geometry(), tree;
      Positive(leafSize);
      LiveBounds(t, x);
      GiveWf(t, x);
      RangeNonEmpty(x);
      LiveNotListed(g, t, lists.rings, x, x);
      PushAgrees(g, t, Give(t, x), lists.rings, x);
      lists.Push(base + INFO_SIZE * sizei, addr);
      tree := Give(t, x);
    }

    // ---------- the allocator's interface ----------

    /** Hands out a block of the smallest size that holds the request, or nothing. */
    method Alloc(size: nat, align: nat) returns (r: Option<nat>)
      requires Valid()
      modifies this`alloc, this`split, this`tree, lists
      ensures Valid() && SameGround()
      ensures size == 0 || align > maxAlignment ==> r.None? && tree == old(tree)
      ensures size > 0 && align <= maxAlignment ==>
                var (t, found) := BuddyTree.Alloc(old(tree), SizeClass(size, leafSize));
                && tree == t
                && r == (if found.NoBlock? then None else Some(AddrOf(Geometry(), found.x)))
      ensures r.Some? ==> Serves(Geometry(), old(tree), r.value, size, align)
      ensures r.Some? ==> FromSmallest(Geometry(), old(tree), size, r.value)
      ensures r.None? && size > 0 && align <= maxAlignment ==> NoneServes(Geometry(), old(tree), size)
    {
      hide Wf, IsNode, Pow2, AddrOf, IsPowerOfTwo, LiveNode, ListsAgree, SizeClass, FromSmallest, NoneServes;
      if size == 0 {
        return None;
      }
      if align > maxAlignment {
        return None;
      }
      Positive(leafSize);
      WfLists(tree);
      var small := SizeClass(size, leafSize);
      AllocServes(Geometry(), tree, maxAlignment, size, align);
      AllocSmallest(Geometry(), tree, size);
      var sizei := small;
      while sizei < nsizes
        invariant Valid() && unchanged(this) && unchanged(lists)
        invariant small <= sizei && FirstFit(tree, small) == FirstFit(tree, sizei)
      {
        AgreeAt(Geometry(), tree, lists.rings, sizei);
        var empty := lists.IsEmpty(base + INFO_SIZE * sizei);
        if !empty {
          break;
        }
        sizei := sizei + 1;
      }
      if sizei >= nsizes {
        return None;
      }
      ghost var t := tree;
      ghost var x := Node(sizei, t.free[sizei][0]);
      var addr := TakeFirst(sizei);
      ghost var goal, last := Carve(tree, x, small), Leftmost(x, small);
      while sizei > small
        invariant Valid() && SameGround() && small <= sizei == x.k < |tree.free|
        invariant LiveNode(tree, x) && addr == AddrOf(Geometry(), x)
        invariant Carve(tree, x, small) == goal && Leftmost(x, small) == last
      {
        SplitWf(tree, x);
        HalvesAddr(Geometry(), x);
        SplitBlock(sizei, addr, x);
        x := Left(x);
        sizei := sizei - 1;
      }
      r := Some(addr);
    }

    /** The size of the live block at `addr`: the first one whose parent block is split. */
    method SizeOf(addr: nat, ghost x: Node) returns (sizei: nat)
      requires Valid() && LiveNode(tree, x) && addr == AddrOf(Geometry(), x)
      ensures sizei == x.k
    {
      hide Wf, IsNode, Pow2, AddrOf, IsPowerOfTwo, LiveNode, ListsAgree, BlkIndex, BlkSize, BlockOf, Start;
      Positive(leafSize);
      LiveBounds(tree, x);
      FindsSize(tree, x, 0);
      var i := 0;
      sizei := nsizes;
      while i < nsizes - 1
        invariant i <= tree.top && sizei == nsizes && FoundSize(tree, Start(x), i) == x.k
      {
        LeafAddr(Geometry(), x, i + 1);
        var bi := BlkIndex(Geo(base, leafSize), i + 1, addr);
        if Node(i + 1, bi) in split {
          sizei := i;
          break;
        }
        i := i + 1;
      }
    }

    /** Takes back the live block `x0` at `addr0`, joining it with free buddies. */
    method Dealloc(addr0: nat, ghost x0: Node)
      requires Valid() && LiveNode(tree, x0) && addr0 == AddrOf(Geometry(), x0)
      modifies this`alloc, this`split, this`tree, lists
      ensures Valid() && SameGround()
      ensures |old(tree).free| == old(tree).top + 1 && x0.k <= old(tree).top
      ensures tree == Merge(old(tree), x0)
    {
      hide Wf, IsNode, Pow2, AddrOf, IsPowerOfTwo, LiveNode, ListsAgree, BlkIndex, BlkSize, BlockOf, Start;
      Positive(leafSize);
      LiveBounds(tree, x0);
      var addr := addr0;
      var sizei := SizeOf(addr, x0);
      ghost var x := x0;
      var stopped := false;
      while sizei < nsizes - 1 && !stopped
        invariant SameGround() && x.k == sizei && LiveNode(tree, x) && addr == AddrOf(Geometry(), x)
        invariant |tree.free| == tree.top + 1 && sizei < tree.top && Merge(tree, x) == Merge(old(tree), x0)
        invariant !stopped ==> Valid()
        invariant stopped ==> x !in alloc && Encodes(alloc + {x}) && Buddy(x) in alloc
        decreases tree.top - sizei, !stopped
      {
        IndexOfBlock(Geometry(), x);
        var bi := BlkIndex(Geo(base, leafSize), sizei, addr);
        var buddyi := if bi % 2 == 0 then bi + 1 else bi - 1;
        ClearBit(tree, x);
        alloc := alloc - {Node(sizei, bi)};
        if Node(sizei, buddyi) in alloc {
          stopped := true;
        } else {
          JoinWf(tree, x);
          addr := JoinBlock(sizei, addr, bi, x);
          x := Parent(x);
          sizei := sizei + 1;
          LiveBounds(tree, x);
        }
      }
      GiveBlock(sizei, addr, x);
    }
  }

  /** How `dealloc` computes the buddy, the joined block and its index. */
  lemma JoinAddrs(g: Geo, x: Node)
    requires g.leaf > 0
    ensures var buddyi := if x.i % 2 == 0 then x.i + 1 else x.i - 1;
            && Buddy(x) == Node(x.k, buddyi) && BlkAddr(g, x.k, buddyi) == AddrOf(g, Buddy(x))
            && AddrOf(g, Parent(x)) == (if buddyi % 2 == 0 then AddrOf(g, Buddy(x)) else AddrOf(g, x))
            && Parent(x) == Node(x.k + 1, BlkIndex(g, x.k + 1, AddrOf(g, Parent(x))))
  {
    IndexOfBlock(g, Buddy(x));
    IndexOfBlock(g, Parent(x));
    ParentAddr(g, x);
  }

  lemma ClearBit(t: Tree, x: Node)
    requires LiveNode(t, x)
    ensures x in t.alloc && t.alloc - {x} + {x} == t.alloc && Buddy(x) != x
  {}

  lemma LeafAddr(g: Geo, x: Node, k: nat)
    requires g.leaf > 0
    ensures BlkIndex(g, k, AddrOf(g, x)) == BlockOf(k, Start(x)).i && BlockOf(k, Start(x)).k == k
  {
    IndexOfLeaf(g, k, Start(x));
  }

  lemma AgreeAt(g: Geo, t: Tree, rings: map<int, seq<int>>, k: nat)
    requires ListsAgree(g, t, rings) && k <= t.top
    ensures HeadOf(g, k) in rings && rings[HeadOf(g, k)] == [HeadOf(g, k)] + Addrs(g, k, t.free[k])
    ensures rings[HeadOf(g, k)][1..] == [] <==> t.free[k] == []
  {
    assert ListAt(g, t, rings, k);
  }

  /** The free buddy of a live block is on its list. */
  lemma BuddyListed(t: Tree, x: Node)
    requires Wf(t) && LiveNode(t, x) && Buddy(x) !in t.alloc
    ensures x.k < t.top && Buddy(x).i in t.free[x.k]
  {
    LiveFacts(t, x);
    Family(t.top, x);
    assert NodeOk(t, Buddy(x));
  }

  lemma RightHalfUnlisted(g: Geo, t: Tree, rings: map<int, seq<int>>, x: Node)
    requires g.leaf > 0 && Wf(t) && ListsAgree(g, t, rings) && LiveNode(t, x) && x.k > 0
    requires INFO_SIZE * (t.top + 1) <= t.lo * g.leaf
    ensures FL.Unlisted(rings, AddrOf(g, Right(x)))
  {
    Halves(x);
    LiveNotListed(g, t, rings, x, Right(x));
  }

  lemma NoHeads(g: Geo)
    ensures HeadsUpTo(g, map[], 0)
  {}

  lemma HeadIs(g: Geo, k: nat)
    ensures HeadOf(g, k) == g.base + INFO_SIZE * k
  {}

  lemma FirstIsNew(i: nat, s: seq<nat>)
    requires Distinct([i] + s)
    ensures i !in s && i in [i] + s
  {
    var r := [i] + s;
    assert r[0] == i;
    forall j | 0 <= j < |s|
      ensures s[j] != i
    {
      assert r[j + 1] == s[j];
    }
  }

  /** The tree while `init_free` has handled the sizes below `n`. */
  ghost function Partly(goal: Tree, n: nat): Tree
    requires n <= goal.top
  {
    goal.(free := InitLists(goal.alloc, goal.top, goal.lo, goal.hi, n))
  }

  lemma FreeSumStart(goal: Tree)
    ensures FreeSum(goal.alloc, goal.lo, goal.hi, 0) == 0
  {}

  lemma PartlyLists(goal: Tree, n: nat)
    requires n <= goal.top
    ensures |Partly(goal, n).free| == goal.top + 1
  {}

  lemma PartlyEmpty(goal: Tree)
    ensures var u := Partly(goal, 0);
            && u.top == goal.top && u.lo == goal.lo && u.hi == goal.hi && |u.free| == u.top + 1
            && forall k | 0 <= k <= u.top :: u.free[k] == []
  {}

  lemma PartlyAll(goal: Tree)
    requires Built(goal)
    ensures Partly(goal, goal.top) == goal
  {}

  lemma BuiltOrder(goal: Tree, leaf: nat)
    requires Built(goal) && leaf > 0
    ensures goal.top >= 1 && goal.lo * leaf < goal.hi * leaf
  {
    MulMonotone(goal.lo + 1, goal.hi, leaf);
  }

  ghost predicate PairFits(u: Tree, goal: Tree, k: nat, x: Node)
  {
    && k < |u.free| && k < |goal.free| && Towards(u, goal)
    && Distinct(PairPush(goal.alloc, x, u.free[k])) && Below(PairPush(goal.alloc, x, u.free[k]), goal.free[k])
  }

  /** Both pairs of one size push towards the finished lists. */
  lemma PairSteps(goal: Tree, k: nat)
    requires Initial(goal) && Wf(goal) && k < goal.top
    ensures var u := Partly(goal, k);
            var l, r := Node(k, LeftIndex(goal.lo, k)), Node(k, RightIndex(goal.hi, k));
            && PairFits(u, goal, k, l)
            && var v := u.(free := u.free[k := PairPush(goal.alloc, l, u.free[k])]);
               PairFits(v, goal, k, r)
  {
    hide LeftIndex, RightIndex, InSpan, NoLoneLeft, Marked, NodeOk;
    var u := Partly(goal, k);
    var l, r := Node(k, LeftIndex(goal.lo, k)), Node(k, RightIndex(goal.hi, k));
    var a := PairPush(goal.alloc, l, []);
    var b := PairPush(goal.alloc, r, a);
    assert b == goal.free[k];
    PushGrows(goal.alloc, r, a);
    assert Distinct(b);
  }

  lemma PushGrows(alloc: set<Node>, x: Node, s: seq<nat>)
    ensures Below(s, PairPush(alloc, x, s))
    ensures Distinct(PairPush(alloc, x, s)) ==> Distinct(s)
  {
    var r := PairPush(alloc, x, s);
    if Distinct(r) && |r| == |s| + 1 {
      forall i, j | 0 <= i < j < |s|
        ensures s[i] != s[j]
      {
        assert r[i + 1] == s[i] && r[j + 1] == s[j];
      }
    }
  }

  /** After both pairs the lists of one more size are done, and their bytes counted. */
  lemma LevelDone(g: Geo, goal: Tree, k: nat, half: Tree, v: Tree)
    requires k < goal.top && k < |half.free|
    requires var u := Partly(goal, k);
             var l := Node(k, LeftIndex(goal.lo, k));
             half == u.(free := u.free[k := PairPush(goal.alloc, l, u.free[k])])
    requires var r := Node(k, RightIndex(goal.hi, k));
             v == half.(free := half.free[k := PairPush(goal.alloc, r, half.free[k])])
    ensures v == Partly(goal, k + 1)
    ensures FreeSum(goal.alloc, goal.lo, goal.hi, k) * g.leaf
            + (|half.free[k]| - |Partly(goal, k).free[k]|) * BlkSize(g, k)
            + (|v.free[k]| - |half.free[k]|) * BlkSize(g, k)
            == FreeSum(goal.alloc, goal.lo, goal.hi, k + 1) * g.leaf
  {
    hide LeftIndex, RightIndex, PairPush, FreeSum, BlkSize;
    assert v.free[k] == InitList(goal.alloc, goal.lo, goal.hi, k);
    assert v.free == Partly(goal, k + 1).free;
    LevelBytes(g, goal, k);
    var n, m, b := |half.free[k]|, |v.free[k]|, BlkSize(g, k);
    assert (n - 0) * b + (m - n) * b == m * b;
  }

  lemma LevelBytes(g: Geo, goal: Tree, k: nat)
    ensures FreeSum(goal.alloc, goal.lo, goal.hi, k + 1) * g.leaf
            == FreeSum(goal.alloc, goal.lo, goal.hi, k) * g.leaf
               + |InitList(goal.alloc, goal.lo, goal.hi, k)| * BlkSize(g, k)
  {
    hide InitList;
    var n, p := |InitList(goal.alloc, goal.lo, goal.hi, k)|, Pow2(k);
    assert (n * p) * g.leaf == n * (p * g.leaf);
    assert (FreeSum(goal.alloc, goal.lo, goal.hi, k) + n * p) * g.leaf
        == FreeSum(goal.alloc, goal.lo, goal.hi, k) * g.leaf + (n * p) * g.leaf;
  }

  lemma SpanFacts(p: Plan)
    requires InSpan(p.top, p.lo, p.hi)
    ensures p.top >= 1 && p.hi >= 1 && p.lo < p.hi <= Pow2(p.top)
  {}

  lemma PlanEnds(start: nat, end: nat, leaf: nat, maxAlign: nat, p: Plan)
    requires start >= 1 && IsPowerOfTwo(leaf) && IsPowerOfTwo(maxAlign)
    requires Planned(start, end, leaf, maxAlign, p)
    ensures p.end == p.base + p.hi * leaf
  {}

  lemma SpanBytes(p: Plan, leaf: nat)
    requires p.lo < p.hi <= Pow2(p.top)
    ensures p.lo * leaf <= p.hi * leaf <= Pow2(p.top) * leaf == BlkSize(Geo(p.base, leaf), p.top)
  {
    MulMonotone(p.lo, p.hi, leaf);
    MulMonotone(p.hi, Pow2(p.top), leaf);
  }

  lemma MarkedAll(g: Geo, t: Tree)
    requires g.leaf > 0 && InSpan(t.top, t.lo, t.hi)
    requires t.hi * g.leaf <= Pow2(t.top) * g.leaf
    requires forall x :: x in t.alloc <==>
               InStrip(g, t.top + 1, g.base, g.base + t.lo * g.leaf, x)
               || InStrip(g, t.top + 1, g.base + t.hi * g.leaf, g.base + Pow2(t.top) * g.leaf, x)
    requires forall x :: x in t.split <==> x.k > 0 && x in t.alloc
    ensures Marked(t)
  {
    hide InStrip, IsNode, Meets, InSpan;
    forall x
      ensures x in t.alloc <==> IsNode(t.top, x) && Meets(t.lo, t.hi, x)
    {
      StripsMark(g, t.top, t.lo, t.hi, x);
    }
  }

  lemma InitialIs(goal: Tree)
    requires Built(goal) && NoLoneLeft(goal.top, goal.lo, goal.hi)
    ensures Initial(goal) && Wf(goal) && Live(goal) == {}
  {
    InitialWf(goal);
  }

  lemma SumBytes(a: nat, b: nat, leaf: nat)
    requires leaf > 0
    ensures a * leaf == b * leaf <==> a == b
  {
    if a < b {
      MulMonotone(a + 1, b, leaf);
    } else if b < a {
      MulMonotone(b + 1, a, leaf);
    }
  }
}
