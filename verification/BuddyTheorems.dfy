/** What the buddy allocator promises. */
module BuddyTheorems {
  import opened PowersOfTwo
  import opened BuddyTree
  import opened BuddyMoves

  // ---------- ancestors ----------

  function Up(x: Node, d: nat): Node
    decreases d
  {
    if d == 0 then x else Up(Parent(x), d - 1)
  }

  lemma {:induction false} UpStep(x: Node, d: nat)
    ensures Up(x, d).k == x.k + d && Up(x, d + 1) == Parent(Up(x, d))
    decreases d
  {
    if d > 0 {
      UpStep(Parent(x), d - 1);
    }
  }

  /** `y` is `x` or lies inside it. */
  predicate Inside(y: Node, x: Node) {
    y.k <= x.k && Up(y, x.k - y.k) == x
  }

  predicate Overlap(x: Node, y: Node) {
    Start(x) < End(y) && Start(y) < End(x)
  }

  lemma ParentRange(x: Node)
    ensures Start(Parent(x)) <= Start(x) && End(x) <= End(Parent(x))
  {
    var p := Parent(x);
    Halves(p);
    assert x == Left(p) || x == Right(p);
  }

  lemma {:induction false} InsideRange(y: Node, x: Node)
    requires Inside(y, x)
    ensures Start(x) <= Start(y) && End(y) <= End(x)
    decreases x.k - y.k
  {
    if y.k < x.k {
      ParentRange(y);
      InsideRange(Parent(y), x);
    }
  }

  lemma RangeNonEmpty(x: Node)
    ensures Start(x) < End(x)
  {
    assert (x.i + 1) * Pow2(x.k) == x.i * Pow2(x.k) + Pow2(x.k);
  }

  /** Blocks of a buddy system overlap only when one lies inside the other. */
  lemma {:induction false} OverlapIsInside(x: Node, y: Node)
    requires x.k <= y.k && Overlap(x, y)
    ensures Inside(x, y)
    decreases y.k - x.k
  {
    if x.k == y.k {
      var p := Pow2(x.k);
      if x.i < y.i {
        MulMonotone(x.i + 1, y.i, p);
      } else if y.i < x.i {
        MulMonotone(y.i + 1, x.i, p);
      }
    } else {
      ParentRange(x);
      OverlapIsInside(Parent(x), y);
    }
  }

  lemma {:induction false} AncestorsSplit(t: Tree, x: Node, d: nat)
    requires Wf(t) && x in t.alloc && 0 < d && x.k + d <= t.top
    ensures Up(x, d) in t.split
    decreases d
  {
    hide IsNode, Pow2, Meets;
    assert NodeOk(t, x);
    if d > 1 {
      assert NodeOk(t, Parent(x));
      AncestorsSplit(t, Parent(x), d - 1);
    }
  }

  // ---------- disjointness and conservation ----------

  /** A block that is not cut any further. */
  predicate Terminal(t: Tree, x: Node) {
    LiveNode(t, x) || FreeNode(t, x)
  }

  lemma TerminalAncestors(t: Tree, x: Node, d: nat)
    requires Wf(t) && Terminal(t, x) && 0 < d && x.k + d <= t.top
    ensures Up(x, d) in t.split
  {
    hide IsNode, Pow2, Meets;
    if LiveNode(t, x) {
      AncestorsSplit(t, x, d);
    } else if d > 1 {
      assert NodeOk(t, Parent(x));
      AncestorsSplit(t, Parent(x), d - 1);
    }
  }

  /** Live and free blocks never overlap, and none of them touches reserved leaves. */
  lemma BlocksDisjoint(t: Tree, x: Node, y: Node)
    requires Wf(t) && Terminal(t, x) && Terminal(t, y) && x != y
    ensures !Overlap(x, y)
    ensures t.lo <= Start(x) && End(x) <= t.hi
  {
    hide Wf, Start, End, Parent, Pow2;
    if FreeNode(t, x) {
      FreeFacts(t, x);
    }
    if Overlap(x, y) {
      var a, b := if x.k <= y.k then x else y, if x.k <= y.k then y else x;
      OverlapIsInside(a, b);
      if a.k < b.k {
        TerminalAncestors(t, a, b.k - a.k);
        if FreeNode(t, b) {
          FreeFacts(t, b);
        }
      }
    }
  }

  lemma {:induction false} CoverBelow(t: Tree, x: Node, leaf: nat) returns (y: Node)
    requires Wf(t) && x in t.split && Start(x) <= leaf < End(x) && t.lo <= leaf < t.hi
    ensures Terminal(t, y) && Start(y) <= leaf < End(y)
    decreases x.k
  {
    hide Pow2, Start, End, IsNode, Meets;
    NodeBound(t, x);
    Family(t.top, x);
    Halves(x);
    y := if leaf < Start(Right(x)) then Left(x) else Right(x);
    assert NodeOk(t, y);
    if y in t.split {
      y := CoverBelow(t, y, leaf);
    } else if y.k == 0 {
      LeafIsFree(t.lo, t.hi, y, leaf);
    }
  }

  lemma NodeBound(t: Tree, x: Node)
    requires Wf(t) && x in t.split
    ensures x.k <= t.top && IsNode(t.top, x) && NodeOk(t, x)
  {}

  lemma LeafIsFree(lo: nat, hi: nat, y: Node, leaf: nat)
    requires y.k == 0 && Start(y) <= leaf < End(y) && lo <= leaf < hi
    ensures !Meets(lo, hi, y)
  {
    assert Pow2(0) == 1;
  }

  /** Conservation: every leaf is reserved or belongs to exactly one block that is either
      live or on a free list. */
  lemma EveryLeafAccounted(t: Tree, leaf: nat) returns (y: Node)
    requires Wf(t) && t.lo <= leaf < t.hi
    ensures Terminal(t, y) && Start(y) <= leaf < End(y)
    ensures forall z | Terminal(t, z) && Start(z) <= leaf < End(z) :: z == y
  {
    var root := Node(t.top, 0);
    assert Start(root) == 0 && End(root) == Pow2(t.top);
    y := CoverBelow(t, root, leaf);
    forall z | Terminal(t, z) && Start(z) <= leaf < End(z)
      ensures z == y
    {
      if z != y {
        BlocksDisjoint(t, y, z);
      }
    }
  }

  // ---------- the bitmaps are determined by the live blocks ----------

  lemma {:induction false} LiveInside(t: Tree, x: Node) returns (y: Node)
    requires Wf(t) && x in t.alloc && !Meets(t.lo, t.hi, x)
    ensures LiveNode(t, y) && Inside(y, x) && (x in t.split ==> y.k < x.k)
    decreases x.k
  {
    hide Pow2, Meets, Start, End;
    y := x;
    assert x.k <= t.top && NodeOk(t, x);
    if x in t.split {
      Family(t.top, x);
      MeetsHalves(t.lo, t.hi, x);
      var half := if Left(x) in t.alloc then Left(x) else Right(x);
      y := LiveInside(t, half);
      InsideParent(y, half);
    }
  }

  lemma InsideParent(y: Node, x: Node)
    requires Inside(y, x)
    ensures Inside(y, Parent(x))
  {
    UpStep(y, x.k - y.k);
  }

  /** A block is marked in use exactly when it has reserved leaves or a live block in it, and
      marked split exactly when it has reserved leaves or a smaller live block in it. */
  lemma BitsMean(t: Tree, x: Node)
    requires Wf(t) && IsNode(t.top, x)
    ensures x in t.alloc <==> Meets(t.lo, t.hi, x) || exists y :: y in Live(t) && Inside(y, x)
    ensures x in t.split <==> x.k > 0 && (Meets(t.lo, t.hi, x) || exists y :: y in Live(t) && Inside(y, x) && y != x)
  {
    hide Pow2, Meets, Inside;
    assert NodeOk(t, x);
    if x in t.alloc && !Meets(t.lo, t.hi, x) {
      var y := LiveInside(t, x);
      assert y in Live(t);
    }
    forall y | y in Live(t) && Inside(y, x)
      ensures x in t.alloc && (y != x ==> x in t.split && x.k > 0)
    {
      LiveBelow(t, x, y);
    }
  }

  lemma LiveBelow(t: Tree, x: Node, y: Node)
    requires Wf(t) && IsNode(t.top, x) && LiveNode(t, y) && Inside(y, x)
    ensures x in t.alloc && (y != x ==> x in t.split && x.k > 0)
  {
    hide Wf, Pow2, Meets;
    if y.k < x.k {
      AncestorsSplit(t, y, x.k - y.k);
      SplitInUse(t, x);
    }
  }

  lemma SplitInUse(t: Tree, x: Node)
    requires Wf(t) && x in t.split
    ensures x in t.alloc && x.k > 0
  {
    hide Pow2, Meets;
    assert NodeOk(t, x);
  }

  /** Coalescing is canonical: two well-formed states with the same live blocks have the same
      bitmaps and the same free sets, however they came about. */
  lemma Canonical(t: Tree, u: Tree)
    requires Wf(t) && Wf(u) && t.top == u.top && t.lo == u.lo && t.hi == u.hi && Live(t) == Live(u)
    ensures t.alloc == u.alloc && t.split == u.split
    ensures forall k, i: nat | 0 <= k <= t.top :: i in t.free[k] <==> i in u.free[k]
  {
    hide IsNode, Pow2, Meets, Inside, Live, Parent;
    forall x | IsNode(t.top, x)
      ensures (x in t.alloc <==> x in u.alloc) && (x in t.split <==> x in u.split)
    {
      BitsMean(t, x);
      BitsMean(u, x);
    }
    forall k, i: nat | 0 <= k <= t.top
      ensures i in t.free[k] <==> i in u.free[k]
    {
      assert NodeOk(t, Node(k, i)) && NodeOk(u, Node(k, i));
    }
  }

  // ---------- alloc and dealloc ----------

  lemma {:induction false} CarveWf(t: Tree, x: Node, small: nat)
    requires Wf(t) && LiveNode(t, x) && small <= x.k < |t.free|
    ensures var y := Leftmost(x, small);
            && Wf(Carve(t, x, small)) && LiveNode(Carve(t, x, small), y)
            && Live(Carve(t, x, small)) == Live(t) - {x} + {y}
    decreases x.k
  {
    hide Wf, LiveNode, Live;
    if x.k > small {
      SplitWf(t, x);
      CarveWf(SplitOnce(t, x), Left(x), small);
      BlankBelow(t, x);
    } else {
      assert x in Live(t) by {
        LiveIsLive(t, x);
      }
    }
  }

  lemma LiveIsLive(t: Tree, x: Node)
    requires LiveNode(t, x)
    ensures x in Live(t)
  {}

  lemma BlankBelow(t: Tree, x: Node)
    requires Wf(t) && LiveNode(t, x) && x.k > 0
    ensures Left(x) !in Live(t) && Left(x) != x
  {
    LiveFacts(t, x);
  }

  /** `alloc` hands out one block of the size asked for, keeps the tree, and leaves every
      other live block alone. */
  lemma AllocWf(t: Tree, small: nat)
    requires Wf(t)
    ensures var (u, r) := Alloc(t, small);
            && Wf(u) && u.top == t.top && u.lo == t.lo && u.hi == t.hi
            && (r.NoBlock? ==> u == t)
            && (r.Block? ==> r.x.k == small && LiveNode(u, r.x) && r.x !in Live(t) && Live(u) == Live(t) + {r.x})
  {
    hide Wf, LiveNode, Live, FreeNode;
    WfLists(t);
    var s := FirstFit(t, small);
    if s <= t.top {
      TakeWf(t, s);
      var x := Node(s, t.free[s][0]);
      CarveWf(Take(t, s), x, small);
      NewBlock(t, x, small);
    }
  }

  lemma WfLists(t: Tree)
    requires Wf(t)
    ensures |t.free| == t.top + 1
  {}

  /** The first block on its free list. */
  predicate IsFirst(t: Tree, y: Node) {
    FreeNode(t, y) && y.k < |t.free| && t.free[y.k] != [] && t.free[y.k][0] == y.i
  }

  /** Each list from `small` on below x gets one block in front, and no other list changes. */
  lemma {:induction false} CarveLists(t: Tree, x: Node, small: nat)
    requires small <= x.k < |t.free|
    ensures var u := Carve(t, x, small);
            && (forall k | 0 <= k < |t.free| && (k < small || x.k <= k) :: u.free[k] == t.free[k])
            && (forall k | small <= k < x.k :: |u.free[k]| == |t.free[k]| + 1 && u.free[k][1..] == t.free[k])
    decreases x.k
  {
    if small < x.k {
      CarveLists(SplitOnce(t, x), Left(x), small);
    }
  }

  /** Which block `alloc` takes: it starts where the first block on some list starts, and there was no
      free block of a size between the one asked for and that one. Its list loses it, the lists in
      between get one block each, and all others stay. */
  lemma AllocTakesSmallest(t: Tree, small: nat) returns (y: Node)
    requires Wf(t) && |t.free| == t.top + 1 && Alloc(t, small).1.Block?
    ensures IsFirst(t, y) && small <= y.k
    ensures var x := Alloc(t, small).1.x;
            Inside(x, y) && Start(x) == Start(y) && x.k == small
    ensures forall z: Node | small <= z.k < y.k :: !FreeNode(t, z)
    ensures var u := Alloc(t, small).0;
            && |u.free| == |t.free| && u.free[y.k] == t.free[y.k][1..]
            && (forall k | 0 <= k <= t.top && (k < small || k > y.k) :: u.free[k] == t.free[k])
            && (forall k | small <= k < y.k :: |u.free[k]| == 1 && t.free[k] == [])
  {
    var s := FirstFit(t, small);
    y := Node(s, t.free[s][0]);
    CarveLists(Take(t, s), y, small);
    assert y.i in t.free[s] && NodeOk(t, y);
    LeftmostInside(y, small);
    forall z: Node | small <= z.k < y.k
      ensures !FreeNode(t, z)
    {
      assert NodeOk(t, z) && t.free[z.k] == [];
    }
  }

  /** A block cut out of a free one was not live before. */
  lemma NewBlock(t: Tree, x: Node, small: nat)
    requires Wf(t) && FreeNode(t, x) && small <= x.k
    ensures x !in Live(t) && Leftmost(x, small) !in Live(t)
  {
    hide IsNode, Pow2, Meets, NodeOk, Start;
    LeftmostInside(x, small);
    var y := Leftmost(x, small);
    if y in t.alloc && y.k < x.k {
      AncestorsSplit(t, y, x.k - y.k);
      FreeFacts(t, x);
    }
  }

  lemma {:induction false} LeftmostInside(x: Node, small: nat)
    requires small <= x.k
    ensures Inside(Leftmost(x, small), x) && Start(Leftmost(x, small)) == Start(x)
    decreases x.k
  {
    if small < x.k {
      LeftmostInside(Left(x), small);
      InsideParent(Leftmost(x, small), Left(x));
      Halves(x);
    }
  }

  /** `dealloc` of a live block takes exactly that block out of the live ones. */
  lemma {:induction false} MergeWf(t: Tree, x: Node)
    requires Wf(t) && LiveNode(t, x)
    ensures |t.free| == t.top + 1 && x.k <= t.top
    ensures var u := Merge(t, x);
            Wf(u) && Live(u) == Live(t) - {x} && u.top == t.top && u.lo == t.lo && u.hi == t.hi
    decreases t.top - x.k
  {
    hide Wf, Live, LiveNode;
    LiveBounds(t, x);
    if Buddy(x) in t.alloc {
      GiveWf(t, x);
    } else {
      JoinWf(t, x);
      MergeWf(JoinOnce(t, x), Parent(x));
      assert Live(Merge(t, x)) == Live(t) - {x} + {Parent(x)} - {Parent(x)};
      ParentNotLive(t, x);
    }
  }

  /** Where the freed block ends up: joined with its buddies it becomes the first on its list. Each
      list in between loses one block, and all other lists stay. */
  lemma {:induction false} MergedIsFirst(t: Tree, x: Node) returns (y: Node)
    requires Wf(t) && LiveNode(t, x) && |t.free| == t.top + 1 && x.k <= t.top
    ensures var u := Merge(t, x);
            && |u.free| == |t.free| && x.k <= y.k <= t.top && Inside(x, y)
            && u.free[y.k] == [y.i] + t.free[y.k]
            && (forall k | 0 <= k <= t.top && (k < x.k || k > y.k) :: u.free[k] == t.free[k])
            && (forall k | x.k <= k < y.k :: LosesOne(t.free[k], u.free[k]))
    decreases t.top - x.k
  {
    hide Wf, LiveNode;
    LiveBounds(t, x);
    if Buddy(x) in t.alloc {
      y := x;
    } else {
      JoinWf(t, x);
      FreeBuddyListed(t, x);
      var u := JoinOnce(t, x);
      y := MergedIsFirst(u, Parent(x));
      InsideStep(x, y);
    }
  }

  ghost predicate LosesOne(s: seq<nat>, r: seq<nat>) {
    exists i: nat :: i in s && r == Without(s, i)
  }

  lemma FreeBuddyListed(t: Tree, x: Node)
    requires Wf(t) && LiveNode(t, x) && |t.free| == t.top + 1 && x.k < t.top && Buddy(x) !in t.alloc
    ensures Buddy(x).i in t.free[x.k] && LosesOne(t.free[x.k], Without(t.free[x.k], Buddy(x).i))
  {
    LiveFacts(t, x);
    Family(t.top, x);
    assert NodeOk(t, Buddy(x));
  }

  lemma InsideStep(x: Node, y: Node)
    requires Inside(Parent(x), y)
    ensures Inside(x, y)
  {}

  lemma LiveBounds(t: Tree, x: Node)
    requires Wf(t) && LiveNode(t, x)
    ensures |t.free| == t.top + 1 && x.k < t.top
  {
    LiveFacts(t, x);
  }

  lemma ParentNotLive(t: Tree, x: Node)
    requires Wf(t) && LiveNode(t, x)
    ensures Parent(x) !in Live(t)
  {
    LiveFacts(t, x);
  }

  /** Joining undoes splitting. */
  lemma JoinUndoesSplit(t: Tree, x: Node)
    requires Wf(t) && LiveNode(t, x) && x.k > 0
    ensures var u := SplitOnce(t, x);
            && Right(x) !in u.alloc && Buddy(Left(x)) == Right(x) && Parent(Left(x)) == x
            && JoinOnce(u, Left(x)) == t
  {
    hide Wf, IsNode, Pow2, Meets, NodeOk, Start, End;
    LiveFacts(t, x);
    LiveBounds(t, x);
    Family(t.top, x);
    var u := SplitOnce(t, x);
    var v := JoinOnce(u, Left(x));
    assert Without(u.free[x.k - 1], Right(x).i) == t.free[x.k - 1];
    assert v.free == t.free;
    assert v.alloc == t.alloc && v.split == t.split;
  }

  lemma {:induction false} MergeUndoesCarve(t: Tree, x: Node, small: nat)
    requires Wf(t) && LiveNode(t, x) && small <= x.k
    ensures |t.free| == t.top + 1 && x.k < t.top
    ensures var u := Carve(t, x, small);
            Merge(u, Leftmost(x, small)) == Merge(t, x)
    decreases x.k
  {
    hide Wf, LiveNode;
    LiveBounds(t, x);
    if small < x.k {
      SplitWf(t, x);
      MergeUndoesCarve(SplitOnce(t, x), Left(x), small);
      JoinUndoesSplit(t, x);
    }
  }

  /** Freeing a block right after allocating it restores bitmaps and lists exactly. */
  lemma FreeUndoesAlloc(t: Tree, small: nat)
    requires Wf(t) && Alloc(t, small).1.Block?
    ensures var (u, r) := Alloc(t, small);
            |u.free| == u.top + 1 && r.x.k <= u.top && Merge(u, r.x) == t
  {
    hide NodeOk, IsNode, Pow2, Meets;
    var s := FirstFit(t, small);
    var x, u := Node(s, t.free[s][0]), Take(t, s);
    TakeWf(t, s);
    MergeUndoesCarve(u, x, small);
    FreeFacts(t, x);
    LiveFacts(u, x);
    Kin(x, x);
    assert Merge(u, x) == Give(u, x);
    assert [x.i] + t.free[s][1..] == t.free[s];
    assert Give(u, x).free == t.free && Give(u, x).alloc == t.alloc;
  }

  /** `dealloc` reads the size of a live block off the split bits. */
  lemma {:induction false} FindsSize(t: Tree, x: Node, k: nat)
    requires Wf(t) && LiveNode(t, x) && k <= x.k
    ensures k <= t.top && FoundSize(t, Start(x), k) == x.k
    decreases x.k - k
  {
    hide IsNode, Pow2, Meets, NodeOk, Start, BlockOf;
    LiveFacts(t, x);
    LeafIndex(x, k + 1);
    if k < x.k {
      FindsSize(t, x, k + 1);
      NothingBelow(t, x, BlockOf(k + 1, Start(x)));
    }
  }

  /** The block of size k that the first leaf of `x` lies in. */
  lemma LeafIndex(x: Node, k: nat)
    ensures k <= x.k ==> Inside(BlockOf(k, Start(x)), x)
    ensures k == x.k + 1 ==> BlockOf(k, Start(x)) == Parent(x)
  {
    if k <= x.k {
      LeftmostInside(x, k);
      var y := Leftmost(x, k);
      MulMod(y.i, Pow2(k));
    } else if k == x.k + 1 {
      ParentIndex(x);
    }
  }

  lemma ParentIndex(x: Node)
    ensures Start(x) / Pow2(x.k + 1) == x.i / 2
  {
    var p, q := Pow2(x.k), x.i / 2;
    var r := x.i % 2;
    assert Start(x) == (2 * q + r) * p == q * (2 * p) + r * p;
    MulDiv(q, 2 * p, r * p);
  }

  lemma NothingBelow(t: Tree, x: Node, y: Node)
    requires Wf(t) && LiveNode(t, x) && Inside(y, x)
    ensures y !in t.split
  {
    hide IsNode, Pow2, Meets;
    LiveFacts(t, x);
    assert NodeOk(t, y);
    if y in t.alloc && y.k < x.k {
      AncestorsSplit(t, y, x.k - y.k);
    }
  }

  // ---------- completeness ----------

  lemma {:induction false} ClimbToBlock(t: Tree, x: Node) returns (y: Node)
    requires Wf(t) && IsNode(t.top, x) && x !in t.alloc
    ensures Terminal(t, y) && Inside(x, y)
    decreases t.top - x.k
  {
    hide IsNode, Pow2, Meets, Inside, Left, Right;
    BelowRoot(t, x);
    Family(t.top, x);
    var p := Parent(x);
    assert NodeOk(t, p);
    if p in t.split {
      y := x;
      InsideItself(x);
    } else if p in t.alloc {
      y := p;
      InsideItself(p);
      ChildInside(x, y);
    } else {
      y := ClimbToBlock(t, p);
      ChildInside(x, y);
    }
  }

  lemma InsideItself(x: Node)
    ensures Inside(x, x)
  {}

  lemma ChildInside(x: Node, y: Node)
    requires Inside(Parent(x), y)
    ensures Inside(x, y)
  {}

  lemma BelowRoot(t: Tree, x: Node)
    requires Wf(t) && IsNode(t.top, x) && x !in t.alloc
    ensures x.k < t.top
  {
    RootFacts(t);
    assert NodeOk(t, Node(t.top, 0));
  }

  lemma NothingFree(t: Tree, small: nat, y: Node)
    requires Wf(t) && Alloc(t, small).1.NoBlock? && small <= y.k
    ensures !FreeNode(t, y)
  {
    if y.k <= t.top {
      assert NodeOk(t, y);
    }
  }

  /** Completeness: when `alloc` finds nothing, every aligned block of that size has a
      reserved leaf or overlaps a live block. */
  lemma AllocComplete(t: Tree, small: nat, x: Node)
    requires Wf(t) && Alloc(t, small).1.NoBlock? && IsNode(t.top, x) && x.k == small
    ensures Meets(t.lo, t.hi, x) || exists y :: LiveNode(t, y) && Overlap(x, y)
  {
    if x in t.alloc {
      if !Meets(t.lo, t.hi, x) {
        var y := LiveInside(t, x);
        InsideRange(y, x);
        RangeNonEmpty(y);
        assert Overlap(x, y);
      }
    } else {
      var y := ClimbToBlock(t, x);
      InsideRange(x, y);
      RangeNonEmpty(x);
      NothingFree(t, small, y);
      assert Overlap(x, y);
    }
  }

  // ---------- whole runs ----------

  datatype Op = DoAlloc(small: nat) | DoFree(x: Node)

  /** `u` follows from `t` by allocations and by frees of live blocks. */
  ghost predicate Run(t: Tree, ops: seq<Op>, u: Tree)
    decreases |ops|
  {
    if ops == [] then t == u
    else match ops[0]
      case DoAlloc(small) => |t.free| == t.top + 1 && Run(Alloc(t, small).0, ops[1..], u)
      case DoFree(x) =>
        && |t.free| == t.top + 1 && x.k <= t.top && LiveNode(t, x)
        && Run(Merge(t, x), ops[1..], u)
  }

  lemma {:induction false} RunWf(t: Tree, ops: seq<Op>, u: Tree)
    requires Wf(t) && Run(t, ops, u)
    ensures Wf(u) && u.top == t.top && u.lo == t.lo && u.hi == t.hi
    decreases |ops|
  {
    hide Wf, LiveNode;
    if ops != [] {
      match ops[0] {
        case DoAlloc(small) =>
          AllocWf(t, small);
          RunWf(Alloc(t, small).0, ops[1..], u);
        case DoFree(x) =>
          MergeWf(t, x);
          RunWf(Merge(t, x), ops[1..], u);
      }
    }
  }

  /** Once every block has been freed, in whatever order, bitmaps and free sets are back to
      what they were at the start. */
  lemma AllFreedRestores(t: Tree, ops: seq<Op>, u: Tree)
    requires Wf(t) && Live(t) == {} && Run(t, ops, u) && Live(u) == {}
    ensures u.alloc == t.alloc && u.split == t.split && |u.free| == |t.free| == t.top + 1
    ensures forall k, i: nat | 0 <= k <= t.top :: i in u.free[k] <==> i in t.free[k]
  {
    RunWf(t, ops, u);
    Canonical(t, u);
  }
}
