/** The buddy system as one binary tree, spread over an alloc bitmap, a split bitmap and a
    free list per block size. */
module BuddyTree {
  import opened PowersOfTwo

  /** Block `i` of size class `k`: it covers leaves i*2^k up to (i+1)*2^k. */
  datatype Node = Node(k: nat, i: nat)

  /** `alloc` and `split` are the set bits of the two bitmaps of all sizes, `free[k]` the free
      list of size k from its head on. Leaves below `lo` hold the allocator's own data and
      leaves from `hi` on lie behind the managed range: both are reserved for good. */
  datatype Tree = Tree(top: nat, lo: nat, hi: nat, alloc: set<Node>, split: set<Node>, free: seq<seq<nat>>)

  // ---------- geometry ----------

  predicate IsNode(top: nat, x: Node) {
    x.k <= top && x.i < Pow2(top - x.k)
  }

  function Start(x: Node): nat {
    x.i * Pow2(x.k)
  }

  function End(x: Node): nat {
    (x.i + 1) * Pow2(x.k)
  }

  function Parent(x: Node): Node {
    Node(x.k + 1, x.i / 2)
  }

  function Left(x: Node): Node
    requires x.k > 0
  {
    Node(x.k - 1, 2 * x.i)
  }

  function Right(x: Node): Node
    requires x.k > 0
  {
    Node(x.k - 1, 2 * x.i + 1)
  }

  function Buddy(x: Node): Node {
    Node(x.k, if x.i % 2 == 0 then x.i + 1 else x.i - 1)
  }

  lemma Halves(x: Node)
    requires x.k > 0
    ensures Start(Left(x)) == Start(x) && End(Left(x)) == Start(Right(x)) && End(Right(x)) == End(x)
    ensures Start(x) < Start(Right(x)) < End(x)
  {
    var p := Pow2(x.k - 1);
    assert Pow2(x.k) == 2 * p;
    assert Start(x) == 2 * x.i * p == x.i * (2 * p);
    assert End(x) == (x.i + 1) * (2 * p) == (2 * x.i + 2) * p;
    assert (2 * x.i + 1) * p == 2 * x.i * p + p;
  }

  lemma Family(top: nat, x: Node)
    requires IsNode(top, x)
    ensures x.k > 0 ==> IsNode(top, Left(x)) && IsNode(top, Right(x))
                        && Parent(Left(x)) == x && Parent(Right(x)) == x && Buddy(Left(x)) == Right(x)
    ensures x.k < top ==> IsNode(top, Parent(x)) && IsNode(top, Buddy(x)) && Buddy(Buddy(x)) == x
                          && Parent(Buddy(x)) == Parent(x) && Buddy(x) != x
                          && (x == Left(Parent(x)) || x == Right(Parent(x)))
                          && (x == Left(Parent(x)) <==> Buddy(x) == Right(Parent(x)))
                          && (x == Right(Parent(x)) <==> Buddy(x) == Left(Parent(x)))
  {
    hide Pow2;
    if x.k > 0 {
      PowNext(top - x.k);
    }
    if x.k < top {
      PowNext(top - (x.k + 1));
    }
  }

  lemma PowNext(n: nat)
    ensures Pow2(n + 1) == 2 * Pow2(n)
  {}

  /** How two blocks can be related. */
  lemma Kin(x: Node, y: Node)
    ensures y.k > 0 && (Left(y) == x || Right(y) == x) ==> y == Parent(x)
    ensures x.k > 0 && (y == Left(x) || y == Right(x)) ==> Parent(y) == x
    ensures Parent(y) == x ==> x.k > 0 && (y == Left(x) || y == Right(x))
    ensures Parent(y) == Parent(x) ==> y == x || y == Buddy(x)
    ensures x.k > 0 && y.k > 0 && x != y ==> Left(x) != Left(y) && Right(x) != Right(y) && Left(x) != Right(y)
    ensures x.k > 0 ==> Left(x).k == Right(x).k == x.k - 1 && Left(x) != Right(x)
    ensures y.k > 0 ==> Left(y).k == Right(y).k == y.k - 1
    ensures Parent(x) != x && Buddy(x) != x && Buddy(x).k == x.k && Parent(x).k == x.k + 1
  {}

  /** Some leaf of the block is reserved. */
  predicate Meets(lo: nat, hi: nat, x: Node) {
    Start(x) < lo || End(x) > hi
  }

  lemma MeetsHalves(lo: nat, hi: nat, x: Node)
    requires x.k > 0
    ensures Meets(lo, hi, x) <==> Meets(lo, hi, Left(x)) || Meets(lo, hi, Right(x))
  {
    Halves(x);
  }

  // ---------- well-formedness ----------

  /** A block on the free list: not in use, cut out of a split block. */
  predicate FreeNode(t: Tree, x: Node) {
    IsNode(t.top, x) && x.k < t.top && x !in t.alloc && Parent(x) in t.split
  }

  /** A block handed out and not given back. */
  predicate LiveNode(t: Tree, x: Node) {
    IsNode(t.top, x) && x in t.alloc && x !in t.split && !Meets(t.lo, t.hi, x)
  }

  ghost predicate Distinct(s: seq<nat>) {
    forall i, j | 0 <= i < j < |s| :: s[i] != s[j]
  }

  ghost predicate Shape(t: Tree) {
    && t.top > 0 && |t.free| == t.top + 1
    && 0 < t.lo <= t.hi <= Pow2(t.top)
    && Node(t.top, 0) in t.split
    && (forall x | x in t.alloc :: IsNode(t.top, x))
    && (forall x | x in t.split :: IsNode(t.top, x))
    && (forall k | 0 <= k <= t.top :: Distinct(t.free[k]))
  }

  /** What the bits and the list say about one block: a split block is in use and so is one of
      its halves, a block in use is cut out of a split one, a block with reserved leaves is
      split as far down as it goes, and the list holds exactly the free blocks. */
  ghost predicate NodeOk(t: Tree, x: Node)
    requires x.k < |t.free|
  {
    && (x in t.split ==> x in t.alloc && x.k > 0 && (Left(x) in t.alloc || Right(x) in t.alloc))
    && (x in t.alloc && x.k < t.top ==> Parent(x) in t.split)
    && (IsNode(t.top, x) && Meets(t.lo, t.hi, x) ==> x in t.alloc && (x.k > 0 ==> x in t.split))
    && (x.i in t.free[x.k] <==> FreeNode(t, x))
  }

  ghost predicate Wf(t: Tree) {
    Shape(t) && forall x: Node | x.k <= t.top :: NodeOk(t, x)
  }

  // ---------- the elementary moves ----------

  function PushFree(t: Tree, x: Node): Tree
    requires x.k < |t.free|
  {
    t.(free := t.free[x.k := [x.i] + t.free[x.k]])
  }

  function Without(s: seq<nat>, i: nat): (r: seq<nat>)
    ensures i !in s ==> r == s
  {
    if s == [] then [] else if s[0] == i then s[1..] else [s[0]] + Without(s[1..], i)
  }

  function DropFree(t: Tree, x: Node): Tree
    requires x.k < |t.free|
  {
    t.(free := t.free[x.k := Without(t.free[x.k], x.i)])
  }

  /** Pops the head of free list `s` and marks it in use. */
  function Take(t: Tree, s: nat): Tree
    requires s < |t.free| && t.free[s] != []
  {
    t.(alloc := t.alloc + {Node(s, t.free[s][0])}, free := t.free[s := t.free[s][1..]])
  }

  /** Splits block `x`, keeps the left half in use and frees the right one. */
  function SplitOnce(t: Tree, x: Node): Tree
    requires 0 < x.k <= |t.free|
  {
    PushFree(t.(split := t.split + {x}, alloc := t.alloc + {Left(x)}), Right(x))
  }

  /** Joins block `x` with its free buddy; their parent is in use instead. */
  function JoinOnce(t: Tree, x: Node): Tree
    requires x.k < |t.free|
  {
    DropFree(t.(alloc := t.alloc - {x}, split := t.split - {Parent(x)}), Buddy(x))
  }

  /** Gives block `x` back to its free list. */
  function Give(t: Tree, x: Node): Tree
    requires x.k < |t.free|
  {
    PushFree(t.(alloc := t.alloc - {x}), x)
  }

  // ---------- alloc and dealloc ----------

  /** Splits block `x` down to size `small`, always going on with the left half. */
  function Carve(t: Tree, x: Node, small: nat): (u: Tree)
    requires small <= x.k < |t.free|
    ensures |u.free| == |t.free| && u.top == t.top && u.lo == t.lo && u.hi == t.hi
    decreases x.k
  {
    if x.k == small then t else Carve(SplitOnce(t, x), Left(x), small)
  }

  function Leftmost(x: Node, small: nat): (y: Node)
    requires small <= x.k
    ensures y.k == small
    decreases x.k
  {
    if x.k == small then x else Leftmost(Left(x), small)
  }

  /** The smallest size from `small` on with a free block. */
  function FirstFit(t: Tree, small: nat): (r: nat)
    requires |t.free| == t.top + 1
    ensures r <= t.top ==> small <= r && t.free[r] != []
    ensures r > t.top ==> forall k | small <= k <= t.top :: t.free[k] == []
    ensures forall k | small <= k < r && k <= t.top :: t.free[k] == []
    decreases t.top + 1 - small
  {
    if small > t.top then t.top + 1
    else if t.free[small] != [] then small
    else FirstFit(t, small + 1)
  }

  datatype AllocResult = NoBlock | Block(x: Node)

  function Alloc(t: Tree, small: nat): (r: (Tree, AllocResult))
    requires |t.free| == t.top + 1
  {
    var s := FirstFit(t, small);
    if s > t.top then (t, NoBlock)
    else
      var x := Node(s, t.free[s][0]);
      (Carve(Take(t, s), x, small), Block(Leftmost(x, small)))
  }

  /** Frees block `x`, joining upwards as long as the buddy is free. */
  function Merge(t: Tree, x: Node): Tree
    requires |t.free| == t.top + 1 && x.k <= t.top
    decreases t.top - x.k
  {
    if x.k == t.top then PushFree(t, x)
    else if Buddy(x) in t.alloc then Give(t, x)
    else Merge(JoinOnce(t, x), Parent(x))
  }

  /** The block of size k that a leaf lies in. */
  function BlockOf(k: nat, leaf: nat): Node {
    DivPos(leaf, Pow2(k));
    Node(k, leaf / Pow2(k))
  }

  /** The size `dealloc` finds from the split bits alone. */
  function FoundSize(t: Tree, leaf: nat, k: nat): (r: nat)
    requires k <= t.top
    ensures k <= r
    decreases t.top - k
  {
    if k == t.top then t.top + 1
    else if BlockOf(k + 1, leaf) in t.split then k
    else FoundSize(t, leaf, k + 1)
  }
}
