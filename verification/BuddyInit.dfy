/** The tree that `init` builds: everything reserved is marked, and the boundary blocks that
    cannot be joined any further are pushed on their free lists. */
module BuddyInit {
  import opened PowersOfTwo
  import opened BuddyTree
  import opened BuddyMoves

  function CeilDiv(a: nat, b: nat): nat
    requires b > 0
  {
    DivPos(a, b);
    a / b + (if a % b > 0 then 1 else 0)
  }

  /** First block of size k at or after leaf `lo`, and the block that leaf `hi` lies in. */
  function LeftIndex(lo: nat, k: nat): nat {
    CeilDiv(lo, Pow2(k))
  }

  function RightIndex(hi: nat, k: nat): nat {
    DivPos(hi, Pow2(k));
    hi / Pow2(k)
  }

  /** The pair of block `bi`: if exactly one of the two is free, it goes on the list. */
  function PairPush(alloc: set<Node>, x: Node, list: seq<nat>): seq<nat> {
    if (x in alloc) == (Buddy(x) in alloc) then list
    else if x in alloc then [Buddy(x).i] + list
    else [x.i] + list
  }

  function InitList(alloc: set<Node>, lo: nat, hi: nat, k: nat): seq<nat> {
    PairPush(alloc, Node(k, RightIndex(hi, k)), PairPush(alloc, Node(k, LeftIndex(lo, k)), []))
  }

  /** The span is the smallest that holds the managed range, and metadata ends inside the range. */
  predicate InSpan(top: nat, lo: nat, hi: nat) {
    top >= 1 && 0 < lo < hi <= Pow2(top) < 2 * hi
  }

  /** At size k the range holds one whole block, and that one is the left half of its pair. */
  predicate LoneLeft(lo: nat, hi: nat, k: nat) {
    LeftIndex(lo, k) % 2 == 0 && RightIndex(hi, k) == LeftIndex(lo, k) + 1
  }

  ghost predicate NoLoneLeft(top: nat, lo: nat, hi: nat) {
    forall k | 0 <= k < top :: !LoneLeft(lo, hi, k)
  }

  /** Exactly the blocks with reserved leaves are marked. */
  ghost predicate Marked(t: Tree) {
    && (forall x :: x in t.alloc <==> IsNode(t.top, x) && Meets(t.lo, t.hi, x))
    && (forall x :: x in t.split <==> x.k > 0 && x in t.alloc)
  }

  // ---------- the two boundaries ----------

  lemma CeilIs(a: nat, b: nat, q: nat)
    requires b > 0
    ensures CeilDiv(a, b) <= q <==> a <= q * b
    ensures CeilDiv(a, b) * b < a + b
  {
    DivMod(a, b);
    var c := a / b;
    if q >= c + 1 {
      MulMonotone(c + 1, q, b);
    } else if q < c {
      MulMonotone(q + 1, c, b);
    }
  }

  lemma FloorIs(a: nat, b: nat, q: nat)
    requires b > 0
    ensures q <= a / b <==> q * b <= a
  {
    DivMod(a, b);
    var c := a / b;
    if q >= c + 1 {
      MulMonotone(c + 1, q, b);
    } else {
      MulMonotone(q, c, b);
    }
  }

  /** The boundary indices of each size lie in the span or at its end. */
  lemma BoundaryIndices(top: nat, lo: nat, hi: nat, k: nat)
    requires InSpan(top, lo, hi) && k < top
    ensures var m := Pow2(top - 1 - k);
            0 < LeftIndex(lo, k) <= 2 * m && m <= RightIndex(hi, k) <= 2 * m && Pow2(top - k) == 2 * m
  {
    hide LeftIndex, RightIndex;
    var p, m := Pow2(k), Pow2(top - 1 - k);
    PowAdd(top - 1 - k, k);
    assert Pow2(top) == 2 * (m * p);
    IndexBounds(lo, hi, k, m);
  }

  lemma IndexBounds(lo: nat, hi: nat, k: nat, m: nat)
    requires 0 < lo <= 2 * (m * Pow2(k)) && m * Pow2(k) <= hi <= 2 * (m * Pow2(k))
    ensures 0 < LeftIndex(lo, k) <= 2 * m && m <= RightIndex(hi, k) <= 2 * m
  {
    hide Pow2, CeilDiv;
    var p := Pow2(k);
    assert (2 * m) * p == 2 * (m * p);
    CeilIs(lo, p, 2 * m);
    CeilIs(lo, p, 0);
    FloorIs(hi, p, m);
    assert (2 * m + 1) * p == 2 * (m * p) + p;
    FloorIs(hi, p, 2 * m + 1);
  }

  /** From one size to the next the boundary indices are halved, inwards. */
  lemma HalvedIndices(lo: nat, hi: nat, k: nat)
    ensures LeftIndex(lo, k + 1) == (LeftIndex(lo, k) + 1) / 2
    ensures RightIndex(hi, k + 1) == RightIndex(hi, k) / 2
  {
    hide CeilDiv;
    var p := Pow2(k);
    assert Pow2(k + 1) == 2 * p;
    HalvedCeil(lo, p);
    HalvedFloor(hi, p);
  }

  lemma HalvedCeil(a: nat, p: nat)
    requires p > 0
    ensures CeilDiv(a, 2 * p) == (CeilDiv(a, p) + 1) / 2
  {
    hide CeilDiv;
    var c, h := CeilDiv(a, p), (CeilDiv(a, p) + 1) / 2;
    assert h * (2 * p) == (2 * h) * p;
    CeilIs(a, 2 * p, h);
    CeilIs(a, p, 2 * h);
    if h > 0 {
      assert (h - 1) * (2 * p) == (2 * h - 2) * p;
      CeilIs(a, 2 * p, h - 1);
      CeilIs(a, p, 2 * h - 2);
    }
  }

  lemma HalvedFloor(a: nat, p: nat)
    requires p > 0
    ensures a / (2 * p) == (a / p) / 2
  {
    DivMod(a, p);
    HalvedQuotient(a, p, 2 * p, a / p, a % p);
  }

  lemma HalvedQuotient(a: int, p: nat, d: nat, c: int, r: nat)
    requires a == c * p + r && r < p && d == 2 * p
    ensures a / d == c / 2
  {
    var h := c / 2;
    if c % 2 == 0 {
      HalvedSum(c, h, 0, p, d);
      MulDiv(h, d, r);
    } else {
      HalvedSum(c, h, 1, p, d);
      MulDiv(h, d, p + r);
    }
  }

  lemma HalvedSum(c: int, h: int, e: int, p: nat, d: nat)
    requires c == 2 * h + e && d == 2 * p
    ensures c * p == h * d + e * p
  {
    assert h * d == (2 * h) * p;
  }

  /** A block starts before the metadata end exactly when it lies left of the first whole
      block, and ends behind the managed range exactly from the boundary block on. */
  lemma MeetsIndex(lo: nat, hi: nat, x: Node)
    ensures Start(x) < lo <==> x.i < LeftIndex(lo, x.k)
    ensures End(x) > hi <==> x.i >= RightIndex(hi, x.k)
  {
    var p := Pow2(x.k);
    CeilIs(lo, p, x.i);
    FloorIs(hi, p, x.i + 1);
  }

  lemma MeetsAt(lo: nat, hi: nat, x: Node)
    ensures Meets(lo, hi, x) <==> x.i < LeftIndex(lo, x.k) || x.i >= RightIndex(hi, x.k)
  {
    MeetsIndex(lo, hi, x);
  }

  // ---------- what is pushed at one size ----------

  lemma AllocAt(t: Tree, x: Node)
    requires Marked(t) && IsNode(t.top, x)
    ensures x in t.alloc <==> x.i < LeftIndex(t.lo, x.k) || x.i >= RightIndex(t.hi, x.k)
  {
    MeetsAt(t.lo, t.hi, x);
  }

  /** The list `init_free` leaves: the last whole block if the right boundary cuts its pair,
      and the first one if the left boundary does or if it is the only one. */
  lemma InitListIs(t: Tree, k: nat)
    requires Marked(t) && InSpan(t.top, t.lo, t.hi) && k < t.top
    ensures var l, r := LeftIndex(t.lo, k), RightIndex(t.hi, k);
            InitList(t.alloc, t.lo, t.hi, k)
            == (if l < r && r % 2 == 1 then [r - 1] else []) + (if l < r && (l % 2 == 1 || r == l + 1) then [l] else [])
  {
    hide Marked, InSpan, IsNode, LeftIndex, RightIndex, Pow2;
    BoundaryIndices(t.top, t.lo, t.hi, k);
    var l, r := LeftIndex(t.lo, k), RightIndex(t.hi, k);
    BitAt(t, Node(k, l));
    BitAt(t, Buddy(Node(k, l)));
    BitAt(t, Node(k, r));
    BitAt(t, Buddy(Node(k, r)));
  }

  /** Every alloc bit that `init_free` may look at. Behind the last block of the span none is set. */
  lemma BitAt(t: Tree, x: Node)
    requires Marked(t) && x.k <= t.top
    ensures x in t.alloc
            <==> x.i < Pow2(t.top - x.k) && (x.i < LeftIndex(t.lo, x.k) || x.i >= RightIndex(t.hi, x.k))
  {
    hide LeftIndex, RightIndex, Meets, Pow2;
    if x.i < Pow2(t.top - x.k) {
      AllocAt(t, x);
    }
  }

  /** Free blocks are the boundary blocks whose pair is cut. */
  lemma FreeAt(t: Tree, k: nat, i: nat)
    requires Marked(t) && InSpan(t.top, t.lo, t.hi) && k < t.top
    ensures var l, r := LeftIndex(t.lo, k), RightIndex(t.hi, k);
            FreeNode(t, Node(k, i)) <==> l <= i < r && ((l % 2 == 1 && i == l) || (r % 2 == 1 && i == r - 1))
  {
    hide InSpan, LeftIndex, RightIndex, Pow2, Meets;
    BoundaryIndices(t.top, t.lo, t.hi, k);
    var x := Node(k, i);
    if IsNode(t.top, x) {
      Family(t.top, x);
      HalvedIndices(t.lo, t.hi, k);
      AllocAt(t, x);
      AllocAt(t, Parent(x));
    }
  }

  /** At each size exactly the free blocks are pushed; none is pushed twice unless a single
      whole block is left that is the left half of its pair. */
  lemma PushedAreFree(t: Tree, k: nat)
    requires Marked(t) && InSpan(t.top, t.lo, t.hi) && k < t.top
    ensures forall i: nat :: i in InitList(t.alloc, t.lo, t.hi, k) <==> FreeNode(t, Node(k, i))
    ensures Distinct(InitList(t.alloc, t.lo, t.hi, k)) <==> !LoneLeft(t.lo, t.hi, k)
  {
    hide Marked, InSpan, LeftIndex, RightIndex, Pow2, FreeNode, InitList;
    InitListIs(t, k);
    forall i: nat
      ensures i in InitList(t.alloc, t.lo, t.hi, k) <==> FreeNode(t, Node(k, i))
    {
      FreeAt(t, k, i);
    }
    var s := InitList(t.alloc, t.lo, t.hi, k);
    if LoneLeft(t.lo, t.hi, k) {
      assert s[0] == s[1];
    }
  }

  // ---------- the whole tree ----------

  /** The lists after `init_free` has gone through the sizes below `n`. */
  function InitLists(alloc: set<Node>, top: nat, lo: nat, hi: nat, n: nat): (r: seq<seq<nat>>)
    requires n <= top
    ensures |r| == top + 1
    ensures forall k | 0 <= k < n :: r[k] == InitList(alloc, lo, hi, k)
    ensures forall k | n <= k <= top :: r[k] == []
  {
    seq(top + 1, k requires 0 <= k <= top => if k < n then InitList(alloc, lo, hi, k) else [])
  }

  /** What `init` builds, whether or not it pushes a block twice. */
  ghost predicate Built(t: Tree) {
    && InSpan(t.top, t.lo, t.hi) && Marked(t)
    && t.free == InitLists(t.alloc, t.top, t.lo, t.hi, t.top)
  }

  ghost predicate Initial(t: Tree) {
    Built(t) && NoLoneLeft(t.top, t.lo, t.hi)
  }

  lemma InitialNode(t: Tree, x: Node)
    requires Initial(t) && x.k <= t.top
    ensures NodeOk(t, x)
  {
    hide InSpan, NoLoneLeft, LeftIndex, RightIndex, Pow2, Meets, InitList;
    if x.k < t.top {
      PushedAreFree(t, x.k);
    }
    if x in t.alloc {
      Family(t.top, x);
      if x.k > 0 {
        MeetsHalves(t.lo, t.hi, x);
      }
      if x.k < t.top {
        MeetsHalves(t.lo, t.hi, Parent(x));
      }
    }
  }

  /** What `init` builds is a well-formed system with nothing handed out. */
  lemma InitialWf(t: Tree)
    requires Initial(t)
    ensures Wf(t) && Live(t) == {}
  {
    hide NoLoneLeft, InitList, LeftIndex, RightIndex, NodeOk;
    forall x: Node | x.k <= t.top
      ensures NodeOk(t, x)
    {
      InitialNode(t, x);
    }
    assert Start(Node(t.top, 0)) == 0;
    forall k | 0 <= k <= t.top
      ensures Distinct(t.free[k])
    {
      if k < t.top {
        PushedAreFree(t, k);
        NoLoneAt(t, k);
      }
    }
    assert Shape(t);
  }

  lemma NoLoneAt(t: Tree, k: nat)
    requires NoLoneLeft(t.top, t.lo, t.hi) && k < t.top
    ensures !LoneLeft(t.lo, t.hi, k)
  {}

  // ---------- the sum check ----------

  /** Leaves pushed at one size. */
  function LevelSum(alloc: set<Node>, lo: nat, hi: nat, k: nat): nat {
    |InitList(alloc, lo, hi, k)| * Pow2(k)
  }

  function FreeSum(alloc: set<Node>, lo: nat, hi: nat, n: nat): nat {
    if n == 0 then 0 else FreeSum(alloc, lo, hi, n - 1) + LevelSum(alloc, lo, hi, n - 1)
  }

  /** Leaves of the whole blocks of size k. */
  function Whole(lo: nat, hi: nat, k: nat): int {
    var l, r := LeftIndex(lo, k), RightIndex(hi, k);
    if l < r then (r - l) * Pow2(k) else 0
  }

  /** Leaves counted twice at sizes below `n`. */
  function Twice(lo: nat, hi: nat, n: nat): nat {
    if n == 0 then 0 else Twice(lo, hi, n - 1) + (if LoneLeft(lo, hi, n - 1) then Pow2(n - 1) else 0)
  }

  lemma LevelStep(t: Tree, k: nat)
    requires Marked(t) && InSpan(t.top, t.lo, t.hi) && k < t.top
    ensures LevelSum(t.alloc, t.lo, t.hi, k) + Whole(t.lo, t.hi, k + 1)
            == Whole(t.lo, t.hi, k) + (if LoneLeft(t.lo, t.hi, k) then Pow2(k) else 0)
  {
    hide Marked, InSpan, LeftIndex, RightIndex, InitList, Pow2;
    InitListIs(t, k);
    HalvedIndices(t.lo, t.hi, k);
    var l, r, p := LeftIndex(t.lo, k), RightIndex(t.hi, k), Pow2(k);
    var n := |InitList(t.alloc, t.lo, t.hi, k)|;
    PowNext(k);
    if l < r {
      var w := r / 2 - (l + 1) / 2;
      LevelArithmetic(n, w, r - l, if LoneLeft(t.lo, t.hi, k) then 1 else 0, p);
    }
  }

  lemma LevelArithmetic(n: nat, w: nat, d: nat, e: nat, p: nat)
    requires n + 2 * w == d + e
    ensures n * p + w * (2 * p) == d * p + e * p
  {
    assert w * (2 * p) == (2 * w) * p;
    assert n * p + (2 * w) * p == (n + 2 * w) * p;
    assert (d + e) * p == d * p + e * p;
  }

  lemma {:induction false} SumUpTo(t: Tree, n: nat)
    requires Marked(t) && InSpan(t.top, t.lo, t.hi) && n <= t.top
    ensures FreeSum(t.alloc, t.lo, t.hi, n) + Whole(t.lo, t.hi, n) == t.hi - t.lo + Twice(t.lo, t.hi, n)
  {
    hide Marked, InSpan, LevelSum, LoneLeft, LeftIndex, RightIndex;
    if n == 0 {
      WholeAtZero(t.top, t.lo, t.hi);
    } else {
      SumUpTo(t, n - 1);
      LevelStep(t, n - 1);
    }
  }

  lemma WholeAtZero(top: nat, lo: nat, hi: nat)
    requires InSpan(top, lo, hi)
    ensures lo < hi && Whole(lo, hi, 0) == hi - lo
  {}

  lemma {:induction false} TwiceIsZero(lo: nat, hi: nat, n: nat)
    ensures Twice(lo, hi, n) == 0 <==> NoLoneLeft(n, lo, hi)
  {
    hide LoneLeft;
    if n > 0 {
      TwiceIsZero(lo, hi, n - 1);
    }
  }

  /** The blocks pushed add up to the whole range between metadata and end exactly when no size
      is left with a lone left half: then nothing is counted twice and nothing left out. */
  lemma SumCheck(t: Tree)
    requires Marked(t) && InSpan(t.top, t.lo, t.hi)
    ensures FreeSum(t.alloc, t.lo, t.hi, t.top) == t.hi - t.lo <==> NoLoneLeft(t.top, t.lo, t.hi)
  {
    hide Marked, NoLoneLeft, FreeSum, Twice, LoneLeft;
    SumUpTo(t, t.top);
    TwiceIsZero(t.lo, t.hi, t.top);
    WholeAtTop(t.top, t.lo, t.hi);
  }

  lemma WholeAtTop(top: nat, lo: nat, hi: nat)
    requires InSpan(top, lo, hi)
    ensures Whole(lo, hi, top) == 0
  {
    FloorIs(hi, Pow2(top), 2);
    CeilIs(lo, Pow2(top), 0);
  }

  /** Metadata that ends in the first quarter rules the bad case out. */
  lemma QuarterIsEnough(top: nat, lo: nat, hi: nat)
    requires InSpan(top, lo, hi) && 4 * lo <= Pow2(top)
    ensures NoLoneLeft(top, lo, hi)
  {
    hide LeftIndex, RightIndex, InSpan;
    forall k | 0 <= k < top
      ensures !LoneLeft(lo, hi, k)
    {
      BoundaryIndices(top, lo, hi, k);
      if k + 1 == top {
        OneIndex(top, lo, k);
      } else {
        PowAdd(top - 2 - k, k);
        assert Pow2(top) == 4 * (Pow2(top - 2 - k) * Pow2(k));
        QuarterIndex(lo, k, Pow2(top - 2 - k));
      }
    }
  }

  lemma OneIndex(top: nat, lo: nat, k: nat)
    requires 4 * lo <= Pow2(top) && k + 1 == top
    ensures LeftIndex(lo, k) <= 1
  {
    CeilIs(lo, Pow2(k), 1);
  }

  lemma QuarterIndex(lo: nat, k: nat, m: nat)
    requires lo <= m * Pow2(k)
    ensures LeftIndex(lo, k) <= m
  {
    CeilIs(lo, Pow2(k), m);
  }
}
