/** The free list of the user-level allocator: blocks in address order, the joins that `free`
    makes, and the pieces that `malloc` takes. Addresses and sizes count headers. */
module MallocList {
  /** The block of n headers at a. */
  datatype Block = Block(a: int, n: int)

  // ---------- free blocks ----------

  ghost predicate Before(x: Block, y: Block) {
    x.a + x.n < y.a
  }

  /** Ascending, and with a gap between any two: nothing is left to join. */
  ghost predicate Sorted(base: int, bs: seq<Block>) {
    && (forall i | 0 <= i < |bs| :: base < bs[i].a && bs[i].n >= 1)
    && (forall i, j | 0 <= i < j < |bs| :: Before(bs[i], bs[j]))
  }

  predicate InBlock(b: Block, u: int) {
    b.a <= u < b.a + b.n
  }

  ghost predicate Covers(bs: seq<Block>, u: int) {
    exists i :: 0 <= i < |bs| && InBlock(bs[i], u)
  }

  predicate Disjoint(x: Block, y: Block) {
    x.a + x.n <= y.a || y.a + y.n <= x.a
  }

  /** b lies between the first k blocks and the others. */
  ghost predicate Between(bs: seq<Block>, k: nat, b: Block) {
    && k <= |bs| && b.n >= 1
    && (forall i | 0 <= i < k :: bs[i].a + bs[i].n <= b.a)
    && (forall i | k <= i < |bs| :: b.a + b.n <= bs[i].a)
  }

  // ---------- giving a block back ----------

  predicate JoinsRight(bs: seq<Block>, k: nat, b: Block) {
    k < |bs| && b.a + b.n == bs[k].a
  }

  predicate JoinsLeft(bs: seq<Block>, k: nat, b: Block) {
    0 < k <= |bs| && bs[k - 1].a + bs[k - 1].n == b.a
  }

  /** Blocks `from` up to `to` are replaced by x. */
  function Splice(bs: seq<Block>, from: nat, to: nat, x: Block): seq<Block>
    requires from <= to <= |bs|
  {
    bs[..from] + [x] + bs[to..]
  }

  function MergeFrom(bs: seq<Block>, k: nat, b: Block): nat {
    if JoinsLeft(bs, k, b) then k - 1 else k
  }

  function MergeTo(bs: seq<Block>, k: nat, b: Block): nat {
    if JoinsRight(bs, k, b) then k + 1 else k
  }

  /** b together with the neighbours it touches. */
  function Joined(bs: seq<Block>, k: nat, b: Block): Block {
    var right := if JoinsRight(bs, k, b) then bs[k].n else 0;
    if JoinsLeft(bs, k, b) then Block(bs[k - 1].a, bs[k - 1].n + b.n + right) else Block(b.a, b.n + right)
  }

  /** The list after b has been put in at position k and joined with its neighbours. */
  function Merged(bs: seq<Block>, k: nat, b: Block): seq<Block>
    requires k <= |bs|
  {
    Splice(bs, MergeFrom(bs, k, b), MergeTo(bs, k, b), Joined(bs, k, b))
  }

  lemma SpliceSorted(base: int, bs: seq<Block>, from: nat, to: nat, x: Block)
    requires Sorted(base, bs) && from <= to <= |bs| && x.n >= 1 && base < x.a
    requires from > 0 ==> Before(bs[from - 1], x)
    requires to < |bs| ==> Before(x, bs[to])
    ensures Sorted(base, Splice(bs, from, to, x))
  {
    var m := Splice(bs, from, to, x);
    forall i, j | 0 <= i < j < |m|
      ensures Before(m[i], m[j])
    {
      if i < from {
        assert m[i] == bs[i] && (i < from - 1 ==> Before(bs[i], bs[from - 1]));
      }
      if j > from {
        var o := j - from - 1 + to;
        assert m[j] == bs[o] && (o > to ==> Before(bs[to], bs[o]));
        if i < from {
          assert Before(bs[i], bs[o]);
        } else if i > from {
          assert Before(bs[i - from - 1 + to], bs[o]);
        }
      }
    }
  }

  ghost predicate CoversIn(bs: seq<Block>, from: nat, to: nat, u: int) {
    exists i :: from <= i < to && i < |bs| && InBlock(bs[i], u)
  }

  lemma SpliceCovers(bs: seq<Block>, from: nat, to: nat, x: Block, u: int)
    requires from <= to <= |bs|
    ensures Covers(Splice(bs, from, to, x), u)
            <==> CoversIn(bs, 0, from, u) || InBlock(x, u) || CoversIn(bs, to, |bs|, u)
    ensures Covers(bs, u) <==> CoversIn(bs, 0, from, u) || CoversIn(bs, from, to, u) || CoversIn(bs, to, |bs|, u)
  {
    var m := Splice(bs, from, to, x);
    assert m[from] == x;
    if CoversIn(bs, 0, from, u) {
      var i :| 0 <= i < from && i < |bs| && InBlock(bs[i], u);
      assert InBlock(m[i], u);
    }
    if CoversIn(bs, to, |bs|, u) {
      var i :| to <= i < |bs| && InBlock(bs[i], u);
      assert m[i - to + from + 1] == bs[i];
    }
    if Covers(m, u) {
      var j :| 0 <= j < |m| && InBlock(m[j], u);
      if j < from {
        assert m[j] == bs[j];
      } else if j > from {
        assert m[j] == bs[j - from - 1 + to];
      }
    }
    if Covers(bs, u) {
      var i :| 0 <= i < |bs| && InBlock(bs[i], u);
      assert i < from || from <= i < to || to <= i;
    }
  }

  lemma MergedSorted(base: int, bs: seq<Block>, k: nat, b: Block)
    requires Sorted(base, bs) && Between(bs, k, b) && base < b.a
    ensures Sorted(base, Merged(bs, k, b))
  {
    var from, to, x := MergeFrom(bs, k, b), MergeTo(bs, k, b), Joined(bs, k, b);
    if 0 < k {
      assert bs[k - 1].a + bs[k - 1].n <= b.a;
      assert k > 1 ==> Before(bs[k - 2], bs[k - 1]);
    }
    if k < |bs| {
      assert b.a + b.n <= bs[k].a;
      assert k + 1 < |bs| ==> Before(bs[k], bs[k + 1]);
    }
    SpliceSorted(base, bs, from, to, x);
  }

  /** Exactly the units of b are added. */
  lemma MergedCovers(base: int, bs: seq<Block>, k: nat, b: Block, u: int)
    requires Sorted(base, bs) && Between(bs, k, b)
    ensures Covers(Merged(bs, k, b), u) <==> Covers(bs, u) || InBlock(b, u)
  {
    var from, to, x := MergeFrom(bs, k, b), MergeTo(bs, k, b), Joined(bs, k, b);
    SpliceCovers(bs, from, to, x, u);
    MiddleCovers(bs, k, b, u);
  }

  lemma MiddleCovers(bs: seq<Block>, k: nat, b: Block, u: int)
    requires k <= |bs| && b.n >= 1
    requires forall i | 0 <= i < |bs| :: bs[i].n >= 1
    ensures InBlock(Joined(bs, k, b), u) <==> CoversIn(bs, MergeFrom(bs, k, b), MergeTo(bs, k, b), u) || InBlock(b, u)
  {
    var from, to := MergeFrom(bs, k, b), MergeTo(bs, k, b);
    if InBlock(Joined(bs, k, b), u) && !InBlock(b, u) {
      var i := if u < b.a then k - 1 else k;
      assert from <= i < to && InBlock(bs[i], u);
    }
    if CoversIn(bs, from, to, u) {
      var i :| from <= i < to && i < |bs| && InBlock(bs[i], u);
      assert i == k - 1 || i == k;
    }
  }

  // ---------- taking a block ----------

  /** The tail of block j, n headers long, and what stays. */
  function TakenFrom(bs: seq<Block>, j: nat, n: int): Block
    requires j < |bs|
  {
    Block(bs[j].a + bs[j].n - n, n)
  }

  function Rest(bs: seq<Block>, j: nat, n: int): seq<Block>
    requires j < |bs|
  {
    if bs[j].n == n then bs[..j] + bs[j + 1..] else bs[j := Block(bs[j].a, bs[j].n - n)]
  }

  lemma RestSorted(base: int, bs: seq<Block>, j: nat, n: int)
    requires Sorted(base, bs) && j < |bs| && 1 <= n <= bs[j].n
    ensures Sorted(base, Rest(bs, j, n))
  {
    var r := Rest(bs, j, n);
    if bs[j].n == n {
      forall i | 0 <= i < |r|
        ensures r[i] == bs[if i < j then i else i + 1]
      {}
    }
  }

  /** The units of the block taken are exactly those that leave the list. */
  lemma RestCovers(base: int, bs: seq<Block>, j: nat, n: int, u: int)
    requires Sorted(base, bs) && j < |bs| && 1 <= n <= bs[j].n
    ensures Covers(bs, u) <==> Covers(Rest(bs, j, n), u) || InBlock(TakenFrom(bs, j, n), u)
    ensures !(Covers(Rest(bs, j, n), u) && InBlock(TakenFrom(bs, j, n), u))
  {
    var r, t := Rest(bs, j, n), TakenFrom(bs, j, n);
    if Covers(bs, u) {
      var i :| 0 <= i < |bs| && InBlock(bs[i], u);
      if i != j || u < t.a {
        var k := if bs[j].n == n && i > j then i - 1 else i;
        assert InBlock(r[k], u);
      }
    }
    if Covers(r, u) {
      var k :| 0 <= k < |r| && InBlock(r[k], u);
      var i := if bs[j].n == n && k >= j then k + 1 else k;
      assert InBlock(bs[i], u);
      if i < j {
        assert Before(bs[i], bs[j]);
      } else if i > j {
        assert Before(bs[j], bs[i]);
      }
    }
    if InBlock(t, u) {
      assert InBlock(bs[j], u);
    }
  }

  // ---------- the list is canonical ----------

  lemma CoversFrom(base: int, bs: seq<Block>, k: nat, u: int)
    requires Sorted(base, bs) && k < |bs| && Covers(bs[k..], u)
    ensures u >= bs[k].a
  {
    var i :| 0 <= i < |bs[k..]| && InBlock(bs[k..][i], u);
    if i > 0 {
      assert Before(bs[k], bs[k + i]);
    }
  }

  lemma SortedTail(base: int, bs: seq<Block>)
    requires Sorted(base, bs) && bs != []
    ensures Sorted(base, bs[1..])
    ensures forall u :: Covers(bs[1..], u) <==> Covers(bs, u) && !InBlock(bs[0], u)
  {
    var t := bs[1..];
    assert forall i | 0 <= i < |t| :: t[i] == bs[i + 1];
    forall u
      ensures Covers(t, u) <==> Covers(bs, u) && !InBlock(bs[0], u)
    {
      if Covers(t, u) {
        var i :| 0 <= i < |t| && InBlock(t[i], u);
        assert InBlock(bs[i + 1], u) && Before(bs[0], bs[i + 1]);
      }
      if Covers(bs, u) && !InBlock(bs[0], u) {
        var i :| 0 <= i < |bs| && InBlock(bs[i], u);
        assert InBlock(t[i - 1], u);
      }
    }
  }

  lemma EndIsGap(base: int, cs: seq<Block>)
    requires Sorted(base, cs) && cs != []
    ensures !Covers(cs, cs[0].a + cs[0].n)
  {
    forall i | 0 <= i < |cs|
      ensures !InBlock(cs[i], cs[0].a + cs[0].n)
    {
      assert i > 0 ==> Before(cs[0], cs[i]);
    }
  }

  lemma FirstCovered(base: int, bs: seq<Block>)
    requires Sorted(base, bs) && bs != []
    ensures Covers(bs, bs[0].a) && forall u | InBlock(bs[0], u) :: Covers(bs, u)
  {
    assert InBlock(bs[0], bs[0].a);
  }

  /** The first block of a list is the first run of the units it covers. */
  lemma FirstRun(base: int, bs: seq<Block>, cs: seq<Block>)
    requires Sorted(base, bs) && Sorted(base, cs) && bs != [] && cs != []
    requires forall u :: Covers(bs, u) <==> Covers(cs, u)
    ensures bs[0].a == cs[0].a && bs[0].a + bs[0].n <= cs[0].a + cs[0].n
  {
    FirstCovered(base, bs);
    FirstCovered(base, cs);
    assert bs[0..] == bs && cs[0..] == cs;
    CoversFrom(base, cs, 0, bs[0].a);
    CoversFrom(base, bs, 0, cs[0].a);
    EndIsGap(base, cs);
    assert !InBlock(bs[0], cs[0].a + cs[0].n);
  }

  lemma EmptyTogether(base: int, bs: seq<Block>, cs: seq<Block>)
    requires Sorted(base, bs) && Sorted(base, cs)
    requires forall u :: Covers(bs, u) <==> Covers(cs, u)
    ensures bs == [] <==> cs == []
  {
    if bs != [] {
      FirstCovered(base, bs);
    }
    if cs != [] {
      FirstCovered(base, cs);
    }
  }

  /** Two sorted lists that cover the same units are the same list: `free` leaves no choice. */
  lemma {:induction false} Canonical(base: int, bs: seq<Block>, cs: seq<Block>)
    requires Sorted(base, bs) && Sorted(base, cs)
    requires forall u :: Covers(bs, u) <==> Covers(cs, u)
    ensures bs == cs
    decreases |bs|
  {
    hide Sorted, Covers;
    EmptyTogether(base, bs, cs);
    if bs != [] {
      FirstRun(base, bs, cs);
      FirstRun(base, cs, bs);
      SortedTail(base, bs);
      SortedTail(base, cs);
      Canonical(base, bs[1..], cs[1..]);
      assert bs == [bs[0]] + bs[1..] && cs == [cs[0]] + cs[1..];
    }
  }

  /** Giving back the block just taken restores the list, block for block. */
  lemma FreeUndoesTake(base: int, bs: seq<Block>, j: nat, n: int, k: nat)
    requires Sorted(base, bs) && j < |bs| && 1 <= n <= bs[j].n
    requires Between(Rest(bs, j, n), k, TakenFrom(bs, j, n))
    ensures Merged(Rest(bs, j, n), k, TakenFrom(bs, j, n)) == bs
  {
    var r, t := Rest(bs, j, n), TakenFrom(bs, j, n);
    RestSorted(base, bs, j, n);
    MergedSorted(base, r, k, t);
    hide Merged, Covers;
    forall u
      ensures Covers(Merged(r, k, t), u) <==> Covers(bs, u)
    {
      MergedCovers(base, r, k, t, u);
      RestCovers(base, bs, j, n, u);
    }
    Canonical(base, Merged(r, k, t), bs);
  }

  /** Two blocks given back in either order leave the same list. */
  lemma FreesCommute(base: int, bs: seq<Block>, x: Block, i: nat, y: Block, j: nat, i': nat, j': nat)
    requires Sorted(base, bs) && base < x.a && base < y.a
    requires Between(bs, i, x) && Between(Merged(bs, i, x), j, y)
    requires Between(bs, j', y) && Between(Merged(bs, j', y), i', x)
    ensures Merged(Merged(bs, i, x), j, y) == Merged(Merged(bs, j', y), i', x)
  {
    MergedSorted(base, bs, i, x);
    MergedSorted(base, bs, j', y);
    var m, m' := Merged(bs, i, x), Merged(bs, j', y);
    MergedSorted(base, m, j, y);
    MergedSorted(base, m', i', x);
    hide Merged, Covers, Sorted;
    forall u
      ensures Covers(Merged(m, j, y), u) <==> Covers(Merged(m', i', x), u)
    {
      MergedCovers(base, bs, i, x, u);
      MergedCovers(base, bs, j', y, u);
      MergedCovers(base, m, j, y, u);
      MergedCovers(base, m', i', x, u);
    }
    Canonical(base, Merged(m, j, y), Merged(m', i', x));
  }
}
