/** The free list in memory: a circle of headers through `base`, and what writing one or two of
    them does to it. */
module MallocLinks {
  import opened MallocList

  datatype Header = Header(ptr: int, size: int)

  type Memory = map<int, Header>

  // ---------- positions on the circle: 0 is `base`, j is block j - 1 ----------

  function Addr(base: int, bs: seq<Block>, j: nat): int
    requires j <= |bs|
  {
    if j == 0 then base else bs[j - 1].a
  }

  function Next(base: int, bs: seq<Block>, j: nat): int
    requires j <= |bs|
  {
    if j < |bs| then bs[j].a else base
  }

  function Size(bs: seq<Block>, j: nat): int
    requires j <= |bs|
  {
    if j == 0 then 0 else bs[j - 1].n
  }

  predicate LinkAt(mem: Memory, base: int, bs: seq<Block>, j: nat)
    requires j <= |bs|
  {
    Addr(base, bs, j) in mem && mem[Addr(base, bs, j)] == Header(Next(base, bs, j), Size(bs, j))
  }

  ghost predicate Linked(mem: Memory, base: int, bs: seq<Block>) {
    forall j | 0 <= j <= |bs| :: LinkAt(mem, base, bs, j)
  }

  lemma AddrsAscend(base: int, bs: seq<Block>, i: nat, j: nat)
    requires Sorted(base, bs) && i < j <= |bs|
    ensures Addr(base, bs, i) < Addr(base, bs, j)
  {
    if i > 0 {
      assert Before(bs[i - 1], bs[j - 1]);
    }
  }

  /** Where a block that touches no free one belongs. */
  lemma FindPosition(base: int, bs: seq<Block>, b: Block) returns (k: nat)
    requires Sorted(base, bs) && b.n >= 1
    requires forall i | 0 <= i < |bs| :: Disjoint(b, bs[i])
    ensures Between(bs, k, b)
  {
    k := 0;
    while k < |bs| && bs[k].a < b.a
      invariant k <= |bs|
      invariant forall i | 0 <= i < k :: bs[i].a + bs[i].n <= b.a
    {
      k := k + 1;
    }
    forall i | k <= i < |bs|
      ensures b.a + b.n <= bs[i].a
    {
      if i > k {
        assert Before(bs[k], bs[i]);
      }
    }
  }

  /** The test of the search loop in `free`. */
  predicate Stops(bp: int, p: int, next: int) {
    (bp > p && bp < next) || (p >= next && (bp > p || bp < next))
  }

  /** The search stops exactly in front of the place where the block belongs. */
  lemma StopsThere(base: int, bs: seq<Block>, k: nat, b: Block, j: nat)
    requires Sorted(base, bs) && Between(bs, k, b) && base < b.a && j <= |bs|
    ensures Stops(b.a, Addr(base, bs, j), Next(base, bs, j)) <==> j == k
  {
    if j < |bs| {
      AddrsAscend(base, bs, j, j + 1);
    }
  }

  // ---------- `free` ----------

  /** The headers after `free` has rewritten those of b and of its predecessor. */
  ghost predicate Rewritten(mem: Memory, mem': Memory, base: int, bs: seq<Block>, k: nat, b: Block)
    requires k <= |bs|
  {
    var p := Addr(base, bs, k);
    var ptr := if JoinsRight(bs, k, b) then Next(base, bs, k + 1) else Next(base, bs, k);
    var size := if JoinsRight(bs, k, b) then b.n + bs[k].n else b.n;
    && p in mem' && b.a in mem'
    && (if JoinsLeft(bs, k, b) then mem'[p] == Header(ptr, Size(bs, k) + size)
        else mem'[p] == Header(b.a, Size(bs, k)) && mem'[b.a] == Header(ptr, size))
    && (forall x | x in mem && x != p && x != b.a :: x in mem' && mem'[x] == mem[x])
  }

  lemma MergedBelow(base: int, bs: seq<Block>, k: nat, b: Block, j: nat)
    requires Sorted(base, bs) && Between(bs, k, b) && base < b.a && j < k
    ensures var m := Merged(bs, k, b);
            && j < |m| && Addr(base, m, j) == Addr(base, bs, j) && Next(base, m, j) == Next(base, bs, j)
            && Size(m, j) == Size(bs, j) && Addr(base, bs, j) < Addr(base, bs, k) < b.a
  {
    AddrsAscend(base, bs, j, k);
  }

  /** A position behind the join is one of the old ones. */
  lemma MergedAbove(base: int, bs: seq<Block>, k: nat, b: Block, j: nat)
    requires Sorted(base, bs) && Between(bs, k, b) && base < b.a
    requires MergeFrom(bs, k, b) + 1 < j <= |Merged(bs, k, b)|
    ensures var m := Merged(bs, k, b);
            var o := j - MergeFrom(bs, k, b) - 1 + MergeTo(bs, k, b);
            && k < o <= |bs| && Addr(base, m, j) == Addr(base, bs, o) && Next(base, m, j) == Next(base, bs, o)
            && Size(m, j) == Size(bs, o) && b.a < Addr(base, bs, o) && Addr(base, bs, k) < Addr(base, bs, o)
  {
    var o := j - MergeFrom(bs, k, b) - 1 + MergeTo(bs, k, b);
    AddrsAscend(base, bs, k, o);
  }

  lemma MergedJoin(base: int, bs: seq<Block>, k: nat, b: Block)
    requires Sorted(base, bs) && Between(bs, k, b) && base < b.a
    ensures var m := Merged(bs, k, b);
            var ptr := if JoinsRight(bs, k, b) then Next(base, bs, k + 1) else Next(base, bs, k);
            var from := MergeFrom(bs, k, b);
            && from < |m| && m[from] == Joined(bs, k, b) && Next(base, m, from + 1) == ptr
            && Addr(base, m, k) == Addr(base, bs, k)
            && (!JoinsLeft(bs, k, b) ==> Next(base, m, k) == b.a && Size(m, k) == Size(bs, k))
  {}

  lemma LinkedMerged(mem: Memory, mem': Memory, base: int, bs: seq<Block>, k: nat, b: Block)
    requires Sorted(base, bs) && Between(bs, k, b) && base < b.a && Linked(mem, base, bs)
    requires Rewritten(mem, mem', base, bs, k, b)
    ensures Linked(mem', base, Merged(bs, k, b))
  {
    var m := Merged(bs, k, b);
    hide Sorted, Between, Merged;
    MergedJoin(base, bs, k, b);
    forall j | 0 <= j <= |m|
      ensures LinkAt(mem', base, m, j)
    {
      if j < k {
        MergedBelow(base, bs, k, b, j);
        assert LinkAt(mem, base, bs, j);
      } else if j > MergeFrom(bs, k, b) + 1 {
        MergedAbove(base, bs, k, b, j);
        assert LinkAt(mem, base, bs, j - MergeFrom(bs, k, b) - 1 + MergeTo(bs, k, b));
      }
    }
  }

  // ---------- `malloc` ----------

  lemma LinkedUnlinked(mem: Memory, base: int, bs: seq<Block>, j: nat)
    requires Sorted(base, bs) && Linked(mem, base, bs) && j < |bs|
    ensures Addr(base, bs, j) in mem
    ensures var p := Addr(base, bs, j);
            Linked(mem[p := mem[p].(ptr := Next(base, bs, j + 1))], base, bs[..j] + bs[j + 1..])
  {
    var p, r := Addr(base, bs, j), bs[..j] + bs[j + 1..];
    assert LinkAt(mem, base, bs, j);
    var mem' := mem[p := mem[p].(ptr := Next(base, bs, j + 1))];
    forall i | 0 <= i <= |r|
      ensures LinkAt(mem', base, r, i)
    {
      var o := if i <= j then i else i + 1;
      assert LinkAt(mem, base, bs, o);
      if o < j {
        AddrsAscend(base, bs, o, j);
      } else if o > j {
        AddrsAscend(base, bs, j, o);
      }
    }
  }

  lemma LinkedShortened(mem: Memory, base: int, bs: seq<Block>, j: nat, n: int, h: Header)
    requires Sorted(base, bs) && Linked(mem, base, bs) && j < |bs| && 1 <= n < bs[j].n
    ensures var p := bs[j].a;
            p in mem && Linked(mem[p := mem[p].(size := bs[j].n - n)][p + bs[j].n - n := h], base, Rest(bs, j, n))
  {
    var p, r := bs[j].a, Rest(bs, j, n);
    assert LinkAt(mem, base, bs, j + 1);
    var mem' := mem[p := mem[p].(size := bs[j].n - n)][p + bs[j].n - n := h];
    forall i | 0 <= i <= |r|
      ensures LinkAt(mem', base, r, i)
    {
      assert LinkAt(mem, base, bs, i);
      if i < j + 1 {
        AddrsAscend(base, bs, i, j + 1);
      } else if i > j + 1 {
        assert Before(bs[j], bs[i - 1]);
      }
    }
  }

  // ---------- the search of `malloc` ----------

  /** The position d + 1 steps behind position `at`. */
  function Pos(at: nat, d: nat, count: nat): (j: nat)
    requires at < count && d < count
    ensures j < count
  {
    if at + 1 + d < count then at + 1 + d else at + 1 + d - count
  }

  /** The first d positions behind `at` hold less than n. */
  ghost predicate AllSmall(bs: seq<Block>, at: nat, d: nat, n: int) {
    && at <= |bs| && d <= |bs| + 1
    && forall t | 0 <= t < d :: SmallAt(bs, at, t, n)
  }

  predicate SmallAt(bs: seq<Block>, at: nat, t: nat, n: int) {
    at <= |bs| && t <= |bs| && Size(bs, Pos(at, t, |bs| + 1)) < n
  }

  ghost predicate HasFit(bs: seq<Block>, n: int) {
    exists i :: 0 <= i < |bs| && bs[i].n >= n
  }

  lemma RoundTrip(bs: seq<Block>, at: nat, n: int)
    requires AllSmall(bs, at, |bs| + 1, n)
    ensures !HasFit(bs, n)
  {
    forall i | 0 <= i < |bs|
      ensures bs[i].n < n
    {
      var j := i + 1;
      var t := if j > at then j - at - 1 else j + |bs| - at;
      assert SmallAt(bs, at, t, n) && Pos(at, t, |bs| + 1) == j;
    }
  }

  lemma NextPos(base: int, bs: seq<Block>, at: nat, d: nat)
    requires at <= |bs| && d <= |bs|
    ensures Next(base, bs, Pos(at, d, |bs| + 1)) == Addr(base, bs, Pos(at, if d == |bs| then 0 else d + 1, |bs| + 1))
    ensures Next(base, bs, at) == Addr(base, bs, Pos(at, 0, |bs| + 1))
    ensures Pos(at, |bs|, |bs| + 1) == at
  {}

  lemma AddrsDiffer(base: int, bs: seq<Block>, i: nat, j: nat)
    requires Sorted(base, bs) && i <= |bs| && j <= |bs|
    ensures Addr(base, bs, i) == Addr(base, bs, j) <==> i == j
  {
    if i < j {
      AddrsAscend(base, bs, i, j);
    } else if j < i {
      AddrsAscend(base, bs, j, i);
    }
  }

  /** A block put on the list stays inside one block of it. */
  lemma MergedFits(bs: seq<Block>, k: nat, b: Block)
    requires k <= |bs| && (forall i | 0 <= i < |bs| :: bs[i].n >= 1)
    ensures HasFit(Merged(bs, k, b), b.n)
  {
    assert Merged(bs, k, b)[MergeFrom(bs, k, b)] == Joined(bs, k, b);
  }
}
