/** The user-level allocator: `malloc`, `free` and `morecore` over a break that the kernel moves. */
module Malloc {
  import opened MallocList
  import opened MallocLinks

  /** sizeof(Header) on a 64-bit machine. */
  const HEADER := 16
  /** `morecore` asks for at least this many headers. */
  const MINCORE := 4096
  /** `malloc` takes a 32-bit unsigned number of bytes, `sbrk` a 32-bit signed one. */
  const UINT := 0x1_0000_0000
  const INT_MAX := 0x7FFF_FFFF
  /** From this many headers on their bytes do not fit an `int`. */
  const TOO_MANY := 0x800_0000

  /** Headers for nbytes: room for the bytes, and one for the header itself. */
  function Nunits(nbytes: nat): nat {
    (nbytes + HEADER - 1) / HEADER + 1
  }

  /** Headers `morecore` asks for. */
  function Asked(n: nat): nat {
    if n < MINCORE then MINCORE else n
  }

  /** What is left of a 64-bit number passed as an `int`. */
  function IntOf(x: nat): int {
    var w := x % UINT;
    if w <= INT_MAX then w else w - UINT
  }

  /** Headers by which `sbrk` is told to move the break when nu are asked for. */
  function Passed(nu: nat): int {
    IntOf(nu * HEADER) / HEADER
  }

  /** The break after moving it by d: it does not go below zero. */
  function Moved(brk: int, d: int): int {
    if brk + d < 0 then brk else brk + d
  }

  /** The kernel cannot move the break by what it is told for n headers. */
  predicate Refused(brk: int, limit: int, n: nat) {
    Passed(Asked(n)) > 0 && brk + Passed(Asked(n)) > limit
  }

  /** The kernel is told the number asked for exactly when its bytes fit an `int`, otherwise a
      smaller one. */
  lemma PassedIs(nu: nat)
    ensures IntOf(nu * HEADER) % HEADER == 0 && Passed(nu) <= nu
    ensures Passed(nu) == nu <==> nu < TOO_MANY
  {
    var q, w := nu * HEADER / UINT, nu * HEADER % UINT;
    assert nu * HEADER == q * UINT + w;
  }

  /** In bytes: two gigabytes less two headers can be asked for. */
  lemma LargestRequest(nbytes: nat)
    ensures nbytes <= (Nunits(nbytes) - 1) * HEADER < nbytes + HEADER
    ensures Asked(Nunits(nbytes)) < TOO_MANY <==> nbytes <= INT_MAX - 31
  {}

  /** A request of 4294967288 bytes: more than 2^28 headers are asked for, one is given. */
  lemma HugeRequest()
    ensures Nunits(4294967288) == 0x1000_0001 && Passed(Asked(0x1000_0001)) == 1
  {}

  ghost predicate LiveCovers(live: map<int, int>, u: int) {
    exists a :: a in live && InBlock(Block(a, live[a]), u)
  }

  predicate ApartFrom(live: map<int, int>, b: Block) {
    forall a | a in live :: Disjoint(Block(a, live[a]), b)
  }

  /** Live blocks have their header intact and touch neither each other nor a free block. */
  ghost predicate LiveOk(mem: Memory, base: int, bs: seq<Block>, live: map<int, int>) {
    && (forall a | a in live :: a in mem && mem[a].size == live[a] && live[a] >= 1 && base < a)
    && (forall i | 0 <= i < |bs| :: ApartFrom(live, bs[i]))
    && (forall a, b | a in live && b in live && a != b :: Disjoint(Block(a, live[a]), Block(b, live[b])))
  }

  /** Conservation: the units got from the kernel are the free ones and the live ones. */
  ghost predicate Conserved(bs: seq<Block>, live: map<int, int>, owned: set<int>) {
    forall u :: u in owned <==> Covers(bs, u) || LiveCovers(live, u)
  }

  ghost predicate HeapOk(mem: Memory, base: int, bs: seq<Block>, live: map<int, int>, owned: set<int>) {
    Sorted(base, bs) && Linked(mem, base, bs) && LiveOk(mem, base, bs, live) && Conserved(bs, live, owned)
  }

  // ---------- lemmas about giving back and taking ----------

  lemma FreedLive(mem: Memory, mem': Memory, base: int, bs: seq<Block>, live: map<int, int>, k: nat, b: Block)
    requires Sorted(base, bs) && Between(bs, k, b) && base < b.a && LiveOk(mem, base, bs, live)
    requires b.a in live && b.n == live[b.a] && Rewritten(mem, mem', base, bs, k, b)
    ensures LiveOk(mem', base, Merged(bs, k, b), live - {b.a})
  {
    var m, live' := Merged(bs, k, b), live - {b.a};
    var from, to := MergeFrom(bs, k, b), MergeTo(bs, k, b);
    forall a | a in live'
      ensures a in mem' && mem'[a].size == live'[a] && live'[a] >= 1 && base < a
    {
      if k > 0 {
        assert ApartFrom(live, bs[k - 1]) && Disjoint(Block(a, live[a]), bs[k - 1]);
      }
    }
    forall i | 0 <= i < |m|
      ensures ApartFrom(live', m[i])
    {
      if i < from {
        assert ApartFrom(live, bs[i]);
      } else if i > from {
        assert ApartFrom(live, bs[i - from - 1 + to]);
      } else {
        JoinedApart(bs, live, k, b);
      }
    }
  }

  lemma JoinedApart(bs: seq<Block>, live: map<int, int>, k: nat, b: Block)
    requires k <= |bs| && b.a in live && b.n == live[b.a] && b.n >= 1
    requires forall i | 0 <= i < |bs| :: bs[i].n >= 1 && ApartFrom(live, bs[i])
    requires forall a, c | a in live && c in live && a != c :: Disjoint(Block(a, live[a]), Block(c, live[c]))
    requires forall a | a in live :: live[a] >= 1
    ensures ApartFrom(live - {b.a}, Joined(bs, k, b))
  {
    var live' := live - {b.a};
    forall a | a in live'
      ensures Disjoint(Block(a, live'[a]), Joined(bs, k, b))
    {
      var x := Block(a, live[a]);
      assert Disjoint(x, Block(b.a, live[b.a]));
      if JoinsRight(bs, k, b) {
        assert ApartFrom(live, bs[k]) && Disjoint(x, bs[k]);
      }
      if JoinsLeft(bs, k, b) {
        assert ApartFrom(live, bs[k - 1]) && Disjoint(x, bs[k - 1]);
      }
    }
  }

  lemma LiveSplit(live: map<int, int>, a: int, u: int)
    requires a in live
    ensures LiveCovers(live, u) <==> LiveCovers(live - {a}, u) || InBlock(Block(a, live[a]), u)
  {
    var rest := live - {a};
    if LiveCovers(live, u) && !InBlock(Block(a, live[a]), u) {
      var x :| x in live && InBlock(Block(x, live[x]), u);
      assert x in rest && InBlock(Block(x, rest[x]), u);
    }
    if LiveCovers(rest, u) {
      var x :| x in rest && InBlock(Block(x, rest[x]), u);
      assert x in live && InBlock(Block(x, live[x]), u);
    }
  }

  lemma FreedConserves(base: int, bs: seq<Block>, live: map<int, int>, owned: set<int>, k: nat, b: Block)
    requires Sorted(base, bs) && Between(bs, k, b) && b.a in live && b.n == live[b.a]
    requires Conserved(bs, live, owned)
    ensures Conserved(Merged(bs, k, b), live - {b.a}, owned)
  {
    hide Merged, Covers, LiveCovers, Sorted;
    forall u
      ensures u in owned <==> Covers(Merged(bs, k, b), u) || LiveCovers(live - {b.a}, u)
    {
      MergedCovers(base, bs, k, b, u);
      LiveSplit(live, b.a, u);
    }
  }

  /** `free` leaves a good heap. */
  lemma FreedOk(mem: Memory, mem': Memory, base: int, bs: seq<Block>, live: map<int, int>, owned: set<int>, k: nat,
                b: Block)
    requires HeapOk(mem, base, bs, live, owned) && Between(bs, k, b) && base < b.a
    requires b.a in live && b.n == live[b.a] && Rewritten(mem, mem', base, bs, k, b)
    ensures HeapOk(mem', base, Merged(bs, k, b), live - {b.a}, owned)
  {
    hide Sorted, Between, Linked, LiveOk, Conserved, Merged, Rewritten;
    MergedSorted(base, bs, k, b);
    LinkedMerged(mem, mem', base, bs, k, b);
    FreedLive(mem, mem', base, bs, live, k, b);
    FreedConserves(base, bs, live, owned, k, b);
  }

  lemma TakenApart(base: int, bs: seq<Block>, j: nat, n: int, i: nat)
    requires Sorted(base, bs) && j < |bs| && 1 <= n <= bs[j].n && i < |Rest(bs, j, n)|
    ensures Disjoint(TakenFrom(bs, j, n), Rest(bs, j, n)[i])
    ensures exists o :: 0 <= o < |bs| && bs[o].a == Rest(bs, j, n)[i].a && Rest(bs, j, n)[i].n <= bs[o].n
  {
    var o := if bs[j].n == n && i >= j then i + 1 else i;
    assert bs[o].a == Rest(bs, j, n)[i].a;
    if o < j {
      assert Before(bs[o], bs[j]);
    } else if o > j {
      assert Before(bs[j], bs[o]);
    }
  }

  lemma TakenLive(mem: Memory, mem': Memory, base: int, bs: seq<Block>, live: map<int, int>, j: nat, n: int)
    requires Sorted(base, bs) && LiveOk(mem, base, bs, live) && j < |bs| && 1 <= n <= bs[j].n
    requires var t := TakenFrom(bs, j, n); t.a in mem' && mem'[t.a].size == n
    requires forall a | a in live :: a in mem' && mem'[a].size == mem[a].size
    ensures var t := TakenFrom(bs, j, n);
            t.a !in live && LiveOk(mem', base, Rest(bs, j, n), live[t.a := n])
  {
    var t, r := TakenFrom(bs, j, n), Rest(bs, j, n);
    var live' := live[t.a := n];
    assert ApartFrom(live, bs[j]);
    forall a | a in live
      ensures Disjoint(Block(a, live[a]), t) && a != t.a
    {
      assert Disjoint(Block(a, live[a]), bs[j]);
    }
    forall i | 0 <= i < |r|
      ensures ApartFrom(live', r[i])
    {
      TakenApart(base, bs, j, n, i);
      var o :| 0 <= o < |bs| && bs[o].a == r[i].a && r[i].n <= bs[o].n;
      assert ApartFrom(live, bs[o]);
      forall a | a in live'
        ensures Disjoint(Block(a, live'[a]), r[i])
      {
        if a != t.a {
          assert Disjoint(Block(a, live[a]), bs[o]);
        }
      }
    }
  }

  lemma TakenConserves(base: int, bs: seq<Block>, live: map<int, int>, owned: set<int>, j: nat, n: int)
    requires Sorted(base, bs) && Conserved(bs, live, owned) && j < |bs| && 1 <= n <= bs[j].n
    requires TakenFrom(bs, j, n).a !in live
    ensures Conserved(Rest(bs, j, n), live[TakenFrom(bs, j, n).a := n], owned)
  {
    var t := TakenFrom(bs, j, n);
    var live' := live[t.a := n];
    hide Rest, TakenFrom, Covers, LiveCovers, Sorted;
    assert live' - {t.a} == live;
    forall u
      ensures u in owned <==> Covers(Rest(bs, j, n), u) || LiveCovers(live', u)
    {
      RestCovers(base, bs, j, n, u);
      LiveSplit(live', t.a, u);
    }
  }

  /** What `malloc` does to the heap when it takes n headers from block j. */
  lemma TakenOk(mem: Memory, mem': Memory, base: int, bs: seq<Block>, live: map<int, int>, owned: set<int>, j: nat,
                n: int)
    requires HeapOk(mem, base, bs, live, owned) && j < |bs| && 1 <= n <= bs[j].n
    requires Linked(mem', base, Rest(bs, j, n))
    requires var t := TakenFrom(bs, j, n); t.a in mem' && mem'[t.a].size == n
    requires forall a | a in live :: a in mem' && mem'[a].size == mem[a].size
    ensures var t := TakenFrom(bs, j, n);
            t.a !in live && HeapOk(mem', base, Rest(bs, j, n), live[t.a := n], owned)
  {
    hide Sorted, Linked, LiveOk, Conserved, Rest, TakenFrom;
    RestSorted(base, bs, j, n);
    TakenLive(mem, mem', base, bs, live, j, n);
    TakenConserves(base, bs, live, owned, j, n);
  }

  function Units(a: int, n: nat): set<int> {
    set u | a <= u < a + n && InBlock(Block(a, n), u)
  }

  /** A fresh region behind everything owned counts as one more live block. */
  lemma GrownOk(mem: Memory, base: int, bs: seq<Block>, live: map<int, int>, owned: set<int>, a: int, n: nat, h: Header)
    requires HeapOk(mem, base, bs, live, owned) && n >= 1 && base < a && h.size == n
    requires forall u | u in owned :: u < a
    ensures HeapOk(mem[a := h], base, bs, live[a := n], owned + Units(a, n)) && a !in live
  {
    var mem', live' := mem[a := h], live[a := n];
    forall i | 0 <= i < |bs|
      ensures bs[i].a + bs[i].n <= a
    {
      assert InBlock(bs[i], bs[i].a + bs[i].n - 1) && Covers(bs, bs[i].a + bs[i].n - 1);
    }
    forall x | x in live
      ensures x + live[x] <= a
    {
      assert InBlock(Block(x, live[x]), x + live[x] - 1) && LiveCovers(live, x + live[x] - 1);
    }
    forall j | 0 <= j <= |bs|
      ensures LinkAt(mem', base, bs, j)
    {
      assert LinkAt(mem, base, bs, j);
    }
    forall i | 0 <= i < |bs|
      ensures ApartFrom(live', bs[i])
    {
      assert ApartFrom(live, bs[i]);
    }
    assert live' - {a} == live;
    forall u
      ensures u in owned + Units(a, n) <==> Covers(bs, u) || LiveCovers(live', u)
    {
      LiveSplit(live', a, u);
    }
  }

  class Heap {
    /** The list's own header, below the break; its address is not null. */
    const base: int
    /** The break may grow up to here. */
    const limit: int
    var brk: int
    /** 0 until the first `malloc`. */
    var freep: int
    var mem: Memory
    /** The free blocks, freep's position on the circle, the live blocks, all units they claim. */
    ghost var bs: seq<Block>
    ghost var at: nat
    ghost var live: map<int, int>
    ghost var owned: set<int>

    /** The headers make up a heap, which may claim more than the kernel gave. */
    ghost predicate Listed()
      reads this
    {
      0 < base && if freep == 0 then bs == [] && live == map[] && owned == {} else Ready()
    }

    /** All that the headers claim lies below the break. */
    ghost predicate Valid()
      reads this
    {
      Listed() && base < brk <= limit && forall u | u in owned :: u < brk
    }

    ghost predicate Ready()
      reads this
    {
      HeapOk(mem, base, bs, live, owned) && at <= |bs| && freep == Addr(base, bs, at)
    }

    constructor (base: int, brk: int, limit: int)
      requires 0 < base < brk <= limit
      ensures Valid() && live == map[] && owned == {} && this.base == base && this.brk == brk && this.limit == limit
    {
      this.base, this.brk, this.limit := base, brk, limit;
      freep, mem := 0, map[];
      bs, at, live, owned := [], 0, map[], {};
    }

    /** The kernel moves the break, or refuses. */
    method Sbrk(bytes: int) returns (a: int)
      requires 0 < brk <= limit && bytes % HEADER == 0
      modifies this`brk
      ensures a == -1 <==> bytes > 0 && old(brk) + bytes / HEADER > limit
      ensures a == -1 ==> brk == old(brk)
      ensures a != -1 ==> a == old(brk) && brk == Moved(old(brk), bytes / HEADER)
    {
      a := brk;
      if bytes > 0 {
        if brk + bytes / HEADER > limit {
          return -1;
        }
        brk := brk + bytes / HEADER;
      } else if bytes < 0 && brk + bytes / HEADER >= 0 {
        brk := brk + bytes / HEADER;
      }
    }

    /** Puts the live block back, joined with the free blocks it touches. */
    method Free(ap: int)
      requires Listed() && ap - 1 in live
      modifies this`mem, this`freep, this`bs, this`at, this`live
      ensures Listed() && (Valid() <==> old(Valid())) && freep != 0 && live == old(live) - {ap - 1}
      ensures Between(old(bs), at, Block(ap - 1, old(live)[ap - 1]))
              && bs == Merged(old(bs), at, Block(ap - 1, old(live)[ap - 1]))
    {
      hide Sorted, Linked, LiveOk, Conserved, Merged, Between, Stops, Rewritten;
      var bp := ap - 1;
      ghost var b := Block(bp, live[bp]);
      ghost var k := Place(mem, base, bs, live, owned, b);
      var p := freep;
      ghost var j: nat := at;
      while true
        invariant j <= |bs| && p == Addr(base, bs, j) && unchanged(this)
        decreases if j <= k then k - j else |bs| + 1 - j + k
      {
        LinkIs(mem, base, bs, j);
        StopsThere(base, bs, k, b, j);
        StopsMeans(bp, p, mem[p].ptr);
        if bp > p && bp < mem[p].ptr {
          break;
        }
        if p >= mem[p].ptr && (bp > p || bp < mem[p].ptr) {
          break;
        }
        p := mem[p].ptr;
        j := if j < |bs| then j + 1 else 0;
      }
      HeadersRewritten(mem, base, bs, k, b);
      if bp + mem[bp].size == mem[p].ptr {
        var next := mem[mem[p].ptr];
        mem := mem[bp := Header(next.ptr, mem[bp].size + next.size)];
      } else {
        mem := mem[bp := mem[bp].(ptr := mem[p].ptr)];
      }
      if p + mem[p].size == bp {
        mem := mem[p := Header(mem[bp].ptr, mem[p].size + mem[bp].size)];
      } else {
        mem := mem[p := mem[p].(ptr := bp)];
      }
      FreedOk(old(mem), mem, base, bs, live, owned, k, b);
      MergedPosition(base, bs, k, b);
      bs, live, at := Merged(bs, k, b), live - {bp}, k;
      freep := p;
    }

    /** From this break and these units on, the break has moved by what was passed and the headers
        claim what was asked for: all below the break only if the two are the same. */
    ghost predicate GrewFrom(n: nat, brk0: int, owned0: set<int>)
      reads this
    {
      var nu := Asked(n);
      && brk == Moved(brk0, Passed(nu)) && owned == owned0 + Units(brk0, nu)
      && (Valid() <==> nu < TOO_MANY)
    }

    /** Asks the kernel for at least nu0 headers and puts them on the list. The header says how many
        were asked for; the heap stays below the break exactly when that many were passed on. */
    method MoreCore(nu0: nat) returns (p: int)
      requires Valid() && freep != 0 && nu0 >= 1
      modifies this
      ensures var nu := Asked(nu0);
              && (p == 0 <==> Refused(old(brk), limit, nu0))
              && (p == 0 ==> unchanged(this))
              && (p != 0 ==> p == freep && Listed() && live == old(live) && HasFit(bs, nu0))
              && (p != 0 ==> GrewFrom(nu0, old(brk), old(owned)))
              && (p != 0 && !HasFit(old(bs), nu0) ==> EndAt(bs, nu0, old(brk) + nu))
              && (p != 0 ==> bs == GrownList(old(bs), old(brk), nu) && at == |old(bs)|)
    {
      hide HeapOk, Merged, Units, Passed, IntOf, HasFit, EndAt, Between;
      var nu := if nu0 < MINCORE then MINCORE else nu0;
      PassedIs(nu);
      PassedDef(nu);
      var hp := Sbrk(IntOf(nu * HEADER));
      if hp == -1 {
        return 0;
      }
      ghost var b := Block(hp, nu);
      GrownOk(mem, base, bs, live, owned, hp, nu, Header(0, nu));
      GrownLast(mem, base, bs, live, owned, hp);
      UnitsBelow(hp, nu);
      mem := mem[hp := Header(0, nu)];
      live, owned := live[hp := nu], owned + Units(hp, nu);
      ghost var before := bs;
      Free(hp + 1);
      BlocksNotEmpty(base, before, at, b, nu0);
      GrownEnd(before, at, b, nu0);
      assert live == old(live);
      return freep;
    }

    /** Takes the block at p off the list, or its last n headers. */
    method Take(p0: int, prevp: int, n: nat, ghost j: nat) returns (r: int)
      requires Listed() && freep != 0 && 1 <= j <= |bs| && 1 <= n <= Size(bs, j)
      requires p0 == Addr(base, bs, j) && prevp == Addr(base, bs, j - 1)
      modifies this`mem, this`freep, this`bs, this`at, this`live
      ensures Listed() && (Valid() <==> old(Valid())) && freep == prevp != 0 && r != 0
      ensures bs == Rest(old(bs), j - 1, n) && at == j - 1 && r - 1 == TakenFrom(old(bs), j - 1, n).a
      ensures r - 1 !in old(live) && live == old(live)[r - 1 := n]
    {
      hide HeapOk, Rest;
      var p := p0;
      AboveBase(mem, base, bs, live, owned, j);
      AboveBase(mem, base, bs, live, owned, j - 1);
      if n == Size(bs, j) {
        UnlinkOk(mem, base, bs, live, owned, j, n);
      } else {
        CarveOk(mem, base, bs, live, owned, j, n);
      }
      if mem[p].size == n {
        mem := mem[prevp := mem[prevp].(ptr := mem[p].ptr)];
      } else {
        mem := mem[p := mem[p].(size := mem[p].size - n)];
        p := p + mem[p].size;
        mem := mem[p := Header(0, n)];
      }
      freep := prevp;
      bs, live, at := Rest(bs, j - 1, n), live[p := n], j - 1;
      return p + 1;
    }

    /** The loop of `malloc`: around the circle from behind `freep`, growing the heap once if no
        block is large enough. */
    method TakeOrGrow(n: nat) returns (r: int)
      requires Valid() && freep != 0 && n >= 1
      modifies this
      ensures r == 0 <==> !HasFit(old(bs), n) && Refused(old(brk), limit, n)
      ensures r == 0 ==> unchanged(this)
      ensures r != 0 ==> Listed() && r - 1 !in old(live) && live == old(live)[r - 1 := n]
      ensures HasFit(old(bs), n) ==> Valid() && owned == old(owned) && brk == old(brk)
      ensures HasFit(old(bs), n) ==> NextFit(old(bs), old(at), n, bs, at, r)
      ensures r != 0 && !HasFit(old(bs), n) ==> GrewFrom(n, old(brk), old(owned))
      ensures r != 0 && !HasFit(old(bs), n) ==> r - 1 + n == old(brk) + Asked(n)
      ensures r != 0 && !HasFit(old(bs), n)
              ==> NextFit(GrownList(old(bs), old(brk), Asked(n)), |old(bs)|, n, bs, at, r)
    {
      hide HeapOk, Rest, HasFit, AllSmall, Pos, Units, TakenFrom, Size, NextFit, FitsAt, EndAt, GrownList;
      hide Passed, Moved, Asked, Refused;
      StartSearch(mem, base, bs, live, owned, at, n);
      var prevp := freep;
      var p := mem[prevp].ptr;
      ghost var d: nat, grown := 0, false;
      while true
        invariant Listed() && freep != 0 && live == old(live)
        invariant d <= |bs| && AllSmall(bs, at, d, n)
        invariant p == Addr(base, bs, Pos(at, d, |bs| + 1))
        invariant prevp == Addr(base, bs, if d == 0 then at else Pos(at, d - 1, |bs| + 1))
        invariant !grown ==> unchanged(this)
        invariant grown ==> HasFit(bs, n) && !HasFit(old(bs), n) && !Refused(old(brk), limit, n)
        invariant grown ==> EndAt(bs, n, old(brk) + Asked(n)) && GrewFrom(n, old(brk), old(owned))
        invariant grown ==> bs == GrownList(old(bs), old(brk), Asked(n)) && at == |old(bs)|
        decreases !grown, |bs| - d
      {
        ghost var j := Pos(at, d, |bs| + 1);
        Probe(mem, base, bs, live, owned, at, d, n);
        if mem[p].size >= n {
          FitHere(bs, at, d, n);
          FitIsNext(bs, at, d, n);
          if grown {
            TakesTheEnd(bs, j, n, old(brk) + Asked(n));
          }
          r := Take(p, prevp, n, j);
          return;
        }
        if p == freep {
          RoundTrip(bs, at, n);
          p := MoreCore(n);
          if p == 0 {
            return 0;
          }
          grown := true;
          d := 0;
        } else {
          d := d + 1;
        }
        prevp := p;
        StartSearch(mem, base, bs, live, owned, at, n);
        p := mem[p].ptr;
      }
    }

    /** Takes headers from the first block behind `freep` that is large enough, after growing the
        heap if there is none; 0 exactly if there is none and the kernel refuses. The headers taken
        lie below the break unless the kernel was asked for more bytes than an `int` holds. */
    method Malloc(nbytes: nat) returns (r: int)
      requires Valid() && nbytes < UINT
      modifies this
      ensures var n := Nunits(nbytes);
              && nbytes <= (n - 1) * HEADER
              && (r == 0 <==> !HasFit(old(bs), n) && Refused(old(brk), limit, n))
              && (r == 0 ==> live == old(live) && owned == old(owned) && brk == old(brk))
              && (r != 0 ==> Listed() && r - 1 !in old(live) && live == old(live)[r - 1 := n])
              && (Valid() <==> r == 0 || HasFit(old(bs), n) || nbytes <= INT_MAX - 31)
              && (HasFit(old(bs), n)
                  ==> owned == old(owned) && brk == old(brk) && NextFit(old(bs), old(at), n, bs, at, r))
              && (r != 0 && !HasFit(old(bs), n)
                  ==> GrewFrom(n, old(brk), old(owned)) && r - 1 + n == old(brk) + Asked(n)
                      && NextFit(GrownList(old(bs), old(brk), Asked(n)), |old(bs)|, n, bs, at, r))
    {
      hide HeapOk, HasFit, Units, NextFit, Passed, Moved, Asked, Refused, GrownList;
      var nunits := (nbytes + HEADER - 1) / HEADER + 1;
      LargestRequest(nbytes);
      if freep == 0 {
        mem := mem[base := Header(base, 0)];
        freep := base;
        EmptyOk(mem, base);
        NoFit(nunits);
        at := 0;
      }
      r := TakeOrGrow(nunits);
    }

    /** A request of 4294967288 bytes that finds no block: the kernel moves the break by one header,
        and `malloc` gives the 2^28 + 1 headers from there on. */
    method HugeMalloc() returns (r: int)
      requires Valid() && brk < limit && !HasFit(bs, 0x1000_0001)
      modifies this
      ensures r != 0 && r - 1 == old(brk) && live == old(live)[r - 1 := 0x1000_0001]
      ensures brk == old(brk) + 1 && !Valid()
    {
      hide HeapOk, HasFit, Units, NextFit, Passed;
      HugeRequest();
      r := Malloc(4294967288);
    }
  }

  /** No size, of a free block or a live one, exceeds what lies between the list's own header and the
      limit: the 32-bit field in the header holds every size of a heap below 2^32 headers. */
  lemma SizesFit(h: Heap)
    requires h.Valid() && h.freep != 0
    ensures forall i | 0 <= i < |h.bs| :: h.bs[i].n < h.limit - h.base
    ensures forall a | a in h.live :: h.live[a] < h.limit - h.base
  {
    forall i | 0 <= i < |h.bs|
      ensures h.bs[i].n < h.limit - h.base
    {
      var b := h.bs[i];
      assert InBlock(b, b.a + b.n - 1) && Covers(h.bs, b.a + b.n - 1);
    }
    forall a | a in h.live
      ensures h.live[a] < h.limit - h.base
    {
      assert InBlock(Block(a, h.live[a]), a + h.live[a] - 1) && LiveCovers(h.live, a + h.live[a] - 1);
    }
  }

  lemma NoFit(n: nat)
    ensures !HasFit([], n)
  {}

  /** The n headers at r - 1 were the end of the first block behind position `at` of the circle
      that holds as many; the position is now the one in front of it. */
  ghost predicate NextFit(bs: seq<Block>, at: nat, n: int, bs': seq<Block>, at': nat, r: int) {
    exists d: nat :: FitsAt(bs, at, d, n) && TookAt(bs, Pos(at, d, |bs| + 1), n, bs', at', r)
  }

  ghost predicate FitsAt(bs: seq<Block>, at: nat, d: nat, n: int) {
    at <= |bs| && d <= |bs| && AllSmall(bs, at, d, n) && Pos(at, d, |bs| + 1) >= 1
      && Size(bs, Pos(at, d, |bs| + 1)) >= n
  }

  ghost predicate TookAt(bs: seq<Block>, j: nat, n: int, bs': seq<Block>, at': nat, r: int) {
    1 <= j <= |bs| && bs' == Rest(bs, j - 1, n) && at' == j - 1 && r - 1 == TakenFrom(bs, j - 1, n).a
  }

  /** The list with nu headers from a on put behind all blocks. */
  function GrownList(bs: seq<Block>, a: int, nu: nat): seq<Block> {
    Merged(bs, |bs|, Block(a, nu))
  }

  lemma FitIsNext(bs: seq<Block>, at: nat, d: nat, n: int)
    requires at <= |bs| && d <= |bs| && n >= 1 && AllSmall(bs, at, d, n) && Size(bs, Pos(at, d, |bs| + 1)) >= n
    ensures FitsAt(bs, at, d, n)
    ensures forall bs', at', r :: TookAt(bs, Pos(at, d, |bs| + 1), n, bs', at', r) ==> NextFit(bs, at, n, bs', at', r)
    ensures bs != []
  {
    assert Size(bs, 0) == 0;
    assert FitsAt(bs, at, d, n);
  }

  lemma UnitsBelow(a: int, n: nat)
    ensures forall u | u in Units(a, n) :: a <= u < a + n
    ensures n >= 1 ==> a + n - 1 in Units(a, n)
  {}

  lemma BlocksNotEmpty(base: int, bs: seq<Block>, k: nat, b: Block, n: nat)
    requires Between(bs, k, b) && Sorted(base, bs) && n <= b.n
    ensures HasFit(Merged(bs, k, b), n)
  {
    MergedFits(bs, k, b);
  }

  lemma PassedDef(nu: nat)
    ensures Passed(nu) == IntOf(nu * HEADER) / HEADER
  {}

  /** Every block of at least n headers ends at e. */
  ghost predicate EndAt(bs: seq<Block>, n: nat, e: int) {
    forall i | 0 <= i < |bs| && bs[i].n >= n :: bs[i].a + bs[i].n == e
  }

  /** All free blocks lie below the region that is being added. */
  lemma GrownLast(mem: Memory, base: int, bs: seq<Block>, live: map<int, int>, owned: set<int>, a: int)
    requires HeapOk(mem, base, bs, live, owned) && forall u | u in owned :: u < a
    ensures Sorted(base, bs) && forall i | 0 <= i < |bs| :: bs[i].a + bs[i].n <= a
  {
    forall i | 0 <= i < |bs|
      ensures bs[i].a + bs[i].n <= a
    {
      assert InBlock(bs[i], bs[i].a + bs[i].n - 1) && Covers(bs, bs[i].a + bs[i].n - 1);
    }
  }

  /** If nothing fitted before, only the block that the new region has become part of does. */
  lemma GrownEnd(bs: seq<Block>, k: nat, b: Block, n: nat)
    requires Between(bs, k, b) && n <= b.n && forall i | 0 <= i < |bs| :: bs[i].n >= 1 && bs[i].a + bs[i].n <= b.a
    ensures k == |bs| && (!HasFit(bs, n) ==> EndAt(Merged(bs, k, b), n, b.a + b.n))
  {
    assert k == |bs|;
  }

  lemma TakesTheEnd(bs: seq<Block>, j: nat, n: nat, e: int)
    requires 1 <= j <= |bs| && Size(bs, j) >= n && EndAt(bs, n, e)
    ensures TakenFrom(bs, j - 1, n).a + n == e
  {}

  lemma EmptyOk(mem: Memory, base: int)
    requires base in mem && mem[base] == Header(base, 0)
    ensures HeapOk(mem, base, [], map[], {})
  {}

  lemma StartSearch(mem: Memory, base: int, bs: seq<Block>, live: map<int, int>, owned: set<int>, at: nat, n: int)
    requires HeapOk(mem, base, bs, live, owned) && at <= |bs|
    ensures Addr(base, bs, at) in mem && mem[Addr(base, bs, at)].ptr == Addr(base, bs, Pos(at, 0, |bs| + 1))
    ensures AllSmall(bs, at, 0, n)
  {
    LinkIs(mem, base, bs, at);
    NextPos(base, bs, at, 0);
  }

  /** One step of the search: what the header at position d says. */
  lemma Probe(mem: Memory, base: int, bs: seq<Block>, live: map<int, int>, owned: set<int>, at: nat, d: nat, n: int)
    requires HeapOk(mem, base, bs, live, owned) && at <= |bs| && d <= |bs| && AllSmall(bs, at, d, n)
    ensures var j := Pos(at, d, |bs| + 1);
            var p := Addr(base, bs, j);
            && p in mem && mem[p].size == Size(bs, j)
            && (p == Addr(base, bs, at) <==> d == |bs|)
            && (d < |bs| ==> mem[p].ptr == Addr(base, bs, Pos(at, d + 1, |bs| + 1)))
            && (mem[p].size < n ==> AllSmall(bs, at, d + 1, n))
  {
    hide Sorted, Linked, LiveOk, Conserved;
    var j := Pos(at, d, |bs| + 1);
    LinkIs(mem, base, bs, j);
    NextPos(base, bs, at, d);
    AddrsDiffer(base, bs, j, at);
    assert Size(bs, j) < n ==> SmallAt(bs, at, d, n);
  }

  /** The block that fits is not `base`, and the one before it on the circle is next to it. */
  lemma FitHere(bs: seq<Block>, at: nat, d: nat, n: int)
    requires at <= |bs| && d <= |bs| && n >= 1 && Size(bs, Pos(at, d, |bs| + 1)) >= n
    ensures var j := Pos(at, d, |bs| + 1);
            && j >= 1 && (if d == 0 then at else Pos(at, d - 1, |bs| + 1)) == j - 1
            && HasFit(bs, n)
  {
    var j := Pos(at, d, |bs| + 1);
    assert bs[j - 1].n >= n;
  }

  lemma AboveBase(mem: Memory, base: int, bs: seq<Block>, live: map<int, int>, owned: set<int>, j: nat)
    requires HeapOk(mem, base, bs, live, owned) && j <= |bs|
    ensures Addr(base, bs, j) >= base && Addr(base, bs, j) in mem && mem[Addr(base, bs, j)].size == Size(bs, j)
  {
    LinkIs(mem, base, bs, j);
  }

  lemma UnlinkOk(mem: Memory, base: int, bs: seq<Block>, live: map<int, int>, owned: set<int>, j: nat, n: int)
    requires HeapOk(mem, base, bs, live, owned) && 1 <= j <= |bs| && Size(bs, j) == n
    ensures var p, prev := Addr(base, bs, j), Addr(base, bs, j - 1);
            && p in mem && prev in mem && p !in live
            && HeapOk(mem[prev := mem[prev].(ptr := mem[p].ptr)], base, Rest(bs, j - 1, n), live[p := n], owned)
            && j - 1 <= |Rest(bs, j - 1, n)| && Addr(base, Rest(bs, j - 1, n), j - 1) == prev
  {
    LinkIs(mem, base, bs, j);
    LinkIs(mem, base, bs, j - 1);
    AddrsAscend(base, bs, j - 1, j);
    var p, prev := Addr(base, bs, j), Addr(base, bs, j - 1);
    var mem' := mem[prev := mem[prev].(ptr := mem[p].ptr)];
    LinkedUnlinked(mem, base, bs, j - 1);
    hide Sorted, Linked, Conserved;
    TakenOk(mem, mem', base, bs, live, owned, j - 1, n);
  }

  lemma CarveOk(mem: Memory, base: int, bs: seq<Block>, live: map<int, int>, owned: set<int>, j: nat, n: int)
    requires HeapOk(mem, base, bs, live, owned) && 1 <= j <= |bs| && 1 <= n < Size(bs, j)
    ensures var p := Addr(base, bs, j);
            && p in mem && mem[p].size == Size(bs, j)
            && var q := p + mem[p].size - n;
               && q !in live
               && HeapOk(mem[p := mem[p].(size := mem[p].size - n)][q := Header(0, n)], base, Rest(bs, j - 1, n),
                         live[q := n], owned)
               && j - 1 <= |Rest(bs, j - 1, n)| && Addr(base, Rest(bs, j - 1, n), j - 1) == Addr(base, bs, j - 1)
  {
    LinkIs(mem, base, bs, j);
    var p := Addr(base, bs, j);
    var q := p + mem[p].size - n;
    var mem' := mem[p := mem[p].(size := mem[p].size - n)][q := Header(0, n)];
    LinkedShortened(mem, base, bs, j - 1, n, Header(0, n));
    assert ApartFrom(live, bs[j - 1]);
    forall a | a in live
      ensures a in mem' && mem'[a].size == mem[a].size
    {
      assert Disjoint(Block(a, live[a]), bs[j - 1]);
    }
    hide Sorted, Linked, Conserved, LiveOk;
    TakenOk(mem, mem', base, bs, live, owned, j - 1, n);
  }

  /** The live block's place among the free ones. */
  lemma Place(mem: Memory, base: int, bs: seq<Block>, live: map<int, int>, owned: set<int>, b: Block) returns (k: nat)
    requires HeapOk(mem, base, bs, live, owned) && b.a in live && b.n == live[b.a]
    ensures Between(bs, k, b) && k <= |bs| && base < b.a && b.a in mem && mem[b.a].size == b.n
  {
    forall i | 0 <= i < |bs|
      ensures Disjoint(b, bs[i])
    {
      assert ApartFrom(live, bs[i]);
    }
    k := FindPosition(base, bs, b);
  }

  lemma StopsMeans(bp: int, p: int, next: int)
    ensures Stops(bp, p, next) <==> (bp > p && bp < next) || (p >= next && (bp > p || bp < next))
  {}

  lemma LinkIs(mem: Memory, base: int, bs: seq<Block>, j: nat)
    requires Linked(mem, base, bs) && j <= |bs|
    ensures LinkAt(mem, base, bs, j)
  {}

  /** The two header writes at the end of `free`. */
  function FreeHeaders(mem: Memory, p: int, bp: int): Memory
    requires p in mem && bp in mem && mem[p].ptr in mem
  {
    var next := mem[mem[p].ptr];
    var m1 := if bp + mem[bp].size == mem[p].ptr then mem[bp := Header(next.ptr, mem[bp].size + next.size)]
              else mem[bp := mem[bp].(ptr := mem[p].ptr)];
    if p + m1[p].size == bp then m1[p := Header(m1[bp].ptr, m1[p].size + m1[bp].size)] else m1[p := m1[p].(ptr := bp)]
  }

  lemma HeadersRewritten(mem: Memory, base: int, bs: seq<Block>, k: nat, b: Block)
    requires Sorted(base, bs) && Linked(mem, base, bs) && Between(bs, k, b) && base < b.a
    requires b.a in mem && mem[b.a].size == b.n
    ensures k <= |bs| && Addr(base, bs, k) in mem && mem[Addr(base, bs, k)].ptr in mem && Addr(base, bs, k) != b.a
    ensures Rewritten(mem, FreeHeaders(mem, Addr(base, bs, k), b.a), base, bs, k, b)
  {
    LinkIs(mem, base, bs, k);
    LinkIs(mem, base, bs, if k < |bs| then k + 1 else 0);
    NotBase(base, bs, k, b);
  }

  /** `base` never joins: it lies below every block. */
  lemma NotBase(base: int, bs: seq<Block>, k: nat, b: Block)
    requires Sorted(base, bs) && Between(bs, k, b) && base < b.a
    ensures b.a + b.n == Next(base, bs, k) <==> JoinsRight(bs, k, b)
    ensures Addr(base, bs, k) + Size(bs, k) == b.a <==> JoinsLeft(bs, k, b)
    ensures Addr(base, bs, k) < b.a
  {}

  lemma MergedPosition(base: int, bs: seq<Block>, k: nat, b: Block)
    requires Sorted(base, bs) && Between(bs, k, b) && base < b.a
    ensures k <= |Merged(bs, k, b)| && Addr(base, Merged(bs, k, b), k) == Addr(base, bs, k)
    ensures base > 0 ==> Addr(base, bs, k) != 0
  {
    MergedJoin(base, bs, k, b);
  }
}
