/** The LRU list of the block cache: control entries in one array, linked through indices
    from the most recently released (`head`) to the least recently released (`tail`). */
module BufLru {
  import opened Options

  /** The null pointer. */
  const NIL: int := -1

  datatype Ctrl = Ctrl(dev: nat, blockno: nat, prev: int, next: int, refcnt: nat)

  // ---------- the list as a sequence ----------

  ghost predicate IsOrder(order: seq<nat>, n: nat) {
    && |order| == n
    && (forall i | 0 <= i < n :: order[i] < n)
    && (forall i, j | 0 <= i < j < n :: order[i] != order[j])
  }

  ghost function MoveToFront(order: seq<nat>, k: nat): seq<nat>
    requires k < |order|
  {
    [order[k]] + order[..k] + order[k + 1..]
  }

  lemma MoveToFrontIsOrder(order: seq<nat>, n: nat, k: nat)
    requires IsOrder(order, n) && k < n
    ensures IsOrder(MoveToFront(order, k), n)
    ensures forall i | 0 <= i < n ::
              MoveToFront(order, k)[i] == if i == 0 then order[k] else if i <= k then order[i - 1] else order[i]
  {}

  ghost function Below(n: nat): (r: set<nat>)
    ensures |r| == n && forall x: nat :: x in r <==> x < n
  {
    if n == 0 then {} else Below(n - 1) + {n - 1}
  }

  ghost function Elements(order: seq<nat>, n: nat): (r: set<nat>)
    requires n <= |order| && forall i, j | 0 <= i < j < n :: order[i] != order[j]
    ensures |r| == n && forall x :: x in r <==> exists i :: 0 <= i < n && order[i] == x
  {
    if n == 0 then {} else Elements(order, n - 1) + {order[n - 1]}
  }

  lemma {:induction false} SubsetSize(a: set<nat>, b: set<nat>)
    requires a <= b
    ensures |a| <= |b|
    decreases |a|
  {
    if x :| x in a {
      SubsetSize(a - {x}, b - {x});
    }
  }

  /** An injective sequence of indices below n, n long, leaves no index out. */
  lemma OrderCovers(order: seq<nat>, n: nat, x: nat)
    requires IsOrder(order, n) && x < n
    ensures exists i :: 0 <= i < n && order[i] == x
  {
    var seen := Elements(order, n);
    if x !in seen {
      SubsetSize(seen, Below(n) - {x});
    }
  }

  /** List position `i` is linked to its neighbours. */
  ghost predicate LinkOk(inner: seq<Ctrl>, order: seq<nat>, i: nat) {
    && i < |order| && order[i] < |inner|
    && inner[order[i]].prev == (if i == 0 then NIL else order[i - 1])
    && inner[order[i]].next == (if i == |order| - 1 then NIL else order[i + 1])
  }

  /** The links of `inner` spell `order`. */
  ghost predicate Linked(inner: seq<Ctrl>, order: seq<nat>) {
    IsOrder(order, |inner|) && forall i | 0 <= i < |order| :: LinkOk(inner, order, i)
  }

  /** Unreferenced entries stand in the order of their last release, the newest at the head. */
  ghost predicate ByRelease(inner: seq<Ctrl>, order: seq<nat>, released: seq<nat>) {
    && IsOrder(order, |inner|) && |released| == |inner|
    && forall i, j | 0 <= i < j < |order| && inner[order[i]].refcnt == 0 && inner[order[j]].refcnt == 0 ::
         released[order[i]] > released[order[j]]
  }

  lemma LinksAt(inner: seq<Ctrl>, order: seq<nat>, k: nat)
    requires Linked(inner, order) && k < |order|
    ensures order[k] < |inner|
    ensures inner[order[k]].prev == if k == 0 then NIL else order[k - 1]
    ensures inner[order[k]].next == if k == |order| - 1 then NIL else order[k + 1]
  {
    assert LinkOk(inner, order, k);
  }

  lemma LinkedIsOrder(inner: seq<Ctrl>, order: seq<nat>)
    requires Linked(inner, order)
    ensures IsOrder(order, |inner|)
  {}

  /** The entries that moving position `k` to the front touches. */
  lemma Neighbours(inner: seq<Ctrl>, order: seq<nat>, k: nat)
    requires Linked(inner, order) && 0 < k < |order|
    ensures |order| == |inner| && order[0] < |inner| && order[k] < |inner| && order[k - 1] < |inner|
    ensures order[k] != order[0] && order[k] != order[k - 1]
    ensures k + 1 < |order| ==> order[k + 1] < |inner| && order[k + 1] != order[k]
                                && order[k + 1] != order[k - 1] && order[k + 1] != order[0]
    ensures k + 1 == |order| <==> order[k] == order[|order| - 1]
    ensures MoveToFront(order, k)[0] == order[k]
    ensures MoveToFront(order, k)[|order| - 1] == if k + 1 == |order| then order[k - 1] else order[|order| - 1]
  {}

  /** Changing anything but the links keeps the list. */
  lemma SameLinks(inner: seq<Ctrl>, inner': seq<Ctrl>, order: seq<nat>)
    requires Linked(inner, order) && |inner'| == |inner|
    requires forall i | 0 <= i < |inner| :: inner'[i].prev == inner[i].prev && inner'[i].next == inner[i].next
    ensures Linked(inner', order)
  {
    forall k | 0 <= k < |order|
      ensures LinkOk(inner', order, k)
    {
      LinksAt(inner, order, k);
    }
  }

  /** More references only take entries out of the release order. */
  lemma SameReleases(inner: seq<Ctrl>, inner': seq<Ctrl>, order: seq<nat>, released: seq<nat>)
    requires ByRelease(inner, order, released) && |inner'| == |inner|
    requires forall i | 0 <= i < |inner| :: inner'[i].refcnt == 0 ==> inner[i].refcnt == 0
    ensures ByRelease(inner', order, released)
  {}

  /** Of the unreferenced entries, the one nearest the tail was released first. */
  lemma OldestRelease(inner: seq<Ctrl>, order: seq<nat>, released: seq<nat>, k: nat)
    requires ByRelease(inner, order, released) && k < |order| && inner[order[k]].refcnt == 0
    requires forall i | k < i < |order| :: inner[order[i]].refcnt > 0
    ensures forall i | 0 <= i < |inner| && inner[i].refcnt == 0 :: released[order[k]] <= released[i]
  {
    forall i | 0 <= i < |inner| && inner[i].refcnt == 0
      ensures released[order[k]] <= released[i]
    {
      OrderCovers(order, |inner|, i);
      var j :| 0 <= j < |inner| && order[j] == i;
      assert j <= k;
    }
  }

  /** What detaching position `k` and attaching it at the head does to the links. */
  ghost predicate Relinked(inner: seq<Ctrl>, inner': seq<Ctrl>, order: seq<nat>, k: nat)
    requires Linked(inner, order) && 0 < k < |order|
  {
    var index, first := order[k], order[0];
    && |inner'| == |inner|
    && (forall i | 0 <= i < |inner| :: inner'[i].prev ==
         if i == index then NIL
         else if i == first then index
         else if k + 1 < |order| && i == order[k + 1] then order[k - 1]
         else inner[i].prev)
    && (forall i | 0 <= i < |inner| :: inner'[i].next ==
         if i == index then first
         else if i == order[k - 1] then (if k + 1 < |order| then order[k + 1] else NIL)
         else inner[i].next)
  }

  /** The entry that comes to list position `i` stood at this position before. */
  ghost function Origin(k: nat, i: nat): nat {
    if i == 0 then k else if i <= k then i - 1 else i
  }

  lemma RelinkedPrev(inner: seq<Ctrl>, inner': seq<Ctrl>, order: seq<nat>, k: nat, i: nat)
    requires Linked(inner, order) && 0 < k < |order| && Relinked(inner, inner', order, k) && i < |order|
    ensures inner'[order[Origin(k, i)]].prev == if i == 0 then NIL else order[Origin(k, i - 1)]
  {
    LinksAt(inner, order, Origin(k, i));
  }

  lemma RelinkedNext(inner: seq<Ctrl>, inner': seq<Ctrl>, order: seq<nat>, k: nat, i: nat)
    requires Linked(inner, order) && 0 < k < |order| && Relinked(inner, inner', order, k) && i < |order|
    ensures inner'[order[Origin(k, i)]].next == if i == |order| - 1 then NIL else order[Origin(k, i + 1)]
  {
    LinksAt(inner, order, Origin(k, i));
  }

  lemma RelinkedIsLinked(inner: seq<Ctrl>, inner': seq<Ctrl>, order: seq<nat>, k: nat)
    requires Linked(inner, order) && 0 < k < |order| && Relinked(inner, inner', order, k)
    ensures Linked(inner', MoveToFront(order, k))
  {
    var n, order' := |order|, MoveToFront(order, k);
    MoveToFrontIsOrder(order, n, k);
    assert |inner'| == n && IsOrder(order', n);
    assert forall i | 0 <= i < n :: order'[i] == order[Origin(k, i)];
    forall i | 0 <= i < n
      ensures LinkOk(inner', order', i)
    {
      RelinkedPrev(inner, inner', order, k, i);
      RelinkedNext(inner, inner', order, k, i);
    }
  }

  /** Releasing position `k` to zero and moving it to the head keeps the release order. */
  lemma ReleaseKeepsOrder(inner: seq<Ctrl>, inner': seq<Ctrl>, order: seq<nat>, released: seq<nat>, k: nat, now: nat)
    requires ByRelease(inner, order, released) && k < |order| && |inner'| == |inner|
    requires forall i | 0 <= i < |inner| && i != order[k] :: inner'[i].refcnt == inner[i].refcnt
    requires forall i | 0 <= i < |released| :: released[i] < now
    ensures ByRelease(inner', MoveToFront(order, k), released[order[k] := now])
  {
    var order', released' := MoveToFront(order, k), released[order[k] := now];
    MoveToFrontIsOrder(order, |order|, k);
    forall i, j | 0 <= i < j < |order'| && inner'[order'[i]].refcnt == 0 && inner'[order'[j]].refcnt == 0
      ensures released'[order'[i]] > released'[order'[j]]
    {
      var i0, j0 := if i <= k then i - 1 else i, if j <= k then j - 1 else j;
      assert order'[j] == order[j0] && j0 != k;
      if i > 0 {
        assert order'[i] == order[i0] && i0 < j0;
      }
    }
  }

  lemma FrontStays(order: seq<nat>)
    requires order != []
    ensures MoveToFront(order, 0) == order
  {}

  lemma OrderFacts(order: seq<nat>, n: nat)
    requires IsOrder(order, n)
    ensures |order| == n
  {}

  lemma FrontIs(order: seq<nat>, k: nat)
    requires k < |order|
    ensures |MoveToFront(order, k)| == |order| && MoveToFront(order, k)[0] == order[k]
  {}

  lemma OrderedOnce(order: seq<nat>, n: nat, k: nat)
    requires IsOrder(order, n) && k < n && order[k] == order[0]
    ensures k == 0
  {}

  /** Entries chained in index order, none in use, form the initial list. */
  lemma FreshList(inner: seq<Ctrl>, order: seq<nat>, released: seq<nat>, n: nat)
    requires n >= 2 && |inner| == |order| == |released| == n
    requires forall i | 0 <= i < n :: order[i] == i && released[i] == n - 1 - i
    requires forall i | 0 <= i < n ::
               inner[i].prev == (if i == 0 then NIL else i - 1) && inner[i].next == (if i == n - 1 then NIL else i + 1)
    ensures Linked(inner, order) && ByRelease(inner, order, released)
  {}

  class BufLru {
    var inner: array<Ctrl>
    var head: int
    var tail: int
    /** The list from head to tail, and when each entry was last released to zero references. */
    ghost var order: seq<nat>
    ghost var released: seq<nat>
    ghost var clock: nat

    ghost predicate Valid()
      reads this, inner
    {
      && inner.Length >= 1
      && Linked(inner[..], order)
      && head == order[0] && tail == order[inner.Length - 1]
      && ByRelease(inner[..], order, released)
      && |released| == inner.Length && (forall i | 0 <= i < inner.Length :: released[i] < clock)
    }

    /** The array of fresh entries, and the list over all of them. */
    constructor (n: nat)
      requires n >= 2
      ensures Valid() && fresh(inner) && inner.Length == n
      ensures forall i | 0 <= i < n :: inner[i].refcnt == 0 && inner[i].dev == 0 && inner[i].blockno == 0
      ensures forall i | 0 <= i < n :: order[i] == i
    {
      inner := new Ctrl[n](_ => Ctrl(0, 0, NIL, NIL, 0));
      head := 0;
      tail := n - 1;
      order := seq(n, i => i);
      released := seq(n, i requires 0 <= i < n => n - 1 - i);
      clock := n;
      new;
      hide Linked, ByRelease, IsOrder;
      inner[0] := inner[0].(prev := NIL, next := 1);
      inner[n - 1] := inner[n - 1].(prev := n - 2, next := NIL);
      var a := inner;
      var i := 1;
      while i < n - 1
        invariant 1 <= i <= n - 1
        invariant forall j | 0 <= j < n :: a[j].refcnt == 0 && a[j].dev == 0 && a[j].blockno == 0
        invariant a[0].prev == NIL && a[0].next == 1
        invariant a[n - 1].prev == n - 2 && a[n - 1].next == NIL
        invariant forall j | 1 <= j < i :: a[j].prev == j - 1 && a[j].next == j + 1
        modifies a
      {
        a[i] := a[i].(prev := i - 1, next := i + 1);
        i := i + 1;
      }
      ghost var all := inner[..];
      assert forall j | 0 <= j < n :: all[j] == a[j];
      FreshList(all, order, released, n);
    }

    /** Looks the block up from the head on, and takes a reference when it is cached. */
    method FindCached(dev: nat, blockno: nat) returns (r: Option<nat>)
      requires Valid()
      modifies inner
      ensures Valid()
      ensures r.None? ==> inner[..] == old(inner[..])
      ensures r.None? ==> forall i | 0 <= i < inner.Length :: inner[i].dev != dev || inner[i].blockno != blockno
      ensures r.Some? ==>
                && r.value < inner.Length
                && old(inner[r.value].dev) == dev && old(inner[r.value].blockno) == blockno
                && inner[..]
                   == old(inner[..])[r.value := old(inner[r.value]).(refcnt := old(inner[r.value].refcnt) + 1)]
    {
      ghost var before, n := inner[..], inner.Length;
      var b := head;
      ghost var k := 0;
      while b != NIL
        invariant 0 <= k <= n && inner[..] == before
        invariant b == if k == n then NIL else order[k]
        invariant forall i | 0 <= i < k :: before[order[i]].dev != dev || before[order[i]].blockno != blockno
        decreases n - k
      {
        hide Linked, ByRelease;
        LinksAt(before, order, k);
        assert inner[b] == before[b];
        if inner[b].dev == dev && inner[b].blockno == blockno {
          inner[b] := inner[b].(refcnt := inner[b].refcnt + 1);
          SameLinks(before, inner[..], order);
          SameReleases(before, inner[..], order, released);
          return Some(b);
        }
        b := inner[b].next;
        k := k + 1;
      }
      forall i | 0 <= i < inner.Length
        ensures inner[i].dev != dev || inner[i].blockno != blockno
      {
        OrderCovers(order, n, i);
        assert inner[i] == before[i];
      }
      r := None;
    }

    /** Takes over the unreferenced entry that was released longest ago. */
    method Recycle(dev: nat, blockno: nat) returns (r: Option<nat>)
      requires Valid()
      modifies inner
      ensures Valid()
      ensures r.None? ==> inner[..] == old(inner[..]) && forall i | 0 <= i < inner.Length :: inner[i].refcnt > 0
      ensures r.Some? ==>
                && r.value < inner.Length && old(inner[r.value].refcnt) == 0
                && (forall i | 0 <= i < inner.Length && old(inner[i].refcnt) == 0 :: released[r.value] <= released[i])
                && inner[..] == old(inner[..])[r.value :=
                     old(inner[r.value]).(dev := dev, blockno := blockno, refcnt := 1)]
    {
      ghost var before, n := inner[..], inner.Length;
      var b := tail;
      ghost var k := n - 1;
      while b != NIL
        invariant -1 <= k < n && inner[..] == before
        invariant b == if k == -1 then NIL else order[k]
        invariant forall i | k < i < n :: before[order[i]].refcnt > 0
        decreases k
      {
        LinksAt(before, order, k);
        assert inner[b] == before[b];
        if inner[b].refcnt == 0 {
          OldestRelease(before, order, released, k);
          hide Linked, ByRelease;
          inner[b] := inner[b].(dev := dev, blockno := blockno, refcnt := inner[b].refcnt + 1);
          SameLinks(before, inner[..], order);
          SameReleases(before, inner[..], order, released);
          return Some(b);
        }
        b := inner[b].prev;
        k := k - 1;
      }
      forall i | 0 <= i < inner.Length
        ensures inner[i].refcnt > 0
      {
        OrderCovers(order, n, i);
        assert inner[i] == before[i];
      }
      r := None;
    }

    /** Takes one more reference on behalf of the log. */
    method Pin(index: nat)
      requires Valid() && index < inner.Length && inner[index].refcnt > 0
      modifies inner
      ensures Valid()
      ensures inner[..] == old(inner[..])[index := old(inner[index]).(refcnt := old(inner[index].refcnt) + 1)]
    {
      ghost var before := inner[..];
      hide Linked, ByRelease;
      inner[index] := inner[index].(refcnt := inner[index].refcnt + 1);
      SameLinks(before, inner[..], order);
      SameReleases(before, inner[..], order, released);
    }

    /** Gives a pin back. Panics, giving `false`, where that would be the last reference. */
    method Unpin(index: nat) returns (ok: bool)
      requires Valid() && index < inner.Length
      modifies inner
      ensures Valid() && (ok <==> old(inner[index].refcnt) > 1)
      ensures !ok ==> inner[..] == old(inner[..])
      ensures ok ==> inner[..] == old(inner[..])[index := old(inner[index]).(refcnt := old(inner[index].refcnt) - 1)]
    {
      if inner[index].refcnt <= 1 {
        return false;
      }
      ghost var before := inner[..];
      hide Linked, ByRelease;
      inner[index] := inner[index].(refcnt := inner[index].refcnt - 1);
      SameLinks(before, inner[..], order);
      SameReleases(before, inner[..], order, released);
      ok := true;
    }

    /** What logging a block does: it is pinned, then its handle is dropped. The entry stays
        referenced and in its place, so that `Recycle` cannot take it. */
    method PinAndDrop(index: nat)
      requires Valid() && index < inner.Length && inner[index].refcnt > 0
      modifies this`head, this`tail, this`order, this`released, this`clock, inner
      ensures Valid() && order == old(order) && released == old(released)
      ensures forall i | 0 <= i < inner.Length ::
                && inner[i].dev == old(inner[i].dev) && inner[i].blockno == old(inner[i].blockno)
                && inner[i].refcnt == old(inner[i].refcnt)
    {
      Pin(index);
      MoveIfNoRef(index);
    }

    /** Drops one reference; the last one moves the entry to the head of the list. */
    method MoveIfNoRef(index: nat)
      requires Valid() && index < inner.Length && inner[index].refcnt > 0
      modifies this`head, this`tail, this`order, this`released, this`clock, inner
      ensures Valid()
      ensures forall i | 0 <= i < inner.Length ::
                && inner[i].dev == old(inner[i].dev) && inner[i].blockno == old(inner[i].blockno)
                && inner[i].refcnt == if i == index then old(inner[i].refcnt) - 1 else old(inner[i].refcnt)
      ensures inner[index].refcnt > 0 ==> order == old(order) && released == old(released)
      ensures inner[index].refcnt == 0 ==>
                && order[0] == index && released == old(released)[index := old(clock)] && clock == old(clock) + 1
                && exists k :: 0 <= k < |old(order)| && old(order)[k] == index && order == MoveToFront(old(order), k)
    {
      hide Linked, ByRelease, MoveToFront, IsOrder;
      ghost var before, order0 := inner[..], order;
      inner[index] := inner[index].(refcnt := inner[index].refcnt - 1);
      SameLinks(before, inner[..], order);
      if inner[index].refcnt > 0 {
        SameReleases(before, inner[..], order, released);
        return;
      }
      LinkedIsOrder(before, order);
      OrderCovers(order, inner.Length, index);
      OrderFacts(order, inner.Length);
      ghost var k :| 0 <= k < inner.Length && order[k] == index;
      FrontIs(order, k);
      if head != index {
        MoveUp(index, k);
      } else {
        OrderedOnce(order, inner.Length, k);
        FrontStays(order);
      }
      ReleaseKeepsOrder(before, inner[..], order0, released, k, clock);
      released := released[index := clock];
      clock := clock + 1;
    }

    /** Detaches the entry at list position `k` and attaches it at the head. */
    method MoveUp(index: nat, ghost k: nat)
      requires inner.Length >= 1 && Linked(inner[..], order)
      requires head == order[0] && tail == order[inner.Length - 1]
      requires 0 < k < inner.Length && order[k] == index
      modifies this`head, this`tail, this`order, inner
      ensures Linked(inner[..], order) && order == MoveToFront(old(order), k)
      ensures head == order[0] && tail == order[inner.Length - 1]
      ensures forall i | 0 <= i < inner.Length ::
                inner[i] == old(inner[i]).(prev := inner[i].prev, next := inner[i].next)
    {
      ghost var before := inner[..];
      LinksAt(before, order, k);
      Neighbours(before, order, k);
      hide Linked, LinkOk, IsOrder, MoveToFront;
      var prev, next := inner[index].prev, inner[index].next;
      if tail == index && prev != NIL {
        tail := prev;
      }
      Detach(prev, next);
      Attach(index);
      assert Relinked(before, inner[..], order, k);
      RelinkedIsLinked(before, inner[..], order, k);
      head := index;
      order := MoveToFront(order, k);
    }

    /** Joins the two neighbours of a leaving entry. */
    method Detach(prev: int, next: int)
      requires NIL <= prev < inner.Length && NIL <= next < inner.Length
      modifies inner
      ensures forall i | 0 <= i < inner.Length ::
                inner[i] == old(inner[i]).(prev := if i == next then prev else old(inner[i].prev),
                                           next := if i == prev then next else old(inner[i].next))
    {
      if next != NIL {
        inner[next] := inner[next].(prev := prev);
      }
      if prev != NIL {
        inner[prev] := inner[prev].(next := next);
      }
    }

    /** Puts an entry in front of the current head. */
    method Attach(index: nat)
      requires index < inner.Length && 0 <= head < inner.Length && head != index
      modifies inner
      ensures forall i | 0 <= i < inner.Length ::
                inner[i]
                  == old(inner[i]).(prev := if i == index then NIL else if i == head then index else old(inner[i].prev),
                                           next := if i == index then head else old(inner[i].next))
    {
      inner[index] := inner[index].(prev := NIL, next := head);
      if head != NIL {
        inner[head] := inner[head].(prev := index);
      }
    }
  }
}
