/** Intrusive circular doubly linked lists: the links live in the listed blocks themselves,
    so memory is one map from address to links that all lists share. */
module FreeList {
  import opened Options

  /** The list node at one address. */
  datatype Links = Links(prev: int, next: int)

  ghost predicate Distinct(s: seq<int>) {
    forall i, j | 0 <= i < j < |s| :: s[i] != s[j]
  }

  /** The node after, and the node before, position `j` of the ring. */
  ghost function After(ring: seq<int>, j: nat): int
    requires j < |ring|
  {
    if j + 1 < |ring| then ring[j + 1] else ring[0]
  }

  ghost function Before(ring: seq<int>, j: nat): int
    requires j < |ring|
  {
    if j == 0 then ring[|ring| - 1] else ring[j - 1]
  }

  ghost predicate LinkedAt(nodes: map<int, Links>, ring: seq<int>, j: nat) {
    && j < |ring| && ring[j] in nodes
    && nodes[ring[j]].next == After(ring, j)
    && nodes[ring[j]].prev == Before(ring, j)
  }

  /** `ring` is one circle of links, its head first. */
  ghost predicate IsRing(nodes: map<int, Links>, ring: seq<int>) {
    |ring| > 0 && Distinct(ring) && forall j | 0 <= j < |ring| :: LinkedAt(nodes, ring, j)
  }

  /** Changing links outside a ring leaves it alone. */
  lemma RingFrame(nodes: map<int, Links>, nodes': map<int, Links>, ring: seq<int>)
    requires IsRing(nodes, ring)
    requires forall a | a in ring :: a in nodes && a in nodes' && nodes'[a] == nodes[a]
    ensures IsRing(nodes', ring)
  {
    forall j | 0 <= j < |ring|
      ensures LinkedAt(nodes', ring, j)
    {
      assert LinkedAt(nodes, ring, j) && ring[j] in ring;
    }
  }

  /** The links after putting `a` right behind the head. */
  function Pushed(nodes: map<int, Links>, head: int, a: int): map<int, Links>
    requires head in nodes
  {
    var first := nodes[head].next;
    var m := nodes[a := Links(head, first)];
    var m1 := if first in m then m[first := m[first].(prev := a)] else m;
    if head in m1 then m1[head := m1[head].(next := a)] else m1
  }

  /** Pushing on this list writes nodes that exist. */
  predicate HeadReady(nodes: map<int, Links>, h: int) {
    h in nodes && nodes[h].next in nodes
  }

  lemma PushedReady(nodes: map<int, Links>, h: int, a: int, k: int)
    requires HeadReady(nodes, h) && HeadReady(nodes, k)
    ensures HeadReady(Pushed(nodes, h, a), k)
  {}

  lemma PushRing(nodes: map<int, Links>, ring: seq<int>, a: int)
    requires IsRing(nodes, ring) && a !in ring
    ensures ring[0] in nodes && IsRing(Pushed(nodes, ring[0], a), [ring[0], a] + ring[1..])
    ensures forall b | b in nodes && b !in ring && b != a ::
              b in Pushed(nodes, ring[0], a) && Pushed(nodes, ring[0], a)[b] == nodes[b]
  {
    assert LinkedAt(nodes, ring, 0);
    var nodes', ring' := Pushed(nodes, ring[0], a), [ring[0], a] + ring[1..];
    assert After(ring, 0) in ring;
    forall j | 0 <= j < |ring'|
      ensures LinkedAt(nodes', ring', j)
    {
      if j > 1 {
        assert LinkedAt(nodes, ring, j - 1) && ring'[j] == ring[j - 1];
      }
      if |ring| > 1 {
        assert LinkedAt(nodes, ring, 1);
      }
    }
  }

  /** The links after taking `a` out. */
  function Unlinked(nodes: map<int, Links>, a: int): map<int, Links>
    requires a in nodes
  {
    var p, n := nodes[a].prev, nodes[a].next;
    var m := if p in nodes then nodes[p := nodes[p].(next := n)] else nodes;
    if n in m then m[n := m[n].(prev := p)] else m
  }

  lemma UnlinkRing(nodes: map<int, Links>, ring: seq<int>, k: nat)
    requires IsRing(nodes, ring) && 0 < k < |ring|
    ensures ring[k] in nodes && IsRing(Unlinked(nodes, ring[k]), ring[..k] + ring[k + 1..])
    ensures forall b | b in nodes && b !in ring ::
              b in Unlinked(nodes, ring[k]) && Unlinked(nodes, ring[k])[b] == nodes[b]
  {
    assert LinkedAt(nodes, ring, k);
    var nodes', ring' := Unlinked(nodes, ring[k]), ring[..k] + ring[k + 1..];
    assert LinkedAt(nodes, ring, k - 1);
    var n := if k + 1 < |ring| then k + 1 else 0;
    assert LinkedAt(nodes, ring, n);
    forall j | 0 <= j < |ring'|
      ensures LinkedAt(nodes', ring', j)
    {
      var i := if j < k then j else j + 1;
      assert ring'[j] == ring[i] && LinkedAt(nodes, ring, i);
    }
  }

  // ---------- pushing a block that is on the list already ----------

  /** The node n links further on. */
  function Follow(nodes: map<int, Links>, x: int, n: nat): int
    decreases n
  {
    if n == 0 || x !in nodes then x else Follow(nodes, nodes[x].next, n - 1)
  }

  /** Around a circle, the links lead back to where they start. */
  lemma {:induction false} RingReturns(nodes: map<int, Links>, ring: seq<int>, j: nat)
    requires IsRing(nodes, ring) && j < |ring|
    ensures Follow(nodes, ring[j], |ring| - j) == ring[0]
    decreases |ring| - j
  {
    assert LinkedAt(nodes, ring, j);
    if j + 1 < |ring| {
      RingReturns(nodes, ring, j + 1);
    }
  }

  /** The links go round between the first k nodes behind the head. */
  ghost predicate GoesRound(nodes: map<int, Links>, ring: seq<int>, k: nat) {
    0 < k < |ring| && forall i | 1 <= i <= k :: GoesOn(nodes, ring, k, i)
  }

  predicate GoesOn(nodes: map<int, Links>, ring: seq<int>, k: nat, i: nat)
    requires 1 <= i <= k < |ring|
  {
    ring[i] in nodes && nodes[ring[i]].next == if i == k then ring[1] else ring[i + 1]
  }

  lemma {:induction false} NeverOut(nodes: map<int, Links>, ring: seq<int>, k: nat, i: nat, n: nat)
    requires GoesRound(nodes, ring, k) && Distinct(ring) && 1 <= i <= k
    ensures Follow(nodes, ring[i], n) != ring[0]
    decreases n
  {
    assert ring[0] != ring[i];
    if n > 0 {
      var next := if i == k then 1 else i + 1;
      assert GoesOn(nodes, ring, k, i);
      NeverOut(nodes, ring, k, next, n - 1);
    }
  }

  lemma PushedGoesRound(nodes: map<int, Links>, ring: seq<int>, k: nat)
    requires IsRing(nodes, ring) && 0 < k < |ring|
    ensures ring[0] in nodes
    ensures var nodes' := Pushed(nodes, ring[0], ring[k]);
            GoesRound(nodes', ring, k) && ring[0] in nodes' && nodes'[ring[0]].next == ring[k]
  {
    assert LinkedAt(nodes, ring, 0);
    var nodes' := Pushed(nodes, ring[0], ring[k]);
    forall i | 1 <= i <= k
      ensures GoesOn(nodes', ring, k, i)
    {
      assert LinkedAt(nodes, ring, i);
    }
  }

  /** After a push of a block that is on the list, the links from the head never come back to it.
      If it was first, it is its own neighbour: taking it off changes nothing, so that it is first
      again. */
  lemma PushTwice(nodes: map<int, Links>, ring: seq<int>, k: nat)
    requires IsRing(nodes, ring) && 0 < k < |ring|
    ensures ring[0] in nodes
    ensures forall n: nat | n > 0 :: Follow(Pushed(nodes, ring[0], ring[k]), ring[0], n) != ring[0]
    ensures k == 1 ==> ring[1] in Pushed(nodes, ring[0], ring[1])
                       && Unlinked(Pushed(nodes, ring[0], ring[1]), ring[1]) == Pushed(nodes, ring[0], ring[1])
  {
    PushedGoesRound(nodes, ring, k);
    assert LinkedAt(nodes, ring, 0);
    var nodes' := Pushed(nodes, ring[0], ring[k]);
    forall n: nat | n > 0
      ensures Follow(nodes', ring[0], n) != ring[0]
    {
      NeverOut(nodes', ring, k, k, n - 1);
    }
  }

  /** The writes of a push leave a circle through the head exactly if the block was not on it. */
  lemma PushIsRing(nodes: map<int, Links>, ring: seq<int>, a: int)
    requires IsRing(nodes, ring) && a != ring[0]
    ensures ring[0] in nodes
    ensures (exists r :: |r| > 0 && r[0] == ring[0] && IsRing(Pushed(nodes, ring[0], a), r)) <==> a !in ring
  {
    assert LinkedAt(nodes, ring, 0);
    var nodes' := Pushed(nodes, ring[0], a);
    if a in ring {
      var k :| 0 < k < |ring| && ring[k] == a;
      PushTwice(nodes, ring, k);
      forall r | |r| > 0 && r[0] == ring[0]
        ensures !IsRing(nodes', r)
      {
        if IsRing(nodes', r) {
          RingReturns(nodes', r, 0);
        }
      }
    } else {
      PushRing(nodes, ring, a);
      var r := [ring[0], a] + ring[1..];
      assert r[0] == ring[0] && IsRing(nodes', r);
    }
  }

  /** No address stands in two rings. */
  ghost predicate Apart(rings: map<int, seq<int>>) {
    forall h1, h2, a | h1 in rings && h2 in rings && a in rings[h1] && a in rings[h2] :: h1 == h2
  }

  ghost predicate RingAt(nodes: map<int, Links>, rings: map<int, seq<int>>, h: int) {
    h in rings && |rings[h]| > 0 && rings[h][0] == h && IsRing(nodes, rings[h])
  }

  ghost predicate AllRings(nodes: map<int, Links>, rings: map<int, seq<int>>) {
    Apart(rings) && forall h | h in rings :: RingAt(nodes, rings, h)
  }

  ghost predicate Unlisted(rings: map<int, seq<int>>, a: int) {
    forall h | h in rings :: a !in rings[h]
  }

  lemma HeadsAreListed(nodes: map<int, Links>, rings: map<int, seq<int>>)
    requires AllRings(nodes, rings)
    ensures forall h | h in rings :: h in rings[h]
  {
    assert forall h | h in rings :: RingAt(nodes, rings, h);
  }

  /** Replacing one ring by links that touch only it, and perhaps one address outside of all
      rings, keeps the others. */
  lemma OneRing(nodes: map<int, Links>, nodes': map<int, Links>, rings: map<int, seq<int>>, h: int, ring: seq<int>,
                a: int)
    requires AllRings(nodes, rings) && IsRing(nodes', ring) && ring[0] == h
    requires Unlisted(rings, a) || (h in rings && a in rings[h])
    requires h in rings || a == h
    requires forall b | b in nodes && b != a && (h in rings ==> b !in rings[h]) :: b in nodes' && nodes'[b] == nodes[b]
    requires forall b | b in ring :: b == a || (h in rings && b in rings[h])
    ensures AllRings(nodes', rings[h := ring])
  {
    forall g | g in rings && g != h
      ensures RingAt(nodes', rings[h := ring], g)
    {
      assert RingAt(nodes, rings, g);
      forall b | b in rings[g]
        ensures b in nodes && b in nodes' && nodes'[b] == nodes[b]
      {
        var j :| 0 <= j < |rings[g]| && rings[g][j] == b;
        assert LinkedAt(nodes, rings[g], j);
      }
      RingFrame(nodes, nodes', rings[g]);
    }
  }

  lemma RingReady(nodes: map<int, Links>, rings: map<int, seq<int>>, h: int)
    requires AllRings(nodes, rings) && h in rings
    ensures HeadReady(nodes, h)
  {
    assert RingAt(nodes, rings, h);
    var ring := rings[h];
    assert LinkedAt(nodes, ring, 0) && LinkedAt(nodes, ring, if |ring| > 1 then 1 else 0);
  }

  class ListHeap {
    var nodes: map<int, Links>
    /** Every list by its head: the whole circle from the head on. */
    ghost var rings: map<int, seq<int>>

    ghost predicate Valid()
      reads this
    {
      AllRings(nodes, rings)
    }

    /** What a list holds, from its head on. */
    ghost function Items(h: int): seq<int>
      requires h in rings && |rings[h]| > 0
      reads this
    {
      rings[h][1..]
    }

    constructor ()
      ensures Valid() && rings == map[]
    {
      nodes := map[];
      rings := map[];
    }

    /** A fresh list head points at itself both ways. */
    method Init(h: int)
      requires Valid() && Unlisted(rings, h)
      modifies this
      ensures Valid() && rings == old(rings)[h := [h]]
    {
      ghost var before := nodes;
      HeadsAreListed(nodes, rings);
      nodes := nodes[h := Links(h, h)];
      assert LinkedAt(nodes, [h], 0);
      OneRing(before, nodes, rings, h, [h], h);
      rings := rings[h := [h]];
    }

    /** The writes of a push, whether or not `a` is on a list already. */
    method PushLinks(h: int, a: int)
      requires HeadReady(nodes, h)
      modifies this`nodes
      ensures nodes == Pushed(old(nodes), h, a)
    {
      var first := nodes[h].next;
      nodes := nodes[a := Links(h, first)];
      nodes := nodes[nodes[h].next := nodes[nodes[h].next].(prev := a)];
      nodes := nodes[h := nodes[h].(next := a)];
    }

    /** A block that was on no list is now first on this one. */
    ghost method NotePush(h: int, a: int, before: map<int, Links>)
      requires AllRings(before, rings) && h in rings && h in before && Unlisted(rings, a)
               && nodes == Pushed(before, h, a)
      modifies this`rings
      ensures Valid() && h in rings && rings == old(rings)[h := [h, a] + old(rings)[h][1..]]
    {
      var ring := rings[h];
      assert RingAt(before, rings, h);
      PushRing(before, ring, a);
      OneRing(before, nodes, rings, h, [h, a] + ring[1..], a);
      rings := rings[h := [h, a] + ring[1..]];
    }

    /** Puts block `a` at the front of the list. */
    method Push(h: int, a: int)
      requires Valid() && h in rings && Unlisted(rings, a)
      modifies this
      ensures Valid() && h in rings && rings == old(rings)[h := [h, a] + old(rings)[h][1..]]
    {
      ghost var before := nodes;
      RingReady(nodes, rings, h);
      PushLinks(h, a);
      NotePush(h, a, before);
    }

    method IsEmpty(h: int) returns (r: bool)
      requires Valid() && h in rings
      ensures |rings[h]| > 0 && (r <==> Items(h) == [])
    {
      assert RingAt(nodes, rings, h);
      assert LinkedAt(nodes, rings[h], 0);
      r := nodes[h].next == h;
    }

    /** Takes block `a` out of the list it is in, at position `k` of the circle. */
    method Remove(a: int, ghost h: int, ghost k: nat)
      requires Valid() && h in rings && 0 < k < |rings[h]| && rings[h][k] == a
      modifies this
      ensures Valid() && rings == old(rings)[h := old(rings)[h][..k] + old(rings)[h][k + 1..]]
    {
      ghost var before, ring := nodes, rings[h];
      assert RingAt(nodes, rings, h);
      UnlinkRing(nodes, ring, k);
      assert LinkedAt(nodes, ring, k) && LinkedAt(nodes, ring, k - 1)
          && LinkedAt(nodes, ring, if k + 1 < |ring| then k + 1 else 0);
      var prev, next := nodes[a].prev, nodes[a].next;
      nodes := nodes[prev := nodes[prev].(next := next)];
      nodes := nodes[next := nodes[next].(prev := prev)];
      assert nodes == Unlinked(before, a);
      ghost var rest := ring[..k] + ring[k + 1..];
      OneRing(before, nodes, rings, h, rest, a);
      rings := rings[h := rest];
    }

    /** Takes the first block off the list. */
    method Pop(h: int) returns (r: Option<int>)
      requires Valid() && h in rings
      modifies this
      ensures Valid() && |old(rings)[h]| > 0
      ensures old(Items(h)) == [] ==> r.None? && rings == old(rings)
      ensures old(Items(h)) != [] ==>
                && r == Some(old(Items(h))[0])
                && rings == old(rings)[h := [h] + old(Items(h))[1..]]
    {
      assert RingAt(nodes, rings, h);
      assert LinkedAt(nodes, rings[h], 0);
      var empty := IsEmpty(h);
      if empty {
        return None;
      }
      var a := nodes[h].next;
      ghost var ring := rings[h];
      Remove(a, h, 1);
      assert ring[..1] + ring[2..] == [h] + ring[1..][1..];
      r := Some(a);
    }
  }
}
