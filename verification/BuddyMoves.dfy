/** Every move of the allocator keeps the tree, and moves exactly the live blocks it should. */
module BuddyMoves {
  import opened PowersOfTwo
  import opened BuddyTree

  ghost function Live(t: Tree): set<Node> {
    set x | x in t.alloc && LiveNode(t, x)
  }

  lemma RootFacts(t: Tree)
    requires Shape(t)
    ensures Meets(t.lo, t.hi, Node(t.top, 0)) && IsNode(t.top, Node(t.top, 0))
    ensures forall x | IsNode(t.top, x) && x.k == t.top :: x == Node(t.top, 0)
  {
    assert Start(Node(t.top, 0)) == 0;
  }

  /** A live block is cut out of a split one, and the tree below it is blank. */
  lemma LiveFacts(t: Tree, x: Node)
    requires Wf(t) && LiveNode(t, x)
    ensures x.k < t.top && Parent(x) in t.split
    ensures x.k > 0 ==> Left(x) !in t.alloc && Right(x) !in t.alloc && Left(x) !in t.split && Right(x) !in t.split
  {
    RootFacts(t);
    Family(t.top, x);
    assert NodeOk(t, x);
    if x.k > 0 {
      assert NodeOk(t, Left(x)) && NodeOk(t, Right(x));
    }
  }

  lemma FreeFacts(t: Tree, x: Node)
    requires Wf(t) && FreeNode(t, x)
    ensures !Meets(t.lo, t.hi, x) && x !in t.split && Buddy(x) in t.alloc
    ensures x.k > 0 ==> Left(x) !in t.alloc && Right(x) !in t.alloc
  {
    Family(t.top, x);
    assert NodeOk(t, x) && NodeOk(t, Parent(x));
    if x.k > 0 {
      assert NodeOk(t, Left(x)) && NodeOk(t, Right(x));
    }
  }

  // ---------- lists ----------

  lemma {:induction false} WithoutIs(s: seq<nat>, x: nat)
    requires Distinct(s)
    ensures forall y :: y in Without(s, x) <==> y in s && y != x
    ensures Distinct(Without(s, x))
  {
    if s != [] {
      assert s == [s[0]] + s[1..];
      if s[0] != x {
        WithoutIs(s[1..], x);
        var r := Without(s[1..], x);
        assert Without(s, x) == [s[0]] + r && s[0] !in r;
        assert forall i | 0 <= i < |r| :: r[i] in r;
      }
    }
  }

  // ---------- taking a block off its list ----------

  lemma TakeShape(t: Tree, s: nat)
    requires Shape(t) && s <= t.top && t.free[s] != [] && IsNode(t.top, Node(s, t.free[s][0]))
    ensures Shape(Take(t, s))
  {
    hide IsNode, Pow2;
    assert Distinct(t.free[s]);
    assert Distinct(t.free[s][1..]);
  }

  lemma TakeNode(t: Tree, s: nat, y: Node)
    requires Wf(t) && s <= t.top && t.free[s] != [] && y.k <= t.top
    requires FreeNode(t, Node(s, t.free[s][0])) && !Meets(t.lo, t.hi, Node(s, t.free[s][0]))
    ensures NodeOk(Take(t, s), y)
  {
    hide IsNode, Meets, Pow2;
    assert t.free[s] == [t.free[s][0]] + t.free[s][1..];
    assert NodeOk(t, y);
    assert Distinct(t.free[s]);
  }

  lemma TakeWf(t: Tree, s: nat)
    requires Wf(t) && s <= t.top && t.free[s] != []
    ensures var x := Node(s, t.free[s][0]);
            && FreeNode(t, x) && LiveNode(Take(t, s), x)
            && Wf(Take(t, s)) && Live(Take(t, s)) == Live(t) + {x}
  {
    hide IsNode, Meets, Pow2;
    var x, u := Node(s, t.free[s][0]), Take(t, s);
    assert x.i in t.free[s] && NodeOk(t, x);
    FreeFacts(t, x);
    TakeShape(t, s);
    forall y: Node | y.k <= u.top
      ensures NodeOk(u, y)
    {
      TakeNode(t, s, y);
    }
  }

  // ---------- splitting ----------

  lemma SplitShape(t: Tree, x: Node)
    requires Shape(t) && IsNode(t.top, x) && x.k > 0 && Right(x).i !in t.free[x.k - 1]
    ensures Shape(SplitOnce(t, x))
  {
    Family(t.top, x);
    hide IsNode, Pow2;
    assert Distinct(t.free[x.k - 1]);
  }

  lemma SplitNode(t: Tree, x: Node, y: Node)
    requires Wf(t) && LiveNode(t, x) && x.k > 0 && y.k <= t.top
    ensures NodeOk(SplitOnce(t, x), y)
  {
    hide IsNode, Pow2, Meets, Left, Right, Parent, Buddy, Without;
    LiveFacts(t, x);
    Family(t.top, x);
    MeetsHalves(t.lo, t.hi, x);
    Kin(x, y);

    assert NodeOk(t, y) && NodeOk(t, x);
  }

  lemma SplitWf(t: Tree, x: Node)
    requires Wf(t) && LiveNode(t, x) && x.k > 0
    ensures Wf(SplitOnce(t, x)) && LiveNode(SplitOnce(t, x), Left(x))
    ensures Live(SplitOnce(t, x)) == Live(t) - {x} + {Left(x)}
  {
    hide IsNode, Pow2, Meets;
    LiveFacts(t, x);
    var u := SplitOnce(t, x);
    Family(t.top, x);
    MeetsHalves(t.lo, t.hi, x);
    assert NodeOk(t, Right(x));
    SplitShape(t, x);
    forall y: Node | y.k <= u.top
      ensures NodeOk(u, y)
    {
      SplitNode(t, x, y);
    }
  }

  // ---------- joining ----------

  lemma JoinShape(t: Tree, x: Node)
    requires Shape(t) && x.k < t.top && Parent(x) != Node(t.top, 0)
    ensures Shape(JoinOnce(t, x))
  {
    hide IsNode, Pow2;
    assert Distinct(t.free[x.k]);
    WithoutIs(t.free[x.k], Buddy(x).i);
  }

  lemma JoinNode(t: Tree, x: Node, y: Node)
    requires Wf(t) && LiveNode(t, x) && x.k < t.top && Buddy(x) !in t.alloc && y.k <= t.top
    ensures NodeOk(JoinOnce(t, x), y)
  {
    hide IsNode, Pow2, Meets, Left, Right, Parent, Buddy, Without;
    LiveFacts(t, x);
    var p, b := Parent(x), Buddy(x);
    Family(t.top, x);
    MeetsHalves(t.lo, t.hi, p);
    assert Distinct(t.free[x.k]);
    WithoutIs(t.free[x.k], b.i);
    Kin(x, y);

    assert NodeOk(t, y) && NodeOk(t, x) && NodeOk(t, b) && NodeOk(t, p);
  }

  lemma JoinWf(t: Tree, x: Node)
    requires Wf(t) && LiveNode(t, x) && Buddy(x) !in t.alloc
    ensures x.k < t.top && Wf(JoinOnce(t, x)) && LiveNode(JoinOnce(t, x), Parent(x))
    ensures Live(JoinOnce(t, x)) == Live(t) - {x} + {Parent(x)}
  {
    hide IsNode, Pow2, Meets;
    LiveFacts(t, x);
    var u, p := JoinOnce(t, x), Parent(x);
    Family(t.top, x);
    RootFacts(t);
    MeetsHalves(t.lo, t.hi, p);
    assert NodeOk(t, Buddy(x)) && NodeOk(t, p);
    JoinShape(t, x);
    forall y: Node | y.k <= u.top
      ensures NodeOk(u, y)
    {
      JoinNode(t, x, y);
    }
  }

  // ---------- giving back ----------

  lemma GiveShape(t: Tree, x: Node)
    requires Shape(t) && x.k < t.top && x.i !in t.free[x.k]
    ensures Shape(Give(t, x))
  {
    hide IsNode, Pow2;
    assert Distinct(t.free[x.k]);
  }

  lemma GiveNode(t: Tree, x: Node, y: Node)
    requires Wf(t) && LiveNode(t, x) && Buddy(x) in t.alloc && y.k <= t.top
    ensures NodeOk(Give(t, x), y)
  {
    hide IsNode, Pow2, Meets, Left, Right, Parent, Buddy, Without;
    LiveFacts(t, x);
    Family(t.top, x);
    Kin(x, y);

    assert NodeOk(t, y) && NodeOk(t, x);
  }

  lemma GiveWf(t: Tree, x: Node)
    requires Wf(t) && LiveNode(t, x) && Buddy(x) in t.alloc
    ensures Wf(Give(t, x)) && Live(Give(t, x)) == Live(t) - {x}
  {
    hide IsNode, Pow2, Meets;
    LiveFacts(t, x);
    var u := Give(t, x);
    assert NodeOk(t, x);
    GiveShape(t, x);
    forall y: Node | y.k <= u.top
      ensures NodeOk(u, y)
    {
      GiveNode(t, x, y);
    }
  }
}
