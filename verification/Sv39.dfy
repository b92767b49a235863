/** Page-table trees as words in memory, and the flat map from page numbers to entries that
    they stand for. */
module Sv39 {
  import opened Options
  import opened PowersOfTwo

  const PGSIZE := 4096
  const ENTRIES := 512
  /** 1 << 38, one bit less than Sv39 allows. */
  const MAXVA := 0x40_0000_0000
  /** The flag bits of an entry; V is bit 0. */
  const FLAGS := 1024

  // ---------- entries ----------

  predicate IsValid(pte: nat) {
    pte % 2 == 1
  }

  function PteFrame(pte: nat): nat {
    pte / FLAGS
  }

  function PteFlags(pte: nat): nat {
    pte % FLAGS
  }

  function WithV(perm: nat): nat {
    if perm % 2 == 1 then perm else perm + 1
  }

  /** `write_perm`: the frame of pa and perm|V. */
  function MakePte(pa: nat, perm: nat): nat {
    (pa / PGSIZE) * FLAGS + WithV(perm)
  }

  /** An entry gives back the frame and the flags it was made from. */
  lemma PteRoundTrip(pa: nat, perm: nat)
    requires perm < FLAGS
    ensures IsValid(MakePte(pa, perm)) && PteFrame(MakePte(pa, perm)) == pa / PGSIZE
    ensures PteFlags(MakePte(pa, perm)) == WithV(perm)
  {}

  /** An entry is made of its frame and flags: copying flags and frame copies the entry. */
  lemma PteIs(pte: nat)
    requires IsValid(pte)
    ensures MakePte(PteFrame(pte) * PGSIZE, PteFlags(pte)) == pte
  {
    var q, f := pte / FLAGS, pte % FLAGS;
    assert pte == 1024 * q + f && f % 2 == 1;
    assert (q * PGSIZE) / PGSIZE == q;
  }

  // ---------- addresses ----------

  function PgRoundDown(a: nat): nat {
    (a / PGSIZE) * PGSIZE
  }

  function PgRoundUp(a: nat): nat {
    PgRoundDown(a + PGSIZE - 1)
  }

  /** Bits 12+9*level up to 20+9*level of an address. */
  function PageNum(va: nat, level: nat): (i: nat)
    requires level <= 2
    ensures i < ENTRIES
  {
    match level
    case 0 => (va / PGSIZE) % ENTRIES
    case 1 => (va / (PGSIZE * ENTRIES)) % ENTRIES
    case 2 => (va / (PGSIZE * ENTRIES * ENTRIES)) % ENTRIES
  }

  /** Up to and including MAXVA, the three indices determine the page. */
  lemma IndicesDetermine(v: nat, w: nat)
    requires v * PGSIZE <= MAXVA && w * PGSIZE <= MAXVA
    requires forall l | 0 <= l <= 2 :: PageNum(v * PGSIZE, l) == PageNum(w * PGSIZE, l)
    ensures v == w
  {
    PageIndices(v);
    PageIndices(w);
    assert PageNum(v * PGSIZE, 0) == PageNum(w * PGSIZE, 0);
    assert PageNum(v * PGSIZE, 1) == PageNum(w * PGSIZE, 1);
    assert PageNum(v * PGSIZE, 2) == PageNum(w * PGSIZE, 2);
  }

  lemma PageIndices(v: nat)
    requires v * PGSIZE <= MAXVA
    ensures v == PageNum(v * PGSIZE, 2) * ENTRIES * ENTRIES + PageNum(v * PGSIZE, 1) * ENTRIES + PageNum(v * PGSIZE, 0)
  {
    var q := v / ENTRIES;
    assert (v * PGSIZE) / PGSIZE == v;
    assert (v * PGSIZE) / (PGSIZE * ENTRIES) == q;
    assert (v * PGSIZE) / (PGSIZE * ENTRIES * ENTRIES) == q / ENTRIES;
    assert q / ENTRIES < ENTRIES;
  }

  // ---------- tables ----------

  type Tables = map<nat, seq<nat>>

  function Zeros(): (z: seq<nat>)
    ensures |z| == ENTRIES && forall i | 0 <= i < ENTRIES :: z[i] == 0
  {
    seq(ENTRIES, _ => 0)
  }

  predicate IsTable(ts: Tables, t: nat) {
    t in ts && |ts[t]| == ENTRIES
  }

  /** The table that entry i of table t points to. */
  function Child(ts: Tables, t: nat, i: nat): Option<nat> {
    if IsTable(ts, t) && i < ENTRIES && IsValid(ts[t][i]) then Some(PteFrame(ts[t][i])) else None
  }

  datatype Slot = Slot(t: nat, i: nat)

  /** Where the walk for address va ends. */
  function Walk(ts: Tables, root: nat, va: nat): Option<Slot> {
    var l1 := Child(ts, root, PageNum(va, 2));
    if l1.None? then None
    else
      var l0 := Child(ts, l1.value, PageNum(va, 1));
      if l0.None? then None else Some(Slot(l0.value, PageNum(va, 0)))
  }

  function EntryAt(ts: Tables, s: Slot): Option<nat> {
    if IsTable(ts, s.t) && s.i < ENTRIES && IsValid(ts[s.t][s.i]) then Some(ts[s.t][s.i]) else None
  }

  function Written(ts: Tables, s: Slot, pte: nat): Tables
    requires IsTable(ts, s.t) && s.i < ENTRIES
  {
    var row: seq<nat> := ts[s.t][..s.i] + [pte] + ts[s.t][s.i + 1..];
    ts[s.t := row]
  }

  /** The flat map: the valid entry for page v, if any. */
  function Lookup(ts: Tables, root: nat, v: nat): Option<nat> {
    var s := Walk(ts, root, v * PGSIZE);
    if s.None? then None else EntryAt(ts, s.value)
  }

  // ---------- unshared trees ----------

  /** A table's place: the tree it is in and the indices that lead to it. */
  datatype Place = Place(root: nat, path: seq<nat>)

  ghost predicate Follows(ts: Tables, owner: map<nat, Place>, t: nat, i: nat) {
    t in owner && |owner[t].path| < 2 && Child(ts, t, i).Some? ==>
      var c := Child(ts, t, i).value;
      c in owner && owner[c] == Place(owner[t].root, owner[t].path + [i])
  }

  /** Every table has one place, in one tree: no table page is shared. */
  ghost predicate Unshared(ts: Tables, owner: map<nat, Place>, roots: set<nat>) {
    && (forall t | t in owner :: IsTable(ts, t))
    && (forall r | r in roots :: r in owner && owner[r] == Place(r, []))
    && (forall t, i | t in owner && 0 <= i < ENTRIES :: Follows(ts, owner, t, i))
  }

  /** The walk ends in a table that only pages with the same upper indices use. */
  lemma WalkPlace(ts: Tables, owner: map<nat, Place>, roots: set<nat>, root: nat, va: nat)
    requires Unshared(ts, owner, roots) && root in roots && Walk(ts, root, va).Some?
    ensures var s := Walk(ts, root, va).value;
            && s.t in owner && owner[s.t] == Place(root, [PageNum(va, 2), PageNum(va, 1)]) && s.i == PageNum(va, 0)
            && IsTable(ts, s.t)
  {
    assert Follows(ts, owner, root, PageNum(va, 2));
    var t1 := Child(ts, root, PageNum(va, 2)).value;
    assert Follows(ts, owner, t1, PageNum(va, 1));
  }

  // ---------- writing a leaf entry ----------

  /** The flat maps of all trees agree but for page v of tree `root`. */
  ghost predicate SameElsewhere(ts: Tables, ts': Tables, roots: set<nat>, root: nat, v: nat) {
    forall r, w: nat | r in roots && w * PGSIZE <= MAXVA && !(r == root && w == v) ::
      Lookup(ts', r, w) == Lookup(ts, r, w)
  }

  /** Writing the entry of page v changes the flat map at v and nowhere else, in any tree. */
  lemma LeafWritten(ts: Tables, owner: map<nat, Place>, roots: set<nat>, root: nat, v: nat, pte: nat)
    requires Unshared(ts, owner, roots) && root in roots && v * PGSIZE <= MAXVA
    requires Walk(ts, root, v * PGSIZE).Some?
    ensures var s := Walk(ts, root, v * PGSIZE).value;
            && IsTable(ts, s.t) && s.i < ENTRIES
            && var ts' := Written(ts, s, pte);
               && Unshared(ts', owner, roots)
               && Lookup(ts', root, v) == (if IsValid(pte) then Some(pte) else None)
               && SameElsewhere(ts, ts', roots, root, v)
  {
    WalkPlace(ts, owner, roots, root, v * PGSIZE);
    var s := Walk(ts, root, v * PGSIZE).value;
    var ts' := Written(ts, s, pte);
    hide Lookup, PageNum, Walk;
    forall t, i | t in owner && 0 <= i < ENTRIES
      ensures Follows(ts', owner, t, i)
    {
      assert Follows(ts, owner, t, i);
    }
    LookupWritten(ts, owner, roots, root, v, s, pte);
    forall r, w: nat | r in roots && w * PGSIZE <= MAXVA && !(r == root && w == v)
      ensures Lookup(ts', r, w) == Lookup(ts, r, w)
    {
      LookupElsewhere(ts, owner, roots, root, v, s, pte, r, w);
    }
  }

  lemma LookupWritten(ts: Tables, owner: map<nat, Place>, roots: set<nat>, root: nat, v: nat, s: Slot, pte: nat)
    requires Unshared(ts, owner, roots) && root in roots && Walk(ts, root, v * PGSIZE) == Some(s)
    ensures IsTable(ts, s.t) && s.i < ENTRIES
    ensures Lookup(Written(ts, s, pte), root, v) == (if IsValid(pte) then Some(pte) else None)
  {
    WalkPlace(ts, owner, roots, root, v * PGSIZE);
    WalkUnchanged(ts, Written(ts, s, pte), owner, roots, s.t, root, v * PGSIZE);
    hide Walk, PageNum;
  }

  lemma LookupElsewhere(ts: Tables, owner: map<nat, Place>, roots: set<nat>, root: nat, v: nat, s: Slot, pte: nat,
                        r: nat, w: nat)
    requires Unshared(ts, owner, roots) && root in roots && Walk(ts, root, v * PGSIZE) == Some(s)
    requires r in roots && v * PGSIZE <= MAXVA && w * PGSIZE <= MAXVA && !(r == root && w == v)
    ensures IsTable(ts, s.t) && s.i < ENTRIES
    ensures Lookup(Written(ts, s, pte), r, w) == Lookup(ts, r, w)
  {
    WalkPlace(ts, owner, roots, root, v * PGSIZE);
    WalkUnchanged(ts, Written(ts, s, pte), owner, roots, s.t, r, w * PGSIZE);
    hide Walk, PageNum;
    var o := Walk(ts, r, w * PGSIZE);
    if o.Some? {
      WalkPlace(ts, owner, roots, r, w * PGSIZE);
      if o.value == s {
        assert [PageNum(v * PGSIZE, 2), PageNum(v * PGSIZE, 1)][0] == PageNum(w * PGSIZE, 2);
        assert [PageNum(v * PGSIZE, 2), PageNum(v * PGSIZE, 1)][1] == PageNum(w * PGSIZE, 1);
        IndicesDetermine(v, w);
      }
    }
  }

  /** A write to a leaf table leaves every walk as it is. */
  lemma WalkUnchanged(ts: Tables, ts': Tables, owner: map<nat, Place>, roots: set<nat>, t: nat, root: nat, va: nat)
    requires Unshared(ts, owner, roots) && root in roots && t in owner && |owner[t].path| == 2
    requires forall x | x in ts && x != t :: x in ts' && ts'[x] == ts[x]
    requires forall x | x in owner :: IsTable(ts', x)
    ensures Walk(ts', root, va) == Walk(ts, root, va)
  {
    hide PageNum;
    assert Follows(ts, owner, root, PageNum(va, 2));
    assert Child(ts', root, PageNum(va, 2)) == Child(ts, root, PageNum(va, 2));
    var c := Child(ts, root, PageNum(va, 2));
    if c.Some? {
      assert Child(ts', c.value, PageNum(va, 1)) == Child(ts, c.value, PageNum(va, 1));
    }
  }

  // ---------- adding a table ----------

  /** Table n, empty, becomes entry i of table t. */
  function Added(ts: Tables, t: nat, i: nat, n: nat): Tables
    requires IsTable(ts, t) && i < ENTRIES
  {
    Written(ts, Slot(t, i), n * FLAGS + 1)[n := Zeros()]
  }

  lemma NewIsEmpty(ts: Tables, t: nat, i: nat, n: nat, j: nat)
    requires IsTable(ts, t) && i < ENTRIES
    ensures Child(Added(ts, t, i, n), n, j) == None
  {}

  lemma AddedChild(ts: Tables, t: nat, i: nat, n: nat, x: nat, j: nat)
    requires IsTable(ts, t) && i < ENTRIES && n !in ts && IsTable(ts, x)
    ensures Child(Added(ts, t, i, n), x, j) == if x == t && j == i then Some(n) else Child(ts, x, j)
  {
    LinkIs(n);
    hide IsValid, PteFrame;
    if x == t {
      WrittenAt(ts, Slot(t, i), n * FLAGS + 1, j);
    }
  }

  lemma LinkIs(n: nat)
    ensures IsValid(n * FLAGS + 1) && PteFrame(n * FLAGS + 1) == n
  {
    MulDiv(n, FLAGS, 1);
    MulDiv(512 * n, 2, 1);
  }

  lemma WrittenAt(ts: Tables, s: Slot, pte: nat, j: nat)
    requires IsTable(ts, s.t) && s.i < ENTRIES
    ensures IsTable(Written(ts, s, pte), s.t)
    ensures j < ENTRIES ==> Written(ts, s, pte)[s.t][j] == if j == s.i then pte else ts[s.t][j]
  {}

  lemma AddedUnshared(ts: Tables, owner: map<nat, Place>, roots: set<nat>, t: nat, i: nat, n: nat)
    requires Unshared(ts, owner, roots) && t in owner && |owner[t].path| < 2 && i < ENTRIES
    requires Child(ts, t, i).None? && n !in ts
    ensures IsTable(ts, t)
    ensures Unshared(Added(ts, t, i, n), owner[n := Place(owner[t].root, owner[t].path + [i])], roots)
    ensures Child(Added(ts, t, i, n), t, i) == Some(n)
  {
    var ts', owner' := Added(ts, t, i, n), owner[n := Place(owner[t].root, owner[t].path + [i])];
    assert IsTable(ts, t);
    hide Child;
    forall j: nat
      ensures Child(ts', n, j) == None
    {
      NewIsEmpty(ts, t, i, n, j);
    }
    forall x, j: nat | x in owner
      ensures Child(ts', x, j) == if x == t && j == i then Some(n) else Child(ts, x, j)
    {
      AddedChild(ts, t, i, n, x, j);
    }
    forall x, j | x in owner' && 0 <= j < ENTRIES
      ensures Follows(ts', owner', x, j)
    {
      if x != n {
        assert Follows(ts, owner, x, j);
      }
    }
    forall r | r in roots
      ensures r in owner' && owner'[r] == Place(r, [])
    {
      assert r in owner && IsTable(ts, r);
    }
  }

  /** Adding an empty table changes no lookup, in any tree. */
  lemma AddedLookup(ts: Tables, owner: map<nat, Place>, roots: set<nat>, t: nat, i: nat, n: nat, root: nat, v: nat)
    requires Unshared(ts, owner, roots) && t in owner && |owner[t].path| < 2 && i < ENTRIES
    requires Child(ts, t, i).None? && n !in ts && root in roots
    ensures IsTable(ts, t) && Lookup(Added(ts, t, i, n), root, v) == Lookup(ts, root, v)
  {
    hide PageNum;
    var ts' := Added(ts, t, i, n);
    var va := v * PGSIZE;
    var i2, i1, i0 := PageNum(va, 2), PageNum(va, 1), PageNum(va, 0);
    assert IsTable(ts, t) && IsTable(ts, root);
    assert Follows(ts, owner, root, i2);
    var l1 := Child(ts, root, i2);
    if l1.Some? {
      assert Child(ts', root, i2) == l1;
      assert Follows(ts, owner, l1.value, i1);
      var l0 := Child(ts, l1.value, i1);
      if l0.Some? {
        assert Child(ts', l1.value, i1) == l0;
        assert l0.value != t && l0.value != n;
      }
    }
  }
}
