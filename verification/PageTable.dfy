/** Physical memory with page tables and data frames in it, and the kernel's operations on page
    tables. A frame is named by its number; trees are named by the frame of their root. */
module PageTable {
  import opened Options
  import opened Sv39

  type Bytes = seq<int>

  /** R, W, X and U. */
  const USER_RWX := 30

  datatype MapResult = Mapped | RemapPanic | WalkPanic

  datatype Outcome = Done | Panic

  // ---------- frames nobody uses ----------

  lemma {:induction false} Bounded(s: set<nat>) returns (m: nat)
    ensures forall x | x in s :: x < m
    decreases |s|
  {
    m := 0;
    if s != {} {
      var x :| x in s;
      var k := Bounded(s - {x});
      m := if x < k then k else x + 1;
      forall y | y in s
        ensures y < m
      {
        assert y == x || y in s - {x};
      }
    }
  }

  lemma FreshExists(s: set<nat>)
    ensures exists n: nat :: n !in s
  {
    var m := Bounded(s);
    assert m !in s;
  }

  // ---------- what an operation leaves alone ----------

  ghost predicate SameLookups(ts: Tables, ts': Tables, roots: set<nat>) {
    forall r, w: nat | r in roots && w * PGSIZE <= MAXVA :: Lookup(ts', r, w) == Lookup(ts, r, w)
  }

  /** All flat maps agree but for pages [v0, v1) of tree `root`. */
  ghost predicate SameOutside(ts: Tables, ts': Tables, roots: set<nat>, root: nat, v0: nat, v1: nat) {
    forall r, w: nat | r in roots && w * PGSIZE <= MAXVA && !(r == root && v0 <= w < v1) ::
      Lookup(ts', r, w) == Lookup(ts, r, w)
  }

  lemma AddedSame(ts: Tables, owner: map<nat, Place>, roots: set<nat>, t: nat, i: nat, n: nat)
    requires Unshared(ts, owner, roots) && t in owner && |owner[t].path| < 2 && i < ENTRIES
    requires Child(ts, t, i).None? && n !in ts
    ensures IsTable(ts, t) && SameLookups(ts, Added(ts, t, i, n), roots)
  {
    hide Unshared, Lookup;
    TableIs(ts, owner, roots, t);
    forall r, w: nat | r in roots && w * PGSIZE <= MAXVA
      ensures Lookup(Added(ts, t, i, n), r, w) == Lookup(ts, r, w)
    {
      AddedLookup(ts, owner, roots, t, i, n, r, w);
    }
  }

  lemma TableIs(ts: Tables, owner: map<nat, Place>, roots: set<nat>, t: nat)
    requires Unshared(ts, owner, roots) && t in owner
    ensures IsTable(ts, t)
  {}

  predicate CanMap(ts: Tables, root: nat, v: nat) {
    v * PGSIZE <= MAXVA && Lookup(ts, root, v).None?
  }

  ghost predicate RangeFree(ts: Tables, root: nat, v0: nat, v1: nat) {
    forall v: nat | v0 <= v < v1 :: CanMap(ts, root, v)
  }

  /** Pages [v0, v1) lead to consecutive frames from pa on, with flags perm|V. */
  ghost predicate RangeMapped(ts: Tables, root: nat, v0: nat, v1: nat, pa: nat, perm: nat) {
    forall v: nat | v0 <= v < v1 :: PageAt(ts, root, v0, v, pa, perm)
  }

  predicate PageAt(ts: Tables, root: nat, v0: nat, v: nat, pa: nat, perm: nat) {
    v0 <= v && Lookup(ts, root, v) == Some(MakePte(pa + (v - v0) * PGSIZE, perm))
  }

  /** One page of `map`: the walk changes nothing, the write changes page v. */
  lemma MapStep(ts0: Tables, ts: Tables, ts1: Tables, ts2: Tables, roots: set<nat>, root: nat, v0: nat, v: nat,
                pa: nat, perm: nat)
    requires root in roots && v0 <= v && v * PGSIZE <= MAXVA
    requires SameOutside(ts0, ts, roots, root, v0, v) && RangeMapped(ts, root, v0, v, pa, perm)
             && RangeFree(ts0, root, v0, v)
    requires SameLookups(ts, ts1, roots) && SameElsewhere(ts1, ts2, roots, root, v)
    requires PageAt(ts2, root, v0, v, pa, perm) && Lookup(ts1, root, v).None?
    ensures SameOutside(ts0, ts2, roots, root, v0, v + 1) && RangeMapped(ts2, root, v0, v + 1, pa, perm)
    ensures RangeFree(ts0, root, v0, v + 1)
  {
    hide Lookup;
    forall w: nat | v0 <= w < v + 1
      ensures PageAt(ts2, root, v0, w, pa, perm) && CanMap(ts0, root, w)
    {
      if w < v {
        assert CanMap(ts0, root, w) && PageAt(ts, root, v0, w, pa, perm);
      }
    }
  }

  // ---------- a partial walk ----------

  /** The indices that lead to the table of `level`. */
  function PathTo(va: nat, level: nat): seq<nat>
    requires level <= 2
  {
    if level == 2 then [] else if level == 1 then [PageNum(va, 2)] else [PageNum(va, 2), PageNum(va, 1)]
  }

  predicate WalksTo(ts: Tables, root: nat, va: nat, level: nat, t: nat)
    requires level <= 2
  {
    if level == 2 then t == root
    else if level == 1 then Child(ts, root, PageNum(va, 2)) == Some(t)
    else
      && Child(ts, root, PageNum(va, 2)).Some?
      && Child(ts, Child(ts, root, PageNum(va, 2)).value, PageNum(va, 1)) == Some(t)
  }

  /** One level down an existing table. */
  lemma StepDown(ts: Tables, owner: map<nat, Place>, roots: set<nat>, root: nat, va: nat, level: nat, t: nat)
    requires Unshared(ts, owner, roots) && root in roots && 1 <= level <= 2 && WalksTo(ts, root, va, level, t)
    requires t in owner && owner[t] == Place(root, PathTo(va, level)) && Child(ts, t, PageNum(va, level)).Some?
    ensures var c := Child(ts, t, PageNum(va, level)).value;
            WalksTo(ts, root, va, level - 1, c) && c in owner && owner[c] == Place(root, PathTo(va, level - 1))
  {
    assert Follows(ts, owner, t, PageNum(va, level));
    hide PageNum;
  }

  /** One level down a table just added. */
  lemma StepAdded(ts: Tables, owner: map<nat, Place>, roots: set<nat>, root: nat, va: nat, level: nat, t: nat, n: nat)
    requires Unshared(ts, owner, roots) && root in roots && 1 <= level <= 2 && WalksTo(ts, root, va, level, t)
    requires t in owner && owner[t] == Place(root, PathTo(va, level)) && Child(ts, t, PageNum(va, level)).None?
             && n !in ts
    ensures IsTable(ts, t)
    ensures var ts' := Added(ts, t, PageNum(va, level), n);
            var owner' := owner[n := Place(root, PathTo(va, level - 1))];
            && Unshared(ts', owner', roots) && SameLookups(ts, ts', roots)
            && WalksTo(ts', root, va, level - 1, n)
  {
    var i := PageNum(va, level);
    AddedUnshared(ts, owner, roots, t, i, n);
    AddedSame(ts, owner, roots, t, i, n);
    assert owner[t].path + [i] == PathTo(va, level - 1);
    hide PageNum, Unshared, SameLookups;
    if level == 1 {
      RootApart(ts, owner, roots, root, t);
    }
  }

  lemma RootApart(ts: Tables, owner: map<nat, Place>, roots: set<nat>, root: nat, t: nat)
    requires Unshared(ts, owner, roots) && root in roots && t in owner && owner[t].path != []
    ensures root != t && root in ts && IsTable(ts, root)
  {}

  class PhysMem {
    var tables: Tables
    /** Data frames by number. */
    var frames: map<nat, Bytes>
    /** The roots of all trees, and the place of every table in them. */
    ghost var roots: set<nat>
    ghost var owner: map<nat, Place>

    ghost predicate Valid()
      reads this
    {
      && Unshared(tables, owner, roots)
      && (forall n | n in frames :: n !in tables && |frames[n]| == PGSIZE)
    }

    /** Any allocator: some frame that is not in use. */
    method FreshFrame() returns (n: nat)
      ensures n !in tables && n !in frames
    {
      ghost var used := tables.Keys + frames.Keys;
      FreshExists(used);
      n :| n !in tables && n !in frames;
    }

    /** Creates an empty tree. */
    method UvmCreate() returns (root: nat)
      requires Valid()
      modifies this`tables, this`roots, this`owner
      ensures Valid() && root !in old(roots) && roots == old(roots) + {root}
      ensures forall v: nat :: Lookup(tables, root, v) == None
      ensures SameLookups(old(tables), tables, old(roots))
    {
      root := FreshFrame();
      NewRoot(tables, owner, roots, root);
      tables := tables[root := Zeros()];
      roots, owner := roots + {root}, owner[root := Place(root, [])];
    }

    /** Walks to the leaf entry of va, if the tables on the way exist. */
    method Translate(root: nat, va: nat) returns (r: Option<Slot>)
      requires Valid() && root in roots
      ensures r == if va > MAXVA then None else Walk(tables, root, va)
      ensures r.Some? ==> IsTable(tables, r.value.t) && r.value.i < ENTRIES
    {
      hide PageNum;
      if va > MAXVA {
        return None;
      }
      var t, level := root, 2;
      while level >= 1
        invariant 0 <= level <= 2 && t in owner && owner[t] == Place(root, PathTo(va, level))
        invariant WalksTo(tables, root, va, level, t)
      {
        TableIs(tables, owner, roots, t);
        var pte := tables[t][PageNum(va, level)];
        if !IsValid(pte) {
          return None;
        }
        StepDown(tables, owner, roots, root, va, level, t);
        t := PteFrame(pte);
        level := level - 1;
      }
      TableIs(tables, owner, roots, t);
      r := Some(Slot(t, PageNum(va, 0)));
    }

    /** The same walk, adding the tables that are missing. */
    method TranslateOrAlloc(root: nat, va: nat) returns (s: Slot)
      requires Valid() && root in roots && va <= MAXVA
      modifies this`tables, this`owner
      ensures Valid() && Walk(tables, root, va) == Some(s) && SameLookups(old(tables), tables, roots)
      ensures IsTable(tables, s.t) && s.i < ENTRIES
      ensures old(tables).Keys <= tables.Keys
    {
      hide PageNum, SameLookups, Unshared;
      SameRefl(tables, roots);
      RootOwned(tables, owner, roots, root);
      var t, level := root, 2;
      while level >= 1
        invariant 0 <= level <= 2 && Valid() && t in owner && owner[t] == Place(root, PathTo(va, level))
        invariant WalksTo(tables, root, va, level, t)
        invariant SameLookups(old(tables), tables, roots) && old(tables).Keys <= tables.Keys
      {
        TableIs(tables, owner, roots, t);
        var pte := tables[t][PageNum(va, level)];
        if IsValid(pte) {
          StepDown(tables, owner, roots, root, va, level, t);
          t := PteFrame(pte);
        } else {
          var n := FreshFrame();
          StepAdded(tables, owner, roots, root, va, level, t, n);
          SameTrans(old(tables), tables, Added(tables, t, PageNum(va, level), n), roots);
          tables := Written(tables, Slot(t, PageNum(va, level)), n * FLAGS + 1)[n := Zeros()];
          owner := owner[n := Place(root, PathTo(va, level - 1))];
          t := n;
        }
        level := level - 1;
      }
      TableIs(tables, owner, roots, t);
      s := Slot(t, PageNum(va, 0));
    }

    /** Maps the pages that [va0, va0 + size) touches to the frames from pa0 on. Panics on the
        first page that is mapped already, or too high. */
    method Map(root: nat, va0: nat, pa0: nat, size: nat, perm: nat) returns (r: MapResult)
      requires Valid() && root in roots && perm < FLAGS
      modifies this`tables, this`owner
      ensures Valid() && old(tables).Keys <= tables.Keys
      ensures var v0, v1 := va0 / PGSIZE, PgRoundUp(va0 + size) / PGSIZE;
              && (r.Mapped? <==> RangeFree(old(tables), root, v0, v1))
              && (r.RemapPanic?
                  <==> exists v: nat :: v0 <= v < v1 && v * PGSIZE <= MAXVA && Lookup(old(tables), root, v).Some?)
              && (r.Mapped?
                  ==> RangeMapped(tables, root, v0, v1, pa0, perm)
                      && SameOutside(old(tables), tables, roots, root, v0, v1))
    {
      hide Unshared, SameLookups, SameOutside, SameElsewhere, RangeMapped, RangeFree, Lookup, Walk, MakePte, Written;
      ghost var v0, v1 := va0 / PGSIZE, PgRoundUp(va0 + size) / PGSIZE;
      var last := PgRoundUp(va0 + size);
      var va, pa := PgRoundDown(va0), pa0;
      ghost var v := v0;
      MapStart(tables, roots, root, v0, pa0, perm);
      while va != last
        invariant v0 <= v <= v1 && va == v * PGSIZE && pa == pa0 + (v - v0) * PGSIZE && last == v1 * PGSIZE
        invariant Valid() && old(tables).Keys <= tables.Keys
        invariant SameOutside(old(tables), tables, roots, root, v0, v) && RangeFree(old(tables), root, v0, v)
        invariant RangeMapped(tables, root, v0, v, pa0, perm)
        decreases v1 - v
      {
        if va > MAXVA {
          TooHigh(old(tables), root, v0, v, v1);
          return WalkPanic;
        }
        ghost var ts := tables;
        NotYet(old(tables), tables, roots, root, v0, v);
        var s := TranslateOrAlloc(root, va);
        var pte := tables[s.t][s.i];
        EntryIs(ts, tables, roots, root, v, s);
        if IsValid(pte) {
          AlreadyMapped(old(tables), root, v0, v, v1);
          return RemapPanic;
        }
        ghost var entry := MakePte(pa, perm);
        PteRoundTrip(pa, perm);
        LeafWritten(tables, owner, roots, root, v, entry);
        WrittenKeys(tables, s, entry);
        MapStep(old(tables), ts, tables, Written(tables, s, entry), roots, root, v0, v, pa0, perm);
        tables := Written(tables, s, MakePte(pa, perm));
        va, pa := va + PGSIZE, pa + PGSIZE;
        v := v + 1;
      }
      AllFree(old(tables), root, v0, v1);
      r := Mapped;
    }

    /** The frame of a mapped page; `is_user` tests the valid bit only. */
    method PgtTranslate(root: nat, va: nat) returns (r: Option<nat>)
      requires Valid() && root in roots
      ensures va > MAXVA ==> r.None?
      ensures va <= MAXVA ==>
                var e := Lookup(tables, root, va / PGSIZE);
                r == if e.None? then None else Some(PteFrame(e.value))
    {
      hide Unshared;
      var s := Translate(root, va);
      SamePage(tables, root, va);
      if s.None? {
        return None;
      }
      var pte := tables[s.value.t][s.value.i];
      if !IsValid(pte) {
        return None;
      }
      r := Some(PteFrame(pte));
    }

    /** Grows an address space page by page with zeroed frames of its own. Gives `None` where
        mapping a page panics. */
    method UvmAlloc(root: nat, oldSize: nat, newSize: nat) returns (r: Option<nat>)
      requires Valid() && root in roots
      modifies this
      ensures r.Some? ==> Valid() && roots == old(roots)
      ensures newSize < oldSize ==> r == Some(oldSize) && tables == old(tables) && frames == old(frames)
      ensures newSize >= oldSize ==>
                var v0, v1 := PgRoundUp(oldSize) / PGSIZE, PgRoundUp(newSize) / PGSIZE;
                && (r.Some? <==> RangeFree(old(tables), root, v0, v1))
                && (r.Some? ==> r == Some(newSize) && SameOutside(old(tables), tables, roots, root, v0, v1)
                                && NewPages(tables, frames, root, v0, v1, old(frames).Keys)
                                && ZeroPages(tables, frames, root, v0, v1)
                                && FramesKept(old(frames), frames))
    {
      hide Unshared, SameOutside, RangeFree, RangeMapped, Lookup, NewPages, ZeroPages, FramesKept;
      if newSize < oldSize {
        return Some(oldSize);
      }
      ghost var v0, v1 := PgRoundUp(oldSize) / PGSIZE, PgRoundUp(newSize) / PGSIZE;
      ghost var v := v0;
      var cur := PgRoundUp(oldSize);
      AllocStart(tables, frames, roots, root, v0);
      while cur < newSize
        invariant v0 <= v && cur == v * PGSIZE && (v <= v1 || v0 > v1)
        invariant Valid() && roots == old(roots)
        invariant SameOutside(old(tables), tables, roots, root, v0, v) && RangeFree(old(tables), root, v0, v)
        invariant NewPages(tables, frames, root, v0, v, old(frames).Keys) && ZeroPages(tables, frames, root, v0, v)
        invariant FramesKept(old(frames), frames)
        decreases newSize - cur
      {
        var n := FreshFrame();
        ghost var ts, fs := tables, frames;
        frames := frames[n := ZeroBytes()];
        var m := Map(root, cur, n * PGSIZE, PGSIZE, USER_RWX);
        OnePage(v);
        RangeGrows(old(tables), ts, roots, root, v0, v, v1);
        if !m.Mapped? {
          return None;
        }
        FreeIsLow(old(tables), root, v0, v);
        AllocStep(old(tables), ts, tables, old(frames), fs, roots, root, v0, v, n, ZeroBytes(), USER_RWX);
        ZeroStep(ts, tables, fs, roots, root, v0, v, n);
        cur := cur + PGSIZE;
        v := v + 1;
      }
      r := Some(newSize);
    }

    /** Copies the first `size` bytes of an address space, frame by frame, into another. The loop
        ends where it meets `size` exactly; past a size that is no multiple of the page size it
        goes on until a page is missing. */
    method UvmCopy(parent: nat, child: nat, size: nat) returns (r: Outcome)
      requires Valid() && parent in roots && child in roots && parent != child
      requires BackedUpTo(tables, frames, parent, PagesAsked(size))
      modifies this
      ensures Valid() && roots == old(roots)
      ensures var n := size / PGSIZE;
              && (r.Done? <==> size % PGSIZE == 0 && ReadyUpTo(old(tables), parent, child, n))
              && (r.Done? ==> Copies(tables, frames, parent, child, n)
                              && NewPages(tables, frames, child, 0, n, old(frames).Keys)
                              && SameOutside(old(tables), tables, roots, child, 0, n)
                              && FramesKept(old(frames), frames))
    {
      hide Unshared, SameOutside, RangeFree, RangeMapped, Lookup, NewPages, Copies, FramesKept;
      hide ReadyUpTo, BackedUpTo, PteFrame, PteFlags, Walk;
      ghost var n := size / PGSIZE;
      var va := 0;
      ghost var v: nat := 0;
      CopyStart(tables, frames, roots, parent, child);
      while va != size
        invariant v <= PagesAsked(size) && va == v * PGSIZE && Valid() && roots == old(roots)
        invariant SameOutside(old(tables), tables, roots, child, 0, v) && ReadyUpTo(old(tables), parent, child, v)
        invariant NewPages(tables, frames, child, 0, v, old(frames).Keys) && Copies(tables, frames, parent, child, v)
        invariant FramesKept(old(frames), frames)
        decreases PagesAsked(size) - v
      {
        ghost var ts, fs := tables, frames;
        ReadyNext(old(tables), tables, roots, parent, child, v, n);
        var slot := Translate(parent, va);
        if slot.None? {
          NoSlot(tables, parent, v);
          return Panic;
        }
        var pte := tables[slot.value.t][slot.value.i];
        SlotIs(tables, parent, v, slot.value);
        if !IsValid(pte) {
          return Panic;
        }
        BackedAt(old(tables), tables, old(frames), frames, parent, v, PagesAsked(size));
        var f := FreshFrame();
        frames := frames[f := frames[PteFrame(pte)]];
        FlagsFit(pte);
        var m := Map(child, va, f * PGSIZE, PGSIZE, PteFlags(pte));
        OnePage(v);
        OneFree(ts, child, v);
        if !m.Mapped? {
          return Panic;
        }
        AllocStep(old(tables), ts, tables, old(frames), fs, roots, child, 0, v, f, fs[PteFrame(pte)], PteFlags(pte));
        CopyStep(ts, tables, fs, roots, parent, child, v, f, pte);
        va := va + PGSIZE;
        v := v + 1;
      }
      r := Done;
    }

    /** A process of `oldSize` bytes grows and forks: the copy succeeds exactly when it has grown
        to a multiple of the page size. */
    method GrowAndFork(parent: nat, child: nat, oldSize: nat, newSize: nat) returns (r: Outcome)
      requires Valid() && parent in roots && child in roots && parent != child && oldSize <= newSize
      requires Holds(tables, frames, parent, PgRoundUp(oldSize) / PGSIZE)
      requires RangeFree(tables, parent, PgRoundUp(oldSize) / PGSIZE, PgRoundUp(newSize) / PGSIZE)
      requires RangeFree(tables, child, 0, PgRoundUp(newSize) / PGSIZE)
      modifies this
      ensures Valid() && roots == old(roots)
      ensures r.Done? <==> newSize % PGSIZE == 0
      ensures r.Done? ==> Copies(tables, frames, parent, child, newSize / PGSIZE)
    {
      hide Unshared, SameOutside, RangeFree, Lookup, NewPages, ZeroPages, Copies, FramesKept;
      hide ReadyUpTo, BackedUpTo, Holds, PgRoundUp;
      var grown := UvmAlloc(parent, oldSize, newSize);
      ghost var v0, v1 := PgRoundUp(oldSize) / PGSIZE, PgRoundUp(newSize) / PGSIZE;
      RoundUpGrows(oldSize, newSize);
      AlignedPages(newSize);
      StillBacked(old(tables), tables, old(frames), frames, roots, parent, v0, v1, PagesAsked(newSize));
      if newSize % PGSIZE == 0 {
        GrownReady(old(tables), tables, old(frames), frames, roots, parent, child, v0, v1);
      }
      r := UvmCopy(parent, child, newSize);
    }

    /** Takes the user bit from the entry of va. Panics where the walk finds no entry. */
    method UvmClear(root: nat, va: nat) returns (r: Outcome)
      requires Valid() && root in roots
      modifies this`tables
      ensures Valid() && tables.Keys == old(tables).Keys
      ensures r.Done? <==> va <= MAXVA && Walk(old(tables), root, va).Some?
      ensures r.Panic? ==> tables == old(tables)
      ensures r.Done? ==> Cleared(old(tables), tables, roots, root, va / PGSIZE)
    {
      hide Unshared, Lookup, Walk, SameElsewhere, SameFrames, Written, ClearU;
      var s := Translate(root, va);
      if s.None? {
        return Panic;
      }
      var pte := tables[s.value.t][s.value.i];
      SamePage(tables, root, va);
      SlotIs(tables, root, va / PGSIZE, s.value);
      LeafWritten(tables, owner, roots, root, va / PGSIZE, ClearU(pte));
      ClearedFrames(tables, owner, roots, root, va, s.value);
      WrittenKeys(tables, s.value, ClearU(pte));
      ClearUIs(pte);
      tables := Written(tables, s.value, ClearU(pte));
      r := Done;
    }

    /** A page without the user bit is written all the same: the kernel's copy tests the valid bit
        only, so that it succeeds and writes what it would without the clearing. */
    method ClearThenCopyOut(root: nat, guard: nat, dst: nat, src: Bytes) returns (r: Outcome)
      requires Valid() && root in roots && guard <= MAXVA && Lookup(tables, root, guard / PGSIZE).Some?
      requires OwnFrames(tables, frames, root, dst / PGSIZE, (dst + |src|) / PGSIZE)
      modifies this`tables, this`frames
      ensures Valid() && Cleared(old(tables), tables, roots, root, guard / PGSIZE)
      ensures Lookup(tables, root, guard / PGSIZE).Some? && !IsUser(Lookup(tables, root, guard / PGSIZE).value)
      ensures r.Done? <==> AllMapped(old(tables), root, dst / PGSIZE, (dst + |src|) / PGSIZE)
      ensures r.Done? ==> FlatWrite(old(tables), root, old(frames), frames, dst, src, |src|)
    {
      hide Unshared, Lookup, Walk, OwnFrames, AllMapped, FlatWrite, Cleared, SameFrames;
      MappedWalks(tables, root, guard);
      var cleared := UvmClear(root, guard);
      ClearedEntry(old(tables), tables, roots, root, guard / PGSIZE);
      SameAsked(old(tables), tables, frames, root, dst / PGSIZE, (dst + |src|) / PGSIZE);
      r := CopyOut(root, dst, src);
      if r.Done? {
        SameWrite(old(tables), tables, root, old(frames), frames, dst, src);
      }
    }

    /** Writes `src` at user address dst, page by page. It asks for the page behind the last
        byte too when the bytes end on a page boundary, and panics if a page it asks for is not
        mapped. */
    method CopyOut(root: nat, dst: nat, src: Bytes) returns (r: Outcome)
      requires Valid() && root in roots
      requires OwnFrames(tables, frames, root, dst / PGSIZE, (dst + |src|) / PGSIZE)
      modifies this`frames
      ensures Valid() && frames.Keys == old(frames).Keys
      ensures r.Done? <==> AllMapped(tables, root, dst / PGSIZE, (dst + |src|) / PGSIZE)
      ensures r.Done? ==> FlatWrite(tables, root, old(frames), frames, dst, src, |src|)
    {
      hide Unshared, Lookup, OwnFrames, AllMapped, FlatWrite;
      ghost var p0, p1 := dst / PGSIZE, (dst + |src|) / PGSIZE;
      var va := PgRoundDown(dst);
      var len: nat, offset: nat := |src|, 0;
      var count: nat := PGSIZE - (dst - va);
      ghost var w := p0;
      PageOf(p0);
      MappedNext(tables, root, p0, p0, p1);
      var pa := PgtTranslate(root, va);
      if pa.None? {
        return Panic;
      }
      var start := dst - va;
      FlatStart(tables, root, frames, dst, src);
      while true
        invariant len + offset == |src| && va == w * PGSIZE && p0 <= w <= p1 && dst + offset == va + start
                  && start + count == PGSIZE
        invariant 0 <= start < PGSIZE && Valid() && frames.Keys == old(frames).Keys
        invariant w * PGSIZE <= MAXVA && Lookup(tables, root, w).Some?
                  && pa == Some(PteFrame(Lookup(tables, root, w).value))
        invariant AllMapped(tables, root, p0, w) && FlatWrite(tables, root, old(frames), frames, dst, src, offset)
        decreases len, p1 - w
      {
        OwnFramesAt(tables, old(frames), root, p0, p1, w);
        if count > len {
          count := len;
          WriteStep(tables, root, old(frames), frames, dst, src, offset, w, count, p0, p1);
          frames := Overwrite(frames, pa.value, start, src[offset..offset + count]);
          LastPage(dst, |src|, w);
          return Done;
        } else {
          WriteStep(tables, root, old(frames), frames, dst, src, offset, w, count, p0, p1);
          frames := Overwrite(frames, pa.value, start, src[offset..offset + count]);
          len := len - count;
          offset := offset + count;
          va := va + PGSIZE;
          PageOf(w + 1);
          NextPage(dst, |src|, offset, w);
          MappedNext(tables, root, p0, w + 1, p1);
          pa := PgtTranslate(root, va);
          if pa.None? {
            return Panic;
          }
          w := w + 1;
          count := PGSIZE;
          start := 0;
        }
      }
    }
  }

  /** `bytes` written into frame f from `start` on. */
  function Overwrite(fs: map<nat, Bytes>, f: nat, start: nat, bytes: Bytes): map<nat, Bytes>
    requires f in fs && start + |bytes| <= |fs[f]|
  {
    fs[f := fs[f][..start] + bytes + fs[f][start + |bytes|..]]
  }

  predicate IsMapped(ts: Tables, root: nat, v: nat) {
    v * PGSIZE <= MAXVA && Lookup(ts, root, v).Some?
  }

  ghost predicate AllMapped(ts: Tables, root: nat, p0: nat, p1: nat) {
    forall v: nat | p0 <= v <= p1 :: IsMapped(ts, root, v)
  }

  /** The pages from p0 to p1 that are mapped have data frames of their own. */
  ghost predicate OwnFrames(ts: Tables, fs: map<nat, Bytes>, root: nat, p0: nat, p1: nat) {
    && (forall v: nat | p0 <= v <= p1 :: Backed(ts, fs, root, v))
    && (forall v: nat, w: nat | p0 <= v < w <= p1 :: OwnFrame(ts, root, v, w))
  }

  /** The user's byte at virtual address a, 0 where nothing is mapped. */
  function ByteAt(ts: Tables, fs: map<nat, Bytes>, root: nat, a: nat): int {
    var e := Lookup(ts, root, a / PGSIZE);
    if e.Some? && PteFrame(e.value) in fs && |fs[PteFrame(e.value)]| == PGSIZE
    then fs[PteFrame(e.value)][a % PGSIZE] else 0
  }

  predicate ByteIs(ts: Tables, root: nat, fs: map<nat, Bytes>, fs': map<nat, Bytes>, dst: nat, src: Bytes, n: nat,
                   a: nat)
    requires n <= |src|
  {
    ByteAt(ts, fs', root, a) == if dst <= a < dst + n then src[a - dst] else ByteAt(ts, fs, root, a)
  }

  predicate FrameUsed(ts: Tables, root: nat, p0: nat, p1: nat, f: nat) {
    exists v: nat | p0 <= v <= p1 :: Lookup(ts, root, v).Some? && PteFrame(Lookup(ts, root, v).value) == f
  }

  /** One flat write: in the pages touched, the first n bytes of src stand at dst and every
      other byte is as before; so is every frame that no page touched leads to. */
  ghost predicate FlatWrite(ts: Tables, root: nat, fs: map<nat, Bytes>, fs': map<nat, Bytes>, dst: nat, src: Bytes,
                            n: nat) {
    && n <= |src|
    && (forall a: nat | dst / PGSIZE <= a / PGSIZE <= (dst + |src|) / PGSIZE ::
          ByteIs(ts, root, fs, fs', dst, src, n, a))
    && (forall f | f in fs && !FrameUsed(ts, root, dst / PGSIZE, (dst + |src|) / PGSIZE, f) ::
          f in fs' && fs'[f] == fs[f])
  }

  lemma FlatStart(ts: Tables, root: nat, fs: map<nat, Bytes>, dst: nat, src: Bytes)
    ensures FlatWrite(ts, root, fs, fs, dst, src, 0)
  {}

  lemma PageOf(v: nat)
    ensures (v * PGSIZE) / PGSIZE == v
  {}

  /** The pages up to w are mapped and the next is asked for. */
  lemma MappedNext(ts: Tables, root: nat, p0: nat, w: nat, p1: nat)
    requires p0 <= w <= p1 && (w > p0 ==> AllMapped(ts, root, p0, w - 1))
    ensures IsMapped(ts, root, w) ==> AllMapped(ts, root, p0, w)
    ensures !IsMapped(ts, root, w) ==> !AllMapped(ts, root, p0, p1)
  {
    hide IsMapped;
    if IsMapped(ts, root, w) {
      forall v: nat | p0 <= v <= w
        ensures IsMapped(ts, root, v)
      {}
    }
  }

  lemma OwnFramesAt(ts: Tables, fs: map<nat, Bytes>, root: nat, p0: nat, p1: nat, w: nat)
    requires OwnFrames(ts, fs, root, p0, p1) && p0 <= w <= p1
    ensures Backed(ts, fs, root, w)
  {}

  lemma LastPage(dst: nat, n: nat, w: nat)
    requires w * PGSIZE <= dst + n < (w + 1) * PGSIZE
    ensures (dst + n) / PGSIZE == w
  {}

  lemma NextPage(dst: nat, n: nat, offset: nat, w: nat)
    requires offset <= n && dst + offset == (w + 1) * PGSIZE
    ensures w + 1 <= (dst + n) / PGSIZE
  {}

  /** Overwriting part of the frame of page w shows in page w only. */
  lemma OverwriteByte(ts: Tables, root: nat, fs: map<nat, Bytes>, w: nat, start: nat, bytes: Bytes, a: nat)
    requires Lookup(ts, root, w).Some? && PteFrame(Lookup(ts, root, w).value) in fs
    requires |fs[PteFrame(Lookup(ts, root, w).value)]| == PGSIZE && start + |bytes| <= PGSIZE
    requires a / PGSIZE != w ==> OwnFrame(ts, root, a / PGSIZE, w) || OwnFrame(ts, root, w, a / PGSIZE)
    ensures var f := PteFrame(Lookup(ts, root, w).value);
            ByteAt(ts, Overwrite(fs, f, start, bytes), root, a)
            == if w * PGSIZE + start <= a < w * PGSIZE + start + |bytes| then bytes[a - w * PGSIZE - start]
               else ByteAt(ts, fs, root, a)
  {
    hide Lookup, PteFrame;
    assert a == (a / PGSIZE) * PGSIZE + a % PGSIZE;
  }

  lemma WriteStep(ts: Tables, root: nat, fs0: map<nat, Bytes>, fs: map<nat, Bytes>, dst: nat, src: Bytes,
                  offset: nat, w: nat, count: nat, p0: nat, p1: nat)
    requires p0 == dst / PGSIZE && p1 == (dst + |src|) / PGSIZE && p0 <= w <= p1
    requires OwnFrames(ts, fs0, root, p0, p1) && Lookup(ts, root, w).Some? && fs.Keys == fs0.Keys
    requires forall n | n in fs :: |fs[n]| == PGSIZE
    requires offset + count <= |src| && w * PGSIZE <= dst + offset && dst + offset + count <= (w + 1) * PGSIZE
    requires FlatWrite(ts, root, fs0, fs, dst, src, offset)
    ensures var f := PteFrame(Lookup(ts, root, w).value);
            && f in fs && dst + offset - w * PGSIZE + count <= |fs[f]|
            && var fs1 := Overwrite(fs, f, dst + offset - w * PGSIZE, src[offset..offset + count]);
               FlatWrite(ts, root, fs0, fs1, dst, src, offset + count)
  {
    hide Lookup, PteFrame, ByteAt, ByteIs, OwnFrame, Backed, FrameUsed;
    BackedFrame(ts, fs0, root, p0, p1, w);
    var f := PteFrame(Lookup(ts, root, w).value);
    var start, bytes, n := dst + offset - w * PGSIZE, src[offset..offset + count], offset + count;
    var fs1 := Overwrite(fs, f, start, bytes);
    forall a: nat | p0 <= a / PGSIZE <= p1
      ensures ByteIs(ts, root, fs0, fs1, dst, src, n, a)
    {
      var v := a / PGSIZE;
      assert v < w ==> OwnFrame(ts, root, v, w);
      assert w < v ==> OwnFrame(ts, root, w, v);
      ByteStep(ts, root, fs0, fs, dst, src, offset, w, count, a);
    }
  }

  lemma BackedFrame(ts: Tables, fs: map<nat, Bytes>, root: nat, p0: nat, p1: nat, w: nat)
    requires OwnFrames(ts, fs, root, p0, p1) && p0 <= w <= p1 && Lookup(ts, root, w).Some?
    ensures PteFrame(Lookup(ts, root, w).value) in fs
            && FrameUsed(ts, root, p0, p1, PteFrame(Lookup(ts, root, w).value))
  {
    hide Lookup, PteFrame;
    assert Backed(ts, fs, root, w);
  }

  lemma ByteStep(ts: Tables, root: nat, fs0: map<nat, Bytes>, fs: map<nat, Bytes>, dst: nat, src: Bytes, offset: nat,
                 w: nat, count: nat, a: nat)
    requires Lookup(ts, root, w).Some? && PteFrame(Lookup(ts, root, w).value) in fs
    requires |fs[PteFrame(Lookup(ts, root, w).value)]| == PGSIZE
    requires offset + count <= |src| && w * PGSIZE <= dst + offset && dst + offset + count <= (w + 1) * PGSIZE
    requires ByteIs(ts, root, fs0, fs, dst, src, offset, a)
    requires a / PGSIZE != w ==> OwnFrame(ts, root, a / PGSIZE, w) || OwnFrame(ts, root, w, a / PGSIZE)
    ensures var f := PteFrame(Lookup(ts, root, w).value);
            var fs1 := Overwrite(fs, f, dst + offset - w * PGSIZE, src[offset..offset + count]);
            ByteIs(ts, root, fs0, fs1, dst, src, offset + count, a)
  {
    hide Lookup, PteFrame, ByteAt;
    OverwriteByte(ts, root, fs, w, dst + offset - w * PGSIZE, src[offset..offset + count], a);
  }

  /** How many pages `uvm_copy` may ask the parent for. */
  function PagesAsked(size: nat): nat {
    if size % PGSIZE == 0 then size / PGSIZE else MAXVA / PGSIZE + 1
  }

  /** The pages of a tree below n that are mapped lead to data frames. */
  ghost predicate BackedUpTo(ts: Tables, fs: map<nat, Bytes>, root: nat, n: nat) {
    forall v: nat | 0 <= v < n :: Backed(ts, fs, root, v)
  }

  predicate Backed(ts: Tables, fs: map<nat, Bytes>, root: nat, v: nat) {
    Lookup(ts, root, v).Some? ==> PteFrame(Lookup(ts, root, v).value) in fs
  }

  predicate Ready(ts: Tables, parent: nat, child: nat, v: nat) {
    Lookup(ts, parent, v).Some? && CanMap(ts, child, v)
  }

  /** The parent's pages below n are all mapped, the child's all free. */
  ghost predicate ReadyUpTo(ts: Tables, parent: nat, child: nat, n: nat) {
    forall v: nat | 0 <= v < n :: Ready(ts, parent, child, v)
  }

  lemma CopyStart(ts: Tables, fs: map<nat, Bytes>, roots: set<nat>, parent: nat, child: nat)
    ensures SameOutside(ts, ts, roots, child, 0, 0) && ReadyUpTo(ts, parent, child, 0) && FramesKept(fs, fs)
    ensures NewPages(ts, fs, child, 0, 0, fs.Keys) && Copies(ts, fs, parent, child, 0)
  {}

  /** Whether page v can be copied is the same now as at the start. */
  lemma ReadyNext(ts0: Tables, ts: Tables, roots: set<nat>, parent: nat, child: nat, v: nat, n: nat)
    requires SameOutside(ts0, ts, roots, child, 0, v) && ReadyUpTo(ts0, parent, child, v)
    requires parent in roots && child in roots && parent != child
    ensures Ready(ts, parent, child, v) ==> ReadyUpTo(ts0, parent, child, v + 1)
    ensures !Ready(ts, parent, child, v) && v < n ==> !ReadyUpTo(ts0, parent, child, n)
    ensures v * PGSIZE <= MAXVA ==> Lookup(ts, parent, v) == Lookup(ts0, parent, v)
  {
    hide Lookup;
    if v < n && ReadyUpTo(ts0, parent, child, n) {
      assert Ready(ts0, parent, child, v);
    }
    if Ready(ts, parent, child, v) {
      assert Ready(ts0, parent, child, v);
      forall w: nat | 0 <= w < v + 1
        ensures Ready(ts0, parent, child, w)
      {}
    }
  }

  lemma NoSlot(ts: Tables, root: nat, v: nat)
    requires v * PGSIZE > MAXVA || Walk(ts, root, v * PGSIZE).None?
    ensures forall child :: !Ready(ts, root, child, v)
  {}

  lemma SlotIs(ts: Tables, root: nat, v: nat, s: Slot)
    requires Walk(ts, root, v * PGSIZE) == Some(s) && IsTable(ts, s.t) && s.i < ENTRIES
    ensures Lookup(ts, root, v) == (if IsValid(ts[s.t][s.i]) then Some(ts[s.t][s.i]) else None)
    ensures !IsValid(ts[s.t][s.i]) ==> forall child :: !Ready(ts, root, child, v)
  {}

  lemma BackedAt(ts0: Tables, ts: Tables, fs0: map<nat, Bytes>, fs: map<nat, Bytes>, parent: nat, v: nat, n: nat)
    requires BackedUpTo(ts0, fs0, parent, n) && v < n && FramesKept(fs0, fs)
    requires Lookup(ts, parent, v) == Lookup(ts0, parent, v)
    ensures Backed(ts, fs, parent, v)
  {
    assert Backed(ts0, fs0, parent, v);
  }

  lemma FlagsFit(pte: nat)
    requires IsValid(pte)
    ensures PteFlags(pte) < FLAGS && WithV(PteFlags(pte)) == PteFlags(pte)
  {}

  lemma OneFree(ts: Tables, child: nat, v: nat)
    ensures RangeFree(ts, child, v, v + 1) <==> CanMap(ts, child, v)
  {
    if CanMap(ts, child, v) {
      forall w: nat | v <= w < v + 1
        ensures CanMap(ts, child, w)
      {}
    }
    if RangeFree(ts, child, v, v + 1) {
      assert v <= v < v + 1;
    }
  }

  lemma CopyStep(ts: Tables, ts1: Tables, fs: map<nat, Bytes>, roots: set<nat>, parent: nat, child: nat, v: nat,
                 f: nat, pte: nat)
    requires SameOutside(ts, ts1, roots, child, v, v + 1) && parent in roots && child in roots && parent != child
    requires v * PGSIZE <= MAXVA && f !in fs && PteFrame(pte) in fs && Copies(ts, fs, parent, child, v)
    requires Lookup(ts, parent, v) == Some(pte)
    requires PageHolds(ts1, fs[f := fs[PteFrame(pte)]], child, v, PteFlags(pte), fs[PteFrame(pte)])
    ensures Copies(ts1, fs[f := fs[PteFrame(pte)]], parent, child, v + 1)
  {
    var fs1 := fs[f := fs[PteFrame(pte)]];
    hide Lookup, PteFlags, PteFrame;
    forall w: nat | 0 <= w < v + 1
      ensures CopyOf(ts1, fs1, parent, child, w)
    {
      if w < v {
        assert CopyOf(ts, fs, parent, child, w);
        var p := Lookup(ts, parent, w).value;
        StillHolds(ts, ts1, fs, roots, child, v, f, fs[PteFrame(pte)], child, w, PteFlags(p), fs[PteFrame(p)]);
      }
    }
  }

  lemma SamePage(ts: Tables, root: nat, va: nat)
    ensures Walk(ts, root, va) == Walk(ts, root, (va / PGSIZE) * PGSIZE)
  {
    hide PageNum;
    SameIndices(va);
  }

  lemma SameIndices(va: nat)
    ensures var w := (va / PGSIZE) * PGSIZE;
            PageNum(va, 0) == PageNum(w, 0) && PageNum(va, 1) == PageNum(w, 1) && PageNum(va, 2) == PageNum(w, 2)
  {
    var w := (va / PGSIZE) * PGSIZE;
    assert w / PGSIZE == va / PGSIZE;
    assert w / (PGSIZE * ENTRIES) == va / (PGSIZE * ENTRIES);
    assert w / (PGSIZE * ENTRIES * ENTRIES) == va / (PGSIZE * ENTRIES * ENTRIES);
  }

  function ZeroBytes(): (z: Bytes)
    ensures |z| == PGSIZE && forall i | 0 <= i < PGSIZE :: z[i] == 0
  {
    seq(PGSIZE, _ => 0)
  }

  /** Frames that existed keep their bytes. */
  ghost predicate FramesKept(fs: map<nat, Bytes>, fs': map<nat, Bytes>) {
    forall n | n in fs :: n in fs' && fs'[n] == fs[n]
  }

  predicate NewPage(ts: Tables, fs: map<nat, Bytes>, root: nat, v: nat, taken: set<nat>) {
    && Lookup(ts, root, v).Some?
    && var pte := Lookup(ts, root, v).value;
       PteFrame(pte) in fs && PteFrame(pte) !in taken
  }

  predicate OwnFrame(ts: Tables, root: nat, v: nat, w: nat) {
    Lookup(ts, root, v).Some? && Lookup(ts, root, w).Some? ==>
      PteFrame(Lookup(ts, root, v).value) != PteFrame(Lookup(ts, root, w).value)
  }

  /** Pages [v0, v1) have frames of their own that were not in `taken`. */
  ghost predicate NewPages(ts: Tables, fs: map<nat, Bytes>, root: nat, v0: nat, v1: nat, taken: set<nat>) {
    && (forall v: nat | v0 <= v < v1 :: NewPage(ts, fs, root, v, taken))
    && (forall v: nat, w: nat | v0 <= v < w < v1 :: OwnFrame(ts, root, v, w))
  }

  /** Page v has flags perm|V and holds b. */
  predicate PageHolds(ts: Tables, fs: map<nat, Bytes>, root: nat, v: nat, perm: nat, b: Bytes) {
    && Lookup(ts, root, v).Some?
    && var pte := Lookup(ts, root, v).value;
       PteFlags(pte) == WithV(perm) && PteFrame(pte) in fs && fs[PteFrame(pte)] == b
  }

  ghost predicate ZeroPages(ts: Tables, fs: map<nat, Bytes>, root: nat, v0: nat, v1: nat) {
    forall v: nat | v0 <= v < v1 :: PageHolds(ts, fs, root, v, USER_RWX, ZeroBytes())
  }

  /** Page v of the child has the flags and the bytes of page v of the parent. */
  predicate CopyOf(ts: Tables, fs: map<nat, Bytes>, parent: nat, child: nat, v: nat) {
    && Lookup(ts, parent, v).Some?
    && var pte := Lookup(ts, parent, v).value;
       PteFrame(pte) in fs && PageHolds(ts, fs, child, v, PteFlags(pte), fs[PteFrame(pte)])
  }

  ghost predicate Copies(ts: Tables, fs: map<nat, Bytes>, parent: nat, child: nat, n: nat) {
    forall v: nat | 0 <= v < n :: CopyOf(ts, fs, parent, child, v)
  }

  lemma AllocStart(ts: Tables, fs: map<nat, Bytes>, roots: set<nat>, root: nat, v0: nat)
    ensures SameOutside(ts, ts, roots, root, v0, v0) && RangeFree(ts, root, v0, v0) && FramesKept(fs, fs)
    ensures NewPages(ts, fs, root, v0, v0, fs.Keys) && ZeroPages(ts, fs, root, v0, v0)
  {}

  /** One more page with a frame of its own. */
  lemma AllocStep(ts0: Tables, ts: Tables, ts1: Tables, fs0: map<nat, Bytes>, fs: map<nat, Bytes>, roots: set<nat>,
                  root: nat, v0: nat, v: nat, n: nat, b: Bytes, perm: nat)
    requires root in roots && v0 <= v && v * PGSIZE <= MAXVA && perm < FLAGS
    requires SameOutside(ts0, ts, roots, root, v0, v) && SameOutside(ts, ts1, roots, root, v, v + 1)
    requires RangeMapped(ts1, root, v, v + 1, n * PGSIZE, perm) && NewPages(ts, fs, root, v0, v, fs0.Keys)
    requires FramesKept(fs0, fs) && n !in fs
    ensures SameOutside(ts0, ts1, roots, root, v0, v + 1) && NewPages(ts1, fs[n := b], root, v0, v + 1, fs0.Keys)
    ensures FramesKept(fs0, fs[n := b]) && PageHolds(ts1, fs[n := b], root, v, perm, b)
  {
    assert PageAt(ts1, root, v, v, n * PGSIZE, perm);
    PteRoundTrip(n * PGSIZE, perm);
    hide Lookup, PteFrame, PteFlags, MakePte, PageAt;
    var fs1, taken := fs[n := b], fs0.Keys;
    forall w: nat | v0 <= w < v + 1
      ensures NewPage(ts1, fs1, root, w, taken)
    {
      if w < v {
        assert NewPage(ts, fs, root, w, taken);
      }
    }
    forall w: nat, x: nat | v0 <= w < x < v + 1
      ensures OwnFrame(ts1, root, w, x)
    {
      assert NewPage(ts, fs, root, w, taken);
      if x < v {
        assert OwnFrame(ts, root, w, x);
      }
    }
  }

  lemma StillHolds(ts: Tables, ts1: Tables, fs: map<nat, Bytes>, roots: set<nat>, root: nat, v: nat, n: nat, b: Bytes,
                   r: nat, w: nat, perm: nat, c: Bytes)
    requires SameOutside(ts, ts1, roots, root, v, v + 1) && r in roots && w * PGSIZE <= MAXVA && !(r == root && w == v)
    requires n !in fs && PageHolds(ts, fs, r, w, perm, c)
    ensures PageHolds(ts1, fs[n := b], r, w, perm, c)
  {}

  lemma ZeroStep(ts: Tables, ts1: Tables, fs: map<nat, Bytes>, roots: set<nat>, root: nat, v0: nat, v: nat, n: nat)
    requires SameOutside(ts, ts1, roots, root, v, v + 1) && root in roots && v * PGSIZE <= MAXVA && n !in fs
    requires ZeroPages(ts, fs, root, v0, v)
    requires PageHolds(ts1, fs[n := ZeroBytes()], root, v, USER_RWX, ZeroBytes())
    ensures ZeroPages(ts1, fs[n := ZeroBytes()], root, v0, v + 1)
  {
    hide PageHolds, SameOutside;
    var fs1 := fs[n := ZeroBytes()];
    forall w: nat | v0 <= w < v + 1
      ensures PageHolds(ts1, fs1, root, w, USER_RWX, ZeroBytes())
    {
      if w < v {
        StillHolds(ts, ts1, fs, roots, root, v, n, ZeroBytes(), root, w, USER_RWX, ZeroBytes());
      }
    }
  }

  lemma FreeIsLow(ts: Tables, root: nat, v0: nat, v: nat)
    requires RangeFree(ts, root, v0, v + 1) && v0 <= v
    ensures v * PGSIZE <= MAXVA
  {
    assert CanMap(ts, root, v);
  }

  lemma OnePage(v: nat)
    ensures (v * PGSIZE) / PGSIZE == v && PgRoundUp(v * PGSIZE + PGSIZE) / PGSIZE == v + 1
  {}

  /** The next page is free now exactly when it was at the start. */
  lemma RangeGrows(ts0: Tables, ts: Tables, roots: set<nat>, root: nat, v0: nat, v: nat, v1: nat)
    requires SameOutside(ts0, ts, roots, root, v0, v) && RangeFree(ts0, root, v0, v) && root in roots && v0 <= v
    ensures RangeFree(ts, root, v, v + 1) <==> RangeFree(ts0, root, v0, v + 1)
    ensures v < v1 && !RangeFree(ts0, root, v0, v + 1) ==> !RangeFree(ts0, root, v0, v1)
  {
    hide Lookup;
    if RangeFree(ts, root, v, v + 1) {
      assert CanMap(ts, root, v);
      forall w: nat | v0 <= w < v + 1
        ensures CanMap(ts0, root, w)
      {}
    }
    if RangeFree(ts0, root, v0, v + 1) {
      assert CanMap(ts0, root, v);
    }
    if RangeFree(ts0, root, v0, v1) && v < v1 {
      forall w: nat | v0 <= w < v + 1
        ensures CanMap(ts0, root, w)
      {}
    }
  }

  lemma MapStart(ts: Tables, roots: set<nat>, root: nat, v0: nat, pa: nat, perm: nat)
    ensures SameOutside(ts, ts, roots, root, v0, v0) && RangeFree(ts, root, v0, v0)
            && RangeMapped(ts, root, v0, v0, pa, perm)
  {}

  lemma TooHigh(ts: Tables, root: nat, v0: nat, v: nat, v1: nat)
    requires RangeFree(ts, root, v0, v) && v0 <= v < v1 && v * PGSIZE > MAXVA
    ensures !RangeFree(ts, root, v0, v1)
    ensures !exists w: nat :: v0 <= w < v1 && w * PGSIZE <= MAXVA && Lookup(ts, root, w).Some?
  {
    hide Lookup;
    assert !CanMap(ts, root, v);
    forall w: nat | v0 <= w < v1 && w * PGSIZE <= MAXVA
      ensures Lookup(ts, root, w).None?
    {
      assert CanMap(ts, root, w);
    }
  }

  lemma NotYet(ts0: Tables, ts: Tables, roots: set<nat>, root: nat, v0: nat, v: nat)
    requires SameOutside(ts0, ts, roots, root, v0, v) && root in roots && v * PGSIZE <= MAXVA
    ensures Lookup(ts, root, v) == Lookup(ts0, root, v)
  {}

  /** The entry the walk ends at is what the flat map says. */
  lemma EntryIs(ts: Tables, ts1: Tables, roots: set<nat>, root: nat, v: nat, s: Slot)
    requires SameLookups(ts, ts1, roots) && root in roots && v * PGSIZE <= MAXVA
    requires Walk(ts1, root, v * PGSIZE) == Some(s) && IsTable(ts1, s.t) && s.i < ENTRIES
    ensures Lookup(ts1, root, v) == Lookup(ts, root, v)
    ensures IsValid(ts1[s.t][s.i]) <==> Lookup(ts, root, v).Some?
    ensures IsValid(ts1[s.t][s.i]) ==> Lookup(ts, root, v) == Some(ts1[s.t][s.i])
  {
    assert Lookup(ts1, root, v) == EntryAt(ts1, s);
  }

  lemma AlreadyMapped(ts: Tables, root: nat, v0: nat, v: nat, v1: nat)
    requires v0 <= v < v1 && v * PGSIZE <= MAXVA && Lookup(ts, root, v).Some?
    ensures !RangeFree(ts, root, v0, v1)
    ensures exists w: nat :: v0 <= w < v1 && w * PGSIZE <= MAXVA && Lookup(ts, root, w).Some?
  {
    hide Lookup;
    assert !CanMap(ts, root, v);
  }

  lemma AllFree(ts: Tables, root: nat, v0: nat, v1: nat)
    requires RangeFree(ts, root, v0, v1)
    ensures !exists w: nat :: v0 <= w < v1 && w * PGSIZE <= MAXVA && Lookup(ts, root, w).Some?
  {
    hide Lookup;
    forall w: nat | v0 <= w < v1 && w * PGSIZE <= MAXVA
      ensures Lookup(ts, root, w).None?
    {
      assert CanMap(ts, root, w);
    }
  }

  lemma WrittenKeys(ts: Tables, s: Slot, pte: nat)
    requires IsTable(ts, s.t) && s.i < ENTRIES
    ensures Written(ts, s, pte).Keys == ts.Keys
  {}

  lemma NewRoot(ts: Tables, owner: map<nat, Place>, roots: set<nat>, n: nat)
    requires Unshared(ts, owner, roots) && n !in ts
    ensures n !in roots && Unshared(ts[n := Zeros()], owner[n := Place(n, [])], roots + {n})
    ensures var ts' := ts[n := Zeros()]; forall v: nat :: Lookup(ts', n, v) == None
    ensures SameLookups(ts, ts[n := Zeros()], roots)
  {
    var ts', owner' := ts[n := Zeros()], owner[n := Place(n, [])];
    assert n !in owner;
    forall t, i | t in owner' && 0 <= i < ENTRIES
      ensures Follows(ts', owner', t, i)
    {
      if t != n {
        assert Follows(ts, owner, t, i);
      }
    }
    forall r, w: nat | r in roots && w * PGSIZE <= MAXVA
      ensures Lookup(ts', r, w) == Lookup(ts, r, w)
    {
      RootLookup(ts, owner, roots, n, r, w);
    }
  }

  lemma RootLookup(ts: Tables, owner: map<nat, Place>, roots: set<nat>, n: nat, r: nat, w: nat)
    requires Unshared(ts, owner, roots) && n !in ts && r in roots
    ensures Lookup(ts[n := Zeros()], r, w) == Lookup(ts, r, w)
  {
    hide PageNum;
    var va, ts' := w * PGSIZE, ts[n := Zeros()];
    assert Follows(ts, owner, r, PageNum(va, 2));
    var l1 := Child(ts, r, PageNum(va, 2));
    assert Child(ts', r, PageNum(va, 2)) == l1;
    if l1.Some? {
      assert Follows(ts, owner, l1.value, PageNum(va, 1));
      assert Child(ts', l1.value, PageNum(va, 1)) == Child(ts, l1.value, PageNum(va, 1));
    }
  }

  lemma SameRefl(ts: Tables, roots: set<nat>)
    ensures SameLookups(ts, ts, roots)
  {}

  lemma SameTrans(a: Tables, b: Tables, c: Tables, roots: set<nat>)
    requires SameLookups(a, b, roots) && SameLookups(b, c, roots)
    ensures SameLookups(a, c, roots)
  {
    hide Lookup;
  }

  lemma RootOwned(ts: Tables, owner: map<nat, Place>, roots: set<nat>, root: nat)
    requires Unshared(ts, owner, roots) && root in roots
    ensures root in owner && owner[root] == Place(root, [])
  {}

  // ---------- growing and forking ----------

  /** The pages below n are mapped, and whatever is mapped leads to a data frame. */
  ghost predicate Holds(ts: Tables, fs: map<nat, Bytes>, root: nat, n: nat) {
    && (forall v: nat | 0 <= v < n :: IsMapped(ts, root, v))
    && (forall v: nat | v * PGSIZE <= MAXVA :: Backed(ts, fs, root, v))
  }

  lemma RoundUpGrows(a: nat, b: nat)
    requires a <= b
    ensures PgRoundUp(a) / PGSIZE <= PgRoundUp(b) / PGSIZE
  {}

  lemma AlignedPages(size: nat)
    ensures size % PGSIZE == 0 ==> PgRoundUp(size) / PGSIZE == size / PGSIZE
  {}

  lemma StillBacked(ts: Tables, ts1: Tables, fs: map<nat, Bytes>, fs1: map<nat, Bytes>, roots: set<nat>,
                    root: nat, v0: nat, v1: nat, n: nat)
    requires Holds(ts, fs, root, v0) && root in roots && SameOutside(ts, ts1, roots, root, v0, v1)
    requires NewPages(ts1, fs1, root, v0, v1, fs.Keys) && FramesKept(fs, fs1)
    requires n <= MAXVA / PGSIZE + 1 || n <= v1
    ensures BackedUpTo(ts1, fs1, root, n)
  {
    hide Lookup, PteFrame;
    forall v: nat | 0 <= v < n
      ensures Backed(ts1, fs1, root, v)
    {
      if v0 <= v < v1 {
        assert NewPage(ts1, fs1, root, v, fs.Keys);
      } else {
        if v < v0 {
          assert IsMapped(ts, root, v);
        }
        assert v * PGSIZE <= MAXVA && Backed(ts, fs, root, v);
      }
    }
  }

  lemma GrownReady(ts: Tables, ts1: Tables, fs: map<nat, Bytes>, fs1: map<nat, Bytes>, roots: set<nat>,
                   parent: nat, child: nat, v0: nat, v1: nat)
    requires Holds(ts, fs, parent, v0) && parent in roots && child in roots && parent != child
    requires SameOutside(ts, ts1, roots, parent, v0, v1) && NewPages(ts1, fs1, parent, v0, v1, fs.Keys)
    requires RangeFree(ts, child, 0, v1)
    ensures ReadyUpTo(ts1, parent, child, v1)
  {
    hide Lookup, PteFrame;
    forall v: nat | 0 <= v < v1
      ensures Ready(ts1, parent, child, v)
    {
      assert CanMap(ts, child, v);
      if v < v0 {
        assert IsMapped(ts, parent, v);
      } else {
        assert NewPage(ts1, fs1, parent, v, fs.Keys);
      }
    }
  }

  // ---------- the user bit ----------

  const R_BIT := 2
  const W_BIT := 4
  const X_BIT := 8
  const U_BIT := 16

  predicate IsUser(pte: nat) {
    (pte / U_BIT) % 2 == 1
  }

  /** A user may read, write and execute the page, and no other flag is set. */
  predicate UserMayAll(pte: nat) {
    && IsValid(pte) && IsUser(pte) && PteFlags(pte) < 2 * U_BIT
    && (pte / R_BIT) % 2 == 1 && (pte / W_BIT) % 2 == 1 && (pte / X_BIT) % 2 == 1
  }

  /** The pages that `UvmAlloc` adds are for the user to read, write and execute. */
  lemma NewPagesForUser(ts: Tables, fs: map<nat, Bytes>, root: nat, v0: nat, v1: nat, v: nat)
    requires ZeroPages(ts, fs, root, v0, v1) && v0 <= v < v1
    ensures Lookup(ts, root, v).Some? && UserMayAll(Lookup(ts, root, v).value)
  {
    hide Lookup;
    assert PageHolds(ts, fs, root, v, USER_RWX, ZeroBytes());
    var pte := Lookup(ts, root, v).value;
    var q := pte / FLAGS;
    assert pte == FLAGS * q + 31;
    BitsOf(q, 0, 1, 15, pte);
    LowBits(64 * q + 1, pte);
  }

  lemma LowBits(h: nat, pte: nat)
    requires pte == 16 * h + 15
    ensures (pte / R_BIT) % 2 == 1 && (pte / W_BIT) % 2 == 1 && (pte / X_BIT) % 2 == 1
  {
    OddQuotient(pte, R_BIT, 4 * h + 3);
    OddQuotient(pte, W_BIT, 2 * h + 1);
    OddQuotient(pte, X_BIT, h);
  }

  lemma OddQuotient(x: nat, d: nat, q: nat)
    requires d in {2, 4, 8} && x == d * (2 * q + 1) + d - 1
    ensures (x / d) % 2 == 1
  {
    if d == 2 {
      assert x / 2 == 2 * q + 1;
    } else if d == 4 {
      assert x / 4 == 2 * q + 1;
    } else {
      assert x / 8 == 2 * q + 1;
    }
  }

  function ClearU(pte: nat): nat {
    if IsUser(pte) then pte - U_BIT else pte
  }

  /** Only the user bit goes. */
  lemma ClearUIs(pte: nat)
    ensures !IsUser(ClearU(pte)) && IsValid(ClearU(pte)) == IsValid(pte) && PteFrame(ClearU(pte)) == PteFrame(pte)
    ensures PteFlags(ClearU(pte)) == ClearU(PteFlags(pte))
  {
    var q, h, l := pte / FLAGS, (pte % FLAGS) / 32, pte % U_BIT;
    var u := if IsUser(pte) then 1 else 0;
    BitsOf(q, h, u, l, pte);
    BitsOf(q, h, 0, l, pte - U_BIT * u);
    BitsOf(0, h, u, l, pte % FLAGS);
  }

  lemma BitsOf(q: nat, h: nat, u: nat, l: nat, pte: nat)
    requires h < 32 && u < 2 && l < U_BIT && pte == FLAGS * q + 32 * h + U_BIT * u + l
    ensures pte / FLAGS == q && pte % FLAGS == 32 * h + U_BIT * u + l && pte % 2 == l % 2 && (pte / U_BIT) % 2 == u
  {}

  /** A page is mapped or not, and to the same frame, as it was. */
  predicate SameFrame(ts: Tables, ts1: Tables, root: nat, w: nat) {
    var e, e1 := Lookup(ts, root, w), Lookup(ts1, root, w);
    e.Some? == e1.Some? && (e.Some? ==> PteFrame(e.value) == PteFrame(e1.value))
  }

  ghost predicate SameFrames(ts: Tables, ts1: Tables, root: nat) {
    forall w: nat :: SameFrame(ts, ts1, root, w)
  }

  /** Page v of tree `root` has lost its user bit; all else, in all trees, is as before. */
  ghost predicate Cleared(ts: Tables, ts1: Tables, roots: set<nat>, root: nat, v: nat) {
    && SameElsewhere(ts, ts1, roots, root, v) && SameFrames(ts, ts1, root)
    && var e := Lookup(ts, root, v);
       Lookup(ts1, root, v) == if e.None? then None else Some(ClearU(e.value))
  }

  lemma ClearedEntry(ts: Tables, ts1: Tables, roots: set<nat>, root: nat, v: nat)
    requires Cleared(ts, ts1, roots, root, v) && Lookup(ts, root, v).Some?
    ensures Lookup(ts1, root, v).Some? && !IsUser(Lookup(ts1, root, v).value) && SameFrames(ts, ts1, root)
  {
    hide Lookup, SameFrames;
    ClearUIs(Lookup(ts, root, v).value);
  }

  lemma MappedWalks(ts: Tables, root: nat, va: nat)
    requires Lookup(ts, root, va / PGSIZE).Some?
    ensures Walk(ts, root, va).Some?
  {
    hide Walk;
    SamePage(ts, root, va);
  }

  lemma ClearedFrames(ts: Tables, owner: map<nat, Place>, roots: set<nat>, root: nat, va: nat, s: Slot)
    requires Unshared(ts, owner, roots) && root in roots && Walk(ts, root, va) == Some(s)
    ensures IsTable(ts, s.t) && s.i < ENTRIES && SameFrames(ts, Written(ts, s, ClearU(ts[s.t][s.i])), root)
  {
    WalkPlace(ts, owner, roots, root, va);
    hide Walk, PageNum, ClearU, PteFrame;
    var ts1 := Written(ts, s, ClearU(ts[s.t][s.i]));
    ClearUIs(ts[s.t][s.i]);
    forall w: nat
      ensures SameFrame(ts, ts1, root, w)
    {
      WalkUnchanged(ts, ts1, owner, roots, s.t, root, w * PGSIZE);
    }
  }

  /** What `copy_out` asks for depends on frames only. */
  lemma SameAsked(ts: Tables, ts1: Tables, fs: map<nat, Bytes>, root: nat, p0: nat, p1: nat)
    requires SameFrames(ts, ts1, root)
    ensures AllMapped(ts, root, p0, p1) <==> AllMapped(ts1, root, p0, p1)
    ensures OwnFrames(ts, fs, root, p0, p1) ==> OwnFrames(ts1, fs, root, p0, p1)
  {
    hide Lookup, PteFrame;
    forall v: nat | p0 <= v <= p1
      ensures IsMapped(ts, root, v) == IsMapped(ts1, root, v) && Backed(ts, fs, root, v) == Backed(ts1, fs, root, v)
    {
      assert SameFrame(ts, ts1, root, v);
    }
    if OwnFrames(ts, fs, root, p0, p1) {
      forall v: nat, w: nat | p0 <= v < w <= p1
        ensures OwnFrame(ts1, root, v, w)
      {
        assert SameFrame(ts, ts1, root, v) && SameFrame(ts, ts1, root, w) && OwnFrame(ts, root, v, w);
      }
    }
  }

  lemma SameWrite(ts: Tables, ts1: Tables, root: nat, fs: map<nat, Bytes>, fs1: map<nat, Bytes>, dst: nat, src: Bytes)
    requires SameFrames(ts, ts1, root) && FlatWrite(ts1, root, fs, fs1, dst, src, |src|)
    ensures FlatWrite(ts, root, fs, fs1, dst, src, |src|)
  {
    hide Lookup, PteFrame;
    var p0, p1 := dst / PGSIZE, (dst + |src|) / PGSIZE;
    forall a: nat | p0 <= a / PGSIZE <= p1
      ensures ByteIs(ts, root, fs, fs1, dst, src, |src|, a)
    {
      assert ByteIs(ts1, root, fs, fs1, dst, src, |src|, a) && SameFrame(ts, ts1, root, a / PGSIZE);
    }
    forall f | f in fs && !FrameUsed(ts, root, p0, p1, f)
      ensures f in fs1 && fs1[f] == fs[f]
    {
      SameUse(ts, ts1, root, p0, p1, f);
    }
  }

  lemma SameUse(ts: Tables, ts1: Tables, root: nat, p0: nat, p1: nat, f: nat)
    requires SameFrames(ts, ts1, root)
    ensures FrameUsed(ts1, root, p0, p1, f) ==> FrameUsed(ts, root, p0, p1, f)
  {
    hide Lookup, PteFrame;
    if FrameUsed(ts1, root, p0, p1, f) {
      var v: nat :| p0 <= v <= p1 && Lookup(ts1, root, v).Some? && PteFrame(Lookup(ts1, root, v).value) == f;
      assert SameFrame(ts, ts1, root, v);
    }
  }
}
