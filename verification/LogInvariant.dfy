/** The invariant of the log machine, and that every step keeps it. */
module LogInvariant {
  import opened Options
  import opened LogSpec
  import opened LogMachine

  /** What the committer is about to write through its dirty buffer. */
  datatype Due =
    | Nothing
    | Data(b: nat, data: Block)
    | Head(b: nat, len: nat, slots: seq<nat>)
    | Cleared(b: nat)

  /** The part of the state a single cache entry is judged against. */
  datatype View = View(
    disk: Disk, pins: set<nat>, current: map<nat, Block>, ops: set<nat>, due: Due)

  ghost function SlotSet(slots: seq<nat>, lo: nat, hi: nat): (r: set<nat>)
    requires hi <= |slots|
  {
    set j | lo <= j < hi :: slots[j]
  }

  /** The logged blocks that hold an extra reference. */
  ghost function Pins(s: State): set<nat>
    requires s.len <= |s.slots|
  {
    if s.recovering then {}
    else match s.phase
      case Boot => {}
      case Idle => SlotSet(s.slots, 0, s.len)
      case WriteLog(_) => SlotSet(s.slots, 0, s.len)
      case WriteHead => SlotSet(s.slots, 0, s.len)
      case Install(k, _) => SlotSet(s.slots, k, s.len)
      case EmptyHead => {}
      case Finish => {}
  }

  /** The home blocks whose newest committed or logged content may not be at home yet. */
  ghost function Unsettled(s: State): set<nat>
    requires s.len <= |s.slots|
  {
    match s.phase
    case Boot => {}
    case Idle => SlotSet(s.slots, 0, s.len)
    case WriteLog(_) => SlotSet(s.slots, 0, s.len)
    case WriteHead => SlotSet(s.slots, 0, s.len)
    case Install(k, written) => SlotSet(s.slots, if written then k + 1 else k, s.len)
    case EmptyHead => {}
    case Finish => {}
  }

  ghost function DueOf(y: Layout, s: State): Due
    requires s.len <= |s.slots| && |s.groups| > 0
  {
    match s.phase
    case WriteLog(k) =>
      if k < s.len && s.slots[k] in Current(s) then Data(y.start + 1 + k, Current(s)[s.slots[k]])
      else Nothing
    case WriteHead => Head(y.start, s.len, s.slots)
    case Install(k, written) =>
      if !written && k < s.len && s.slots[k] in Current(s) then Data(s.slots[k], Current(s)[s.slots[k]])
      else Nothing
    case EmptyHead => Cleared(y.start)
    case _ => Nothing
  }

  ghost function ViewOf(y: Layout, s: State): View
    requires s.len <= |s.slots| && |s.groups| > 0
  {
    View(s.disk, Pins(s), Current(s), s.ops.Keys, DueOf(y, s))
  }

  ghost predicate Meets(x: Due, b: nat, data: Block) {
    match x
    case Nothing => false
    case Data(b', data') => b == b' && data == data'
    case Head(b', len, slots) => b == b' && HeaderLen(data) == len && HeaderSlots(data) == slots
    case Cleared(b') => b == b' && HeaderLen(data) == 0
  }

  ghost predicate DirtyOk(y: Layout, v: View, h: Handle, b: nat, data: Block) {
    match h.agent
    case Op(o) => o in v.ops && y.IsHome(b)
    case Reader => false
    case Committer => Meets(v.due, b, data)
  }

  /** What a settled buffer of block `b` holds: the logged content while the block is
      pinned, the disk's content otherwise. */
  ghost predicate CleanOk(v: View, b: nat, data: Block) {
    if b in v.pins then b in v.current && data == v.current[b]
    else b < |v.disk| && data == v.disk[b]
  }

  ghost predicate EntryOk(y: Layout, v: View, e: Entry) {
    && (e.target.None? ==> e.refcnt == 0 && e.users == {} && !e.valid)
    && (e.target.Some? ==>
          && e.target.value < |v.disk|
          && e.refcnt == |e.users| + (if e.target.value in v.pins then 1 else 0)
          && (e.target.value in v.pins ==> e.valid)
          && (e.valid && !e.dirty ==> CleanOk(v, e.target.value, e.data))
          && (e.dirty ==> e.owner.Some? && DirtyOk(y, v, e.owner.value, e.target.value, e.data)))
    && (e.owner.Some? ==> e.owner.value in e.users)
    && (e.dirty ==> e.valid)
  }

  ghost predicate UniqueTargets(cache: seq<Entry>) {
    forall i, j | 0 <= i < j < |cache| && cache[i].target.Some? :: cache[i].target != cache[j].target
  }

  ghost predicate PinsCached(cache: seq<Entry>, pins: set<nat>) {
    forall b | b in pins :: exists i :: 0 <= i < |cache| && cache[i].target == Some(b)
  }

  ghost predicate CacheInv(y: Layout, v: View, cache: seq<Entry>) {
    && (forall i | 0 <= i < |cache| :: EntryOk(y, v, cache[i]))
    && UniqueTargets(cache)
    && PinsCached(cache, v.pins)
  }

  /** The first `k` log slots on disk hold the current content of the blocks they name. */
  ghost predicate SlotsWritten(y: Layout, disk: Disk, current: map<nat, Block>, slots: seq<nat>, k: nat) {
    forall j | 0 <= j < k && j < |slots| && y.start + 1 + j < |disk| && slots[j] in current ::
      disk[y.start + 1 + j] == current[slots[j]]
  }

  ghost predicate PhaseOk(y: Layout, s: State)
    requires Shape(y, s) && |s.groups| > 0
  {
    var h := s.disk[y.start];
    match s.phase
    case Boot => s.ops == map[] && !s.committing && s.recovering && s.pending == [] && s.len == 0
    case Idle =>
      && HeaderLen(h) == 0 && !s.committing && !s.recovering
      && (s.len == 0 ==> s.pending == []) && (s.ops == map[] ==> s.len == 0)
    case WriteLog(k) =>
      && HeaderLen(h) == 0 && s.committing && !s.recovering && s.ops == map[]
      && 0 < s.len && k <= s.len && SlotsWritten(y, s.disk, Current(s), s.slots, k)
    case WriteHead =>
      && HeaderLen(h) == 0 && s.committing && !s.recovering && s.ops == map[]
      && 0 < s.len && SlotsWritten(y, s.disk, Current(s), s.slots, s.len)
    case Install(k, written) =>
      && s.committing == !s.recovering && s.ops == map[] && s.pending == []
      && k <= s.len && 0 < s.len && HeaderLen(h) == s.len && HeaderSlots(h) == s.slots
      && (written ==> !s.recovering && k < s.len)
    case EmptyHead =>
      s.committing == !s.recovering && s.ops == map[] && s.pending == [] && s.len == 0
    case Finish =>
      && HeaderLen(h) == 0 && s.committing && !s.recovering && s.ops == map[]
      && s.pending == [] && s.len == 0
  }

  ghost predicate Settled(disk: Disk, current: map<nat, Block>, unsettled: set<nat>) {
    forall b | b in current && b < |disk| && b !in unsettled :: disk[b] == current[b]
  }

  ghost predicate LogInv(y: Layout, s: State) {
    && Shape(y, s) && DiskOk(y, s.disk) && |s.groups| > 0
    && RecoversTo(y, s.disk, Committed(s))
    && Current(s).Keys == y.HomeBlocks()
    && SlotsOk(y, s.len, s.slots)
    && s.outstanding == |s.ops|
    && PhaseOk(y, s)
    && (s.phase != Boot ==> Settled(s.disk, Current(s), Unsettled(s)))
  }

  ghost predicate Inv(y: Layout, s: State) {
    LogInv(y, s) && CacheInv(y, ViewOf(y, s), s.cache)
  }

  /** What the disk means depends on the groups and the pending writes only. */
  lemma SameMeaning(s: State, t: State)
    requires t.groups == s.groups && t.pending == s.pending && |s.groups| > 0
    ensures Current(t) == Current(s) && Committed(t) == Committed(s)
  {}

  lemma SameGroups(s: State, t: State)
    requires t.groups == s.groups && |s.groups| > 0
    ensures Committed(t) == Committed(s)
  {}

  // ---------- steps that touch one cache entry only ----------

  /** Replacing one entry by another good one keeps the cache good, as long as it does not
      take a block that another entry already caches, nor drop a pinned one. */
  lemma OneSlot(y: Layout, v: View, cache: seq<Entry>, i: nat, e: Entry)
    requires CacheInv(y, v, cache) && i < |cache| && EntryOk(y, v, e)
    requires e.target == cache[i].target
             || (e.target.Some? && (forall j | 0 <= j < |cache| :: cache[j].target != e.target)
                 && (cache[i].target.Some? ==> cache[i].target.value !in v.pins))
    ensures CacheInv(y, v, cache[i := e])
  {
    var cache' := cache[i := e];
    forall b | b in v.pins
      ensures exists j :: 0 <= j < |cache'| && cache'[j].target == Some(b)
    {
      var j :| 0 <= j < |cache| && cache[j].target == Some(b);
      assert cache'[j].target == Some(b);
    }
  }

  /** Nothing but the cache entries themselves is judged by the cache. */
  lemma LogInvIgnoresCache(y: Layout, s: State, cache: seq<Entry>)
    requires LogInv(y, s)
    ensures LogInv(y, s.(cache := cache)) && ViewOf(y, s.(cache := cache)) == ViewOf(y, s)
  {
    hide RecoversTo, SlotsOk, DiskOk, Settled, Apply;
    var t := s.(cache := cache);
    SameMeaning(s, t);
    assert PhaseOk(y, t);
  }

  lemma OneEntry(y: Layout, s: State, i: nat, e: Entry)
    requires Inv(y, s) && i < |s.cache|
    requires EntryOk(y, ViewOf(y, s), e)
    requires e.target == s.cache[i].target
             || (e.target.Some? && !IsCached(s, e.target.value)
                 && (s.cache[i].target.Some? ==> s.cache[i].target.value !in Pins(s)))
    ensures Inv(y, WithEntry(s, i, e))
  {
    LogInvIgnoresCache(y, s, s.cache[i := e]);
    OneSlot(y, ViewOf(y, s), s.cache, i, e);
  }

  lemma BgetInv(y: Layout, s: State, h: Handle, i: nat, b: nat)
    requires Inv(y, s) && Enabled(y, s, Bget(h, i, b))
    ensures Inv(y, Do(y, s, Bget(h, i, b)))
  {
    var e := DoBget(s, h, i, b).cache[i];
    assert EntryOk(y, ViewOf(y, s), s.cache[i]);
    if s.cache[i].target != Some(b) {
      assert s.cache[i].users == {};
      if b in Pins(s) {
        assert IsCached(s, b);
      }
    }
    OneEntry(y, s, i, e);
  }

  lemma LocalInv(y: Layout, s: State, step: Step)
    requires Inv(y, s) && Enabled(y, s, step)
    requires step.Lock? || step.Fill? || step.Modify? || step.Unlock? || step.Brelse?
    ensures Inv(y, Do(y, s, step))
  {
    var i := step.i;
    assert EntryOk(y, ViewOf(y, s), s.cache[i]);
    OneEntry(y, s, i, Do(y, s, step).cache[i]);
  }

  /** The buffer a log slot is copied from holds the block's logged content. */
  lemma SlotSource(y: Layout, s: State, h: Handle, i: nat)
    requires Inv(y, s) && s.phase.WriteLog? && s.phase.k < s.len && h.agent.Committer?
    requires HoldsBlock(s, h, i, s.slots[s.phase.k])
    ensures s.slots[s.phase.k] in Current(s) && s.cache[i].data == Current(s)[s.slots[s.phase.k]]
  {
    var b := s.slots[s.phase.k];
    assert y.IsHome(b) && b in y.HomeBlocks() && b in Pins(s);
    assert EntryOk(y, ViewOf(y, s), s.cache[i]);
  }

  /** The log buffer a home block is copied from holds the block's committed content. */
  lemma HomeSource(y: Layout, s: State, h: Handle, i: nat)
    requires Inv(y, s) && s.phase.Install? && !s.phase.written && s.phase.k < s.len
    requires h.agent.Committer? && HoldsBlock(s, h, i, y.start + 1 + s.phase.k)
    ensures s.slots[s.phase.k] in Current(s) && s.cache[i].data == Current(s)[s.slots[s.phase.k]]
  {
    var b, l := s.slots[s.phase.k], y.start + 1 + s.phase.k;
    assert y.IsHome(b) && b in y.HomeBlocks() && !y.IsHome(l);
    assert l !in Pins(s);
    assert EntryOk(y, ViewOf(y, s), s.cache[i]);
    assert InstalledAt(y, s.disk, s.slots, s.len, b, Committed(s)[b]);
  }

  lemma CopyToLogInv(y: Layout, s: State, step: Step)
    requires Inv(y, s) && Enabled(y, s, step)
    requires step.CopyToSlot? || step.CopyHeader?
    ensures Inv(y, Do(y, s, step))
  {
    hide RecoversTo, DiskOk, Settled;
    var i := step.i;
    assert EntryOk(y, ViewOf(y, s), s.cache[i]);
    if step.CopyToSlot? {
      SlotSource(y, s, step.h2, step.i2);
    }
    OneEntry(y, s, i, Do(y, s, step).cache[i]);
  }

  lemma CopyToHomeInv(y: Layout, s: State, step: Step)
    requires Inv(y, s) && Enabled(y, s, step)
    requires step.CopyToHome? || step.ClearHeader?
    ensures Inv(y, Do(y, s, step))
  {
    hide RecoversTo, DiskOk, Settled;
    var i := step.i;
    assert EntryOk(y, ViewOf(y, s), s.cache[i]);
    if step.CopyToHome? {
      HomeSource(y, s, step.h2, step.i2);
    }
    OneEntry(y, s, i, Do(y, s, step).cache[i]);
  }

  // ---------- steps that change what entries are judged against ----------

  ghost predicate DueOnly(x: Due, b: nat) {
    match x
    case Nothing => true
    case Data(b', _) => b == b'
    case Head(b', _, _) => b == b'
    case Cleared(b') => b == b'
  }

  /** Two views that differ about block `b` alone. */
  ghost predicate DifferAt(v: View, w: View, b: nat) {
    && |v.disk| == |w.disk|
    && (forall c | 0 <= c < |v.disk| && c != b :: v.disk[c] == w.disk[c])
    && (forall c | c != b :: c in v.pins <==> c in w.pins)
    && (forall c | c in v.pins && c != b && c in v.current :: c in w.current && v.current[c] == w.current[c])
    && v.ops <= w.ops
    && (v.due == w.due || DueOnly(v.due, b))
  }

  lemma OtherEntry(y: Layout, v: View, w: View, b: nat, e: Entry)
    requires EntryOk(y, v, e) && DifferAt(v, w, b) && e.target != Some(b)
    ensures EntryOk(y, w, e)
  {}

  /** The entry that caches `b` is rewritten together with the view; all others carry over. */
  lemma OneBlock(y: Layout, v: View, w: View, cache: seq<Entry>, i: nat, b: nat, e: Entry)
    requires CacheInv(y, v, cache) && DifferAt(v, w, b)
    requires i < |cache| && cache[i].target == Some(b) && e.target == Some(b) && EntryOk(y, w, e)
    ensures CacheInv(y, w, cache[i := e])
  {
    var cache' := cache[i := e];
    forall j | 0 <= j < |cache'|
      ensures EntryOk(y, w, cache'[j])
    {
      if j != i {
        OtherEntry(y, v, w, b, cache[j]);
      }
    }
    forall c | c in w.pins
      ensures exists j :: 0 <= j < |cache'| && cache'[j].target == Some(c)
    {
      if c == b {
        assert cache'[i].target == Some(c);
      } else {
        var j :| 0 <= j < |cache| && cache[j].target == Some(c);
        assert cache'[j].target == Some(c);
      }
    }
  }

  /** Steps that move no data: every entry is judged as before. */
  lemma SameEntries(y: Layout, v: View, w: View, cache: seq<Entry>)
    requires CacheInv(y, v, cache)
    requires v.disk == w.disk && v.pins == w.pins && v.current == w.current
    requires v.due == w.due || v.due.Nothing?
             || forall i | 0 <= i < |cache| && cache[i].dirty :: !cache[i].owner.value.agent.Committer?
    requires forall i | 0 <= i < |cache| && cache[i].dirty && cache[i].owner.value.agent.Op? ::
               cache[i].owner.value.agent.id in w.ops
    ensures CacheInv(y, w, cache)
  {
    forall i | 0 <= i < |cache|
      ensures EntryOk(y, w, cache[i])
    {
      assert EntryOk(y, v, cache[i]);
    }
  }

  lemma BeginOpLogInv(y: Layout, s: State, o: nat)
    requires LogInv(y, s) && Enabled(y, s, BeginOp(o))
    ensures s.phase.Idle? && LogInv(y, Do(y, s, BeginOp(o)))
  {
    hide RecoversTo, SlotsOk, DiskOk, Settled, Apply;
    var t := Do(y, s, BeginOp(o));
    assert s.phase.Idle?;
    assert t.ops.Keys == s.ops.Keys + {o};
    SameMeaning(s, t);
    assert Unsettled(t) == Unsettled(s);
  }

  lemma BeginOpInv(y: Layout, s: State, o: nat)
    requires Inv(y, s) && Enabled(y, s, BeginOp(o))
    ensures Inv(y, Do(y, s, BeginOp(o)))
  {
    hide RecoversTo, SlotsOk, DiskOk, Settled, Apply;
    var t := Do(y, s, BeginOp(o));
    BeginOpLogInv(y, s, o);
    SameEntries(y, ViewOf(y, s), ViewOf(y, t), s.cache);
  }

  lemma EndOpLogInv(y: Layout, s: State, o: nat)
    requires LogInv(y, s) && o in s.ops && !s.committing && s.outstanding > 0
    ensures s.phase.Idle? && LogInv(y, DoEndOp(s, o))
  {
    hide RecoversTo, SlotsOk, DiskOk, Settled, Apply;
    var t := DoEndOp(s, o);
    assert s.phase.Idle?;
    assert t.ops.Keys == s.ops.Keys - {o} && |t.ops| == |s.ops| - 1;
    assert |t.ops| == 0 ==> t.ops.Keys == {} && t.ops == map[];
    SameMeaning(s, t);
    assert Unsettled(t) == Unsettled(s);
  }


  lemma EndOpInv(y: Layout, s: State, o: nat)
    requires Inv(y, s) && Enabled(y, s, EndOp(o))
    ensures Inv(y, Do(y, s, EndOp(o)))
  {
    hide RecoversTo, SlotsOk, DiskOk, Settled, Apply;
    var t := DoEndOp(s, o);
    EndOpLogInv(y, s, o);
    assert ViewOf(y, t) == ViewOf(y, s).(ops := t.ops.Keys, due := DueOf(y, t));
    SameEntries(y, ViewOf(y, s), ViewOf(y, t), s.cache);
  }

  lemma ApplyAppend(m: map<nat, Block>, records: seq<LogRecord>, r: LogRecord)
    ensures Apply(m, records + [r]) == Apply(m, records)[r.b := r.data]
  {
    assert (records + [r])[..|records|] == records;
  }

  lemma LogWriteCurrent(y: Layout, s: State, h: Handle, i: nat)
    requires LogInv(y, s) && CanLogWrite(y, s, h, i)
    ensures var b := s.cache[i].target.value;
            Current(DoLogWrite(s, h, i)) == Current(s)[b := s.cache[i].data]
            && b in y.HomeBlocks() && s.phase.Idle? && !s.recovering
  {
    hide RecoversTo, DiskOk, Settled, SlotsOk, Apply;
    ApplyAppend(Committed(s), s.pending, LogRecord(h.agent.id, s.cache[i].target.value, s.cache[i].data));
  }

  lemma LogWritePins(y: Layout, s: State, h: Handle, i: nat)
    requires LogInv(y, s) && CanLogWrite(y, s, h, i)
    ensures var t := DoLogWrite(s, h, i);
            var b := s.cache[i].target.value;
            && (IsLogged(s, b) <==> b in Pins(s))
            && SlotsOk(y, t.len, t.slots)
            && Pins(t) == SlotSet(t.slots, 0, t.len) == Pins(s) + {b}
  {
    var t := DoLogWrite(s, h, i);
    if !IsLogged(s, s.cache[i].target.value) {
      assert t.slots[s.len] == s.cache[i].target.value;
      assert forall j | 0 <= j < s.len :: t.slots[j] == s.slots[j];
      forall c | c in Pins(s) ensures c in Pins(t) {
        var j :| 0 <= j < s.len && s.slots[j] == c;
        assert t.slots[j] == c;
      }
    }
  }

  lemma LogWriteLogInv(y: Layout, s: State, h: Handle, i: nat)
    requires LogInv(y, s) && CanLogWrite(y, s, h, i)
    ensures LogInv(y, DoLogWrite(s, h, i))
  {
    var t := DoLogWrite(s, h, i);
    LogWriteCurrent(y, s, h, i);
    LogWritePins(y, s, h, i);
    assert t.ops.Keys == s.ops.Keys;
    assert |t.ops| == |s.ops|;
    SameGroups(s, t);
    assert Settled(t.disk, Current(t), Unsettled(t));
  }

  lemma LogWriteEntry(y: Layout, s: State, h: Handle, i: nat, v: View, w: View)
    requires LogInv(y, s) && CanLogWrite(y, s, h, i) && EntryOk(y, v, s.cache[i])
    requires var b := s.cache[i].target.value;
             && b in w.pins && (b in v.pins <==> IsLogged(s, b)) && |v.disk| == |w.disk|
             && b in w.current && w.current[b] == s.cache[i].data
    ensures EntryOk(y, w, DoLogWrite(s, h, i).cache[i])
  {}

  lemma LogWriteInv(y: Layout, s: State, h: Handle, i: nat)
    requires Inv(y, s) && CanLogWrite(y, s, h, i)
    ensures Inv(y, DoLogWrite(s, h, i))
  {
    var t := DoLogWrite(s, h, i);
    var b := s.cache[i].target.value;
    LogWriteCurrent(y, s, h, i);
    LogWritePins(y, s, h, i);
    LogWriteLogInv(y, s, h, i);
    assert t.ops.Keys == s.ops.Keys;
    var v, w := ViewOf(y, s), ViewOf(y, t);
    LogWriteEntry(y, s, h, i, v, w);
    assert DifferAt(v, w, b);
    OneBlock(y, v, w, s.cache, i, b, t.cache[i]);
  }

  // ---------- the committing and recovering thread ----------

  lemma CommitterData(y: Layout, s: State, h: Handle, i: nat, b: nat)
    requires Inv(y, s) && HoldsBlock(s, h, i, b) && h.agent.Committer? && s.cache[i].dirty
    ensures Meets(DueOf(y, s), b, s.cache[i].data)
  {
    assert EntryOk(y, ViewOf(y, s), s.cache[i]);
  }

  lemma WriteSlotLogInv(y: Layout, s: State, step: Step)
    requires LogInv(y, s) && step.WriteSlot? && Enabled(y, s, step)
    requires s.slots[s.phase.k] in Current(s) && s.cache[step.i].data == Current(s)[s.slots[s.phase.k]]
    ensures LogInv(y, Do(y, s, step))
  {
    hide Apply;
    var t := Do(y, s, step);
    SameMeaning(s, t);
    assert Unsettled(t) == Unsettled(s);
    assert t.disk[y.start] == s.disk[y.start];
  }

  lemma WriteSlotInv(y: Layout, s: State, step: Step)
    requires Inv(y, s) && step.WriteSlot? && Enabled(y, s, step)
    ensures Inv(y, Do(y, s, step))
  {
    hide RecoversTo, DiskOk, Settled, Apply;
    var t, b := Do(y, s, step), y.start + 1 + s.phase.k;
    CommitterData(y, s, step.h, step.i, b);
    WriteSlotLogInv(y, s, step);
    assert EntryOk(y, ViewOf(y, s), s.cache[step.i]);
    assert !y.IsHome(b) && b !in Pins(s);
    OneBlock(y, ViewOf(y, s), ViewOf(y, t), s.cache, step.i, b, t.cache[step.i]);
  }

  lemma SlotsDoneInv(y: Layout, s: State)
    requires Inv(y, s) && Enabled(y, s, SlotsDone)
    ensures Inv(y, Do(y, s, SlotsDone))
  {
    hide RecoversTo, SlotsOk, DiskOk, Settled, Apply, SlotsWritten;
    var t := Do(y, s, SlotsDone);
    SameMeaning(s, t);
    assert Unsettled(t) == Unsettled(s);
    SameEntries(y, ViewOf(y, s), ViewOf(y, t), s.cache);
  }

  lemma WriteHeaderLogInv(y: Layout, s: State, step: Step)
    requires LogInv(y, s) && step.WriteHeader? && Enabled(y, s, step)
    requires HeaderLen(s.cache[step.i].data) == s.len && HeaderSlots(s.cache[step.i].data) == s.slots
    ensures LogInv(y, Do(y, s, step))
    ensures Current(Do(y, s, step)) == Current(s) == Committed(Do(y, s, step))
  {
    var t := Do(y, s, step);
    assert Committed(t) == Current(s) == Current(t);
    forall b | b in Committed(t)
      ensures InstalledAt(y, t.disk, s.slots, s.len, b, Committed(t)[b])
    {
      assert y.IsHome(b);
    }
    assert Unsettled(t) == Unsettled(s);
  }

  lemma WriteHeaderInv(y: Layout, s: State, step: Step)
    requires Inv(y, s) && step.WriteHeader? && Enabled(y, s, step)
    ensures Inv(y, Do(y, s, step))
  {
    hide RecoversTo, DiskOk, Settled, Apply;
    var t := Do(y, s, step);
    CommitterData(y, s, step.h, step.i, y.start);
    WriteHeaderLogInv(y, s, step);
    assert EntryOk(y, ViewOf(y, s), s.cache[step.i]);
    assert !y.IsHome(y.start) && y.start !in Pins(s);
    OneBlock(y, ViewOf(y, s), ViewOf(y, t), s.cache, step.i, y.start, t.cache[step.i]);
  }

  /** Installing the next block takes exactly that block out of the unsettled ones. */
  lemma SlotSetTail(y: Layout, slots: seq<nat>, k: nat, len: nat)
    requires SlotsOk(y, len, slots) && k < len
    ensures SlotSet(slots, k, len) == SlotSet(slots, k + 1, len) + {slots[k]}
    ensures slots[k] !in SlotSet(slots, k + 1, len)
  {}

  lemma HomeWriteSettles(disk: Disk, current: map<nat, Block>, before: set<nat>, after: set<nat>, b: nat)
    requires Settled(disk, current, before) && before <= after + {b}
    requires b in current && b < |disk|
    ensures Settled(disk[b := current[b]], current, after)
  {}

  lemma LoggedIsHome(y: Layout, s: State, k: nat)
    requires LogInv(y, s) && k < s.len
    ensures y.IsHome(s.slots[k]) && s.slots[k] in Current(s) && s.slots[k] < |s.disk|
  {
    assert s.slots[k] in y.HomeBlocks();
  }

  lemma WriteHomeRest(y: Layout, s: State, cache: seq<Entry>, phase: Phase, disk: Disk)
    requires LogInv(y, s) && s.phase.Install? && !s.phase.written && s.phase.k < s.len
    requires phase == if s.recovering then Install(s.phase.k + 1, false) else Install(s.phase.k, true)
    requires DiskOk(y, disk) && RecoversTo(y, disk, Committed(s)) && disk[y.start] == s.disk[y.start]
    requires Settled(disk, Current(s), SlotSet(s.slots, s.phase.k + 1, s.len))
    ensures LogInv(y, s.(disk := disk, cache := cache, phase := phase))
  {
    hide Apply, SlotSet, RecoversTo, SlotsOk;
    var t := s.(disk := disk, cache := cache, phase := phase);
    SameMeaning(s, t);
    assert Unsettled(t) == SlotSet(s.slots, s.phase.k + 1, s.len) by {
      if s.recovering {
        assert t.phase == Install(s.phase.k + 1, false);
      }
    }
  }

  lemma WriteHomeLogInv(y: Layout, s: State, cache: seq<Entry>, phase: Phase)
    requires LogInv(y, s) && s.phase.Install? && !s.phase.written && s.phase.k < s.len
    requires phase == if s.recovering then Install(s.phase.k + 1, false) else Install(s.phase.k, true)
    requires s.slots[s.phase.k] in Current(s) && s.slots[s.phase.k] < |s.disk|
    ensures var b := s.slots[s.phase.k];
            LogInv(y, s.(disk := s.disk[b := Current(s)[b]], cache := cache, phase := phase))
  {
    var k, b := s.phase.k, s.slots[s.phase.k];
    var disk := s.disk[b := Current(s)[b]];
    LoggedIsHome(y, s, k);
    hide Apply, SlotSet, RecoversTo, DiskOk, SlotsOk, Settled;
    assert HeaderSlots(s.disk[y.start]) == s.slots;
    HomeWriteRecovers(y, s.disk, Committed(s), k, Current(s)[b]);
    SlotSetTail(y, s.slots, k, s.len);
    HomeWriteSettles(s.disk, Current(s), SlotSet(s.slots, k, s.len), SlotSet(s.slots, k + 1, s.len), b);
    WriteHomeRest(y, s, cache, phase, disk);
  }

  lemma WriteHomeInv(y: Layout, s: State, step: Step)
    requires Inv(y, s) && step.WriteHome? && Enabled(y, s, step)
    ensures Inv(y, Do(y, s, step))
  {
    hide RecoversTo, DiskOk, Settled, Apply, SlotSet;
    var t, b := Do(y, s, step), s.slots[s.phase.k];
    CommitterData(y, s, step.h, step.i, b);
    LoggedIsHome(y, s, s.phase.k);
    WriteHomeLogInv(y, s, t.cache, t.phase);
    assert b in Pins(s) <==> !s.recovering by {
      SlotSetTail(y, s.slots, s.phase.k, s.len);
    }
    assert EntryOk(y, ViewOf(y, s), s.cache[step.i]);
    assert Pins(t) == Pins(s) && Current(t) == Current(s);
    assert EntryOk(y, ViewOf(y, t), t.cache[step.i]);
    OneBlock(y, ViewOf(y, s), ViewOf(y, t), s.cache, step.i, b, t.cache[step.i]);
  }

  lemma UnpinLogInv(y: Layout, s: State, cache: seq<Entry>)
    requires LogInv(y, s) && s.phase.Install? && s.phase.written
    ensures var b := s.slots[s.phase.k];
            b in Current(s) && b < |s.disk| && s.disk[b] == Current(s)[b]
    ensures LogInv(y, s.(cache := cache, phase := Install(s.phase.k + 1, false)))
  {
    LoggedIsHome(y, s, s.phase.k);
    var b := s.slots[s.phase.k];
    hide Apply, SlotSet, RecoversTo, DiskOk;
    var t := s.(cache := cache, phase := Install(s.phase.k + 1, false));
    SlotSetTail(y, s.slots, s.phase.k, s.len);
    SameMeaning(s, t);
    assert Unsettled(t) == Unsettled(s);
  }

  lemma UnpinInv(y: Layout, s: State, step: Step)
    requires Inv(y, s) && step.Unpin? && Enabled(y, s, step)
    ensures Inv(y, Do(y, s, step))
  {
    hide RecoversTo, DiskOk, Apply, SlotSet, Settled;
    var t, b := Do(y, s, step), s.slots[s.phase.k];
    UnpinLogInv(y, s, t.cache);
    SlotSetTail(y, s.slots, s.phase.k, s.len);
    assert EntryOk(y, ViewOf(y, s), s.cache[step.i]);
    SameMeaning(s, t);
    OneBlock(y, ViewOf(y, s), ViewOf(y, t), s.cache, step.i, b, t.cache[step.i]);
  }

  lemma HomesDoneInv(y: Layout, s: State)
    requires Inv(y, s) && Enabled(y, s, HomesDone)
    ensures Inv(y, Do(y, s, HomesDone))
  {
    hide RecoversTo, DiskOk, Apply;
    var t := Do(y, s, HomesDone);
    SameMeaning(s, t);
    assert SlotSet(s.slots, s.len, s.len) == {};
    SameEntries(y, ViewOf(y, s), ViewOf(y, t), s.cache);
  }

  /** With every home block settled, an empty header recovers to the same state. */
  lemma ClearedRecovers(y: Layout, disk: Disk, m: map<nat, Block>, header: Block)
    requires DiskOk(y, disk) && m.Keys == y.HomeBlocks() && Settled(disk, m, {}) && HeaderLen(header) == 0
    ensures var disk' := disk[y.start := header];
            DiskOk(y, disk') && RecoversTo(y, disk', m) && Settled(disk', m, {})
  {
    assert !y.IsHome(y.start);
    assert y.start !in m;
  }

  lemma NothingPending(s: State)
    requires |s.groups| > 0 && s.pending == []
    ensures Current(s) == Committed(s)
  {}

  lemma WriteClearedLogInv(y: Layout, s: State, cache: seq<Entry>, header: Block, phase: Phase)
    requires LogInv(y, s) && s.phase.EmptyHead? && HeaderLen(header) == 0
    requires phase == if s.recovering then Idle else Finish
    ensures LogInv(y, s.(disk := s.disk[y.start := header], cache := cache, phase := phase, recovering := false))
  {
    hide RecoversTo, DiskOk, Apply;
    var t := s.(disk := s.disk[y.start := header], cache := cache, phase := phase, recovering := false);
    SameMeaning(s, t);
    ClearedRecovers(y, s.disk, Current(s), header);
    NothingPending(s);
    NothingPending(t);
  }

  lemma WriteClearedInv(y: Layout, s: State, step: Step)
    requires Inv(y, s) && step.WriteCleared? && Enabled(y, s, step)
    ensures Inv(y, Do(y, s, step))
  {
    hide RecoversTo, DiskOk, Apply, SlotSet, Settled;
    var t := Do(y, s, step);
    CommitterData(y, s, step.h, step.i, y.start);
    WriteClearedLogInv(y, s, t.cache, s.cache[step.i].data, t.phase);
    EmptySlotSet(s.slots, 0);
    SameMeaning(s, t);
    assert EntryOk(y, ViewOf(y, s), s.cache[step.i]);
    OneBlock(y, ViewOf(y, s), ViewOf(y, t), s.cache, step.i, y.start, t.cache[step.i]);
  }

  lemma EmptySlotSet(slots: seq<nat>, k: nat)
    requires k <= |slots|
    ensures SlotSet(slots, k, k) == {}
  {}

  lemma FinishInv(y: Layout, s: State)
    requires Inv(y, s) && Enabled(y, s, FinishCommit)
    ensures Inv(y, Do(y, s, FinishCommit))
  {
    hide RecoversTo, DiskOk, Apply, Settled;
    var t := Do(y, s, FinishCommit);
    SameMeaning(s, t);
    SameEntries(y, ViewOf(y, s), ViewOf(y, t), s.cache);
  }

  lemma ReadHeaderLogInv(y: Layout, s: State, i: nat)
    requires LogInv(y, s) && s.phase.Boot? && i < |s.cache| && s.cache[i].data == s.disk[y.start]
    ensures LogInv(y, DoReadHeader(s, i)) && Pins(DoReadHeader(s, i)) == {}
  {
    var t := DoReadHeader(s, i);
    NothingPending(s);
    NothingPending(t);
    hide Apply;
    forall b | b in Current(t) && b < |t.disk| && b !in Unsettled(t)
      ensures t.disk[b] == Current(t)[b]
    {
      assert InstalledAt(y, s.disk, t.slots, t.len, b, Committed(s)[b]);
      assert forall j | 0 <= j < t.len :: t.slots[j] in SlotSet(t.slots, 0, t.len);
    }
  }

  lemma ReadHeaderInv(y: Layout, s: State, step: Step)
    requires Inv(y, s) && step.ReadHeader? && Enabled(y, s, step)
    ensures Inv(y, Do(y, s, step))
  {
    hide RecoversTo, DiskOk, Apply, Settled;
    var t := Do(y, s, step);
    assert EntryOk(y, ViewOf(y, s), s.cache[step.i]);
    ReadHeaderLogInv(y, s, step.i);
    SameMeaning(s, t);
    SameEntries(y, ViewOf(y, s), ViewOf(y, t), s.cache);
  }

  /** A crash keeps only the disk: whatever was going on, recovery starts from a good state. */
  lemma RebootInv(y: Layout, s: State)
    requires DiskOk(y, s.disk) && |s.groups| > 0 && RecoversTo(y, s.disk, Committed(s))
    ensures Inv(y, DoCrash(s))
  {
    RecoversKeys(y, s.disk, Committed(s));
    hide RecoversTo;
    var t := DoCrash(s);
    NothingPending(t);
  }

  lemma CrashInv(y: Layout, s: State)
    requires Inv(y, s)
    ensures |s.groups| > 0 && Inv(y, DoCrash(s))
  {
    RebootInv(y, s);
  }

  lemma RecoversKeys(y: Layout, disk: Disk, m: map<nat, Block>)
    requires DiskOk(y, disk) && RecoversTo(y, disk, m)
    ensures m.Keys == y.HomeBlocks()
  {}

  /** Every step of every interleaving keeps the invariant. */
  lemma StepInv(y: Layout, s: State, step: Step)
    requires Inv(y, s) && Enabled(y, s, step)
    ensures Inv(y, Do(y, s, step))
  {
    hide Inv, LogInv, CacheInv, RecoversTo, DiskOk;
    match step
    case Bget(h, i, b) => BgetInv(y, s, h, i, b);
    case Lock(h, i) => LocalInv(y, s, step);
    case Fill(h, i) => LocalInv(y, s, step);
    case Modify(h, i, data) => LocalInv(y, s, step);
    case LogWrite(h, i) => LogWriteInv(y, s, h, i);
    case Unlock(h, i) => LocalInv(y, s, step);
    case Brelse(h, i) => LocalInv(y, s, step);
    case BeginOp(o) => BeginOpInv(y, s, o);
    case EndOp(o) => EndOpInv(y, s, o);
    case CopyToSlot(h, i, h2, i2) => CopyToLogInv(y, s, step);
    case WriteSlot(h, i) => WriteSlotInv(y, s, step);
    case SlotsDone => SlotsDoneInv(y, s);
    case CopyHeader(h, i) => CopyToLogInv(y, s, step);
    case WriteHeader(h, i) => WriteHeaderInv(y, s, step);
    case CopyToHome(h, i, h2, i2) => CopyToHomeInv(y, s, step);
    case WriteHome(h, i) => WriteHomeInv(y, s, step);
    case Unpin(h, i) => UnpinInv(y, s, step);
    case HomesDone => HomesDoneInv(y, s);
    case ClearHeader(h, i) => CopyToHomeInv(y, s, step);
    case WriteCleared(h, i) => WriteClearedInv(y, s, step);
    case FinishCommit => FinishInv(y, s);
    case ReadHeader(h, i) => ReadHeaderInv(y, s, step);
    case Crash => CrashInv(y, s);
  }
}
