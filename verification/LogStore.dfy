/** The log with its cache, commits, crashes and recovery is an atomic store. The store is moved by
    the steps alone: what a block holds is what the callers have written into their buffers. */
module LogStore {
  import opened Options
  import opened LogSpec
  import opened LogMachine
  import opened LogInvariant
  import opened LogTheorems

  /** A handle and the cache slot it got. */
  datatype Use = Use(h: Handle, i: nat)

  /** The specification: a store whose current content becomes durable all at once. `asked` is the
      block each use has asked for, `drafts` what it has written and not logged yet. */
  datatype Store = Store(
    durable: map<nat, Block>, current: map<nat, Block>, asked: map<Use, nat>, drafts: map<Use, Block>)

  /** What a use sees in its buffer: its own draft, or the current content of its block. */
  function Seen(a: Store, u: Use): Option<Block> {
    if u in a.drafts then Some(a.drafts[u])
    else if u in a.asked && a.asked[u] in a.current then Some(a.current[a.asked[u]])
    else None
  }

  function Act(a: Store, step: Step): Store {
    match step
    case Bget(h, i, b) => a.(asked := a.asked[Use(h, i) := b])
    case Modify(h, i, data) => a.(drafts := a.drafts[Use(h, i) := data])
    case LogWrite(h, i) =>
      var u := Use(h, i);
      if u in a.asked && Seen(a, u).Some? then
        a.(current := a.current[a.asked[u] := Seen(a, u).value], drafts := a.drafts - {u})
      else a
    case WriteHeader(_, _) => a.(durable := a.current)
    case Crash => Store(a.durable, a.durable, map[], map[])
    case _ => a
  }

  function ActAll(a: Store, steps: seq<Step>): Store
    decreases |steps|
  {
    if steps == [] then a else ActAll(Act(a, steps[0]), steps[1..])
  }

  /** Before the first step nothing is open, and all is as recovery leaves it. */
  function Fresh(home: map<nat, Block>): Store {
    Store(home, home, map[], map[])
  }

  // ---------- how machine and store agree ----------

  /** Every handle of slot i asked for the block that is in it. */
  ghost predicate AskedOk(s: State, a: Store, i: nat)
    requires i < |s.cache|
  {
    forall h | h in s.cache[i].users :: Use(h, i) in a.asked && s.cache[i].target == Some(a.asked[Use(h, i)])
  }

  predicate HasDraft(s: State, u: Use) {
    u.i < |s.cache| && s.cache[u.i].owner == Some(u.h) && u.h.agent.Op? && s.cache[u.i].dirty
  }

  /** A use has a draft exactly while its operation has changed the buffer; it is what is there. */
  predicate DraftOk(s: State, a: Store, u: Use) {
    (u in a.drafts <==> HasDraft(s, u)) && (u in a.drafts && u.i < |s.cache| ==> a.drafts[u] == s.cache[u.i].data)
  }

  ghost predicate Agrees(s: State, a: Store) {
    && |s.groups| > 0 && a.durable == Committed(s) && a.current == Current(s)
    && (forall i | 0 <= i < |s.cache| :: AskedOk(s, a, i))
    && (forall u: Use :: DraftOk(s, a, u))
  }

  // ---------- one step ----------

  /** Steps that change neither contents nor drafts nor who asked for what. */
  predicate Silent(step: Step) {
    !step.Bget? && !step.Modify? && !step.LogWrite? && !step.WriteHeader? && !step.Crash?
  }

  lemma QuietStep(y: Layout, s: State, step: Step)
    requires Inv(y, s) && Enabled(y, s, step)
    requires !step.LogWrite? && !step.WriteHeader? && !step.Crash?
    ensures Do(y, s, step).pending == s.pending && Do(y, s, step).groups == s.groups
  {
    hide RecoversTo, DiskOk, Settled, CacheInv, SlotsOk, Apply, PhaseOk;
  }

  /** An entry after a silent step: users only leave, the block stays, and drafts of operations stay. */
  predicate EntryKept(e: Entry, e': Entry) {
    && e'.users <= e.users && e'.target == e.target
    && (e'.owner.Some? && e'.owner.value.agent.Op? && e'.dirty <==> e.owner.Some? && e.owner.value.agent.Op? && e.dirty)
    && (e.owner.Some? && e.owner.value.agent.Op? && e.dirty ==> e'.owner == e.owner && e'.data == e.data)
  }

  /** Steps on the buffer of slot i by its user. */
  predicate UserStep(step: Step) {
    step.Lock? || step.Fill? || step.Unlock? || step.Brelse?
  }

  /** Steps on the buffer of slot i by the committer, which has locked it. */
  predicate CopyStep(step: Step) {
    step.CopyToSlot? || step.CopyHeader? || step.CopyToHome? || step.ClearHeader?
  }

  predicate WriteStep(step: Step) {
    step.WriteSlot? || step.WriteHome? || step.Unpin? || step.WriteCleared?
  }

  lemma UserEntry(y: Layout, s: State, step: Step, i: nat)
    requires Shape(y, s) && Enabled(y, s, step) && UserStep(step) && i < |s.cache|
    requires s.cache[i].dirty ==> s.cache[i].owner.Some? && s.cache[i].valid
    ensures i < |Do(y, s, step).cache| == |s.cache| && EntryKept(s.cache[i], Do(y, s, step).cache[i])
  {}

  lemma CopyEntry(y: Layout, s: State, step: Step, i: nat)
    requires Shape(y, s) && Enabled(y, s, step) && CopyStep(step) && i < |s.cache|
    ensures i < |Do(y, s, step).cache| == |s.cache| && EntryKept(s.cache[i], Do(y, s, step).cache[i])
  {
    hide WithHeader, WithHeaderLen;
  }

  lemma WriteEntry(y: Layout, s: State, step: Step, i: nat)
    requires Shape(y, s) && Enabled(y, s, step) && WriteStep(step) && i < |s.cache|
    ensures i < |Do(y, s, step).cache| == |s.cache| && EntryKept(s.cache[i], Do(y, s, step).cache[i])
  {}

  lemma OtherEntry(y: Layout, s: State, step: Step)
    requires Shape(y, s) && Enabled(y, s, step) && Silent(step) && !UserStep(step)
    requires !CopyStep(step) && !WriteStep(step)
    ensures Do(y, s, step).cache == s.cache
  {
    hide Apply;
  }

  lemma SilentEntry(y: Layout, s: State, step: Step, i: nat)
    requires Inv(y, s) && Enabled(y, s, step) && Silent(step) && i < |s.cache|
    ensures i < |Do(y, s, step).cache| == |s.cache| && EntryKept(s.cache[i], Do(y, s, step).cache[i])
  {
    DirtyIsOwned(y, s, i);
    hide Inv, Do, Enabled;
    if UserStep(step) {
      UserEntry(y, s, step, i);
    } else if CopyStep(step) {
      CopyEntry(y, s, step, i);
    } else if WriteStep(step) {
      WriteEntry(y, s, step, i);
    } else {
      OtherEntry(y, s, step);
    }
  }

  lemma DirtyIsOwned(y: Layout, s: State, i: nat)
    requires Inv(y, s) && i < |s.cache|
    ensures Shape(y, s) && (s.cache[i].dirty ==> s.cache[i].owner.Some? && s.cache[i].valid)
    ensures s.cache[i].refcnt == 0 ==> s.cache[i].users == {}
  {
    hide RecoversTo, DiskOk, Settled, SlotsOk, Apply, PhaseOk, UniqueTargets, PinsCached;
    assert EntryOk(y, ViewOf(y, s), s.cache[i]);
  }

  ghost predicate AllKept(s: State, t: State) {
    && t.groups == s.groups && t.pending == s.pending && |t.cache| == |s.cache|
    && forall i | 0 <= i < |s.cache| :: EntryKept(s.cache[i], t.cache[i])
  }

  lemma KeptAgrees(s: State, t: State, a: Store)
    requires AllKept(s, t) && Agrees(s, a)
    ensures Agrees(t, a)
  {
    hide Current, Committed;
    SameMeaning(s, t);
    forall i | 0 <= i < |t.cache|
      ensures AskedOk(t, a, i)
    {
      assert AskedOk(s, a, i) && EntryKept(s.cache[i], t.cache[i]);
    }
    forall u: Use
      ensures DraftOk(t, a, u)
    {
      assert DraftOk(s, a, u);
      if u.i < |s.cache| {
        assert EntryKept(s.cache[u.i], t.cache[u.i]);
      }
    }
  }

  lemma SilentAgrees(y: Layout, s: State, step: Step, a: Store)
    requires Inv(y, s) && Enabled(y, s, step) && Silent(step) && Agrees(s, a)
    ensures Agrees(Do(y, s, step), Act(a, step))
  {
    assert Shape(y, s);
    hide Inv, Do, Enabled, Agrees, EntryKept;
    var t := Do(y, s, step);
    QuietStep(y, s, step);
    SameLength(y, s, step);
    forall i | 0 <= i < |s.cache|
      ensures EntryKept(s.cache[i], t.cache[i])
    {
      SilentEntry(y, s, step, i);
    }
    KeptAgrees(s, t, a);
  }

  lemma SameLength(y: Layout, s: State, step: Step)
    requires Shape(y, s) && Enabled(y, s, step) && !step.Crash?
    ensures |Do(y, s, step).cache| == |s.cache|
  {
    hide Apply;
  }

  /** What the store says of a use is the same before and after. */
  predicate UseKept(a: Store, a': Store, u: Use) {
    && (u in a'.asked <==> u in a.asked) && (u in a.asked && u in a'.asked ==> a'.asked[u] == a.asked[u])
    && (u in a'.drafts <==> u in a.drafts) && (u in a.drafts && u in a'.drafts ==> a'.drafts[u] == a.drafts[u])
  }

  /** A step on one slot. */
  lemma OneSlotAgrees(s: State, t: State, a: Store, a': Store, i: nat)
    requires Agrees(s, a) && i < |s.cache| == |t.cache| && t.cache == s.cache[i := t.cache[i]]
    requires |t.groups| > 0 && a'.durable == Committed(t) && a'.current == Current(t)
    requires forall u: Use | u.i != i :: UseKept(a, a', u)
    requires AskedOk(t, a', i) && forall u: Use | u.i == i :: DraftOk(t, a', u)
    ensures Agrees(t, a')
  {
    hide Current, Committed;
    forall j | 0 <= j < |t.cache|
      ensures AskedOk(t, a', j)
    {
      assert AskedOk(s, a, j);
      if j != i {
        forall h | h in t.cache[j].users
          ensures Use(h, j) in a'.asked && t.cache[j].target == Some(a'.asked[Use(h, j)])
        {
          assert UseKept(a, a', Use(h, j));
        }
      }
    }
    forall u: Use
      ensures DraftOk(t, a', u)
    {
      assert DraftOk(s, a, u);
      if u.i != i {
        assert UseKept(a, a', u);
      }
    }
  }

  /** What `bget` does: one more handle for slot i, which now holds block b. */
  predicate Got(s: State, t: State, h: Handle, i: nat, b: nat) {
    && t.groups == s.groups && t.pending == s.pending
    && i < |s.cache| == |t.cache| && t.cache == s.cache[i := t.cache[i]]
    && var e, e' := s.cache[i], t.cache[i];
       && (e.target == Some(b) || e.refcnt == 0) && e'.target == Some(b) && e'.users == e.users + {h}
       && e'.owner == e.owner && e'.dirty == e.dirty && e'.data == e.data
  }

  lemma BgetDoes(y: Layout, s: State, h: Handle, i: nat, b: nat)
    requires Shape(y, s) && Enabled(y, s, Bget(h, i, b))
    ensures Got(s, Do(y, s, Bget(h, i, b)), h, i, b)
  {
    hide Apply;
  }

  lemma BgetSlot(s: State, t: State, a: Store, h: Handle, i: nat, b: nat)
    requires i < |s.cache| == |t.cache| && AskedOk(s, a, i) && (s.cache[i].target == Some(b) || s.cache[i].users == {})
    requires t.cache[i].target == Some(b) && t.cache[i].users == s.cache[i].users + {h}
    ensures AskedOk(t, Act(a, Bget(h, i, b)), i)
  {
    var a' := Act(a, Bget(h, i, b));
    forall g | g in t.cache[i].users
      ensures Use(g, i) in a'.asked && t.cache[i].target == Some(a'.asked[Use(g, i)])
    {
      if g != h {
        assert g in s.cache[i].users && Use(g, i) != Use(h, i);
      }
    }
  }

  lemma GotAgrees(s: State, t: State, h: Handle, i: nat, b: nat, a: Store)
    requires Got(s, t, h, i, b) && Agrees(s, a) && (s.cache[i].refcnt == 0 ==> s.cache[i].users == {})
    ensures Agrees(t, Act(a, Bget(h, i, b)))
  {
    hide Current, Committed, Seen;
    var a' := Act(a, Bget(h, i, b));
    SameMeaning(s, t);
    BgetSlot(s, t, a, h, i, b);
    forall u: Use | u.i == i
      ensures DraftOk(t, a', u)
    {
      assert DraftOk(s, a, u);
    }
    OneSlotAgrees(s, t, a, a', i);
  }

  lemma BgetAgrees(y: Layout, s: State, h: Handle, i: nat, b: nat, a: Store)
    requires Inv(y, s) && Enabled(y, s, Bget(h, i, b)) && Agrees(s, a)
    ensures Agrees(Do(y, s, Bget(h, i, b)), Act(a, Bget(h, i, b)))
  {
    DirtyIsOwned(y, s, i);
    BgetDoes(y, s, h, i, b);
    hide Inv, Do, Enabled, Agrees, Got, Act;
    GotAgrees(s, Do(y, s, Bget(h, i, b)), h, i, b, a);
  }

  lemma ModifyDoes(y: Layout, s: State, h: Handle, i: nat, data: Block)
    requires Shape(y, s) && Enabled(y, s, Modify(h, i, data))
    ensures i < |s.cache| && s.cache[i].owner == Some(h) && h.agent.Op?
    ensures Do(y, s, Modify(h, i, data)) == WithEntry(s, i, s.cache[i].(data := data, dirty := true))
  {
    hide Apply;
  }

  lemma ModifyAgrees(y: Layout, s: State, h: Handle, i: nat, data: Block, a: Store)
    requires Inv(y, s) && Enabled(y, s, Modify(h, i, data)) && Agrees(s, a)
    ensures Agrees(Do(y, s, Modify(h, i, data)), Act(a, Modify(h, i, data)))
  {
    DirtyIsOwned(y, s, i);
    hide Inv, Do, Enabled, Shape;
    ModifyDoes(y, s, h, i, data);
    var t, a' := Do(y, s, Modify(h, i, data)), Act(a, Modify(h, i, data));
    SameMeaning(s, t);
    assert AskedOk(s, a, i);
    forall u: Use | u.i == i
      ensures DraftOk(t, a', u)
    {
      assert DraftOk(s, a, u);
    }
    OneSlotAgrees(s, t, a, a', i);
  }

  /** Whoever holds a good buffer of a home block sees in it what the store says. */
  lemma BufferIsSeen(y: Layout, s: State, h: Handle, i: nat, a: Store)
    requires Inv(y, s) && Agrees(s, a) && s.phase != Boot && !s.recovering && !h.agent.Committer?
    requires Holds(s, h, i) && s.cache[i].valid && s.cache[i].target.Some? && y.IsHome(s.cache[i].target.value)
    ensures var u := Use(h, i);
            && u in a.asked && s.cache[i].target == Some(a.asked[u]) && Seen(a, u) == Some(s.cache[i].data)
  {
    var u := Use(h, i);
    Owned(y, s, i);
    hide Inv;
    assert AskedOk(s, a, i) && DraftOk(s, a, u);
    if !s.cache[i].dirty {
      CleanShowsCurrent(y, s, i);
    }
  }

  lemma Owned(y: Layout, s: State, i: nat)
    requires Inv(y, s) && i < |s.cache| && s.cache[i].owner.Some?
    ensures s.cache[i].owner.value in s.cache[i].users
    ensures s.cache[i].dirty ==> !s.cache[i].owner.value.agent.Reader?
  {
    assert EntryOk(y, ViewOf(y, s), s.cache[i]);
  }

  /** What a log write does to slot i, and to the store's contents. */
  ghost predicate Put(s: State, t: State, h: Handle, i: nat) {
    && |s.groups| > 0 && t.groups == s.groups && i < |s.cache| == |t.cache| && t.cache == s.cache[i := t.cache[i]]
    && s.cache[i].owner == Some(h) && s.cache[i].target.Some?
    && t.cache[i] == s.cache[i].(dirty := false, refcnt := t.cache[i].refcnt)
    && Current(t) == Current(s)[s.cache[i].target.value := s.cache[i].data]
  }

  lemma PutAgrees(s: State, t: State, h: Handle, i: nat, a: Store)
    requires Put(s, t, h, i) && Agrees(s, a) && Seen(a, Use(h, i)) == Some(s.cache[i].data)
    requires Use(h, i) in a.asked && s.cache[i].target == Some(a.asked[Use(h, i)])
    ensures Agrees(t, Act(a, LogWrite(h, i)))
  {
    hide Current, Seen;
    var a' := Act(a, LogWrite(h, i));
    SameGroups(s, t);
    assert AskedOk(s, a, i);
    forall u: Use | u.i == i
      ensures DraftOk(t, a', u)
    {
      assert DraftOk(s, a, u);
    }
    OneSlotAgrees(s, t, a, a', i);
  }

  lemma LogWriteAgrees(y: Layout, s: State, h: Handle, i: nat, a: Store)
    requires Inv(y, s) && Enabled(y, s, LogWrite(h, i)) && Agrees(s, a)
    ensures Agrees(Do(y, s, LogWrite(h, i)), Act(a, LogWrite(h, i)))
  {
    LogWriteDoes(y, s, h, i);
    LogWriteIdle(y, s, h, i);
    hide Inv, Do, Agrees, Put, Act, Seen, LogWritePanics;
    BufferIsSeen(y, s, h, i, a);
    PutAgrees(s, Do(y, s, LogWrite(h, i)), h, i, a);
  }

  lemma LogWriteIdle(y: Layout, s: State, h: Handle, i: nat)
    requires Inv(y, s) && Enabled(y, s, LogWrite(h, i))
    ensures s.phase.Idle? && !s.recovering
  {
    hide CacheInv;
    LogWriteCurrent(y, s, h, i);
  }

  lemma LogWriteDoes(y: Layout, s: State, h: Handle, i: nat)
    requires Inv(y, s) && Enabled(y, s, LogWrite(h, i))
    ensures Put(s, Do(y, s, LogWrite(h, i)), h, i)
  {
    hide CacheInv, RecoversTo, DiskOk, Settled, SlotsOk, Apply, PhaseOk;
    LogWriteCurrent(y, s, h, i);
  }

  lemma HeaderAgrees(y: Layout, s: State, h: Handle, i: nat, a: Store)
    requires Inv(y, s) && Enabled(y, s, WriteHeader(h, i)) && Agrees(s, a)
    ensures Agrees(Do(y, s, WriteHeader(h, i)), Act(a, WriteHeader(h, i)))
  {
    assert Shape(y, s);
    hide Inv, Apply;
    var step := WriteHeader(h, i);
    var t, a' := Do(y, s, step), Act(a, step);
    NothingPending(t);
    forall j | 0 <= j < |t.cache|
      ensures AskedOk(t, a', j)
    {
      assert AskedOk(s, a, j);
    }
    forall u: Use
      ensures DraftOk(t, a', u)
    {
      assert DraftOk(s, a, u);
    }
  }

  lemma CrashAgrees(y: Layout, s: State, a: Store)
    requires Inv(y, s) && Enabled(y, s, Crash) && Agrees(s, a)
    ensures Agrees(Do(y, s, Crash), Act(a, Crash))
  {
    assert Shape(y, s);
    hide Inv, Apply;
    NothingPending(Do(y, s, Crash));
  }

  lemma StepAgrees(y: Layout, s: State, step: Step, a: Store)
    requires Inv(y, s) && Enabled(y, s, step) && Agrees(s, a)
    ensures Agrees(Do(y, s, step), Act(a, step))
  {
    hide Inv, Do, Enabled, Agrees, Act;
    match step
    case Bget(h, i, b) => BgetAgrees(y, s, h, i, b, a);
    case Modify(h, i, data) => ModifyAgrees(y, s, h, i, data, a);
    case LogWrite(h, i) => LogWriteAgrees(y, s, h, i, a);
    case WriteHeader(h, i) => HeaderAgrees(y, s, h, i, a);
    case Crash => CrashAgrees(y, s, a);
    case _ => SilentAgrees(y, s, step, a);
  }

  // ---------- whole runs ----------

  lemma InitAgrees(y: Layout, s: State)
    requires Init(y, s)
    ensures Agrees(s, Fresh(HomeOf(y, Recovered(y, s.disk))))
  {
    hide DiskOk, HomeOf, Recovered;
    NothingPending(s);
  }

  lemma {:induction false} RunAgrees(y: Layout, s: State, steps: seq<Step>, t: State, a: Store)
    requires Inv(y, s) && Run(y, s, steps, t) && Agrees(s, a)
    ensures Inv(y, t) && Agrees(t, ActAll(a, steps))
    decreases |steps|
  {
    hide Inv, Shape, Do, Enabled, Agrees, Act;
    if steps != [] {
      StepAgrees(y, s, steps[0], a);
      StepInv(y, s, steps[0]);
      RunAgrees(y, Do(y, s, steps[0]), steps[1..], t, Act(a, steps[0]));
    }
  }

  /** The store after these steps, from the disk the machine starts with. */
  ghost function StoreAfter(y: Layout, s0: State, steps: seq<Step>): Store
    requires Init(y, s0)
  {
    ActAll(Fresh(HomeOf(y, Recovered(y, s0.disk))), steps)
  }

  lemma Followed(y: Layout, s0: State, steps: seq<Step>, s: State)
    requires Init(y, s0) && Run(y, s0, steps, s)
    ensures Inv(y, s) && Agrees(s, StoreAfter(y, s0, steps))
  {
    hide Inv, Shape, Do, Enabled, Agrees, Act, Run, HomeOf, Recovered, DoCrash;
    InitInv(y, s0);
    InitAgrees(y, s0);
    RunAgrees(y, s0, steps, s, Fresh(HomeOf(y, Recovered(y, s0.disk))));
  }

  /** Over every run, with any crashes in it, the home blocks that recovery would show are the durable
      content of the store, and the log's current content is that of the store. */
  lemma RefinesAtomicStore(y: Layout, s0: State, steps: seq<Step>, s: State)
    requires Init(y, s0) && Run(y, s0, steps, s)
    ensures DiskOk(y, s.disk) && HomeOf(y, Recovered(y, s.disk)) == StoreAfter(y, s0, steps).durable
    ensures |s.groups| > 0 && Current(s) == StoreAfter(y, s0, steps).current
  {
    hide Inv, Shape, Do, Enabled, Act, Init, Run, DiskOk, HomeOf, Recovered, StoreAfter;
    Followed(y, s0, steps, s);
    DurableIs(y, s);
  }

  /** Reads see the last write: a buffer of a home block, held by an operation or a reader, shows what
      its holder has written into it, or else what was last logged for the block by anybody. */
  lemma ReadsSeeLastWrite(y: Layout, s0: State, steps: seq<Step>, s: State, h: Handle, i: nat)
    requires Init(y, s0) && Run(y, s0, steps, s) && s.phase != Boot && !s.recovering && !h.agent.Committer?
    requires Holds(s, h, i) && s.cache[i].valid && s.cache[i].target.Some? && y.IsHome(s.cache[i].target.value)
    ensures var a, u := StoreAfter(y, s0, steps), Use(h, i);
            && u in a.asked && s.cache[i].target == Some(a.asked[u]) && Seen(a, u) == Some(s.cache[i].data)
  {
    hide Inv, Shape, Do, Enabled, Act, Init, Run, StoreAfter, Seen, Agrees;
    Followed(y, s0, steps, s);
    BufferIsSeen(y, s, h, i, StoreAfter(y, s0, steps));
  }

  /** Nothing here changes the draft of u: no other write into its buffer, no log write, no crash. */
  predicate LeavesDraft(steps: seq<Step>, u: Use) {
    forall k | 0 <= k < |steps| ::
      !steps[k].Crash? && (steps[k].Modify? || steps[k].LogWrite? ==> Use(steps[k].h, steps[k].i) != u)
  }

  lemma {:induction false} DraftStays(a: Store, steps: seq<Step>, u: Use)
    requires u in a.drafts && LeavesDraft(steps, u)
    ensures u in ActAll(a, steps).drafts && ActAll(a, steps).drafts[u] == a.drafts[u]
    decreases |steps|
  {
    if steps != [] {
      assert !steps[0].Crash?;
      DraftStays(Act(a, steps[0]), steps[1..], u);
    }
  }

  lemma {:induction false} ActSplit(a: Store, before: seq<Step>, after: seq<Step>)
    ensures ActAll(a, before + after) == ActAll(ActAll(a, before), after)
    decreases |before|
  {
    if before == [] {
      assert before + after == after;
    } else {
      assert (before + after)[1..] == before[1..] + after;
      ActSplit(Act(a, before[0]), before[1..], after);
    }
  }

  /** What an operation wrote last into its buffer is what is logged: wherever the operation then
      logs the buffer, the current content of the block becomes that data, and nothing else does. */
  lemma LogsWhatWasWritten(y: Layout, s0: State, before: seq<Step>, data: Block, after: seq<Step>, s: State,
                           h: Handle, i: nat)
    requires Init(y, s0) && Run(y, s0, before + [Modify(h, i, data)] + after, s) && LeavesDraft(after, Use(h, i))
    requires Shape(y, s) && Enabled(y, s, LogWrite(h, i))
    ensures |s.groups| > 0 && s.cache[i].target.Some? && |Do(y, s, LogWrite(h, i)).groups| > 0
    ensures Current(Do(y, s, LogWrite(h, i))) == Current(s)[s.cache[i].target.value := data]
  {
    var u, steps := Use(h, i), before + [Modify(h, i, data)] + after;
    var a := StoreAfter(y, s0, steps);
    var a0 := StoreAfter(y, s0, before);
    Followed(y, s0, steps, s);
    ActSplit(Fresh(HomeOf(y, Recovered(y, s0.disk))), before + [Modify(h, i, data)], after);
    ActSplit(Fresh(HomeOf(y, Recovered(y, s0.disk))), before, [Modify(h, i, data)]);
    hide Init, Run, Shape, DiskOk, HomeOf, Recovered;
    assert ActAll(a0, [Modify(h, i, data)]) == Act(a0, Modify(h, i, data));
    DraftStays(Act(a0, Modify(h, i, data)), after, u);
    LogWriteCurrent(y, s, h, i);
    BufferIsSeen(y, s, h, i, a);
  }

  // ---------- committed groups ----------

  /** The contents that the store makes durable, one after the other. */
  function Durables(a: Store, steps: seq<Step>): seq<map<nat, Block>>
    decreases |steps|
  {
    if steps == [] then []
    else (if steps[0].WriteHeader? then [a.current] else []) + Durables(Act(a, steps[0]), steps[1..])
  }

  /** Wherever the run writes the header, no operation is open. */
  ghost predicate CommitsWholeOps(y: Layout, s: State, steps: seq<Step>, t: State)
    requires Run(y, s, steps, t)
    decreases |steps|
  {
    steps != [] ==>
      && (steps[0].WriteHeader? ==> s.ops == map[] && s.outstanding == 0)
      && CommitsWholeOps(y, Do(y, s, steps[0]), steps[1..], t)
  }

  lemma NoDurables(a: Store)
    ensures Durables(a, []) == []
  {}

  lemma DurablesFrom(groups: seq<map<nat, Block>>, a: Store, steps: seq<Step>)
    requires steps != []
    ensures groups + Durables(a, steps)
            == groups + (if steps[0].WriteHeader? then [a.current] else []) + Durables(Act(a, steps[0]), steps[1..])
  {
    hide Act;
    Regroup(groups, if steps[0].WriteHeader? then [a.current] else [], Durables(Act(a, steps[0]), steps[1..]));
  }

  lemma Regroup<T>(a: seq<T>, b: seq<T>, c: seq<T>)
    ensures a + (b + c) == a + b + c
  {}

  lemma GroupIsCurrent(y: Layout, s: State, step: Step, a: Store)
    requires Inv(y, s) && Enabled(y, s, step) && Agrees(s, a)
    ensures Do(y, s, step).groups == s.groups + (if step.WriteHeader? then [a.current] else [])
  {
    hide RecoversTo, DiskOk, Settled, CacheInv, SlotsOk, Apply, PhaseOk, Do, Enabled;
    GroupStep(y, s, step);
  }

  lemma {:induction false} RunGroups(y: Layout, s: State, steps: seq<Step>, t: State, a: Store)
    requires Inv(y, s) && Run(y, s, steps, t) && Agrees(s, a)
    ensures t.groups == s.groups + Durables(a, steps)
    decreases |steps|
  {
    hide Inv, Shape, Act, Do, Enabled, Agrees, Durables;
    if steps == [] {
      NoDurables(a);
    } else {
      var m := Do(y, s, steps[0]);
      GroupIsCurrent(y, s, steps[0], a);
      StepAgrees(y, s, steps[0], a);
      StepInv(y, s, steps[0]);
      RunGroups(y, m, steps[1..], t, Act(a, steps[0]));
      DurablesFrom(s.groups, a, steps);
    }
  }

  lemma {:induction false} RunCommits(y: Layout, s: State, steps: seq<Step>, t: State)
    requires Inv(y, s) && Run(y, s, steps, t)
    ensures CommitsWholeOps(y, s, steps, t)
    decreases |steps|
  {
    hide Inv, Shape, Do, Enabled;
    if steps != [] {
      GroupStep(y, s, steps[0]);
      StepInv(y, s, steps[0]);
      RunCommits(y, Do(y, s, steps[0]), steps[1..], t);
    }
  }

  /** Over every run the committed groups grow by exactly the contents of the atomic store at its
      durability points, in that order; and each of them is a moment when no operation is half
      way through. */
  lemma GroupsGrowByWholeGroups(y: Layout, s0: State, steps: seq<Step>, s: State)
    requires Init(y, s0) && Run(y, s0, steps, s)
    ensures s.groups == s0.groups + Durables(Fresh(HomeOf(y, Recovered(y, s0.disk))), steps)
    ensures CommitsWholeOps(y, s0, steps, s)
  {
    hide Inv, Shape, Do, Enabled, Agrees, Act, Run, HomeOf, Recovered, DoCrash, Durables, CommitsWholeOps;
    InitInv(y, s0);
    InitAgrees(y, s0);
    RunGroups(y, s0, steps, s, Fresh(HomeOf(y, Recovered(y, s0.disk))));
    RunCommits(y, s0, steps, s);
  }
}
