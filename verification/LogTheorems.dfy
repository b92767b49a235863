/** What the log and the block cache promise, over every run with any number of crashes. */
module LogTheorems {
  import opened Options
  import opened LogSpec
  import opened LogMachine
  import opened LogInvariant

  /** `steps` leads from `s` to `t`, each step enabled where it is taken. */
  ghost predicate Run(y: Layout, s: State, steps: seq<Step>, t: State)
    decreases |steps|
  {
    if steps == [] then s == t
    else Shape(y, s) && Enabled(y, s, steps[0]) && Run(y, Do(y, s, steps[0]), steps[1..], t)
  }

  lemma InitInv(y: Layout, s: State)
    requires Init(y, s)
    ensures Inv(y, s)
  {
    RecoversToIsRecovered(y, s.disk, Committed(s));
    RebootInv(y, s);
  }

  lemma {:induction false} RunInv(y: Layout, s: State, steps: seq<Step>, t: State)
    requires Inv(y, s) && Run(y, s, steps, t)
    ensures Inv(y, t)
    decreases |steps|
  {
    if steps != [] {
      StepInv(y, s, steps[0]);
      RunInv(y, Do(y, s, steps[0]), steps[1..], t);
    }
  }

  lemma Reached(y: Layout, s0: State, steps: seq<Step>, s: State)
    requires Init(y, s0) && Run(y, s0, steps, s)
    ensures Inv(y, s)
  {
    hide Inv, Init, Run;
    InitInv(y, s0);
    RunInv(y, s0, steps, s);
  }

  // ---------- crash atomicity ----------

  /** A step either leaves the committed groups alone, or it is the header write: then it
      adds exactly one group, the last one overlaid with everything logged since, at a
      moment when no operation is half way through. */
  lemma GroupStep(y: Layout, s: State, step: Step)
    requires Inv(y, s) && Enabled(y, s, step)
    ensures var t := Do(y, s, step);
            if step.WriteHeader? then
              && t.groups == s.groups + [Apply(Committed(s), s.pending)] && t.pending == []
              && s.ops == map[] && s.outstanding == 0
            else t.groups == s.groups
  {
    hide RecoversTo, DiskOk, Apply, Settled, CacheInv;
    if step.WriteHeader? {
      assert |s.ops| == 0;
    }
  }

  lemma {:induction false} GroupsArePrefix(y: Layout, s: State, steps: seq<Step>, t: State)
    requires Inv(y, s) && Run(y, s, steps, t)
    ensures s.groups <= t.groups
    decreases |steps|
  {
    if steps != [] {
      GroupStep(y, s, steps[0]);
      StepInv(y, s, steps[0]);
      GroupsArePrefix(y, Do(y, s, steps[0]), steps[1..], t);
    }
  }

  /** Crash atomicity: stop any run at any step, and recovery shows the home blocks exactly
      as the last committed group left them. Runs may contain crashes, also during recovery. */
  lemma CrashAtomicity(y: Layout, s0: State, steps: seq<Step>, s: State)
    requires Init(y, s0) && Run(y, s0, steps, s)
    ensures DiskOk(y, s.disk) && 0 < |s0.groups| && s0.groups <= s.groups
    ensures HomeOf(y, Recovered(y, s.disk)) == s.groups[|s.groups| - 1]
  {
    hide *;
    InitInv(y, s0);
    DurableIs(y, s0);
    GroupsArePrefix(y, s0, steps, s);
    Reached(y, s0, steps, s);
    DurableIs(y, s);
  }

  lemma DurableIs(y: Layout, s: State)
    requires Inv(y, s)
    ensures DiskOk(y, s.disk) && |s.groups| > 0
    ensures HomeOf(y, Recovered(y, s.disk)) == s.groups[|s.groups| - 1]
  {
    hide CacheInv, SlotsOk, PhaseOk, Settled;
    RecoversToIsRecovered(y, s.disk, Committed(s));
  }

  /** When no operation is outstanding and no commit is going on, nothing is uncommitted and
      the home blocks themselves are up to date. */
  lemma QuiescentIsDurable(y: Layout, s0: State, steps: seq<Step>, s: State)
    requires Init(y, s0) && Run(y, s0, steps, s) && s.phase.Idle? && s.outstanding == 0
    ensures |s.groups| > 0 && |s.disk| == y.nblocks
    ensures s.pending == [] && HomeOf(y, s.disk) == Committed(s) == Current(s)
  {
    Reached(y, s0, steps, s);
    assert |s.ops| == 0;
    assert s.ops.Keys == {} && s.ops == map[];
    NothingPending(s);
    assert Unsettled(s) == {};
    assert forall b | b in y.HomeBlocks() :: s.disk[b] == Committed(s)[b];
  }

  // ---------- cache coherence ----------

  /** A valid buffer that nobody has locked, or that its owner has not changed, equals the disk
      block unless the block is pinned for the coming commit; and a pinned one is referenced. */
  lemma Coherence(y: Layout, s0: State, steps: seq<Step>, s: State, i: nat)
    requires Init(y, s0) && Run(y, s0, steps, s)
    requires i < |s.cache| && s.cache[i].valid && (s.cache[i].owner.None? || !s.cache[i].dirty)
    ensures Shape(y, s) && s.cache[i].target.Some? && s.cache[i].target.value < |s.disk|
    ensures s.cache[i].target.value !in Pins(s) ==> s.cache[i].data == s.disk[s.cache[i].target.value]
    ensures s.cache[i].target.value in Pins(s) ==> s.cache[i].refcnt >= 1
  {
    Reached(y, s0, steps, s);
    assert EntryOk(y, ViewOf(y, s), s.cache[i]);
  }

  lemma OneEntryPerBlock(y: Layout, s0: State, steps: seq<Step>, s: State, i: nat, j: nat)
    requires Init(y, s0) && Run(y, s0, steps, s) && i < |s.cache| && j < |s.cache|
    requires s.cache[i].target.Some? && s.cache[i].target == s.cache[j].target
    ensures i == j
  {
    Reached(y, s0, steps, s);
  }

  /** Whatever was evicted in between, an unchanged buffer of a home block shows the last content
      logged or installed for it. */
  lemma CleanShowsCurrent(y: Layout, s: State, i: nat)
    requires Inv(y, s) && s.phase != Boot && !s.recovering && i < |s.cache| && s.cache[i].valid && !s.cache[i].dirty
    requires s.cache[i].target.Some? && y.IsHome(s.cache[i].target.value)
    ensures |s.groups| > 0 && s.cache[i].target.value in Current(s)
    ensures s.cache[i].data == Current(s)[s.cache[i].target.value]
  {
    hide RecoversTo, DiskOk, Apply;
    var b := s.cache[i].target.value;
    assert b in y.HomeBlocks();
    assert EntryOk(y, ViewOf(y, s), s.cache[i]);
    assert Unsettled(s) <= Pins(s);
  }

  predicate IsCacheStep(step: Step) {
    step.Bget? || step.Lock? || step.Fill? || step.Modify? || step.LogWrite? || step.Unlock? || step.Brelse?
  }

  lemma OtherStepsKeepTargets(y: Layout, s: State, step: Step, i: nat)
    requires Shape(y, s) && Enabled(y, s, step) && !step.Crash? && !IsCacheStep(step) && i < |s.cache|
    ensures i < |Do(y, s, step).cache| && Do(y, s, step).cache[i].target == s.cache[i].target
    ensures s.cache[i].valid ==> Do(y, s, step).cache[i].valid
  {
    hide Apply;
  }

  lemma ReferencedStep(y: Layout, s: State, step: Step, i: nat)
    requires Shape(y, s) && Enabled(y, s, step) && !step.Crash?
    requires i < |s.cache| && s.cache[i].refcnt > 0
    ensures i < |Do(y, s, step).cache| && Do(y, s, step).cache[i].target == s.cache[i].target
    ensures s.cache[i].valid ==> Do(y, s, step).cache[i].valid
  {
    if !IsCacheStep(step) {
      OtherStepsKeepTargets(y, s, step, i);
    }
  }

  /** Entry i is referenced wherever the run takes a step, and the run does not crash. */
  ghost predicate KeepsReference(y: Layout, s: State, steps: seq<Step>, t: State, i: nat)
    requires Run(y, s, steps, t)
    decreases |steps|
  {
    steps != [] ==>
      && i < |s.cache| && s.cache[i].refcnt > 0 && !steps[0].Crash?
      && KeepsReference(y, Do(y, s, steps[0]), steps[1..], t, i)
  }

  /** As long as an entry is referenced it stays with its block, and valid once it is; so a
      pinned block stays cached until its commit has installed it. */
  lemma {:induction false} ReferencedStays(y: Layout, s: State, steps: seq<Step>, t: State, i: nat)
    requires Run(y, s, steps, t) && KeepsReference(y, s, steps, t, i) && i < |s.cache|
    ensures i < |t.cache| && t.cache[i].target == s.cache[i].target
    ensures s.cache[i].valid ==> t.cache[i].valid
    decreases |steps|
  {
    hide Do, Enabled;
    if steps != [] {
      ReferencedStep(y, s, steps[0], i);
      ReferencedStays(y, Do(y, s, steps[0]), steps[1..], t, i);
    }
  }

  // ---------- the log protocol ----------

  lemma NobodyOpen(y: Layout, s: State)
    requires Inv(y, s) && s.committing
    ensures s.outstanding == 0 && s.ops == map[]
  {}

  lemma CommittingIsAlone(y: Layout, s0: State, steps: seq<Step>, s: State)
    requires Init(y, s0) && Run(y, s0, steps, s) && s.committing
    ensures s.outstanding == 0 && s.ops == map[]
  {
    hide *;
    Reached(y, s0, steps, s);
    NobodyOpen(y, s);
  }

  lemma HeaderStep(y: Layout, s: State, step: Step)
    requires Inv(y, s) && s.committing && Enabled(y, s, step) && !step.HomesDone? && !step.Crash?
    ensures Do(y, s, step).len == s.len && Do(y, s, step).slots == s.slots
  {
    hide RecoversTo, DiskOk, Apply, Settled, CacheInv, SlotsOk;
    NobodyOpen(y, s);
  }

  /** A commit is under way wherever the run takes a step, and has not yet emptied the header. */
  ghost predicate StaysCommitting(y: Layout, s: State, steps: seq<Step>, t: State)
    requires Run(y, s, steps, t)
    decreases |steps|
  {
    steps != [] ==>
      && s.committing && !steps[0].HomesDone? && !steps[0].Crash?
      && StaysCommitting(y, Do(y, s, steps[0]), steps[1..], t)
  }

  /** While a commit runs without the lock, no step of anybody changes the header in memory. */
  lemma {:induction false} HeaderStableWhileCommitting(y: Layout, s: State, steps: seq<Step>, t: State)
    requires Inv(y, s) && Run(y, s, steps, t) && StaysCommitting(y, s, steps, t)
    ensures t.len == s.len && t.slots == s.slots
    decreases |steps|
  {
    hide Inv, Do, Enabled;
    if steps != [] {
      HeaderStep(y, s, steps[0]);
      StepInv(y, s, steps[0]);
      HeaderStableWhileCommitting(y, Do(y, s, steps[0]), steps[1..], t);
    }
  }

  lemma OpenOperation(y: Layout, s: State, o: nat)
    requires Inv(y, s) && o in s.ops
    ensures !s.committing && s.outstanding > 0
  {
    assert s.ops != map[];
    assert o in s.ops.Keys;
    assert |s.ops| > 0;
  }

  /** `end_op` never finds the log committing. */
  lemma EndOpNeverPanics(y: Layout, s0: State, steps: seq<Step>, s: State, o: nat)
    requires Init(y, s0) && Run(y, s0, steps, s) && o in s.ops
    ensures !s.committing && s.outstanding > 0
  {
    hide *;
    Reached(y, s0, steps, s);
    OpenOperation(y, s, o);
  }

  /** Every logged block carries exactly one extra reference, so unpinning it while holding
      its buffer leaves the holder's own reference. */
  lemma UnpinNeverPanics(y: Layout, s0: State, steps: seq<Step>, s: State, h: Handle, i: nat)
    requires Init(y, s0) && Run(y, s0, steps, s) && s.phase.Install? && s.phase.written && h.agent.Committer?
    requires s.phase.k < |s.slots| && HoldsBlock(s, h, i, s.slots[s.phase.k])
    ensures !UnpinPanics(s.cache[i])
    ensures s.cache[i].refcnt == |s.cache[i].users| + 1
  {
    hide RecoversTo, DiskOk, Apply, Settled;
    Reached(y, s0, steps, s);
    assert s.slots[s.phase.k] in Pins(s);
    assert EntryOk(y, ViewOf(y, s), s.cache[i]);
    assert h in s.cache[i].users && |s.cache[i].users| > 0;
  }

  // ---------- a commit comes to its end ----------

  /** Moves that the committing or recovering thread still has before it. */
  function MovesLeft(s: State): int {
    match s.phase
    case Boot => 0
    case Idle => 0
    case WriteLog(k) => 3 * s.len - k + 5
    case WriteHead => 2 * s.len + 4
    case Install(k, written) => 2 * (s.len - k) + (if written then 2 else 3)
    case EmptyHead => 2
    case Finish => 1
  }

  predicate IsMove(step: Step) {
    || step.WriteSlot? || step.SlotsDone? || step.WriteHeader? || step.WriteHome? || step.Unpin?
    || step.HomesDone? || step.WriteCleared? || step.FinishCommit?
  }

  /** A step that starts such work, or ends it by force. */
  predicate IsRestart(step: Step) {
    step.EndOp? || step.ReadHeader? || step.Crash?
  }

  /** Every move leaves fewer, a committing thread's exactly one fewer. */
  lemma MoveCounts(y: Layout, s: State, step: Step)
    requires Inv(y, s) && Enabled(y, s, step) && IsMove(step)
    ensures var t := Do(y, s, step);
            && MovesLeft(t) < MovesLeft(s)
            && (!s.recovering ==> !t.recovering && MovesLeft(t) == MovesLeft(s) - 1)
  {
    hide RecoversTo, DiskOk, Apply, Settled, CacheInv, SlotsOk, SlotsWritten, HeaderSlots, HeaderLen;
  }

  /** Nobody else's step matters. */
  lemma OthersDoNotCount(y: Layout, s: State, step: Step)
    requires Inv(y, s) && Enabled(y, s, step) && !IsMove(step) && !IsRestart(step)
    ensures var t := Do(y, s, step); MovesLeft(t) == MovesLeft(s) && t.recovering == s.recovering
  {
    hide RecoversTo, DiskOk, Apply, Settled, CacheInv, SlotsOk, SlotsWritten, HeaderSlots, HeaderLen;
    if step.LogWrite? {
      OpenOperation(y, s, step.h.agent.id);
    }
  }

  function Moves(steps: seq<Step>): nat {
    if steps == [] then 0 else (if IsMove(steps[0]) then 1 else 0) + Moves(steps[1..])
  }

  ghost predicate NoRestart(steps: seq<Step>) {
    forall j | 0 <= j < |steps| :: !IsRestart(steps[j])
  }

  lemma {:induction false} MovesRunOut(y: Layout, s: State, steps: seq<Step>, t: State)
    requires Inv(y, s) && Run(y, s, steps, t) && NoRestart(steps)
    ensures MovesLeft(t) <= MovesLeft(s) - Moves(steps)
    ensures !s.recovering ==> MovesLeft(t) == MovesLeft(s) - Moves(steps)
    decreases |steps|
  {
    hide Inv, Do, Enabled, MovesLeft, IsMove;
    if steps != [] {
      assert !IsRestart(steps[0]);
      if IsMove(steps[0]) {
        MoveCounts(y, s, steps[0]);
      } else {
        OthersDoNotCount(y, s, steps[0]);
      }
      StepInv(y, s, steps[0]);
      MovesRunOut(y, Do(y, s, steps[0]), steps[1..], t);
    }
  }

  /** The commit of n blocks, from the last `end_op` to the moment operations are admitted again, is
      3n + 5 moves of its thread, however others' steps come in between. */
  lemma CommitLength(y: Layout, s: State, o: nat, steps: seq<Step>, t: State)
    requires Inv(y, s) && Enabled(y, s, EndOp(o)) && s.outstanding == 1 && s.len > 0
    requires Run(y, Do(y, s, EndOp(o)), steps, t) && NoRestart(steps)
    ensures Moves(steps) <= 3 * s.len + 5
    ensures t.phase.Idle? <==> Moves(steps) == 3 * s.len + 5
  {
    StepInv(y, s, EndOp(o));
    var m := Do(y, s, EndOp(o));
    assert m.phase == WriteLog(0) && m.len == s.len && !m.recovering;
    hide Inv, Do, Enabled;
    MovesRunOut(y, m, steps, t);
    RunInv(y, m, steps, t);
    NotBooting(y, m, steps, t);
    LeftAtIdle(y, t);
  }

  lemma LeftAtIdle(y: Layout, t: State)
    requires Inv(y, t)
    ensures MovesLeft(t) >= 0 && (MovesLeft(t) == 0 <==> t.phase.Idle? || t.phase.Boot?)
  {
    hide RecoversTo, DiskOk, Apply, Settled, CacheInv, SlotsOk, SlotsWritten;
  }

  lemma {:induction false} NotBooting(y: Layout, s: State, steps: seq<Step>, t: State)
    requires Run(y, s, steps, t) && NoRestart(steps) && !s.phase.Boot?
    ensures !t.phase.Boot?
    decreases |steps|
  {
    if steps != [] {
      assert !IsRestart(steps[0]);
      NotBooting(y, Do(y, s, steps[0]), steps[1..], t);
    }
  }
}
