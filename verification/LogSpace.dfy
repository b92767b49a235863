/** Log space: how many blocks an operation may log without running into a panic. */
module LogSpace {
  import opened Options
  import opened LogSpec
  import opened LogMachine
  import opened LogInvariant
  import opened LogTheorems

  function Left(spent: nat): nat {
    if spent <= MAXOPBLOCKS then MAXOPBLOCKS - spent else 0
  }

  /** Blocks that outstanding operations have reserved and not logged yet. */
  ghost function Unspent(ops: map<nat, nat>): nat
    decreases ops.Keys
  {
    if ops == map[] then 0
    else
      var o :| o in ops;
      Left(ops[o]) + Unspent(ops - {o})
  }

  lemma {:induction false} UnspentPick(ops: map<nat, nat>, o: nat)
    requires o in ops
    ensures Unspent(ops) == Left(ops[o]) + Unspent(ops - {o})
    decreases ops.Keys
  {
    assert ops != map[];
    var p :| p in ops && Unspent(ops) == Left(ops[p]) + Unspent(ops - {p});
    if p != o {
      UnspentPick(ops - {p}, o);
      assert ops - {p} - {o} == ops - {o} - {p};
      UnspentPick(ops - {o}, p);
    }
  }

  lemma {:induction false} UnspentBound(ops: map<nat, nat>)
    ensures Unspent(ops) <= |ops| * MAXOPBLOCKS
    decreases ops.Keys
  {
    if ops != map[] {
      var o :| o in ops && Unspent(ops) == Left(ops[o]) + Unspent(ops - {o});
      UnspentBound(ops - {o});
      assert (ops - {o}).Keys == ops.Keys - {o};
      assert |ops - {o}| == |ops| - 1;
      assert Left(ops[o]) <= 10;
      assert Unspent(ops - {o}) <= (|ops| - 1) * 10;
      assert Unspent(ops) <= 10 + (|ops| - 1) * 10;
    }
  }

  /** An operation stays within MAXOPBLOCKS fresh blocks. */
  predicate Behaved(s: State, step: Step)
    requires s.len <= |s.slots|
  {
    step.LogWrite? && step.h.agent.Op? && step.h.agent.id in s.ops
    && step.i < |s.cache| && s.cache[step.i].target.Some?
    && !IsLogged(s, s.cache[step.i].target.value) ==>
      s.ops[step.h.agent.id] < MAXOPBLOCKS
  }

  ghost predicate BehavedRun(y: Layout, s: State, steps: seq<Step>, t: State)
    decreases |steps|
  {
    if steps == [] then s == t
    else
      && Shape(y, s) && Enabled(y, s, steps[0]) && Behaved(s, steps[0])
      && BehavedRun(y, Do(y, s, steps[0]), steps[1..], t)
  }

  /** The admission bound: header, logged blocks and unspent reservations fit the log. */
  ghost predicate Budget(s: State) {
    s.phase.Idle? ==> 1 + s.len + Unspent(s.ops) <= LOGSIZE && s.len <= LOGSIZE - 2
  }

  lemma LogWriteBudget(y: Layout, s: State, h: Handle, i: nat)
    requires Inv(y, s) && Budget(s) && CanLogWrite(y, s, h, i) && Behaved(s, LogWrite(h, i))
    ensures Budget(DoLogWrite(s, h, i))
  {
    hide CacheInv, RecoversTo, DiskOk, Settled, SlotsOk, Apply, PhaseOk;
    var t, o := DoLogWrite(s, h, i), h.agent.id;
    if !IsLogged(s, s.cache[i].target.value) {
      UnspentPick(s.ops, o);
      UnspentPick(t.ops, o);
      assert t.ops - {o} == s.ops - {o};
    }
  }

  lemma OpBudget(y: Layout, s: State, step: Step)
    requires Inv(y, s) && Budget(s) && Enabled(y, s, step) && (step.BeginOp? || step.EndOp?)
    ensures Budget(Do(y, s, step))
  {
    hide CacheInv, RecoversTo, DiskOk, Settled, SlotsOk, Apply;
    var t := Do(y, s, step);
    if step.BeginOp? {
      UnspentPick(t.ops, step.o);
      assert t.ops - {step.o} == s.ops;
      UnspentBound(s.ops);
    } else {
      UnspentPick(s.ops, step.o);
    }
  }

  lemma OtherBudget(y: Layout, s: State, step: Step)
    requires Inv(y, s) && Budget(s) && Enabled(y, s, step)
    requires !step.BeginOp? && !step.EndOp? && !step.LogWrite?
    ensures Budget(Do(y, s, step))
  {
    hide CacheInv, RecoversTo, DiskOk, Settled, SlotsOk, Apply, Unspent;
    var t := Do(y, s, step);
    if t.phase.Idle? && !s.phase.Idle? {
      assert t.len == 0 && t.ops == map[];
      NoOps();
    }
  }

  lemma NoOps()
    ensures Unspent(map[]) == 0
  {}

  lemma {:induction false} BudgetHolds(y: Layout, s: State, steps: seq<Step>, t: State)
    requires Inv(y, s) && Budget(s) && BehavedRun(y, s, steps, t)
    ensures Inv(y, t) && Budget(t)
    decreases |steps|
  {
    hide Inv, Budget;
    if steps != [] {
      var step := steps[0];
      StepInv(y, s, step);
      if step.LogWrite? {
        LogWriteBudget(y, s, step.h, step.i);
      } else if step.BeginOp? || step.EndOp? {
        OpBudget(y, s, step);
      } else {
        OtherBudget(y, s, step);
      }
      BudgetHolds(y, Do(y, s, step), steps[1..], t);
    }
  }

  /** In every run of operations that stay within MAXOPBLOCKS fresh blocks each, a log write
      that is absorbed, or that is at most its operation's (MAXOPBLOCKS-1)-th fresh block,
      hits no panic. */
  lemma NineBlocksAreSafe(y: Layout, s0: State, steps: seq<Step>, s: State, o: nat, b: nat)
    requires Init(y, s0) && BehavedRun(y, s0, steps, s) && y.size >= LOGSIZE
    requires o in s.ops && s.len <= |s.slots|
    requires IsLogged(s, b) || s.ops[o] < MAXOPBLOCKS - 1
    ensures !LogWritePanics(y, s, b)
  {
    InitInv(y, s0);
    BudgetHolds(y, s0, steps, s);
    hide CacheInv, RecoversTo, DiskOk, Settled, SlotsOk, Apply;
    assert s.ops != map[] && s.phase.Idle?;
    UnspentPick(s.ops, o);
    OpenOperation(y, s, o);
  }

  // ---------- the tenth block may panic ----------

  const DEMO_LAYOUT: Layout := Layout(2, 30, 1000)

  predicate IsBlank(d: Disk) {
    |d| == 1000 && forall b | 0 <= b < |d| :: d[b] == ZeroWords()
  }

  function DemoBlock(j: nat): nat {
    40 + j
  }

  predicate IsUnused(e: Entry) {
    e.target.None? && e.refcnt == 0 && e.users == {} && e.owner.None? && !e.dirty
  }

  /** Blocks 0..k-1 of the demo have been logged through cache entries 0..k-1, nobody holds
      a buffer, and the last entry still caches the header that was read at boot. */
  predicate Logged(s: State, k: nat) {
    && IsBlank(s.disk) && |s.cache| == NBUF && k <= 28
    && s.phase.Idle? && !s.committing && !s.recovering
    && |s.slots| == HEADER_SLOTS && s.len == k && s.outstanding == |s.ops|
    && (forall j | 0 <= j < k :: s.slots[j] == DemoBlock(j))
    && (forall j | 0 <= j < k :: s.cache[j].target == Some(DemoBlock(j)))
    && (forall j | k <= j < NBUF - 1 :: IsUnused(s.cache[j]))
    && s.cache[NBUF - 1].target == Some(DEMO_LAYOUT.start)
    && (forall j | 0 <= j < NBUF :: !s.cache[j].dirty)
  }

  ghost predicate Reaches(s: State, t: State) {
    exists steps :: BehavedRun(DEMO_LAYOUT, s, steps, t)
  }

  lemma {:induction false} ComposeRuns(y: Layout, s: State, a: seq<Step>, m: State, b: seq<Step>, t: State)
    requires BehavedRun(y, s, a, m) && BehavedRun(y, m, b, t)
    ensures BehavedRun(y, s, a + b, t)
    decreases |a|
  {
    hide Enabled, Do, Behaved, Shape;
    if a == [] {
      assert a + b == b;
    } else {
      ComposeRuns(y, Do(y, s, a[0]), a[1..], m, b, t);
      assert (a + b)[0] == a[0] && (a + b)[1..] == a[1..] + b;
    }
  }

  lemma ReachesTransitive(s: State, m: State, t: State)
    requires Reaches(s, m) && Reaches(m, t)
    ensures Reaches(s, t)
  {
    hide BehavedRun;
    var a :| BehavedRun(DEMO_LAYOUT, s, a, m);
    var b :| BehavedRun(DEMO_LAYOUT, m, b, t);
    ComposeRuns(DEMO_LAYOUT, s, a, m, b, t);
  }

  lemma OneStep(s: State, step: Step)
    requires Shape(DEMO_LAYOUT, s) && Enabled(DEMO_LAYOUT, s, step) && Behaved(s, step)
    ensures Reaches(s, Do(DEMO_LAYOUT, s, step))
  {
    hide Enabled, Do, Behaved, Shape;
    var t := Do(DEMO_LAYOUT, s, step);
    assert BehavedRun(DEMO_LAYOUT, t, [], t);
    assert [step][1..] == [];
    assert BehavedRun(DEMO_LAYOUT, s, [step], t);
  }

  /** Entry k while `h` works on demo block k. */
  function Working(k: nat, refcnt: nat, valid: bool, data: Block, h: Handle, owner: Option<Handle>): Entry {
    Entry(Some(DemoBlock(k)), refcnt, valid, data, {h}, owner, false)
  }

  lemma BgetNext(s: State, k: nat, h: Handle)
    requires Logged(s, k) && k < 28
    ensures Reaches(s, WithEntry(s, k, Working(k, 1, false, s.cache[k].data, h, None)))
  {
    hide Reaches;
    assert IsUnused(s.cache[k]);
    OneStep(s, Bget(h, k, DemoBlock(k)));
    assert {h} == {} + {h};
    assert Do(DEMO_LAYOUT, s, Bget(h, k, DemoBlock(k)))
        == WithEntry(s, k, Working(k, 1, false, s.cache[k].data, h, None));
  }

  lemma LockNext(s: State, k: nat, h: Handle)
    requires Logged(s, k) && k < 28
    ensures var data := s.cache[k].data;
            Reaches(WithEntry(s, k, Working(k, 1, false, data, h, None)),
                    WithEntry(s, k, Working(k, 1, false, data, h, Some(h))))
  {
    hide Reaches;
    var s1 := WithEntry(s, k, Working(k, 1, false, s.cache[k].data, h, None));
    var s2 := WithEntry(s, k, Working(k, 1, false, s.cache[k].data, h, Some(h)));
    OneStep(s1, Lock(h, k));
    assert Do(DEMO_LAYOUT, s1, Lock(h, k)).cache == s2.cache;
  }

  lemma FillNext(s: State, k: nat, h: Handle)
    requires Logged(s, k) && k < 28
    ensures Reaches(WithEntry(s, k, Working(k, 1, false, s.cache[k].data, h, Some(h))),
                    WithEntry(s, k, Working(k, 1, true, ZeroWords(), h, Some(h))))
  {
    hide Reaches;
    var s1 := WithEntry(s, k, Working(k, 1, false, s.cache[k].data, h, Some(h)));
    var s2 := WithEntry(s, k, Working(k, 1, true, ZeroWords(), h, Some(h)));
    OneStep(s1, Fill(h, k));
    assert Do(DEMO_LAYOUT, s1, Fill(h, k)).cache == s2.cache;
  }

  /** The state after operation `o` has logged demo block k, still holding it. */
  function AfterLog(s: State, k: nat, o: nat, e: Entry): State
    requires k < |s.cache| && k < |s.slots| && o in s.ops
  {
    WithEntry(s, k, e).(
      pending := s.pending + [LogRecord(o, DemoBlock(k), ZeroWords())],
      slots := s.slots[k := DemoBlock(k)], len := k + 1, ops := s.ops[o := s.ops[o] + 1])
  }

  lemma LogWriteNext(s: State, k: nat, o: nat)
    requires Logged(s, k) && k < 28 && o in s.ops && s.ops[o] < MAXOPBLOCKS
    ensures var h := Handle(Op(o), 0);
            Reaches(WithEntry(s, k, Working(k, 1, true, ZeroWords(), h, Some(h))),
                    AfterLog(s, k, o, Working(k, 2, true, ZeroWords(), h, Some(h))))
  {
    hide Reaches;
    var h := Handle(Op(o), 0);
    var s1 := WithEntry(s, k, Working(k, 1, true, ZeroWords(), h, Some(h)));
    assert o in s.ops.Keys && |s.ops| > 0;
    assert !IsLogged(s1, DemoBlock(k));
    OneStep(s1, LogWrite(h, k));
    var s2 := AfterLog(s, k, o, Working(k, 2, true, ZeroWords(), h, Some(h)));
    assert Do(DEMO_LAYOUT, s1, LogWrite(h, k)).cache == s2.cache;
    assert Do(DEMO_LAYOUT, s1, LogWrite(h, k)) == s2;
  }

  lemma ReleaseNext(s: State, k: nat, o: nat)
    requires Logged(s, k) && k < 28 && o in s.ops
    ensures var h := Handle(Op(o), 0);
            var last := Working(k, 1, true, ZeroWords(), h, None).(users := {});
            Reaches(AfterLog(s, k, o, Working(k, 2, true, ZeroWords(), h, Some(h))), AfterLog(s, k, o, last))
  {
    hide Reaches;
    var h := Handle(Op(o), 0);
    var s1 := AfterLog(s, k, o, Working(k, 2, true, ZeroWords(), h, Some(h)));
    var s2 := AfterLog(s, k, o, Working(k, 2, true, ZeroWords(), h, None));
    OneStep(s1, Unlock(h, k));
    assert Do(DEMO_LAYOUT, s1, Unlock(h, k)).cache == s2.cache;
    assert Do(DEMO_LAYOUT, s1, Unlock(h, k)) == s2;
    OneStep(s2, Brelse(h, k));
    var last := Working(k, 1, true, ZeroWords(), h, None).(users := {});
    assert {h} - {h} == {};
    assert Do(DEMO_LAYOUT, s2, Brelse(h, k)).cache == AfterLog(s, k, o, last).cache;
    assert Do(DEMO_LAYOUT, s2, Brelse(h, k)) == AfterLog(s, k, o, last);
    ReachesTransitive(s1, s2, AfterLog(s, k, o, last));
  }

  lemma LogNext(s: State, k: nat, o: nat) returns (t: State)
    requires Logged(s, k) && k < 28 && o in s.ops && s.ops[o] < MAXOPBLOCKS
    ensures Reaches(s, t) && Logged(t, k + 1) && t.ops == s.ops[o := s.ops[o] + 1]
  {
    hide Reaches;
    var h := Handle(Op(o), 0);
    var data := s.cache[k].data;
    var s1 := WithEntry(s, k, Working(k, 1, false, data, h, None));
    var s2 := WithEntry(s, k, Working(k, 1, false, data, h, Some(h)));
    var s3 := WithEntry(s, k, Working(k, 1, true, ZeroWords(), h, Some(h)));
    var s4 := AfterLog(s, k, o, Working(k, 2, true, ZeroWords(), h, Some(h)));
    t := AfterLog(s, k, o, Working(k, 1, true, ZeroWords(), h, None).(users := {}));
    BgetNext(s, k, h);
    LockNext(s, k, h);
    ReachesTransitive(s, s1, s2);
    FillNext(s, k, h);
    ReachesTransitive(s, s2, s3);
    LogWriteNext(s, k, o);
    ReachesTransitive(s, s3, s4);
    ReleaseNext(s, k, o);
    ReachesTransitive(s, s4, t);
    assert t.ops.Keys == s.ops.Keys;
  }

  lemma {:induction false} LogMany(s: State, k: nat, o: nat, n: nat) returns (t: State)
    requires Logged(s, k) && k + n <= 28 && o in s.ops && s.ops[o] + n <= MAXOPBLOCKS
    ensures Reaches(s, t) && Logged(t, k + n) && t.ops == s.ops[o := s.ops[o] + n]
    decreases n
  {
    hide Logged;
    if n == 0 {
      t := s;
      assert BehavedRun(DEMO_LAYOUT, s, [], s);
    } else {
      var s1 := LogNext(s, k, o);
      t := LogMany(s1, k + 1, o, n - 1);
      ReachesTransitive(s, s1, t);
    }
  }

  lemma Begin(s: State, k: nat, o: nat) returns (t: State)
    requires Logged(s, k) && o !in s.ops && Admits(s)
    ensures Reaches(s, t) && Logged(t, k) && t.ops == s.ops[o := 0]
  {
    hide Reaches;
    OneStep(s, BeginOp(o));
    t := Do(DEMO_LAYOUT, s, BeginOp(o));
    assert t.ops.Keys == s.ops.Keys + {o};
  }

  lemma End(s: State, k: nat, o: nat) returns (t: State)
    requires Logged(s, k) && o in s.ops && |s.ops| > 1
    ensures Reaches(s, t) && Logged(t, k) && t.ops == s.ops - {o}
  {
    hide Reaches;
    OneStep(s, EndOp(o));
    t := Do(DEMO_LAYOUT, s, EndOp(o));
    assert t.ops.Keys == s.ops.Keys - {o};
  }

  /** Boot on a blank disk: the header is read through the last cache entry. */
  function BootEntry(s0: State, valid: bool, owner: Option<Handle>): Entry
    requires |s0.cache| == NBUF
  {
    var h := Handle(Committer, 0);
    Entry(Some(DEMO_LAYOUT.start), 1, valid, if valid then ZeroWords() else s0.cache[NBUF - 1].data,
          {h}, owner, false)
  }

  lemma BootRead(s0: State) returns (t: State)
    requires Init(DEMO_LAYOUT, s0) && IsBlank(s0.disk)
    ensures Reaches(s0, t)
    ensures |s0.cache| == NBUF && t == WithEntry(s0, NBUF - 1, BootEntry(s0, true, Some(Handle(Committer, 0))))
  {
    hide Reaches, DiskOk, Recovered;
    var h, i := Handle(Committer, 0), NBUF - 1;
    var s1 := WithEntry(s0, i, BootEntry(s0, false, None));
    var s2 := WithEntry(s0, i, BootEntry(s0, false, Some(h)));
    t := WithEntry(s0, i, BootEntry(s0, true, Some(h)));
    OneStep(s0, Bget(h, i, DEMO_LAYOUT.start));
    assert {h} == {} + {h};
    assert Do(DEMO_LAYOUT, s0, Bget(h, i, DEMO_LAYOUT.start)).cache == s1.cache;
    OneStep(s1, Lock(h, i));
    assert Do(DEMO_LAYOUT, s1, Lock(h, i)).cache == s2.cache;
    ReachesTransitive(s0, s1, s2);
    OneStep(s2, Fill(h, i));
    assert Do(DEMO_LAYOUT, s2, Fill(h, i)).cache == t.cache;
    ReachesTransitive(s0, s2, t);
  }

  lemma BootToIdle(s0: State) returns (t: State)
    requires Init(DEMO_LAYOUT, s0) && IsBlank(s0.disk)
    ensures Reaches(s0, t) && Logged(t, 0) && t.ops == map[]
  {
    hide Reaches, DiskOk, Recovered;
    var h, i := Handle(Committer, 0), NBUF - 1;
    var s1 := BootRead(s0);
    OneStep(s1, ReadHeader(h, i));
    var s2 := Do(DEMO_LAYOUT, s1, ReadHeader(h, i));
    ReachesTransitive(s0, s1, s2);
    OneStep(s2, Unlock(h, i));
    var s3 := Do(DEMO_LAYOUT, s2, Unlock(h, i));
    ReachesTransitive(s0, s2, s3);
    OneStep(s3, Brelse(h, i));
    t := Do(DEMO_LAYOUT, s3, Brelse(h, i));
    ReachesTransitive(s0, s3, t);
  }

  /** The constant promises MAXOPBLOCKS blocks per operation, but `begin_op` admits one block
      more in total than a log write accepts: from a blank disk, some run in which nobody logs
      more than MAXOPBLOCKS fresh blocks brings an operation to its tenth and panics there. */
  lemma TenthBlockMayPanic(s0: State) returns (s: State, o: nat)
    requires Init(DEMO_LAYOUT, s0) && IsBlank(s0.disk)
    ensures Reaches(s0, s) && o in s.ops && s.ops[o] == MAXOPBLOCKS - 1
    ensures s.len <= |s.slots| && LogWritePanics(DEMO_LAYOUT, s, DemoBlock(28))
  {
    hide Reaches;
    var idle := BootToIdle(s0);
    var s1 := Begin(idle, 0, 1);
    ReachesTransitive(s0, idle, s1);
    var s2 := Begin(s1, 0, 2);
    ReachesTransitive(s0, s1, s2);
    var s3 := LogMany(s2, 0, 1, 9);
    ReachesTransitive(s0, s2, s3);
    assert s3.ops == map[1 := 9, 2 := 0];
    var s4 := End(s3, 9, 1);
    ReachesTransitive(s0, s3, s4);
    assert s4.ops == map[2 := 0];
    var s5 := Begin(s4, 9, 3);
    ReachesTransitive(s0, s4, s5);
    var s6 := LogMany(s5, 9, 2, 10);
    ReachesTransitive(s0, s5, s6);
    o := 3;
    s := LogMany(s6, 19, 3, 9);
    ReachesTransitive(s0, s6, s);
  }
}
