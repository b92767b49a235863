/** Whole calls on one CPU that nobody disturbs: what `lock`, `unlock`, `yielding`, `sleep` and the
    scheduler's round come to, from any state that the machine can be in. */
module SchedCalls {
  import opened Options
  import opened SchedMachine
  import opened SchedInvariant
  import opened SchedSteps
  import opened SchedProcSteps
  import opened SchedTheorems

  // ---------- going on without a choice ----------

  /** Steps of CPU c alone, none of them a choice. */
  predicate OnlyBy(steps: seq<Step>, c: nat) {
    forall k | 0 <= k < |steps| :: steps[k] == Step(c, Go)
  }

  lemma OneMore(s: State, c: nat, steps: seq<Step>)
    requires Enabled(s, c, Go) && Runs(Do(s, c, Go), steps) && OnlyBy(steps, c)
    ensures Runs(s, [Step(c, Go)] + steps) && OnlyBy([Step(c, Go)] + steps, c)
    ensures After(s, [Step(c, Go)] + steps) == After(Do(s, c, Go), steps)
  {
    hide Enabled, Do;
    assert ([Step(c, Go)] + steps)[1..] == steps;
  }

  /** CPU c, going on alone, brings s to t. */
  ghost predicate Goes(s: State, c: nat, t: State) {
    exists steps :: Runs(s, steps) && OnlyBy(steps, c) && After(s, steps) == t
  }

  lemma GoesNowhere(s: State, c: nat)
    ensures Goes(s, c, s)
  {
    assert Runs(s, []) && OnlyBy([], c) && After(s, []) == s;
  }

  lemma GoesStep(s: State, c: nat, t: State)
    requires Enabled(s, c, Go) && Goes(Do(s, c, Go), c, t)
    ensures Goes(s, c, t)
  {
    hide Enabled, Do, Runs, After, OnlyBy;
    var steps :| Runs(Do(s, c, Go), steps) && OnlyBy(steps, c) && After(Do(s, c, Go), steps) == t;
    OneMore(s, c, steps);
  }

  lemma {:induction false} RunsOn(s: State, steps: seq<Step>, c: nat, t: State)
    requires Runs(s, steps) && OnlyBy(steps, c) && Goes(After(s, steps), c, t)
    ensures Goes(s, c, t)
    decreases |steps|
  {
    hide Enabled, Do, Goes;
    if steps != [] {
      assert steps[0] == Step(c, Go);
      RunsOn(Do(s, c, Go), steps[1..], c, t);
      GoesStep(s, c, t);
    }
  }

  lemma GoesOn(s: State, c: nat, m: State, t: State)
    requires Goes(s, c, m) && Goes(m, c, t)
    ensures Goes(s, c, t)
  {
    hide Runs, After, OnlyBy;
    var steps :| Runs(s, steps) && OnlyBy(steps, c) && After(s, steps) == m;
    RunsOn(s, steps, c, t);
  }

  /** One step, and the rest. */
  lemma GoesBy(s: State, c: nat, m: State, t: State)
    requires Enabled(s, c, Go) && Do(s, c, Go) == m && Goes(m, c, t)
    ensures Goes(s, c, t)
  {
    hide Enabled, Do, Goes;
    GoesStep(s, c, t);
  }

  // ---------- the thread of one process and its CPU ----------

  /** Process p on CPU c, outside all spinlocks. */
  ghost predicate Quiet(s: State, c: nat, p: nat) {
    && Inv(s) && At(s, c, p) && s.procs[p].lock.None? && s.procs[p].state == RUNNING
    && s.cpus[c].noff == 0 && s.cpus[c].ctx == s.cpus[c].frame
  }

  predicate Outside(pc: ProcPc) {
    pc.Run? || pc.LockAcquire? || pc.UnlockAcquire? || pc.TryAcquire? || pc.YieldAcquire?
  }

  lemma OutsideIsQuiet(s: State, c: nat, p: nat)
    requires Inv(s) && At(s, c, p) && Outside(s.procs[p].pc) && s.procs[p].lock.None?
    ensures Quiet(s, c, p)
  {
    hide OwnerOk, InnerOk, ProcOk, LockOk, ClaimsApart, Moved;
    assert CpuOk(s, c);
  }

  /** s but for CPU c and process p. */
  function Pair(s: State, c: nat, k: Cpu, p: nat, q: Proc): State
    requires c < |s.cpus| && p < |s.procs|
  {
    SetProc(SetCpu(s, c, k), p, q)
  }

  /** And but for sleep lock l. */
  function Amid(s: State, c: nat, k: Cpu, p: nat, q: Proc, l: nat, m: SleepLock): State
    requires c < |s.cpus| && p < |s.procs| && l < |s.locks|
  {
    SetLock(Pair(s, c, k, p, q), l, m)
  }

  lemma PairTwice(s: State, c: nat, k: Cpu, p: nat, q: Proc, k': Cpu, q': Proc)
    requires c < |s.cpus| && p < |s.procs|
    ensures Pair(Pair(s, c, k, p, q), c, k', p, q') == Pair(s, c, k', p, q')
  {
    assert s.cpus[c := k][c := k'] == s.cpus[c := k'];
    assert s.procs[p := q][p := q'] == s.procs[p := q'];
  }

  lemma AmidTwice(s: State, c: nat, k: Cpu, p: nat, q: Proc, l: nat, m: SleepLock, k': Cpu, q': Proc, m': SleepLock)
    requires c < |s.cpus| && p < |s.procs| && l < |s.locks|
    ensures Amid(Amid(s, c, k, p, q, l, m), c, k', p, q', l, m') == Amid(s, c, k', p, q', l, m')
  {
    PairTwice(s, c, k, p, q, k', q');
    assert s.locks[l := m][l := m'] == s.locks[l := m'];
  }

  lemma Unchanged(s: State, c: nat, p: nat, l: nat)
    requires c < |s.cpus| && p < |s.procs| && l < |s.locks|
    ensures s.cpus[c := s.cpus[c]] == s.cpus && s.procs[p := s.procs[p]] == s.procs
            && s.locks[l := s.locks[l]] == s.locks
  {}

  // ---------- `lock` and `unlock` ----------

  lemma TakeInner(s: State, c: nat, p: nat, l: nat)
    requires Shaped(s) && At(s, c, p) && l < |s.locks| && s.locks[l].inner.None?
    requires s.procs[p].pc == LockAcquire(l) || s.procs[p].pc == UnlockAcquire(l)
    ensures Enabled(s, c, Go)
    ensures var pc := if s.procs[p].pc.LockAcquire? then LockTest(l) else UnlockClear(l);
            Do(s, c, Go) == Amid(s, c, Deeper(s.cpus[c]), p, s.procs[p].(pc := pc), l, s.locks[l].(inner := Some(c)))
  {}

  lemma TestFree(s: State, c: nat, p: nat, l: nat)
    requires Shaped(s) && At(s, c, p) && l < |s.locks| && s.procs[p].pc == LockTest(l) && !s.locks[l].locked
    ensures Enabled(s, c, Go)
    ensures var q := s.procs[p];
            Do(s, c, Go) == Amid(s, c, s.cpus[c], p, q.(pc := LockRelease(l), guards := q.guards + {l}), l,
                                 s.locks[l].(locked := true, holder := Some(p)))
  {
    Unchanged(s, c, p, l);
  }

  lemma DropInner(s: State, c: nat, p: nat, l: nat)
    requires Shaped(s) && At(s, c, p) && l < |s.locks|
    requires s.procs[p].pc == LockRelease(l) || s.procs[p].pc == SleepRelease(l)
    ensures Enabled(s, c, Go)
    ensures var pc := if s.procs[p].pc.LockRelease? then Run else SleepSet(l);
            Do(s, c, Go) == Amid(s, c, Shallower(s.cpus[c]), p, s.procs[p].(pc := pc), l, s.locks[l].(inner := None))
  {}

  lemma CallLock(s: State, c: nat, p: nat, l: nat)
    requires Shaped(s) && At(s, c, p) && s.procs[p].pc == Run && l < |s.locks|
    ensures Enabled(s, c, Lock(l))
    ensures Do(s, c, Lock(l)) == Amid(s, c, s.cpus[c], p, s.procs[p].(pc := LockAcquire(l)), l, s.locks[l])
  {
    Unchanged(s, c, p, l);
  }

  /** With p holding lock l. */
  function Locked(s: State, p: nat, l: nat): State
    requires p < |s.procs| && l < |s.locks|
  {
    s.(procs := s.procs[p := s.procs[p].(guards := s.procs[p].guards + {l})],
       locks := s.locks[l := SleepLock(None, true, Some(p))])
  }

  /** `lock` on a free lock takes it, and changes nothing else. */
  lemma LockTakes(s: State, c: nat, p: nat, l: nat)
    requires Inv(s) && At(s, c, p) && s.procs[p].lock.None? && s.procs[p].pc == Run
    requires l < |s.locks| && s.locks[l].inner.None? && !s.locks[l].locked
    ensures Enabled(s, c, Lock(l)) && Goes(Do(s, c, Lock(l)), c, Locked(s, p, l))
  {
    OutsideIsQuiet(s, c, p);
    hide Enabled, Do, Goes, Inv, Amid;
    var k, q, m := s.cpus[c], s.procs[p], s.locks[l];
    ShapedInv(s);
    CallLock(s, c, p, l);
    var s1 := Amid(s, c, k, p, q.(pc := LockAcquire(l)), l, m);
    StepInv(s, c, Lock(l));
    LockPath(s, s1, c, p, l);
  }

  lemma ShapedInv(s: State)
    requires Inv(s)
    ensures Shaped(s)
  {}

  /** From the first spin on. */
  lemma LockPath(s: State, s1: State, c: nat, p: nat, l: nat)
    requires At(s, c, p) && l < |s.locks| && s.locks[l].inner.None? && !s.locks[l].locked
    requires s.procs[p].pc == Run && s.cpus[c].noff == 0
    requires Inv(s1) && s1 == Amid(s, c, s.cpus[c], p, s.procs[p].(pc := LockAcquire(l)), l, s.locks[l])
    ensures Goes(s1, c, Locked(s, p, l))
  {
    hide Enabled, Do, Goes, Inv;
    var k, q, m := s.cpus[c], s.procs[p], s.locks[l];
    var k2, q2, m2 := k.(noff := 1), q.(pc := LockTest(l)), m.(inner := Some(c));
    var q3, m3 := q.(pc := LockRelease(l), guards := q.guards + {l}), SleepLock(Some(c), true, Some(p));
    var q4, m4 := q.(guards := q.guards + {l}), SleepLock(None, true, Some(p));
    var s2, s3 := Amid(s, c, k2, p, q2, l, m2), Amid(s, c, k2, p, q3, l, m3);
    var s4 := Amid(s, c, k, p, q4, l, m4);
    ShapedInv(s1);
    TakeInner(s1, c, p, l);
    AmidTwice(s, c, k, p, q.(pc := LockAcquire(l)), l, m, k2, q2, m2);
    StepInv(s1, c, Go);
    ShapedInv(s2);
    TestFree(s2, c, p, l);
    AmidTwice(s, c, k2, p, q2, l, m2, k2, q3, m3);
    StepInv(s2, c, Go);
    ShapedInv(s3);
    DropInner(s3, c, p, l);
    AmidTwice(s, c, k2, p, q3, l, m3, k, q4, m4);
    Unchanged(s, c, p, l);
    assert s4 == Locked(s, p, l);
    GoesNowhere(s4, c);
    GoesBy(s3, c, s4, s4);
    GoesBy(s2, c, s3, s4);
    GoesBy(s1, c, s2, s4);
  }

  // ---------- giving up the CPU ----------

  /** CPU c back in its scheduler loop, p switched out with the registers it had. */
  function SwitchedOff(s: State, c: nat, p: nat, why: Why, state: ProcState, chan: Option<nat>): State
    requires c < |s.cpus| && p < |s.procs|
  {
    var k := s.cpus[c];
    Pair(s, c, k.(pc := Loop, cur := None, noff := 0, regs := k.ctx), p,
         s.procs[p].(lock := None, state := state, chan := chan, pc := Off(why), ctx := k.regs, frame := k.regs))
  }

  lemma SwitchOne(s: State, c: nat, p: nat, why: Why, n: nat)
    requires Shaped(s) && At(s, c, p) && s.procs[p].pc == Switch(why, n) && n < 2 * NREGS
    ensures Enabled(s, c, Go)
    ensures var t := Do(s, c, Go);
            && At(t, c, p) && |t.cpus[c].regs| == |t.procs[p].ctx| == NREGS
            && t == Pair(s, c, s.cpus[c].(regs := t.cpus[c].regs), p,
                         s.procs[p].(pc := Switch(why, n + 1), ctx := t.procs[p].ctx))
  {
    assert ShapedCpu(s.cpus[c], |s.procs|) && ShapedProc(s.procs[p], |s.locks|);
  }

  lemma {:induction false} SwitchLoop(s: State, c: nat, p: nat, why: Why, n: nat) returns (t: State)
    requires Inv(s) && At(s, c, p) && s.procs[p].pc == Switch(why, n) && n <= 2 * NREGS
    ensures Goes(s, c, t) && Inv(t) && At(t, c, p)
    ensures t == Pair(s, c, s.cpus[c].(regs := t.cpus[c].regs), p,
                      s.procs[p].(pc := Switch(why, 2 * NREGS), ctx := t.procs[p].ctx))
    decreases 2 * NREGS - n
  {
    hide Enabled, Do, Goes, Inv, Shaped;
    if n == 2 * NREGS {
      t := s;
      GoesNowhere(s, c);
      assert s.cpus[c := s.cpus[c]] == s.cpus && s.procs[p := s.procs[p]] == s.procs;
    } else {
      ShapedInv(s);
      SwitchOne(s, c, p, why, n);
      StepInv(s, c, Go);
      var m := Do(s, c, Go);
      t := SwitchLoop(m, c, p, why, n + 1);
      PairTwice(s, c, m.cpus[c], p, m.procs[p], t.cpus[c], t.procs[p]);
      GoesStep(s, c, t);
    }
  }

  /** All moves done: everything is saved, and the scheduler's own registers are back. */
  lemma SwitchDone(s: State, c: nat, p: nat, why: Why)
    requires Inv(s) && At(s, c, p) && s.procs[p].pc == Switch(why, 2 * NREGS)
    ensures s.procs[p].ctx == s.procs[p].frame && s.cpus[c].regs == s.cpus[c].ctx && s.cpus[c].noff == 1
  {
    hide OwnerOk, InnerOk, ProcOk, LockOk, ClaimsApart;
    assert CpuOk(s, c);
    var k := s.cpus[c];
    assert k.regs[..NREGS] == k.regs && k.ctx[..NREGS] == k.ctx;
  }

  lemma LeaveSteps(s: State, c: nat, p: nat, why: Why)
    requires Shaped(s) && At(s, c, p) && s.procs[p].pc == Switch(why, 2 * NREGS) && s.cpus[c].noff == 1
    ensures var k, q := s.cpus[c], s.procs[p];
            && Enabled(s, c, Go)
            && Do(s, c, Go) == Pair(s, c, k.(pc := Returned(p)), p, q.(pc := Off(why)))
  {
    assert ShapedCpu(s.cpus[c], |s.procs|) && ShapedProc(s.procs[p], |s.locks|);
  }

  lemma ReturnSteps(s: State, c: nat, p: nat)
    requires Shaped(s) && c < |s.cpus| && p < |s.procs| && (s.cpus[c].pc == Returned(p) || s.cpus[c].pc == Release(p))
    ensures Enabled(s, c, Go)
    ensures var k, q := s.cpus[c], s.procs[p];
            Do(s, c, Go) == if k.pc.Returned? then Pair(s, c, k.(pc := Release(p), cur := None), p, q)
                            else Pair(s, c, Shallower(k.(pc := Loop)), p, q.(lock := None))
  {
    assert s.procs[p := s.procs[p]] == s.procs;
  }

  /** From the last move of `switch` to the scheduler's loop. */
  lemma Leaves(s: State, c: nat, p: nat, why: Why)
    requires Inv(s) && At(s, c, p) && s.procs[p].pc == Switch(why, 2 * NREGS)
    ensures Goes(s, c, Pair(s, c, s.cpus[c].(pc := Loop, cur := None, noff := 0), p,
                            s.procs[p].(lock := None, pc := Off(why))))
  {
    hide Enabled, Do, Goes, Inv;
    var k, q := s.cpus[c], s.procs[p];
    var k1, q1 := k.(pc := Returned(p)), q.(pc := Off(why));
    var k2, k3 := k.(pc := Release(p), cur := None), k.(pc := Loop, cur := None, noff := 0);
    var q3 := q1.(lock := None);
    var s1, s2, s3 := Pair(s, c, k1, p, q1), Pair(s, c, k2, p, q1), Pair(s, c, k3, p, q3);
    ShapedInv(s);
    SwitchDone(s, c, p, why);
    LeaveSteps(s, c, p, why);
    StepInv(s, c, Go);
    ShapedInv(s1);
    ReturnSteps(s1, c, p);
    PairTwice(s, c, k1, p, q1, k2, q1);
    StepInv(s1, c, Go);
    ShapedInv(s2);
    ReturnSteps(s2, c, p);
    PairTwice(s, c, k2, p, q1, k3, q3);
    GoesNowhere(s3, c);
    GoesBy(s2, c, s3, s3);
    GoesBy(s1, c, s2, s3);
    GoesBy(s, c, s1, s3);
  }

  lemma CallSwitch(s: State, c: nat, p: nat, why: Why)
    requires Inv(s) && At(s, c, p) && s.procs[p].pc == Sched(why)
    ensures Enabled(s, c, Go)
    ensures Do(s, c, Go)
         == Pair(s, c, s.cpus[c], p, s.procs[p].(pc := Switch(why, 0), frame := s.cpus[c].regs))
  {
    hide OwnerOk, InnerOk, ProcOk, LockOk, ClaimsApart, Moved;
    assert CpuOk(s, c);
    assert s.cpus[c := s.cpus[c]] == s.cpus;
  }

  /** `sched`: the CPU is back in its loop, the process off with its registers saved. */
  lemma SchedLeaves(s: State, c: nat, p: nat, why: Why)
    requires Inv(s) && At(s, c, p) && s.procs[p].pc == Sched(why)
    ensures Goes(s, c, SwitchedOff(s, c, p, why, s.procs[p].state, s.procs[p].chan))
  {
    hide Enabled, Do, Goes, Inv;
    var k, q := s.cpus[c], s.procs[p];
    CallSwitch(s, c, p, why);
    StepInv(s, c, Go);
    var s1 := Do(s, c, Go);
    var s2 := SwitchLoop(s1, c, p, why, 0);
    SwitchDone(s2, c, p, why);
    PairTwice(s, c, s1.cpus[c], p, s1.procs[p], s2.cpus[c], s2.procs[p]);
    Leaves(s2, c, p, why);
    var k3 := k.(pc := Loop, cur := None, noff := 0, regs := k.ctx);
    var q3 := q.(lock := None, pc := Off(why), ctx := k.regs, frame := k.regs);
    PairTwice(s, c, s2.cpus[c], p, s2.procs[p], k3, q3);
    GoesOn(s1, c, s2, Pair(s, c, k3, p, q3));
    GoesStep(s, c, Pair(s, c, k3, p, q3));
  }

  lemma TakeOwn(s: State, c: nat, p: nat)
    requires Shaped(s) && At(s, c, p) && s.procs[p].lock.None?
    requires var pc := s.procs[p].pc; pc.YieldAcquire? || pc.TryAcquire? || pc.SleepAcquire?
    ensures Enabled(s, c, Go)
    ensures var pc := s.procs[p].pc;
            var next := if pc.YieldAcquire? then YieldSet(pc.at)
                        else if pc.TryAcquire? then TryTest(pc.at) else SleepRelease(pc.l);
            Do(s, c, Go) == Pair(s, c, Deeper(s.cpus[c]), p, s.procs[p].(lock := Some(c), pc := next))
  {}

  lemma SetState(s: State, c: nat, p: nat)
    requires Shaped(s) && At(s, c, p)
    requires var pc := s.procs[p].pc; pc.YieldSet? || pc.SleepSet?
    ensures Enabled(s, c, Go)
    ensures var q := s.procs[p];
            Do(s, c, Go) == Pair(s, c, s.cpus[c], p,
                                 if q.pc.YieldSet? then q.(pc := Sched(Yielded(q.pc.at)), state := RUNNABLE)
                                 else q.(pc := Sched(Slept(q.pc.l)), chan := Some(q.pc.l), state := SLEEPING))
  {
    assert s.cpus[c := s.cpus[c]] == s.cpus;
  }

  /** `yielding`, called at `at`. */
  lemma YieldLeaves(s: State, c: nat, p: nat, at: Spot)
    requires Quiet(s, c, p) && s.procs[p].pc == YieldAcquire(at)
    ensures Goes(s, c, SwitchedOff(s, c, p, Yielded(at), RUNNABLE, s.procs[p].chan))
  {
    hide Enabled, Do, Goes, Inv;
    var k, q := s.cpus[c], s.procs[p];
    var k1, q1 := Deeper(k), q.(lock := Some(c), pc := YieldSet(at));
    var q2 := q1.(pc := Sched(Yielded(at)), state := RUNNABLE);
    var s1, s2 := Pair(s, c, k1, p, q1), Pair(s, c, k1, p, q2);
    ShapedInv(s);
    TakeOwn(s, c, p);
    StepInv(s, c, Go);
    ShapedInv(s1);
    SetState(s1, c, p);
    PairTwice(s, c, k1, p, q1, k1, q2);
    StepInv(s1, c, Go);
    SchedLeaves(s2, c, p, Yielded(at));
    var t := SwitchedOff(s, c, p, Yielded(at), RUNNABLE, q.chan);
    PairTwice(s, c, k1, p, q2, t.cpus[c], t.procs[p]);
    GoesBy(s1, c, s2, t);
    GoesBy(s, c, s1, t);
  }

  /** A process that computes and is then interrupted in user mode: it is RUNNABLE, with the
      registers it had computed, and its CPU is back in the scheduler. */
  lemma TimerYields(s: State, c: nat, p: nat, regs: Regs)
    requires Inv(s) && At(s, c, p) && s.procs[p].lock.None? && s.procs[p].pc == Run && |regs| == NREGS
    ensures Enabled(s, c, Compute(regs)) && Enabled(Do(s, c, Compute(regs)), c, Yield)
    ensures Goes(Do(Do(s, c, Compute(regs)), c, Yield), c,
                 SwitchedOff(SetCpu(s, c, s.cpus[c].(regs := regs)), c, p, Yielded(AtRun), RUNNABLE, s.procs[p].chan))
  {
    OutsideIsQuiet(s, c, p);
    ShapedInv(s);
    StepInv(s, c, Compute(regs));
    var s1 := Do(s, c, Compute(regs));
    assert s1 == SetCpu(s, c, s.cpus[c].(regs := regs));
    ShapedInv(s1);
    StepInv(s1, c, Yield);
    var s2 := Do(s1, c, Yield);
    assert s2 == SetProc(s1, p, s1.procs[p].(pc := YieldAcquire(AtRun)));
    hide Enabled, Do, Goes, Inv;
    YieldLeaves(s2, c, p, AtRun);
    var t := SwitchedOff(s1, c, p, Yielded(AtRun), RUNNABLE, s.procs[p].chan);
    PairTwice(s1, c, s1.cpus[c], p, s2.procs[p], t.cpus[c], t.procs[p]);
    assert s1.cpus[c := s1.cpus[c]] == s1.cpus;
  }

  /** Where a thread outside all spinlocks is. */
  function SpotOf(pc: ProcPc): Spot {
    match pc
    case LockAcquire(l) => AtLock(l)
    case UnlockAcquire(l) => AtUnlock(l)
    case _ => AtRun
  }

  lemma TryYields(s: State, c: nat, p: nat)
    requires Shaped(s) && At(s, c, p) && s.procs[p].pc.TryTest? && s.procs[p].state == RUNNING
    ensures Enabled(s, c, Go)
    ensures Do(s, c, Go) == Pair(s, c, Shallower(s.cpus[c]), p,
                                 s.procs[p].(pc := YieldAcquire(s.procs[p].pc.at), lock := None))
  {}

  lemma Interrupted(s: State, c: nat, p: nat)
    requires Shaped(s) && At(s, c, p)
             && (s.procs[p].pc.Run? || s.procs[p].pc.LockAcquire? || s.procs[p].pc.UnlockAcquire?)
    ensures Enabled(s, c, Interrupt)
    ensures Do(s, c, Interrupt) == Pair(s, c, s.cpus[c], p, s.procs[p].(pc := TryAcquire(SpotOf(s.procs[p].pc))))
  {
    assert s.cpus[c := s.cpus[c]] == s.cpus;
  }

  /** An interrupt in the kernel does the same, and the thread goes on from where it was. */
  lemma InterruptYields(s: State, c: nat, p: nat)
    requires Inv(s) && At(s, c, p) && s.procs[p].lock.None?
             && (s.procs[p].pc.Run? || s.procs[p].pc.LockAcquire? || s.procs[p].pc.UnlockAcquire?)
    ensures Enabled(s, c, Interrupt) && Resumed(SpotOf(s.procs[p].pc)) == s.procs[p].pc
    ensures Goes(Do(s, c, Interrupt), c,
                 SwitchedOff(s, c, p, Yielded(SpotOf(s.procs[p].pc)), RUNNABLE, s.procs[p].chan))
  {
    OutsideIsQuiet(s, c, p);
    hide Enabled, Do, Goes, Inv, Shaped;
    var k, q, at := s.cpus[c], s.procs[p], SpotOf(s.procs[p].pc);
    var q1, q2 := q.(pc := TryAcquire(at)), q.(pc := TryTest(at), lock := Some(c));
    var q3 := q.(pc := YieldAcquire(at));
    var s1, s2, s3 := Pair(s, c, k, p, q1), Pair(s, c, Deeper(k), p, q2), Pair(s, c, k, p, q3);
    ShapedInv(s);
    Interrupted(s, c, p);
    StepInv(s, c, Interrupt);
    ShapedInv(s1);
    TakeOwn(s1, c, p);
    PairTwice(s, c, k, p, q1, Deeper(k), q2);
    StepInv(s1, c, Go);
    ShapedInv(s2);
    TryYields(s2, c, p);
    PairTwice(s, c, Deeper(k), p, q2, k, q3);
    StepInv(s2, c, Go);
    YieldLeaves(s3, c, p, at);
    var t := SwitchedOff(s, c, p, Yielded(at), RUNNABLE, q.chan);
    PairTwice(s, c, k, p, q3, t.cpus[c], t.procs[p]);
    GoesBy(s2, c, s3, t);
    GoesBy(s1, c, s2, t);
  }

  // ---------- `lock` on a taken lock ----------

  lemma TestTaken(s: State, c: nat, p: nat, l: nat)
    requires Shaped(s) && At(s, c, p) && l < |s.locks| && s.procs[p].pc == LockTest(l) && s.locks[l].locked
    ensures Enabled(s, c, Go)
    ensures Do(s, c, Go) == Amid(s, c, s.cpus[c], p, s.procs[p].(pc := SleepAcquire(l)), l, s.locks[l])
  {
    Unchanged(s, c, p, l);
  }

  /** `lock` on a taken lock: the process sleeps on the lock, which is as it was, and its CPU is back in
      the scheduler. */
  lemma LockSleeps(s: State, c: nat, p: nat, l: nat)
    requires Inv(s) && At(s, c, p) && s.procs[p].lock.None? && s.procs[p].pc == Run
    requires l < |s.locks| && s.locks[l].inner.None? && s.locks[l].locked
    ensures Enabled(s, c, Lock(l))
    ensures Goes(Do(s, c, Lock(l)), c, SwitchedOff(s, c, p, Slept(l), SLEEPING, Some(l)))
  {
    OutsideIsQuiet(s, c, p);
    hide Enabled, Do, Goes, Inv, Amid, SwitchedOff;
    ShapedInv(s);
    CallLock(s, c, p, l);
    StepInv(s, c, Lock(l));
    SleepPath(s, Do(s, c, Lock(l)), c, p, l);
  }

  lemma SleepPath(s: State, s1: State, c: nat, p: nat, l: nat)
    requires Quiet(s, c, p) && l < |s.locks| && s.locks[l].inner.None? && s.locks[l].locked
    requires Inv(s1) && s1 == Amid(s, c, s.cpus[c], p, s.procs[p].(pc := LockAcquire(l)), l, s.locks[l])
    ensures Goes(s1, c, SwitchedOff(s, c, p, Slept(l), SLEEPING, Some(l)))
  {
    hide Enabled, Do, Goes, Inv;
    var k, q, m := s.cpus[c], s.procs[p], s.locks[l];
    var k1, k2, m2 := k.(noff := 1), k.(noff := 2), m.(inner := Some(c));
    var q2, q3 := q.(pc := LockTest(l)), q.(pc := SleepAcquire(l));
    var q4 := q.(lock := Some(c), pc := SleepRelease(l));
    var s2, s3 := Amid(s, c, k1, p, q2, l, m2), Amid(s, c, k1, p, q3, l, m2);
    var s4 := Amid(s, c, k2, p, q4, l, m2);
    ShapedInv(s1);
    TakeInner(s1, c, p, l);
    AmidTwice(s, c, k, p, q.(pc := LockAcquire(l)), l, m, k1, q2, m2);
    StepInv(s1, c, Go);
    ShapedInv(s2);
    TestTaken(s2, c, p, l);
    AmidTwice(s, c, k1, p, q2, l, m2, k1, q3, m2);
    StepInv(s2, c, Go);
    ShapedInv(s3);
    TakeOwn(s3, c, p);
    PairIsAmid(s3, c, k2, p, q4, l);
    AmidTwice(s, c, k1, p, q3, l, m2, k2, q4, m2);
    StepInv(s3, c, Go);
    SleepEnd(s, s4, c, p, l);
    var t := SwitchedOff(s, c, p, Slept(l), SLEEPING, Some(l));
    GoesBy(s3, c, s4, t);
    GoesBy(s2, c, s3, t);
    GoesBy(s1, c, s2, t);
  }

  lemma PairIsAmid(s: State, c: nat, k: Cpu, p: nat, q: Proc, l: nat)
    requires c < |s.cpus| && p < |s.procs| && l < |s.locks|
    ensures Pair(s, c, k, p, q) == Amid(s, c, k, p, q, l, s.locks[l])
  {
    assert s.locks[l := s.locks[l]] == s.locks;
  }

  /** Holding its own lock and the sleep lock's spinlock, the thread goes to sleep. */
  lemma SleepEnd(s: State, s4: State, c: nat, p: nat, l: nat)
    requires Quiet(s, c, p) && l < |s.locks| && s.locks[l].inner.None?
    requires Inv(s4) && s4 == Amid(s, c, s.cpus[c].(noff := 2), p,
                                   s.procs[p].(lock := Some(c), pc := SleepRelease(l)), l,
                                     s.locks[l].(inner := Some(c)))
    ensures Goes(s4, c, SwitchedOff(s, c, p, Slept(l), SLEEPING, Some(l)))
  {
    hide Enabled, Do, Goes, Inv;
    var k, q, m := s.cpus[c], s.procs[p], s.locks[l];
    var k1, q5 := k.(noff := 1), q.(lock := Some(c), pc := SleepSet(l));
    var q6 := q.(lock := Some(c), pc := Sched(Slept(l)), chan := Some(l), state := SLEEPING);
    var s5, s6 := Pair(s, c, k1, p, q5), Pair(s, c, k1, p, q6);
    ShapedInv(s4);
    DropInner(s4, c, p, l);
    AmidTwice(s, c, k.(noff := 2), p, s4.procs[p], l, m.(inner := Some(c)), k1, q5, m);
    PairIsAmid(s, c, k1, p, q5, l);
    StepInv(s4, c, Go);
    ShapedInv(s5);
    SetState(s5, c, p);
    PairTwice(s, c, k1, p, q5, k1, q6);
    StepInv(s5, c, Go);
    SchedLeaves(s6, c, p, Slept(l));
    var t := SwitchedOff(s, c, p, Slept(l), SLEEPING, Some(l));
    PairTwice(s, c, k1, p, q6, t.cpus[c], t.procs[p]);
    GoesBy(s5, c, s6, t);
    GoesBy(s4, c, s5, t);
  }

  // ---------- the scheduler's round ----------

  lemma SeekPast(s: State, c: nat, i: nat)
    requires Inv(s) && c < |s.cpus| && s.cpus[c].pc == Seek(i) && i < |s.procs| && s.procs[i].lock.None?
    requires s.procs[i].state != RUNNABLE
    ensures Goes(s, c, SetCpu(s, c, s.cpus[c].(pc := Seek(i + 1)))) && Inv(SetCpu(s, c, s.cpus[c].(pc := Seek(i + 1))))
  {
    hide OwnerOk, InnerOk, ProcOk, LockOk, ClaimsApart, CpuOk, Goes;
    ShapedInv(s);
    StepInv(s, c, Go);
    var m := Do(s, c, Go);
    ShapedInv(m);
    StepInv(m, c, Go);
    var t := SetCpu(s, c, s.cpus[c].(pc := Seek(i + 1)));
    assert m.cpus[c := t.cpus[c]] == t.cpus && m.procs[i := s.procs[i]] == s.procs;
    assert Do(m, c, Go) == t;
    hide Do, Enabled, Inv;
    GoesNowhere(t, c);
    GoesBy(m, c, t, t);
    GoesBy(s, c, m, t);
  }

  lemma {:induction false} SeekAll(s: State, c: nat, i: nat, j: nat)
    requires Inv(s) && c < |s.cpus| && s.cpus[c].pc == Seek(i) && i <= j <= |s.procs|
    requires forall x | i <= x < j :: s.procs[x].lock.None? && s.procs[x].state != RUNNABLE
    ensures var t := SetCpu(s, c, s.cpus[c].(pc := Seek(j))); Goes(s, c, t) && Inv(t)
    decreases j - i
  {
    hide Goes, Inv;
    if i == j {
      GoesNowhere(s, c);
      assert s.cpus[c := s.cpus[c]] == s.cpus;
    } else {
      SeekPast(s, c, i);
      var m, t := SetCpu(s, c, s.cpus[c].(pc := Seek(i + 1))), SetCpu(s, c, s.cpus[c].(pc := Seek(j)));
      SeekAll(m, c, i + 1, j);
      assert m.cpus[c := t.cpus[c]] == t.cpus;
      GoesOn(s, c, m, t);
    }
  }

  /** With nothing to run, a round of the scheduler changes nothing. */
  lemma IdleRound(s: State, c: nat)
    requires Inv(s) && c < |s.cpus| && s.cpus[c].pc == Loop
    requires forall x | 0 <= x < |s.procs| :: s.procs[x].lock.None? && s.procs[x].state != RUNNABLE
    ensures Enabled(s, c, Go) && Do(s, c, Go) != s && Goes(Do(s, c, Go), c, s)
  {
    ShapedInv(s);
    var m := SetCpu(s, c, s.cpus[c].(pc := Seek(0)));
    assert Do(s, c, Go) == m && m.cpus[c].pc == Seek(0);
    StepInv(s, c, Go);
    SeekAll(m, c, 0, |s.procs|);
    var t := SetCpu(m, c, m.cpus[c].(pc := Seek(|s.procs|)));
    ShapedInv(t);
    assert t.cpus[c := s.cpus[c]] == s.cpus;
    assert Do(t, c, Go) == s;
    hide Do, Enabled, Inv, Goes;
    GoesNowhere(s, c);
    GoesBy(t, c, s, s);
    GoesOn(m, c, t, s);
  }

  /** The scheduler finds p RUNNABLE and takes it. */
  lemma SeekFinds(s: State, c: nat, p: nat)
    requires Inv(s) && c < |s.cpus| && s.cpus[c].pc == Seek(p) && p < |s.procs| && s.procs[p].lock.None?
    requires s.procs[p].state == RUNNABLE
    ensures var t := Pair(s, c, s.cpus[c].(pc := Found(p)), p, s.procs[p].(state := ALLOCATED)); Goes(s, c, t) && Inv(t)
  {
    hide OwnerOk, InnerOk, ProcOk, LockOk, ClaimsApart, CpuOk, Goes;
    ShapedInv(s);
    StepInv(s, c, Go);
    var m := Do(s, c, Go);
    ShapedInv(m);
    StepInv(m, c, Go);
    var t := Pair(s, c, s.cpus[c].(pc := Found(p)), p, s.procs[p].(state := ALLOCATED));
    assert m == Pair(s, c, m.cpus[c], p, m.procs[p]);
    PairTwice(s, c, m.cpus[c], p, m.procs[p], t.cpus[c], t.procs[p]);
    assert Do(m, c, Go) == t;
    hide Do, Enabled, Inv;
    GoesNowhere(t, c);
    GoesBy(m, c, t, t);
    GoesBy(s, c, m, t);
  }

  lemma FoundStep(s: State, c: nat, p: nat)
    requires Shaped(s) && c < |s.cpus| && p < |s.procs| && s.cpus[c].pc == Found(p)
    ensures Enabled(s, c, Go)
    ensures Do(s, c, Go) == Pair(s, c, s.cpus[c].(pc := Claimed(p), cur := Some(p)), p, s.procs[p])
  {
    assert s.procs[p := s.procs[p]] == s.procs;
  }

  lemma ClaimedStep(s: State, c: nat, p: nat)
    requires Shaped(s) && c < |s.cpus| && p < |s.procs| && s.cpus[c].pc == Claimed(p) && s.procs[p].lock.None?
    ensures Enabled(s, c, Go)
    ensures Do(s, c, Go) == Pair(s, c, Deeper(s.cpus[c].(pc := Held(p))), p, s.procs[p].(lock := Some(c)))
  {}

  lemma HeldGo(s: State, c: nat, p: nat)
    requires Shaped(s) && c < |s.cpus| && p < |s.procs| && s.cpus[c].pc == Held(p)
    ensures Enabled(s, c, Go)
    ensures var k := s.cpus[c];
            Do(s, c, Go) == Pair(s, c, k.(pc := Out(p, 0), frame := k.regs), p, s.procs[p].(state := RUNNING))
  {}

  lemma OutOne(s: State, c: nat, p: nat, n: nat)
    requires Shaped(s) && c < |s.cpus| && p < |s.procs| && s.cpus[c].pc == Out(p, n) && n < 2 * NREGS
    ensures Enabled(s, c, Go)
    ensures var t := Do(s, c, Go);
            && c < |t.cpus| && p < |t.procs|
            && t
               == Pair(s, c, s.cpus[c].(pc := Out(p, n
                                                  + 1), ctx := t.cpus[c].ctx, regs := t.cpus[c].regs), p, s.procs[p])
  {
    assert ShapedCpu(s.cpus[c], |s.procs|) && ShapedProc(s.procs[p], |s.locks|);
    assert s.procs[p := s.procs[p]] == s.procs;
  }

  lemma {:induction false} OutLoop(s: State, c: nat, p: nat, n: nat) returns (t: State)
    requires Inv(s) && c < |s.cpus| && p < |s.procs| && s.cpus[c].pc == Out(p, n) && n <= 2 * NREGS
    ensures Goes(s, c, t) && Inv(t) && c < |t.cpus|
    ensures t == Pair(s, c, s.cpus[c].(pc := Out(p, 2 * NREGS), ctx := t.cpus[c].ctx, regs := t.cpus[c].regs), p,
                      s.procs[p])
    decreases 2 * NREGS - n
  {
    hide Enabled, Do, Goes, Inv, Shaped;
    if n == 2 * NREGS {
      t := s;
      GoesNowhere(s, c);
      assert s.cpus[c := s.cpus[c]] == s.cpus && s.procs[p := s.procs[p]] == s.procs;
    } else {
      ShapedInv(s);
      OutOne(s, c, p, n);
      StepInv(s, c, Go);
      var m := Do(s, c, Go);
      t := OutLoop(m, c, p, n + 1);
      PairTwice(s, c, m.cpus[c], p, m.procs[p], t.cpus[c], t.procs[p]);
      GoesStep(s, c, t);
    }
  }

  /** All moves done: the process's registers are loaded, and the scheduler's saved. */
  lemma OutDone(s: State, c: nat, p: nat)
    requires Inv(s) && c < |s.cpus| && p < |s.procs| && s.cpus[c].pc == Out(p, 2 * NREGS)
    ensures s.cpus[c].ctx == s.cpus[c].frame && s.cpus[c].regs == s.procs[p].ctx && s.procs[p].pc.Off?
    ensures Enabled(s, c, Go)
    ensures Do(s, c, Go) == Pair(s, c, s.cpus[c].(pc := Away(p)), p, s.procs[p].(pc := Back(s.procs[p].pc.why)))
  {
    hide OwnerOk, InnerOk, ProcOk, LockOk, ClaimsApart;
    assert CpuOk(s, c);
    var k, q := s.cpus[c], s.procs[p];
    assert k.regs[..NREGS] == k.regs && q.ctx[..NREGS] == q.ctx;
  }

  /** Where a thread goes on when it is back from `switch`. */
  function GoesOnAt(why: Why): ProcPc {
    if why.Slept? then LockAcquire(why.l) else Resumed(why.at)
  }

  lemma BackStep(s: State, c: nat, p: nat)
    requires Shaped(s) && At(s, c, p) && s.procs[p].pc.Back?
    ensures Enabled(s, c, Go)
    ensures var q := s.procs[p];
            var chan := if q.pc.why.Slept? then None else q.chan;
            Do(s, c, Go)
              == Pair(s, c, Shallower(s.cpus[c]), p, q.(pc := GoesOnAt(q.pc.why), chan := chan, lock := None))
  {}

  /** CPU c running p again, which has its registers and goes on. */
  function SwitchedOn(s: State, c: nat, p: nat): State
    requires c < |s.cpus| && p < |s.procs| && s.procs[p].pc.Off?
  {
    var k, q := s.cpus[c], s.procs[p];
    Pair(s, c, k.(pc := Away(p), cur := Some(p), regs := q.ctx, ctx := k.regs, frame := k.regs), p,
         q.(state := RUNNING, pc := GoesOnAt(q.pc.why), chan := if q.pc.why.Slept? then None else q.chan))
  }

  lemma Dispatches(s: State, c: nat, p: nat)
    requires Inv(s) && c < |s.cpus| && p < |s.procs| && s.cpus[c].pc == Found(p) && s.procs[p].lock.None?
    requires s.cpus[c].noff == 0 && s.procs[p].pc.Off?
    ensures Goes(s, c, SwitchedOn(s, c, p))
  {
    hide Enabled, Do, Goes, Inv, Shaped;
    var k, q := s.cpus[c], s.procs[p];
    var k1, k2 := k.(pc := Claimed(p), cur := Some(p)), k.(pc := Held(p), cur := Some(p), noff := 1);
    var k3, q2 := k2.(pc := Out(p, 0), frame := k.regs), q.(lock := Some(c));
    var q3 := q2.(state := RUNNING);
    var s1, s2, s3 := Pair(s, c, k1, p, q), Pair(s, c, k2, p, q2), Pair(s, c, k3, p, q3);
    ShapedInv(s);
    FoundStep(s, c, p);
    StepInv(s, c, Go);
    ShapedInv(s1);
    ClaimedStep(s1, c, p);
    PairTwice(s, c, k1, p, q, k2, q2);
    StepInv(s1, c, Go);
    ShapedInv(s2);
    HeldGo(s2, c, p);
    PairTwice(s, c, k2, p, q2, k3, q3);
    StepInv(s2, c, Go);
    Arrives(s, s3, c, p);
    var t := SwitchedOn(s, c, p);
    GoesBy(s2, c, s3, t);
    GoesBy(s1, c, s2, t);
    GoesBy(s, c, s1, t);
  }

  lemma Arrives(s: State, s3: State, c: nat, p: nat)
    requires c < |s.cpus| && p < |s.procs| && s.cpus[c].noff == 0 && s.procs[p].pc.Off? && s.procs[p].lock.None?
    requires var k := s.cpus[c].(pc := Out(p, 0), cur := Some(p), noff := 1, frame := s.cpus[c].regs);
             Inv(s3) && s3 == Pair(s, c, k, p, s.procs[p].(lock := Some(c), state := RUNNING))
    ensures Goes(s3, c, SwitchedOn(s, c, p))
  {
    hide Enabled, Do, Goes, Inv, Shaped;
    var t := SwitchedOn(s, c, p);
    var s4 := OutLoop(s3, c, p, 0);
    OutDone(s4, c, p);
    PairTwice(s, c, s3.cpus[c], p, s3.procs[p], s4.cpus[c], s4.procs[p]);
    StepInv(s4, c, Go);
    var s5 := Do(s4, c, Go);
    PairTwice(s, c, s4.cpus[c], p, s4.procs[p], s5.cpus[c], s5.procs[p]);
    ShapedInv(s5);
    BackStep(s5, c, p);
    PairTwice(s, c, s5.cpus[c], p, s5.procs[p], t.cpus[c], t.procs[p]);
    GoesNowhere(t, c);
    GoesBy(s5, c, t, t);
    GoesBy(s4, c, s5, t);
    GoesOn(s3, c, s4, t);
  }

  lemma LoopIsFree(s: State, c: nat, p: nat)
    requires Inv(s) && c < |s.cpus| && s.cpus[c].pc == Loop && p < |s.procs| && s.procs[p].state == RUNNABLE
             && s.procs[p].lock.None?
    ensures s.cpus[c].noff == 0 && s.procs[p].pc.Off?
  {
    hide InnerOk, LockOk, Moved;
    assert CpuOk(s, c) && ProcOk(s, p);
    forall d | 0 <= d < |s.cpus|
      ensures Claim(s.cpus[d].pc) == Some(p) ==> s.procs[p].pc.Off?
    {
      assert CpuOk(s, d);
    }
  }

  /** A scheduler that has computed and goes on alone runs the first RUNNABLE process: the thread goes on
      where it was, with the registers it had, and the scheduler's are saved. */
  lemma SchedulerRuns(s: State, c: nat, p: nat, regs: Regs)
    requires Inv(s) && c < |s.cpus| && s.cpus[c].pc == Loop && p < |s.procs| && s.procs[p].state == RUNNABLE
    requires (forall x | 0 <= x <= p :: s.procs[x].lock.None?) && |regs| == NREGS
    requires forall x | 0 <= x < p :: s.procs[x].state != RUNNABLE
    ensures s.procs[p].pc.Off? && Enabled(s, c, Compute(regs))
    ensures Goes(Do(s, c, Compute(regs)), c, SwitchedOn(SetCpu(s, c, s.cpus[c].(regs := regs)), c, p))
  {
    ShapedInv(s);
    LoopIsFree(s, c, p);
    StepInv(s, c, Compute(regs));
    var s1 := Do(s, c, Compute(regs));
    assert s1 == SetCpu(s, c, s.cpus[c].(regs := regs));
    ShapedInv(s1);
    StepInv(s1, c, Go);
    var s2 := SetCpu(s1, c, s1.cpus[c].(pc := Seek(0)));
    assert Do(s1, c, Go) == s2;
    hide Enabled, Do, Goes, Inv, Shaped;
    RoundTo(s1, s2, c, p);
    GoesBy(s1, c, s2, SwitchedOn(s1, c, p));
  }

  lemma RoundTo(s: State, s2: State, c: nat, p: nat)
    requires c < |s.cpus| && p < |s.procs| && s.procs[p].state == RUNNABLE && s.procs[p].pc.Off? && s.cpus[c].noff == 0
    requires forall x | 0 <= x <= p :: s.procs[x].lock.None?
    requires forall x | 0 <= x < p :: s.procs[x].state != RUNNABLE
    requires Inv(s2) && s2 == SetCpu(s, c, s.cpus[c].(pc := Seek(0)))
    ensures Goes(s2, c, SwitchedOn(s, c, p))
  {
    hide Enabled, Do, Goes, Inv, Shaped;
    var k, q, t := s.cpus[c], s.procs[p], SwitchedOn(s, c, p);
    SeekAll(s2, c, 0, p);
    var s3 := SetCpu(s2, c, s2.cpus[c].(pc := Seek(p)));
    SeekFinds(s3, c, p);
    var s4 := Pair(s3, c, s3.cpus[c].(pc := Found(p)), p, q.(state := ALLOCATED));
    Dispatches(s4, c, p);
    assert s4 == Pair(s, c, s4.cpus[c], p, s4.procs[p]);
    PairTwice(s, c, s4.cpus[c], p, s4.procs[p], t.cpus[c], t.procs[p]);
    GoesOn(s3, c, s4, t);
    GoesOn(s2, c, s3, t);
  }

  // ---------- `unlock` ----------

  /** Process x once processes from i on have been looked at for the channel of l. */
  function WokenFrom(q: Proc, l: nat, x: nat, i: nat): Proc {
    if x >= i then Woken(q, l) else q
  }

  /** `unlock` on the way through the table: nobody holds a process lock, p's thread is at process i. */
  ghost predicate WakesFrom(s: State, c: nat, p: nat, l: nat, i: nat) {
    && Inv(s) && At(s, c, p) && s.procs[p].pc == Wake(l, i) && i <= |s.procs| && l < |s.locks|
    && s.procs[p].state == RUNNING && forall x | 0 <= x < |s.procs| :: s.procs[x].lock.None?
  }

  /** Process i looked at. */
  function WokenOne(s: State, p: nat, l: nat, i: nat): State
    requires p < |s.procs| && i < |s.procs|
  {
    var q := s.procs[p].(pc := Wake(l, i + 1));
    s.(procs := s.procs[p := q][i := if i == p then q else Woken(s.procs[i], l)])
  }

  lemma WakeLooks(s: State, c: nat, p: nat, l: nat, i: nat)
    requires Shaped(s) && At(s, c, p) && s.procs[p].pc == Wake(l, i) && i < |s.procs| && s.procs[i].lock.None?
    ensures Enabled(s, c, Go)
    ensures var t := SetProc(SetCpu(s, c, Deeper(s.cpus[c])), p, s.procs[p].(pc := WakeCheck(l, i)));
            Do(s, c, Go) == SetProc(t, i, t.procs[i].(lock := Some(c)))
  {}

  lemma WakeLooked(s: State, m: State, c: nat, p: nat, l: nat, i: nat)
    requires Shaped(m) && At(s, c, p) && i < |s.procs| && s.procs[i].lock.None? && s.procs[p].state == RUNNING
    requires var t := SetProc(SetCpu(s, c, Deeper(s.cpus[c])), p, s.procs[p].(pc := WakeCheck(l, i)));
             m == SetProc(t, i, t.procs[i].(lock := Some(c)))
    ensures Enabled(m, c, Go) && Do(m, c, Go) == WokenOne(s, p, l, i)
  {
    var u := Do(m, c, Go);
    assert u.cpus == s.cpus;
    assert u.procs == WokenOne(s, p, l, i).procs;
  }

  lemma WakeOne(s: State, c: nat, p: nat, l: nat, i: nat)
    requires WakesFrom(s, c, p, l, i) && i < |s.procs|
    ensures Goes(s, c, WokenOne(s, p, l, i)) && WakesFrom(WokenOne(s, p, l, i), c, p, l, i + 1)
  {
    hide Do, Enabled, Inv, Goes, Shaped;
    ShapedInv(s);
    WakeLooks(s, c, p, l, i);
    StepInv(s, c, Go);
    var m, t := Do(s, c, Go), WokenOne(s, p, l, i);
    ShapedInv(m);
    WakeLooked(s, m, c, p, l, i);
    StepInv(m, c, Go);
    GoesNowhere(t, c);
    GoesBy(m, c, t, t);
    GoesBy(s, c, m, t);
  }

  lemma {:induction false} WakeAll(s: State, c: nat, p: nat, l: nat, i: nat) returns (t: State)
    requires WakesFrom(s, c, p, l, i)
    ensures Goes(s, c, t) && WakesFrom(t, c, p, l, |s.procs|)
    ensures t.cpus == s.cpus && t.locks == s.locks && |t.procs| == |s.procs|
    ensures t.procs[p] == s.procs[p].(pc := Wake(l, |s.procs|))
    ensures forall x | 0 <= x < |s.procs| && x != p :: t.procs[x] == WokenFrom(s.procs[x], l, x, i)
    decreases |s.procs| - i
  {
    hide Goes, Inv, Enabled, Do;
    if i == |s.procs| {
      t := s;
      GoesNowhere(s, c);
    } else {
      WakeOne(s, c, p, l, i);
      var m := WokenOne(s, p, l, i);
      t := WakeAll(m, c, p, l, i + 1);
      GoesOn(s, c, m, t);
    }
  }

  /** With l free, and everyone who slept on it RUNNABLE. */
  ghost predicate Unlocked(s: State, t: State, p: nat, l: nat) {
    && p < |s.procs| == |t.procs| && l < |s.locks| && t.cpus == s.cpus
    && t.locks == s.locks[l := SleepLock(None, false, None)]
    && t.procs[p] == s.procs[p].(guards := s.procs[p].guards - {l})
    && forall x | 0 <= x < |s.procs| && x != p :: t.procs[x] == Woken(s.procs[x], l)
  }

  lemma ClearStep(s: State, c: nat, p: nat, l: nat)
    requires Shaped(s) && At(s, c, p) && l < |s.locks| && s.procs[p].pc == UnlockClear(l)
    ensures Enabled(s, c, Go)
    ensures var q := s.procs[p];
            Do(s, c, Go) == Amid(s, c, s.cpus[c], p, q.(pc := Wake(l, 0), guards := q.guards - {l}), l,
                                 s.locks[l].(locked := false, holder := None))
  {
    Unchanged(s, c, p, l);
  }

  lemma CallUnlock(s: State, c: nat, p: nat, l: nat)
    requires Shaped(s) && At(s, c, p) && s.procs[p].pc == Run && l in s.procs[p].guards && l < |s.locks|
    ensures Enabled(s, c, Unlock(l))
    ensures Do(s, c, Unlock(l)) == Amid(s, c, s.cpus[c], p, s.procs[p].(pc := UnlockAcquire(l)), l, s.locks[l])
  {
    Unchanged(s, c, p, l);
  }

  lemma WakeEnds(s: State, c: nat, p: nat, l: nat)
    requires Shaped(s) && At(s, c, p) && l < |s.locks| && s.procs[p].pc == Wake(l, |s.procs|)
    ensures Enabled(s, c, Go)
    ensures Do(s, c, Go) == Amid(s, c, Shallower(s.cpus[c]), p, s.procs[p].(pc := Run), l, s.locks[l].(inner := None))
  {}

  /** `unlock` frees the lock and makes exactly those RUNNABLE that slept on it. */
  lemma UnlockWakes(s: State, c: nat, p: nat, l: nat) returns (t: State)
    requires Inv(s) && At(s, c, p) && s.procs[p].lock.None? && s.procs[p].pc == Run && l in s.procs[p].guards
    requires l < |s.locks| && s.locks[l].inner.None? && forall x | 0 <= x < |s.procs| :: s.procs[x].lock.None?
    ensures Enabled(s, c, Unlock(l)) && Goes(Do(s, c, Unlock(l)), c, t) && Unlocked(s, t, p, l)
  {
    OutsideIsQuiet(s, c, p);
    hide Enabled, Do, Goes, Inv, Amid, Unlocked;
    ShapedInv(s);
    CallUnlock(s, c, p, l);
    StepInv(s, c, Unlock(l));
    t := UnlockPath(s, Do(s, c, Unlock(l)), c, p, l);
  }

  lemma UnlockPath(s: State, s1: State, c: nat, p: nat, l: nat) returns (t: State)
    requires Quiet(s, c, p) && s.procs[p].pc == Run && l < |s.locks| && s.locks[l].inner.None?
    requires forall x | 0 <= x < |s.procs| :: s.procs[x].lock.None?
    requires Inv(s1) && s1 == Amid(s, c, s.cpus[c], p, s.procs[p].(pc := UnlockAcquire(l)), l, s.locks[l])
    ensures Goes(s1, c, t) && Unlocked(s, t, p, l)
  {
    hide Enabled, Do, Goes, Inv, Woken, Unlocked, Shaped;
    var k, q, m := s.cpus[c], s.procs[p], s.locks[l];
    var k1, q2, m2 := k.(noff := 1), q.(pc := UnlockClear(l)), m.(inner := Some(c));
    var q3, m3 := q.(pc := Wake(l, 0), guards := q.guards - {l}), SleepLock(Some(c), false, None);
    var s2, s3 := Amid(s, c, k1, p, q2, l, m2), Amid(s, c, k1, p, q3, l, m3);
    ShapedInv(s1);
    TakeInner(s1, c, p, l);
    AmidTwice(s, c, k, p, q.(pc := UnlockAcquire(l)), l, m, k1, q2, m2);
    StepInv(s1, c, Go);
    ShapedInv(s2);
    ClearStep(s2, c, p, l);
    AmidTwice(s, c, k1, p, q2, l, m2, k1, q3, m3);
    StepInv(s2, c, Go);
    var s4 := WakeAll(s3, c, p, l, 0);
    ShapedInv(s4);
    WakeEnds(s4, c, p, l);
    t := Do(s4, c, Go);
    UnlockedIs(s, s3, s4, c, p, l);
    GoesNowhere(t, c);
    GoesBy(s4, c, t, t);
    GoesOn(s3, c, s4, t);
    GoesBy(s2, c, s3, t);
    GoesBy(s1, c, s2, t);
  }

  lemma UnlockedIs(s: State, s3: State, s4: State, c: nat, p: nat, l: nat)
    requires At(s, c, p) && s.procs[p].pc == Run && l < |s.locks| && s.cpus[c].noff == 0
    requires var q := s.procs[p];
             s3 == Amid(s, c, s.cpus[c].(noff := 1), p, q.(pc := Wake(l, 0), guards := q.guards - {l}), l,
                        SleepLock(Some(c), false, None))
    requires s4.cpus == s3.cpus && s4.locks == s3.locks && |s4.procs| == |s3.procs|
    requires s4.procs[p] == s3.procs[p].(pc := Wake(l, |s.procs|))
    requires forall x | 0 <= x < |s.procs| && x != p :: s4.procs[x] == WokenFrom(s3.procs[x], l, x, 0)
    ensures Unlocked(s, Amid(s4, c, Shallower(s4.cpus[c]), p, s4.procs[p].(pc := Run), l, s4.locks[l].(inner := None)),
                     p, l)
  {
    hide Woken;
    var t := Amid(s4, c, Shallower(s4.cpus[c]), p, s4.procs[p].(pc := Run), l, s4.locks[l].(inner := None));
    assert t.cpus == s.cpus && t.locks == s.locks[l := SleepLock(None, false, None)];
  }
}
