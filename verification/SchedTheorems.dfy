/** What holds over every run of the machine. */
module SchedTheorems {
  import opened Options
  import opened SchedMachine
  import opened SchedInvariant
  import opened SchedSteps
  import opened SchedProcSteps
  import opened SchedWakeSteps

  datatype Step = Step(c: nat, ch: Choice)

  ghost predicate Runs(s: State, steps: seq<Step>)
    decreases |steps|
  {
    steps != [] ==>
      Enabled(s, steps[0].c, steps[0].ch) && Runs(Do(s, steps[0].c, steps[0].ch), steps[1..])
  }

  ghost function After(s: State, steps: seq<Step>): State
    requires Runs(s, steps)
    decreases |steps|
  {
    if steps == [] then s else After(Do(s, steps[0].c, steps[0].ch), steps[1..])
  }

  lemma InitInv(s: State)
    requires Init(s)
    ensures Inv(s)
  {
    forall c | 0 <= c < |s.cpus|
      ensures CpuOk(s, c)
    {
      assert ShapedCpu(s.cpus[c], |s.procs|);
    }
    forall p | 0 <= p < |s.procs|
      ensures ProcOk(s, p) && OwnerOk(s, p)
    {
      assert s.procs[p].pc == Off(Yielded(AtRun));
    }
    forall l | 0 <= l < |s.locks|
      ensures LockOk(s, l) && InnerOk(s, l)
    {
      assert s.locks[l] == SleepLock(None, false, None);
    }
  }

  lemma SchedStepInv(s: State, c: nat, ch: Choice)
    requires Inv(s) && Enabled(s, c, ch) && !s.cpus[c].pc.Away?
    ensures Inv(Do(s, c, ch))
  {
    var pc := s.cpus[c].pc;
    hide Inv, Do, Enabled;
    match pc
    case Loop => LoopStep(s, c, ch);
    case Seek(_) => SeekStep(s, c, ch);
    case SeekCheck(_) => SeekCheckStep(s, c, ch);
    case Found(_) => ClaimingStep(s, c, ch);
    case Claimed(_) => ClaimingStep(s, c, ch);
    case Peek(_) => PeekStep(s, c, ch);
    case Held(_) => HeldStep(s, c, ch);
    case Out(_, _) => OutStep(s, c, ch);
    case Returned(_) => ReturningStep(s, c, ch);
    case Release(_) => ReturningStep(s, c, ch);
  }

  lemma AwayIsAt(s: State, c: nat)
    requires Inv(s) && c < |s.cpus| && s.cpus[c].pc.Away?
    ensures At(s, c, s.cpus[c].pc.p) && !s.procs[s.cpus[c].pc.p].pc.Off?
    ensures var pc := s.procs[s.cpus[c].pc.p].pc; pc.LockTest? ==> pc.l < |s.locks|
  {
    hide ProcOk, OwnerOk, InnerOk, LockOk, ClaimsApart, Moved;
    assert CpuOk(s, c);
  }

  lemma ProcStepInv(s: State, c: nat, p: nat, ch: Choice)
    requires Inv(s) && Enabled(s, c, ch) && At(s, c, p)
    ensures Inv(Do(s, c, ch))
  {
    AwayIsAt(s, c);
    hide Inv, Do, Enabled;
    var pc := s.procs[p].pc;
    if pc.Run? {
      RunStepInv(s, c, p, ch);
    } else if pc.TryAcquire? || pc.TryTest? {
      TryInv(s, c, p, ch);
    } else if pc.YieldAcquire? || pc.YieldSet? {
      YieldInv(s, c, p, ch);
    } else if pc.SleepAcquire? || pc.SleepSet? {
      SleepInv(s, c, p, ch);
    } else if pc.Sched? {
      SchedInv(s, c, p, ch);
    } else if pc.Switch? {
      SwitchInv(s, c, p, ch);
    } else if pc.Back? {
      BackInv(s, c, p, ch);
    } else if pc.LockAcquire? || pc.UnlockAcquire? {
      if ch.Interrupt? {
        InterruptInv(s, c, p, ch);
      } else {
        TakeInnerInv(s, c, p, ch);
      }
    } else if pc.LockRelease? || pc.SleepRelease? {
      DropInnerInv(s, c, p, ch);
    } else if pc.LockTest? {
      if s.locks[pc.l].locked {
        MustSleepInv(s, c, p, ch);
      } else {
        TakeInv(s, c, p, ch);
      }
    } else if pc.UnlockClear? {
      ClearInv(s, c, p, ch);
    } else if pc.WakeCheck? {
      WakeCheckInv(s, c, p, ch);
    } else if pc.i < |s.procs| {
      WakeAcquireInv(s, c, p, ch);
    } else {
      WakeEndInv(s, c, p, ch);
    }
  }

  /** Every step of every CPU keeps the invariant. */
  lemma StepInv(s: State, c: nat, ch: Choice)
    requires Inv(s) && Enabled(s, c, ch)
    ensures Inv(Do(s, c, ch))
  {
    if s.cpus[c].pc.Away? {
      AwayIsAt(s, c);
      ProcStepInv(s, c, s.cpus[c].pc.p, ch);
    } else {
      SchedStepInv(s, c, ch);
    }
  }

  lemma {:induction false} RunInv(s: State, steps: seq<Step>)
    requires Inv(s) && Runs(s, steps)
    ensures Inv(After(s, steps))
    decreases |steps|
  {
    hide Inv, Do, Enabled;
    if steps != [] {
      StepInv(s, steps[0].c, steps[0].ch);
      RunInv(Do(s, steps[0].c, steps[0].ch), steps[1..]);
    }
  }

  lemma Reached(s: State, steps: seq<Step>)
    requires Init(s) && Runs(s, steps)
    ensures Inv(After(s, steps))
  {
    hide Inv, Init, Do, Enabled;
    InitInv(s);
    RunInv(s, steps);
  }

  // ---------- sleep locks ----------

  /** At most one guard per sleep lock, and only while it is locked. */
  lemma OneGuard(s: State, steps: seq<Step>, l: nat, p: nat, q: nat)
    requires Init(s) && Runs(s, steps)
    requires var t := After(s, steps);
             p < |t.procs| && q < |t.procs| && l in t.procs[p].guards && l in t.procs[q].guards
    ensures p == q
    ensures var t := After(s, steps); l < |t.locks| && t.locks[l].locked
  {
    Reached(s, steps);
    var t := After(s, steps);
    hide Init, Runs, After, CpuOk, OwnerOk, InnerOk, ClaimsApart, Shaped;
    assert ProcOk(t, p) && ProcOk(t, q);
    assert GuardOk(t, l, p) && GuardOk(t, l, q);
    assert LockOk(t, l);
  }

  /** No lost wake-up: when a sleep lock is free and its spinlock is too, nobody sleeps on it. */
  lemma NoLostWakeup(s: State, steps: seq<Step>, l: nat, p: nat)
    requires Init(s) && Runs(s, steps)
    requires var t := After(s, steps);
             l < |t.locks| && !t.locks[l].locked && t.locks[l].inner.None? && p < |t.procs|
    ensures var q := After(s, steps).procs[p]; !(q.state == SLEEPING && q.chan == Some(l))
  {
    hide Init, Runs, After, Inv;
    Reached(s, steps);
    NobodySleeps(After(s, steps), l, p);
  }

  lemma NobodySleeps(t: State, l: nat, p: nat)
    requires Inv(t) && l < |t.locks| && !t.locks[l].locked && t.locks[l].inner.None? && p < |t.procs|
    ensures !(t.procs[p].state == SLEEPING && t.procs[p].chan == Some(l))
  {
    hide OwnerOk, InnerOk, LockOk, ClaimsApart;
    assert ProcOk(t, p);
    var q := t.procs[p];
    if q.state == SLEEPING && q.chan == Some(l) {
      SleepersWait(t, p, l);
    }
  }

  /** A process on its way to sleep is still RUNNING. */
  lemma DecidingIsRunning(t: State, p: nat)
    requires Inv(t) && p < |t.procs|
    requires var pc := t.procs[p].pc; pc.SleepAcquire? || pc.SleepRelease? || pc.SleepSet?
    ensures t.procs[p].state == RUNNING
  {
    hide OwnerOk, InnerOk, LockOk, ClaimsApart, Moved;
    assert ProcOk(t, p);
    var d :| 0 <= d < |t.cpus| && Claim(t.cpus[d].pc) == Some(p);
    assert CpuOk(t, d);
  }

  lemma SleepersWait(t: State, p: nat, l: nat)
    requires Inv(t) && p < |t.procs| && t.procs[p].state == SLEEPING && t.procs[p].chan == Some(l)
    ensures WillSleep(t.procs[p]) == Some(l)
  {
    hide Inv;
    var pc := t.procs[p].pc;
    if pc.SleepAcquire? || pc.SleepRelease? || pc.SleepSet? {
      DecidingIsRunning(t, p);
    }
  }

  /** A locked sleep lock has a holder that can unlock it. */
  lemma LockedIsHeld(s: State, steps: seq<Step>, l: nat) returns (p: nat)
    requires Init(s) && Runs(s, steps)
    requires var t := After(s, steps); l < |t.locks| && t.locks[l].locked
    ensures var t := After(s, steps); p < |t.procs| && l in t.procs[p].guards
  {
    Reached(s, steps);
    var t := After(s, steps);
    hide Init, Runs, After, CpuOk, OwnerOk, InnerOk, ClaimsApart, Shaped;
    assert LockOk(t, l);
    p := t.locks[l].holder.value;
  }

  // ---------- the hand-over between scheduler and process ----------

  /** The CPU has read from process p's saved context, or runs p. */
  predicate Loads(k: Cpu, p: nat) {
    (k.pc.Out? && k.pc.p == p && k.pc.n > NREGS) || k.pc == Away(p)
  }

  /** A process's context is loaded by at most one CPU. */
  lemma OneCpuPerProcess(s: State, steps: seq<Step>, c: nat, d: nat, p: nat)
    requires Init(s) && Runs(s, steps)
    requires var t := After(s, steps); c < |t.cpus| && d < |t.cpus| && Loads(t.cpus[c], p) && Loads(t.cpus[d], p)
    ensures c == d
  {
    Reached(s, steps);
    hide Init, Runs, After, CpuOk, OwnerOk, InnerOk, ProcOk, LockOk, Shaped;
  }

  /** And never before it has been saved: a CPU that starts loading finds every register that
      the process had when it gave up its last CPU. */
  lemma SavedBeforeLoaded(s: State, steps: seq<Step>, c: nat)
    requires Init(s) && Runs(s, steps)
    requires var t := After(s, steps); c < |t.cpus| && t.cpus[c].pc.Out?
    ensures var t := After(s, steps);
            var p := t.cpus[c].pc.p;
            && p < |t.procs| && t.procs[p].pc.Off? && t.procs[p].ctx == t.procs[p].frame
            && t.procs[p].lock == Some(c) && t.procs[p].state == RUNNING
  {
    Reached(s, steps);
    hide Init, Runs, After, OwnerOk, InnerOk, ProcOk, LockOk, ClaimsApart, Moved;
    assert CpuOk(After(s, steps), c);
  }

  /** The process pointer of a CPU names the process whose thread it runs. */
  lemma MyProcIsRunning(s: State, steps: seq<Step>, c: nat)
    requires Init(s) && Runs(s, steps)
    requires var t := After(s, steps); c < |t.cpus| && t.cpus[c].pc.Away?
    ensures var t := After(s, steps); t.cpus[c].cur == Some(t.cpus[c].pc.p)
  {
    Reached(s, steps);
    hide Init, Runs, After, OwnerOk, InnerOk, ProcOk, LockOk, ClaimsApart, Moved, Serving;
    assert CpuOk(After(s, steps), c);
  }

  predicate SwitchedOut(q: Proc) {
    q.pc.Switch? || q.pc.Off?
  }

  /** Along the run, p stays switched out up to its last state. */
  ghost predicate StaysOut(s: State, steps: seq<Step>, p: nat)
    requires Runs(s, steps)
    decreases |steps|
  {
    && p < |s.procs|
    && (steps != [] ==> SwitchedOut(s.procs[p]) && StaysOut(Do(s, steps[0].c, steps[0].ch), steps[1..], p))
  }

  lemma FrameStays(s: State, c: nat, ch: Choice, p: nat)
    requires Inv(s) && Enabled(s, c, ch) && p < |s.procs| && SwitchedOut(s.procs[p])
    ensures var s' := Do(s, c, ch); p < |s'.procs| && s'.procs[p].frame == s.procs[p].frame
  {
    if s.cpus[c].pc.Away? {
      ProcStepFrame(s, c, s.cpus[c].pc.p, ch, p);
    } else {
      hide Inv;
    }
  }

  lemma ProcStepFrame(s: State, c: nat, q: nat, ch: Choice, p: nat)
    requires c < |s.cpus| && Shaped(s) && s.cpus[c].pc == Away(q) && ProcEnabled(s, c, q, ch)
    requires p < |s.procs| && SwitchedOut(s.procs[p])
    ensures var s' := ProcStep(s, c, q, ch); p < |s'.procs| && s'.procs[p].frame == s.procs[p].frame
  {
    assert ShapedCpu(s.cpus[c], |s.procs|);
    var pc := s.procs[q].pc;
    if pc.Wake? || pc.WakeCheck? {
      WakeFrame(s, c, q, ch, p);
    } else {
      OwnFrame(s, c, q, ch, p);
    }
  }

  lemma WakeFrame(s: State, c: nat, q: nat, ch: Choice, p: nat)
    requires c < |s.cpus| && Shaped(s) && s.cpus[c].pc == Away(q) && q < |s.procs| && p < |s.procs|
    requires s.procs[q].pc.Wake? || s.procs[q].pc.WakeCheck?
    ensures var s' := ProcStep(s, c, q, ch); p < |s'.procs| && s'.procs[p].frame == s.procs[p].frame
  {
    hide Shaped;
  }

  lemma OwnFrame(s: State, c: nat, q: nat, ch: Choice, p: nat)
    requires c < |s.cpus| && Shaped(s) && s.cpus[c].pc == Away(q) && q < |s.procs| && p < |s.procs|
    requires !s.procs[q].pc.Wake? && !s.procs[q].pc.WakeCheck? && SwitchedOut(s.procs[p])
    ensures var s' := ProcStep(s, c, q, ch); p < |s'.procs| && s'.procs[p].frame == s.procs[p].frame
  {
    hide Shaped, SaveOne, LoadOne, Resumed;
  }

  lemma {:induction false} FrameStaysOut(s: State, steps: seq<Step>, p: nat)
    requires Inv(s) && Runs(s, steps) && StaysOut(s, steps, p)
    ensures p < |After(s, steps).procs| && After(s, steps).procs[p].frame == s.procs[p].frame
    decreases |steps|
  {
    hide Inv, Do, Enabled;
    if steps != [] {
      FrameStays(s, steps[0].c, steps[0].ch, p);
      StepInv(s, steps[0].c, steps[0].ch);
      FrameStaysOut(Do(s, steps[0].c, steps[0].ch), steps[1..], p);
    }
  }

  /** The registers process p comes back with are those it called `switch` with, on whatever
      CPU and after whatever steps of all CPUs in between. */
  lemma ResumesWithItsRegisters(s: State, c: nat, p: nat, steps: seq<Step>, d: nat)
    requires Inv(s) && Enabled(s, c, Go) && At(s, c, p) && s.procs[p].pc.Sched?
    requires var s1 := Do(s, c, Go); Runs(s1, steps) && StaysOut(s1, steps, p)
    requires var t := After(Do(s, c, Go), steps); At(t, d, p) && t.procs[p].pc.Back?
    ensures After(Do(s, c, Go), steps).cpus[d].regs == s.cpus[c].regs
  {
    StepInv(s, c, Go);
    var s1 := Do(s, c, Go);
    assert s1.procs[p].frame == s.cpus[c].regs;
    FrameStaysOut(s1, steps, p);
    RunInv(s1, steps);
    var t := After(s1, steps);
    hide Runs, After, OwnerOk, InnerOk, ProcOk, LockOk, ClaimsApart, Moved;
    assert CpuOk(t, d);
  }

  /** A timer interrupt finds no process pointer, and so does nothing, in a scheduler thread that is
      looking for a process or has not yet recorded the one it picked. */
  lemma IdleHasNoProcess(s: State, steps: seq<Step>, c: nat)
    requires Init(s) && Runs(s, steps) && c < |After(s, steps).cpus|
    requires var pc := After(s, steps).cpus[c].pc; pc.Loop? || pc.Seek? || pc.Found?
    ensures After(s, steps).cpus[c].cur == None
  {
    Reached(s, steps);
    hide Init, Runs, After, OwnerOk, InnerOk, ProcOk, LockOk, ClaimsApart, Moved, Serving;
    assert CpuOk(After(s, steps), c);
  }

  /** A scheduler thread that is interrupted with a process pointer set never yields in that
      process's place. */
  lemma SchedulerNeverYields(s: State, steps: seq<Step>, c: nat)
    requires Init(s) && Runs(s, steps) && c < |After(s, steps).cpus|
    ensures !After(s, steps).cpus[c].pc.Astray?
  {
    Reached(s, steps);
    hide Init, Runs, After, OwnerOk, InnerOk, ProcOk, LockOk, ClaimsApart, Moved;
    assert CpuOk(After(s, steps), c);
  }

  /** Whoever goes back to unlocking a sleep lock, after however many interrupts, holds it. */
  lemma UnlockersHold(s: State, steps: seq<Step>, p: nat)
    requires Init(s) && Runs(s, steps) && p < |After(s, steps).procs|
    ensures Entitled(After(s, steps).procs[p])
  {
    Reached(s, steps);
    hide Init, Runs, After, OwnerOk, InnerOk, CpuOk, LockOk, ClaimsApart, Shaped;
    assert ProcOk(After(s, steps), p);
  }

  // ---------- panics and progress ----------

  /** The checks of `sched` never fire. */
  lemma SchedNeverPanics(s: State, steps: seq<Step>, c: nat, p: nat)
    requires Init(s) && Runs(s, steps)
    requires var t := After(s, steps); At(t, c, p) && t.procs[p].pc.Sched?
    ensures !SchedPanics(After(s, steps), c, p)
  {
    Reached(s, steps);
    hide Init, Runs, After, OwnerOk, InnerOk, ProcOk, LockOk, ClaimsApart, Moved;
    assert CpuOk(After(s, steps), c);
  }

  /** The lock a CPU spins on next, if any: a process lock or the spinlock of a sleep lock. */
  datatype Wanted = Nothing | ProcLock(p: nat) | InnerLock(l: nat)

  function Wants(s: State, c: nat): Wanted
    requires c < |s.cpus|
  {
    match s.cpus[c].pc
    case Seek(i) => if i < |s.procs| then ProcLock(i) else Nothing
    case Claimed(p) => ProcLock(p)
    case Away(p) =>
      if p >= |s.procs| then Nothing else
      (match s.procs[p].pc
       case LockAcquire(l) => InnerLock(l)
       case UnlockAcquire(l) => InnerLock(l)
       case SleepAcquire(_) => ProcLock(p)
       case TryAcquire(_) => ProcLock(p)
       case YieldAcquire(_) => ProcLock(p)
       case Wake(_, i) => if i < |s.procs| then ProcLock(i) else Nothing
       case _ => Nothing)
    case _ => Nothing
  }

  function HolderOf(s: State, w: Wanted): Option<nat> {
    match w
    case Nothing => None
    case ProcLock(p) => if p < |s.procs| then s.procs[p].lock else None
    case InnerLock(l) => if l < |s.locks| then s.locks[l].inner else None
  }

  /** No CPU acquires a spinlock it holds already, and no release finds the depth at zero. */
  lemma SpinlocksNeverPanic(s: State, steps: seq<Step>, c: nat)
    requires Init(s) && Runs(s, steps) && c < |After(s, steps).cpus|
    ensures var t := After(s, steps);
            && HolderOf(t, Wants(t, c)) != Some(c)
            && (HeldProc(t, c).Some? || HeldInner(t, c).Some? ==> t.cpus[c].noff > 0)
  {
    Reached(s, steps);
    var t := After(s, steps);
    hide Init, Runs, After, ProcOk, LockOk, ClaimsApart, Moved, Serving;
    assert CpuOk(t, c);
    match Wants(t, c)
    case Nothing =>
    case ProcLock(p) => assert p < |t.procs| ==> OwnerOk(t, p);
    case InnerLock(l) => assert l < |t.locks| ==> InnerOk(t, l);
  }

  /** The holder of a process lock can always go on. */
  lemma ProcLockHolderRuns(t: State, p: nat)
    requires Inv(t) && p < |t.procs| && t.procs[p].lock.Some?
    ensures Enabled(t, t.procs[p].lock.value, Go)
  {
    hide InnerOk, ProcOk, LockOk, ClaimsApart, Moved;
    assert OwnerOk(t, p);
    assert CpuOk(t, t.procs[p].lock.value);
  }

  /** A CPU that wants nothing can go on. */
  lemma NobodyInTheWay(t: State, c: nat) returns (ch: Choice)
    requires Inv(t) && c < |t.cpus| && HolderOf(t, Wants(t, c)).None?
    ensures Enabled(t, c, ch) && !ch.Interrupt?
  {
    hide InnerOk, ProcOk, OwnerOk, LockOk, ClaimsApart, Moved;
    assert CpuOk(t, c);
    ch := if t.cpus[c].pc.Away? && t.procs[t.cpus[c].pc.p].pc.Run? then Yield else Go;
  }

  /** No deadlock on spinlocks: without waiting for an interrupt, a CPU can go on, or the holder of
      the lock it spins on can, or the holder of the lock that one spins on. */
  lemma NoSpinDeadlock(s: State, steps: seq<Step>, c: nat) returns (d: nat, ch: Choice)
    requires Init(s) && Runs(s, steps) && c < |After(s, steps).cpus|
    ensures Enabled(After(s, steps), d, ch) && !ch.Interrupt?
    ensures var t := After(s, steps);
            d == c || HolderOf(t, Wants(t, c)) == Some(d)
            || (HolderOf(t, Wants(t, c)).Some? && HolderOf(t, Wants(t, c)).value < |t.cpus|
                && HolderOf(t, Wants(t, HolderOf(t, Wants(t, c)).value)) == Some(d))
  {
    Reached(s, steps);
    var t := After(s, steps);
    hide Init, Runs, After;
    d, ch := WhoRuns(t, c);
  }

  lemma WhoRuns(t: State, c: nat) returns (d: nat, ch: Choice)
    requires Inv(t) && c < |t.cpus|
    ensures Enabled(t, d, ch) && !ch.Interrupt?
    ensures d == c || HolderOf(t, Wants(t, c)) == Some(d)
            || (HolderOf(t, Wants(t, c)).Some? && HolderOf(t, Wants(t, c)).value < |t.cpus|
                && HolderOf(t, Wants(t, HolderOf(t, Wants(t, c)).value)) == Some(d))
  {
    var w := Wants(t, c);
    var h := HolderOf(t, w);
    if h.None? {
      ch := NobodyInTheWay(t, c);
      d := c;
    } else if w.ProcLock? {
      ProcLockHolderRuns(t, w.p);
      d, ch := h.value, Go;
    } else {
      InnerHolder(t, w.l);
      var v := Wants(t, h.value);
      if HolderOf(t, v).None? {
        ch := NobodyInTheWay(t, h.value);
        d := h.value;
      } else {
        ProcLockHolderRuns(t, v.p);
        d, ch := HolderOf(t, v).value, Go;
      }
    }
  }

  /** The holder of the spinlock inside a sleep lock spins on process locks only. */
  lemma InnerHolder(t: State, l: nat)
    requires Inv(t) && l < |t.locks| && t.locks[l].inner.Some?
    ensures t.locks[l].inner.value < |t.cpus| && !Wants(t, t.locks[l].inner.value).InnerLock?
  {
    hide ProcOk, OwnerOk, LockOk, ClaimsApart, Moved, Serving, CpuOk;
    assert InnerOk(t, l);
  }
}
