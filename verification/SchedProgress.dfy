/** How processes move on: every change of state and its cause, that no wake-up is lost, and what
    `lock` and `unlock` give. */
module SchedProgress {
  import opened Options
  import opened SchedMachine
  import opened SchedInvariant
  import opened SchedSteps
  import opened SchedProcSteps
  import opened SchedTheorems

  // ---------- every change of a process's state ----------

  /** CPU c is checking process p for the channel of lock l. */
  predicate WakesOn(s: State, c: nat, p: nat, l: nat) {
    c < |s.cpus| && s.cpus[c].pc.Away? && s.cpus[c].pc.p < |s.procs| && s.procs[s.cpus[c].pc.p].pc == WakeCheck(l, p)
  }

  /** The change of p's state in a step of CPU c. */
  predicate StateMove(s: State, t: State, c: nat, p: nat)
    requires p < |s.procs| == |t.procs| && c < |s.cpus| == |t.cpus|
  {
    var q, q' := s.procs[p], t.procs[p];
    || q'.state == q.state
    || (q.state == SLEEPING && q'.state == RUNNABLE && q.chan.Some? && WakesOn(s, c, p, q.chan.value))
    || (q.state == RUNNABLE && q'.state == ALLOCATED && s.cpus[c].pc == SeekCheck(p) && t.cpus[c].pc == Found(p))
    || (q.state == ALLOCATED && q'.state == RUNNING && s.cpus[c].pc == Held(p))
    || (q.state == RUNNING && q'.state == RUNNABLE && At(s, c, p) && q.pc.YieldSet?)
    || (q.state == RUNNING && q'.state == SLEEPING && At(s, c, p) && q.pc.SleepSet? && q'.chan == Some(q.pc.l))
  }

  lemma SchedMoves(s: State, c: nat, ch: Choice, p: nat)
    requires Shaped(s) && c < |s.cpus| && !s.cpus[c].pc.Away? && SchedEnabled(s, c, ch) && p < |s.procs|
    requires s.cpus[c].pc == Held(p) ==> s.procs[p].state == ALLOCATED
    ensures var t := SchedStep(s, c, ch);
            && |t.procs| == |s.procs| && |t.cpus| == |s.cpus| && StateMove(s, t, c, p)
            && t.procs[p].chan == s.procs[p].chan
  {
    assert ShapedCpu(s.cpus[c], |s.procs|);
  }

  lemma WakeMoves(s: State, c: nat, o: nat, ch: Choice, p: nat)
    requires Shaped(s) && c < |s.cpus| && s.cpus[c].pc == Away(o) && ProcEnabled(s, c, o, ch)
    requires o < |s.procs| && p < |s.procs| && (s.procs[o].pc.Wake? || s.procs[o].pc.WakeCheck?)
    ensures var t := ProcStep(s, c, o, ch);
            && |t.procs| == |s.procs| && |t.cpus| == |s.cpus| && StateMove(s, t, c, p)
            && t.procs[p].chan == s.procs[p].chan
  {
    hide SchedPanics;
    assert ShapedProc(s.procs[o], |s.locks|);
  }

  lemma OwnMoves(s: State, c: nat, o: nat, ch: Choice, p: nat)
    requires Shaped(s) && c < |s.cpus| && s.cpus[c].pc == Away(o) && ProcEnabled(s, c, o, ch)
    requires o < |s.procs| && p < |s.procs| && !s.procs[o].pc.Wake? && !s.procs[o].pc.WakeCheck?
    requires s.procs[o].pc.YieldSet? || s.procs[o].pc.SleepSet? ==> s.procs[o].state == RUNNING
    ensures var t := ProcStep(s, c, o, ch);
            && |t.procs| == |s.procs| && |t.cpus| == |s.cpus| && StateMove(s, t, c, p)
            && (p != o ==> t.procs[p].chan == s.procs[p].chan)
  {
    hide SchedPanics, SaveOne, LoadOne, Resumed;
    assert ShapedProc(s.procs[o], |s.locks|);
  }

  lemma HeldIsAllocated(s: State, c: nat)
    requires Inv(s) && c < |s.cpus| && s.cpus[c].pc.Held?
    ensures s.cpus[c].pc.p < |s.procs| && s.procs[s.cpus[c].pc.p].state == ALLOCATED
  {
    hide OwnerOk, InnerOk, ProcOk, LockOk, ClaimsApart, Moved;
    assert CpuOk(s, c);
  }

  lemma RunningHere(s: State, c: nat)
    requires Inv(s) && c < |s.cpus| && s.cpus[c].pc.Away?
    ensures var o := s.cpus[c].pc.p;
            o < |s.procs| && (s.procs[o].pc.YieldSet? || s.procs[o].pc.SleepSet? ==> s.procs[o].state == RUNNING)
  {
    hide OwnerOk, InnerOk, ProcOk, LockOk, ClaimsApart, Moved;
    assert CpuOk(s, c);
  }

  /** The whole life of a process: nobody makes it UNUSED, `wake_up` makes exactly the sleepers on its
      channel RUNNABLE, and whoever finds it RUNNABLE under its lock has claimed it. */
  lemma StateMoves(s: State, c: nat, ch: Choice, p: nat)
    requires Inv(s) && Enabled(s, c, ch) && p < |s.procs|
    ensures var t := Do(s, c, ch);
            && |t.procs| == |s.procs| && |t.cpus| == |s.cpus| && StateMove(s, t, c, p)
            && (!At(s, c, p) ==> t.procs[p].chan == s.procs[p].chan)
  {
    assert Shaped(s);
    if s.cpus[c].pc.Away? {
      RunningHere(s, c);
      var o := s.cpus[c].pc.p;
      hide Inv, StateMove;
      if s.procs[o].pc.Wake? || s.procs[o].pc.WakeCheck? {
        WakeMoves(s, c, o, ch, p);
      } else {
        OwnMoves(s, c, o, ch, p);
      }
    } else {
      if s.cpus[c].pc.Held? {
        HeldIsAllocated(s, c);
      }
      hide Inv, StateMove;
      SchedMoves(s, c, ch, p);
    }
  }

  // ---------- no wake-up is lost ----------

  /** No CPU has claimed p wherever the run takes a step, nor at its end. */
  ghost predicate StaysUnclaimed(s: State, steps: seq<Step>, p: nat)
    requires Runs(s, steps)
    decreases |steps|
  {
    && !ClaimedSomewhere(s, p)
    && (steps != [] ==> StaysUnclaimed(Do(s, steps[0].c, steps[0].ch), steps[1..], p))
  }

  /** Asleep for l, or woken. */
  predicate Awaits(q: Proc, l: nat) {
    (q.state == SLEEPING && q.chan == Some(l)) || q.state == RUNNABLE
  }

  lemma NotClaimedHere(s: State, c: nat, p: nat)
    requires c < |s.cpus| && !ClaimedSomewhere(s, p)
    ensures Claim(s.cpus[c].pc) != Some(p)
  {}

  lemma WaitsStep(s: State, c: nat, ch: Choice, p: nat, l: nat)
    requires Inv(s) && Enabled(s, c, ch) && p < |s.procs| && Awaits(s.procs[p], l)
    requires !ClaimedSomewhere(s, p) && !ClaimedSomewhere(Do(s, c, ch), p)
    ensures var t := Do(s, c, ch); p < |t.procs| && Awaits(t.procs[p], l)
  {
    StateMoves(s, c, ch, p);
    hide Inv, Do, Enabled;
    var t := Do(s, c, ch);
    NotClaimedHere(s, c, p);
    NotClaimedHere(t, c, p);
  }

  lemma {:induction false} WaitsRun(s: State, steps: seq<Step>, p: nat, l: nat)
    requires Inv(s) && Runs(s, steps) && p < |s.procs| && Awaits(s.procs[p], l) && StaysUnclaimed(s, steps, p)
    ensures p < |After(s, steps).procs| && Awaits(After(s, steps).procs[p], l)
    decreases |steps|
  {
    hide Inv, Do, Enabled, Waits, ClaimedSomewhere;
    if steps != [] {
      var t := Do(s, steps[0].c, steps[0].ch);
      assert StaysUnclaimed(t, steps[1..], p);
      WaitsStep(s, steps[0].c, steps[0].ch, p, l);
      StepInv(s, steps[0].c, steps[0].ch);
      WaitsRun(t, steps[1..], p, l);
    }
  }

  /** No wake-up is lost: once the lock a process sleeps on is free, and its spinlock too, the process
      is RUNNABLE, unless some CPU has claimed it already. */
  lemma SleeperIsRunnable(s: State, before: seq<Step>, after: seq<Step>, p: nat, l: nat)
    requires Init(s) && Runs(s, before) && Runs(After(s, before), after)
    requires var t := After(s, before); p < |t.procs| && t.procs[p].state == SLEEPING && t.procs[p].chan == Some(l)
    requires StaysUnclaimed(After(s, before), after, p)
    requires var t := After(After(s, before), after);
             l < |t.locks| && !t.locks[l].locked && t.locks[l].inner.None?
    ensures var t := After(After(s, before), after);
            p < |t.procs| && t.procs[p].state == RUNNABLE
  {
    hide Init, Inv, Do, Enabled, Runs, After, StaysUnclaimed;
    Reached(s, before);
    var m := After(s, before);
    WaitsRun(m, after, p, l);
    RunInv(m, after);
    NobodySleeps(After(m, after), l, p);
  }

  /** A process that was in use stays so. */
  lemma {:induction false} StaysInUse(s: State, steps: seq<Step>, p: nat)
    requires Inv(s) && Runs(s, steps) && p < |s.procs|
    ensures p < |After(s, steps).procs| && (After(s, steps).procs[p].state == UNUSED <==> s.procs[p].state == UNUSED)
    decreases |steps|
  {
    hide Inv, Do, Enabled;
    if steps != [] {
      StateMoves(s, steps[0].c, steps[0].ch, p);
      StepInv(s, steps[0].c, steps[0].ch);
      StaysInUse(Do(s, steps[0].c, steps[0].ch), steps[1..], p);
    }
  }

  // ---------- what `lock` and `unlock` give ----------

  /** The sleep lock a thread is in the middle of locking, asleep or interrupted as it may be. */
  function Locking(pc: ProcPc): Option<nat> {
    match pc
    case LockAcquire(l) => Some(l)
    case LockTest(l) => Some(l)
    case LockRelease(l) => Some(l)
    case SleepAcquire(l) => Some(l)
    case SleepRelease(l) => Some(l)
    case SleepSet(l) => Some(l)
    case TryAcquire(at) => SpotLocks(at)
    case TryTest(at) => SpotLocks(at)
    case YieldAcquire(at) => SpotLocks(at)
    case YieldSet(at) => SpotLocks(at)
    case Sched(why) => WhyLocks(why)
    case Switch(why, _) => WhyLocks(why)
    case Off(why) => WhyLocks(why)
    case Back(why) => WhyLocks(why)
    case _ => None
  }

  function SpotLocks(at: Spot): Option<nat> {
    if at.AtLock? then Some(at.l) else None
  }

  function WhyLocks(why: Why): Option<nat> {
    if why.Slept? then Some(why.l) else SpotLocks(why.at)
  }

  /** A thread that is locking goes on doing so until it has its guard. */
  predicate LocksOn(q: Proc, q': Proc) {
    Locking(q.pc).Some? ==>
      Locking(q'.pc) == Locking(q.pc) || (q'.pc == Run && Locking(q.pc).value in q'.guards)
  }

  /** A thread that is unlocking goes on doing so until it has freed the lock and starts waking. */
  predicate UnlocksOn(q: Proc, q': Proc, locks: seq<SleepLock>) {
    WillUnlock(q.pc).Some? ==>
      var l := WillUnlock(q.pc).value;
      WillUnlock(q'.pc) == Some(l)
      || (q'.pc == Wake(l, 0) && l !in q'.guards && l < |locks| && !locks[l].locked)
  }

  lemma OwnLocksOn(s: State, c: nat, p: nat, ch: Choice)
    requires Shaped(s) && c < |s.cpus| && s.cpus[c].pc == Away(p) && p < |s.procs| && ProcEnabled(s, c, p, ch)
    requires Entitled(s.procs[p])
    ensures var t := ProcStep(s, c, p, ch); |t.procs| == |s.procs| && LocksOn(s.procs[p], t.procs[p])
  {
    hide SchedPanics, SaveOne, LoadOne, WillUnlock;
    assert ShapedProc(s.procs[p], |s.locks|);
  }

  lemma OwnUnlocksOn(s: State, c: nat, p: nat, ch: Choice)
    requires Shaped(s) && c < |s.cpus| && s.cpus[c].pc == Away(p) && p < |s.procs| && ProcEnabled(s, c, p, ch)
    ensures var t := ProcStep(s, c, p, ch); |t.procs| == |s.procs| && UnlocksOn(s.procs[p], t.procs[p], t.locks)
  {
    if s.procs[p].pc.UnlockClear? {
      assert ShapedProc(s.procs[p], |s.locks|);
    } else {
      StillUnlocks(s, c, p, ch);
      hide ProcStep;
    }
  }

  lemma StillUnlocks(s: State, c: nat, p: nat, ch: Choice)
    requires Shaped(s) && c < |s.cpus| && s.cpus[c].pc == Away(p) && p < |s.procs| && ProcEnabled(s, c, p, ch)
    requires !s.procs[p].pc.UnlockClear?
    ensures var t := ProcStep(s, c, p, ch);
            && |t.procs| == |s.procs|
            && (WillUnlock(s.procs[p].pc).Some? ==> WillUnlock(t.procs[p].pc) == WillUnlock(s.procs[p].pc))
  {
    hide SchedPanics, SaveOne, LoadOne;
    assert ShapedProc(s.procs[p], |s.locks|);
  }

  lemma OtherOnward(s: State, c: nat, o: nat, ch: Choice, p: nat)
    requires Shaped(s) && c < |s.cpus| && s.cpus[c].pc == Away(o) && o < |s.procs| && ProcEnabled(s, c, o, ch)
    requires p < |s.procs| && p != o
    ensures var t := ProcStep(s, c, o, ch);
            |t.procs| == |s.procs| && t.procs[p].pc == s.procs[p].pc && t.procs[p].guards == s.procs[p].guards
  {
    hide SchedPanics, SaveOne, LoadOne, Resumed;
    assert ShapedProc(s.procs[o], |s.locks|);
  }

  lemma SchedOnward(s: State, c: nat, ch: Choice, p: nat)
    requires Shaped(s) && c < |s.cpus| && !s.cpus[c].pc.Away? && SchedEnabled(s, c, ch) && p < |s.procs|
    ensures var t := SchedStep(s, c, ch);
            && |t.procs| == |s.procs| && t.procs[p].guards == s.procs[p].guards
            && Locking(t.procs[p].pc) == Locking(s.procs[p].pc)
            && WillUnlock(t.procs[p].pc) == WillUnlock(s.procs[p].pc)
  {
    assert ShapedCpu(s.cpus[c], |s.procs|);
  }

  /** `lock` returns only with the guard, and `unlock` goes on to its waiters only with the lock free,
      whatever comes in between: waiting, sleeping, interrupts, other CPUs. */
  lemma LockGivesGuard(s: State, c: nat, ch: Choice, p: nat)
    requires Inv(s) && Enabled(s, c, ch) && p < |s.procs|
    ensures var t := Do(s, c, ch);
            |t.procs| == |s.procs| && LocksOn(s.procs[p], t.procs[p]) && UnlocksOn(s.procs[p], t.procs[p], t.locks)
  {
    assert Shaped(s) && ProcOk(s, p);
    if s.cpus[c].pc.Away? {
      AwayIsAt(s, c);
      hide Inv, ProcStep;
      if s.cpus[c].pc.p == p {
        OwnLocksOn(s, c, p, ch);
        OwnUnlocksOn(s, c, p, ch);
      } else {
        OtherOnward(s, c, s.cpus[c].pc.p, ch, p);
      }
    } else {
      hide Inv, SchedStep;
      SchedOnward(s, c, ch, p);
    }
  }
}
