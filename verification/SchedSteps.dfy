/** The invariant, step by step. */
module SchedSteps {
  import opened Options
  import opened SchedMachine
  import opened SchedInvariant

  /** Everything about CPU c and process p that a step needs. */
  lemma Here(s: State, c: nat, p: nat)
    requires Inv(s) && c < |s.cpus| && p < |s.procs|
    ensures CpuOk(s, c) && OwnerOk(s, p) && ProcOk(s, p) && ShapedCpu(s.cpus[c], |s.procs|)
            && ShapedProc(s.procs[p], |s.locks|)
  {}

  predicate ProcFine(s: State, s': State, c: nat, p: nat)
    requires SameBounds(s, s') && c < |s.cpus| && p < |s.procs|
  {
    ProcKept(s, s', c, p) && ProcNext(s, s', c, p) && Waits(s, s', p) && OwnLock(s', c, p)
      && ShapedProc(s'.procs[p], |s'.locks|)
  }

  /** A process the step does not touch is as before. */
  lemma Rest(s: State, s': State, c: nat, p: nat)
    requires Inv(s) && SameBounds(s, s') && c < |s.cpus| && p < |s.procs| && s'.procs[p] == s.procs[p]
    requires Claim(s.cpus[c].pc) != Some(p) || Claim(s'.cpus[c].pc) == Some(p)
    requires s.procs[p].lock == Some(c) ==> HeldProc(s', c) == Some(p)
    ensures ProcFine(s, s', c, p)
  {
    hide CpuOk, OwnerOk, InnerOk, LockOk, ClaimsApart;
    assert ProcOk(s, p);
  }

  predicate InnerFine(s: State, s': State, c: nat, l: nat)
    requires SameBounds(s, s') && c < |s.cpus| && l < |s.locks|
  {
    SameLock(s.locks[l], s'.locks[l]) && LockKept(s, s', c, l) && OwnInner(s', c, l)
  }

  /** A step that takes no sleep lock, frees none and wakes nobody. */
  lemma PlainStep(s: State, s': State, c: nat)
    requires Inv(s) && SameBounds(s, s') && c < |s.cpus| && NotWaking(s, c)
    requires forall d | 0 <= d < |s.cpus| && d != c :: s'.cpus[d] == s.cpus[d]
    requires ShapedCpu(s'.cpus[c], |s.procs|)
    requires forall p | 0 <= p < |s.procs| :: ProcFine(s, s', c, p)
    requires forall l | 0 <= l < |s.locks| :: InnerFine(s, s', c, l)
    requires Shaped(s') ==> CpuOk(s', c) && ClaimStep(s, s', c)
    ensures Inv(s')
  {
    hide CpuOk, ProcOk, OwnerOk, LockOk, InnerOk, ClaimsApart, ClaimStep, ProcNext, Waits, ProcKept;
    hide LockKept, ShapedCpu, ShapedProc, NotWaking, SameLock;
    forall l | 0 <= l < |s.locks|
      ensures OwnInner(s', c, l) && LockKept(s, s', c, l) && SameLock(s.locks[l], s'.locks[l])
    {
      assert InnerFine(s, s', c, l);
    }
    forall p | 0 <= p < |s.procs|
      ensures ProcKept(s, s', c, p) && ProcNext(s, s', c, p) && Waits(s, s', p) && OwnLock(s', c, p)
              && ShapedProc(s'.procs[p], |s'.locks|)
    {
      assert ProcFine(s, s', c, p);
    }
    assert Shaped(s');
    QuietStep(s, s', c);
  }

  lemma NoLockStep(s: State, s': State, c: nat)
    requires Inv(s) && SameBounds(s, s') && c < |s.cpus| && s'.locks == s.locks && NotWaking(s, c)
    requires forall d | 0 <= d < |s.cpus| && d != c :: s'.cpus[d] == s.cpus[d]
    requires HeldInner(s', c) == HeldInner(s, c) && ShapedCpu(s'.cpus[c], |s.procs|)
    requires forall p | 0 <= p < |s.procs| :: ProcFine(s, s', c, p)
    requires Shaped(s') ==> CpuOk(s', c) && ClaimStep(s, s', c)
    ensures Inv(s')
  {
    hide CpuOk, ProcOk, OwnerOk, LockOk, ClaimsApart, ClaimStep, ShapedCpu, ShapedProc, HeldProc;
    hide HeldInner, NotWaking, ProcFine;
    forall l | 0 <= l < |s.locks|
      ensures InnerFine(s, s', c, l)
    {
      assert InnerOk(s, l);
    }
    PlainStep(s, s', c);
  }

  // ---------- steps on one process ----------

  /** The step changes CPU c and process p only. */
  predicate Local(s: State, s': State, c: nat, p: nat) {
    && SameBounds(s, s') && c < |s.cpus| && p < |s.procs|
    && s'.cpus == s.cpus[c := s'.cpus[c]] && s'.procs == s.procs[p := s'.procs[p]]
  }

  /** CPU c works on process p: it has claimed no other and holds no other process's lock. */
  predicate On(s: State, c: nat, p: nat)
    requires c < |s.cpus|
  {
    && (Claim(s.cpus[c].pc) == None || Claim(s.cpus[c].pc) == Some(p))
    && (HeldProc(s, c) == None || HeldProc(s, c) == Some(p))
  }

  /** The other processes do not notice a local step. */
  lemma OthersFine(s: State, s': State, c: nat, p: nat)
    requires Inv(s) && Local(s, s', c, p) && On(s, c, p)
    ensures forall o | 0 <= o < |s.procs| && o != p :: ProcFine(s, s', c, o)
  {
    hide InnerOk, LockOk, ClaimsApart, ProcFine, CpuOk, ProcOk, HeldProc;
    forall o | 0 <= o < |s.procs| && o != p
      ensures ProcFine(s, s', c, o)
    {
      assert OwnerOk(s, o);
      Rest(s, s', c, o);
    }
  }

  /** A step that touches p alone: its program counter, its lock, its state. */
  lemma OwnStep(s: State, s': State, c: nat, p: nat)
    requires Inv(s) && Local(s, s', c, p) && On(s, c, p) && s'.locks == s.locks && NotWaking(s, c)
    requires ShapedCpu(s'.cpus[c], |s.procs|) && HeldInner(s', c) == HeldInner(s, c) && ProcFine(s, s', c, p)
    requires Shaped(s') ==> CpuOk(s', c)
    requires ClaimStep(s, s', c)
    ensures Inv(s')
  {
    hide Inv, CpuOk, ProcFine, On, HeldInner, NotWaking, ShapedCpu, ClaimStep;
    OthersFine(s, s', c, p);
    NoLockStep(s, s', c);
  }

  // ---------- the scheduler ----------

  lemma LoopStep(s: State, c: nat, ch: Choice)
    requires Inv(s) && Enabled(s, c, ch) && s.cpus[c].pc.Loop?
    ensures Inv(Do(s, c, ch))
  {
    hide ProcOk, InnerOk, LockOk, ClaimsApart, Moved, ProcFine;
    var s' := Do(s, c, ch);
    assert CpuOk(s, c);
    forall p | 0 <= p < |s.procs|
      ensures ProcFine(s, s', c, p)
    {
      Here(s, c, p);
      Rest(s, s', c, p);
    }
    NoLockStep(s, s', c);
  }

  lemma SeekStep(s: State, c: nat, ch: Choice)
    requires Inv(s) && Enabled(s, c, ch) && s.cpus[c].pc.Seek?
    ensures Inv(Do(s, c, ch))
  {
    hide InnerOk, LockOk, ClaimsApart, Moved;
    var s' := Do(s, c, ch);
    var i := s.cpus[c].pc.i;
    assert CpuOk(s, c);
    forall p | 0 <= p < |s.procs|
      ensures ProcFine(s, s', c, p)
    {
      Here(s, c, p);
      if p != i {
        Rest(s, s', c, p);
      }
    }
    NoLockStep(s, s', c);
  }

  /** `seek_runnable` claims a process nobody else has: the others that could have it either
      hold its lock or have left it ALLOCATED or RUNNING. */
  lemma RunnableIsFree(s: State, c: nat, i: nat, d: nat)
    requires Inv(s) && c < |s.cpus| && d < |s.cpus| && d != c && i < |s.procs|
    requires s.procs[i].lock == Some(c) && s.procs[i].state == RUNNABLE
    ensures Claim(s.cpus[d].pc) != Some(i)
  {
    hide ProcOk, InnerOk, LockOk, ClaimsApart, Moved;
    Here(s, d, i);
  }

  lemma SeekCheckStep(s: State, c: nat, ch: Choice)
    requires Inv(s) && Enabled(s, c, ch) && s.cpus[c].pc.SeekCheck?
    ensures Inv(Do(s, c, ch))
  {
    var i := s.cpus[c].pc.i;
    assert ShapedCpu(s.cpus[c], |s.procs|);
    Here(s, c, i);
    if s.procs[i].state == RUNNABLE {
      forall d | 0 <= d < |s.cpus| && d != c
        ensures Claim(s.cpus[d].pc) != Some(i)
      {
        RunnableIsFree(s, c, i, d);
      }
      RunnableIsParked(s, c, i);
    }
    hide Inv, InnerOk, LockOk, ClaimsApart, Moved;
    OwnStep(s, Do(s, c, ch), c, i);
  }

  lemma RunnableIsParked(s: State, c: nat, i: nat)
    requires Inv(s) && c < |s.cpus| && i < |s.procs| && s.cpus[c].pc == SeekCheck(i)
    requires s.procs[i].lock == Some(c) && s.procs[i].state == RUNNABLE
    ensures Parked(s.procs[i])
  {
    hide InnerOk, LockOk, ClaimsApart, Moved, CpuOk;
    assert ProcOk(s, i);
    if !s.procs[i].pc.Off? {
      var d :| 0 <= d < |s.cpus| && Claim(s.cpus[d].pc) == Some(i);
      if d != c {
        RunnableIsFree(s, c, i, d);
      }
    }
  }

  lemma ClaimingStep(s: State, c: nat, ch: Choice)
    requires Inv(s) && Enabled(s, c, ch)
    requires var pc := s.cpus[c].pc; pc.Found? || pc.Claimed?
    ensures Inv(Do(s, c, ch))
  {
    var p := s.cpus[c].pc.p;
    assert ShapedCpu(s.cpus[c], |s.procs|);
    Here(s, c, p);
    hide Inv, InnerOk, LockOk, ClaimsApart, Moved;
    OwnStep(s, Do(s, c, ch), c, p);
  }

  /** The scheduler looked at a process it has claimed: that one is not running. */
  lemma PeekStep(s: State, c: nat, ch: Choice)
    requires Inv(s) && Enabled(s, c, ch)
    requires var pc := s.cpus[c].pc; pc.Peek?
    ensures Inv(Do(s, c, ch))
  {
    var p := s.cpus[c].pc.p;
    assert ShapedCpu(s.cpus[c], |s.procs|);
    Here(s, c, p);
    hide Inv, InnerOk, LockOk, ClaimsApart, Moved;
    OwnStep(s, Do(s, c, ch), c, p);
  }

  lemma HeldStep(s: State, c: nat, ch: Choice)
    requires Inv(s) && Enabled(s, c, ch)
    requires var pc := s.cpus[c].pc; pc.Held?
    ensures Inv(Do(s, c, ch))
  {
    var p := s.cpus[c].pc.p;
    assert ShapedCpu(s.cpus[c], |s.procs|);
    Here(s, c, p);
    hide Inv, InnerOk, LockOk, ClaimsApart;
    OwnStep(s, Do(s, c, ch), c, p);
  }

  lemma OutFine(s: State, c: nat, ch: Choice)
    requires Inv(s) && Enabled(s, c, ch)
    requires var pc := s.cpus[c].pc; pc.Out?
    ensures var s', p := Do(s, c, ch), s.cpus[c].pc.p; SameBounds(s, s') && p < |s.procs| && ProcFine(s, s', c, p)
  {
    var p := s.cpus[c].pc.p;
    assert ShapedCpu(s.cpus[c], |s.procs|);
    Here(s, c, p);
    hide Inv, InnerOk, LockOk, ClaimsApart, WhyUnlocks, ShapedSpot;
  }

  lemma OutStep(s: State, c: nat, ch: Choice)
    requires Inv(s) && Enabled(s, c, ch)
    requires var pc := s.cpus[c].pc; pc.Out?
    ensures Inv(Do(s, c, ch))
  {
    var p := s.cpus[c].pc.p;
    OutFine(s, c, ch);
    Here(s, c, p);
    hide Inv, InnerOk, LockOk, ClaimsApart, ProcFine, ProcOk, OwnerOk;
    OwnStep(s, Do(s, c, ch), c, p);
  }

  lemma ReturningStep(s: State, c: nat, ch: Choice)
    requires Inv(s) && Enabled(s, c, ch)
    requires var pc := s.cpus[c].pc; pc.Returned? || pc.Release?
    ensures Inv(Do(s, c, ch))
  {
    var p := s.cpus[c].pc.p;
    assert ShapedCpu(s.cpus[c], |s.procs|);
    Here(s, c, p);
    hide Inv, InnerOk, LockOk, ClaimsApart, Moved;
    OwnStep(s, Do(s, c, ch), c, p);
  }
}
