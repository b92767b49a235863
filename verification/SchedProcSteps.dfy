/** The invariant under the steps of process threads. */
module SchedProcSteps {
  import opened Options
  import opened SchedMachine
  import opened SchedInvariant
  import opened SchedSteps

  /** Process p's thread is the one CPU c runs. */
  predicate At(s: State, c: nat, p: nat) {
    c < |s.cpus| && p < |s.procs| && s.cpus[c].pc == Away(p)
  }

  lemma RunStepFine(s: State, c: nat, p: nat, ch: Choice)
    requires Inv(s) && Enabled(s, c, ch) && At(s, c, p)
    requires var pc := s.procs[p].pc; pc.Run?
    ensures var s' := Do(s, c, ch); SameBounds(s, s') && ProcFine(s, s', c, p)
  {
    Here(s, c, p);
    hide Inv, InnerOk, LockOk, ClaimsApart, Moved;
  }

  lemma RunStepInv(s: State, c: nat, p: nat, ch: Choice)
    requires Inv(s) && Enabled(s, c, ch) && At(s, c, p)
    requires var pc := s.procs[p].pc; pc.Run?
    ensures Inv(Do(s, c, ch))
  {
    RunStepFine(s, c, p, ch);
    Here(s, c, p);
    hide Inv, InnerOk, LockOk, ClaimsApart, Moved, ProcFine, ProcOk, OwnerOk;
    OwnStep(s, Do(s, c, ch), c, p);
  }

  lemma InterruptInv(s: State, c: nat, p: nat, ch: Choice)
    requires Inv(s) && Enabled(s, c, ch) && At(s, c, p) && ch.Interrupt?
    requires var pc := s.procs[p].pc; pc.LockAcquire? || pc.UnlockAcquire?
    ensures Inv(Do(s, c, ch))
  {
    Here(s, c, p);
    hide Inv, InnerOk, LockOk, ClaimsApart, Moved;
    OwnStep(s, Do(s, c, ch), c, p);
  }

  lemma TryInv(s: State, c: nat, p: nat, ch: Choice)
    requires Inv(s) && Enabled(s, c, ch) && At(s, c, p)
    requires var pc := s.procs[p].pc; pc.TryAcquire? || pc.TryTest?
    ensures Inv(Do(s, c, ch))
  {
    Here(s, c, p);
    hide Inv, InnerOk, LockOk, ClaimsApart, Moved;
    OwnStep(s, Do(s, c, ch), c, p);
  }

  lemma YieldInv(s: State, c: nat, p: nat, ch: Choice)
    requires Inv(s) && Enabled(s, c, ch) && At(s, c, p)
    requires var pc := s.procs[p].pc; pc.YieldAcquire? || pc.YieldSet?
    ensures Inv(Do(s, c, ch))
  {
    Here(s, c, p);
    hide Inv, InnerOk, LockOk, ClaimsApart, Moved;
    OwnStep(s, Do(s, c, ch), c, p);
  }

  lemma SleepInv(s: State, c: nat, p: nat, ch: Choice)
    requires Inv(s) && Enabled(s, c, ch) && At(s, c, p)
    requires var pc := s.procs[p].pc; pc.SleepAcquire? || pc.SleepSet?
    ensures Inv(Do(s, c, ch))
  {
    Here(s, c, p);
    hide Inv, InnerOk, LockOk, ClaimsApart, Moved;
    OwnStep(s, Do(s, c, ch), c, p);
  }

  lemma SchedInv(s: State, c: nat, p: nat, ch: Choice)
    requires Inv(s) && Enabled(s, c, ch) && At(s, c, p)
    requires var pc := s.procs[p].pc; pc.Sched?
    ensures Inv(Do(s, c, ch))
  {
    Here(s, c, p);
    hide Inv, InnerOk, LockOk, ClaimsApart;
    OwnStep(s, Do(s, c, ch), c, p);
  }

  lemma BackInv(s: State, c: nat, p: nat, ch: Choice)
    requires Inv(s) && Enabled(s, c, ch) && At(s, c, p)
    requires var pc := s.procs[p].pc; pc.Back?
    ensures Inv(Do(s, c, ch))
  {
    Here(s, c, p);
    hide Inv, InnerOk, LockOk, ClaimsApart, Moved;
    OwnStep(s, Do(s, c, ch), c, p);
  }

  lemma MustSleepInv(s: State, c: nat, p: nat, ch: Choice)
    requires Inv(s) && Enabled(s, c, ch) && At(s, c, p)
    requires var pc := s.procs[p].pc; pc.LockTest? && pc.l < |s.locks| && s.locks[pc.l].locked
    ensures Inv(Do(s, c, ch))
  {
    Here(s, c, p);
    hide Inv, InnerOk, LockOk, ClaimsApart, Moved;
    OwnStep(s, Do(s, c, ch), c, p);
  }

  lemma SwitchFine(s: State, c: nat, p: nat, ch: Choice)
    requires Inv(s) && Enabled(s, c, ch) && At(s, c, p)
    requires var pc := s.procs[p].pc; pc.Switch?
    ensures var s' := Do(s, c, ch); SameBounds(s, s') && ProcFine(s, s', c, p)
  {
    Here(s, c, p);
    hide Inv, InnerOk, LockOk, ClaimsApart, WhyUnlocks, ShapedSpot;
  }

  /** The CPU while its thread saves and loads registers, and when it is back in the scheduler. */
  lemma SwitchCpu(s: State, c: nat, p: nat, ch: Choice)
    requires Inv(s) && Enabled(s, c, ch) && At(s, c, p) && s.procs[p].pc.Switch?
    ensures var s' := Do(s, c, ch);
            Local(s, s', c, p) && ShapedCpu(s'.cpus[c], |s.procs|) && (Shaped(s') ==> CpuOk(s', c))
  {
    Here(s, c, p);
    hide Inv, InnerOk, LockOk, ClaimsApart, ProcOk, OwnerOk, WillUnlock, ShapedSpot;
  }

  lemma SwitchInv(s: State, c: nat, p: nat, ch: Choice)
    requires Inv(s) && Enabled(s, c, ch) && At(s, c, p)
    requires var pc := s.procs[p].pc; pc.Switch?
    ensures Inv(Do(s, c, ch))
  {
    SwitchFine(s, c, p, ch);
    SwitchCpu(s, c, p, ch);
    hide Inv, ProcFine, CpuOk, ShapedCpu;
    OwnStep(s, Do(s, c, ch), c, p);
  }

  // ---------- the spinlock inside a sleep lock ----------

  /** A step of p's thread that takes or drops the spinlock inside l. */
  lemma InnerStep(s: State, s': State, c: nat, p: nat, l: nat)
    requires Inv(s) && Local(s, s', c, p) && At(s, c, p) && l < |s.locks| && NotWaking(s, c)
    requires s'.locks == s.locks[l := s'.locks[l]] && SameLock(s.locks[l], s'.locks[l])
    requires s.locks[l].inner == None || s.locks[l].inner == Some(c)
    requires s'.locks[l].inner == None || (s'.locks[l].inner == Some(c) && HeldInner(s', c) == Some(l))
    requires HeldInner(s, c) == None || HeldInner(s, c) == Some(l)
    requires HeldProc(s, c) == None || HeldProc(s, c) == Some(p)
    requires ShapedCpu(s'.cpus[c], |s.procs|) && ProcFine(s, s', c, p)
    requires Shaped(s') ==> CpuOk(s', c)
    requires Claim(s'.cpus[c].pc) == Some(p)
    ensures Inv(s')
  {
    OthersFine(s, s', c, p);
    hide CpuOk, ProcOk, OwnerOk, LockOk, ClaimsApart, ProcFine, HeldProc, HeldInner, NotWaking, ShapedCpu, ShapedProc;
    forall m | 0 <= m < |s.locks|
      ensures InnerFine(s, s', c, m)
    {
      assert InnerOk(s, m);
    }
    PlainStep(s, s', c);
  }

  lemma TakeInnerDoes(s: State, c: nat, p: nat, ch: Choice)
    requires Enabled(s, c, ch) && At(s, c, p) && !ch.Interrupt?
    requires var pc := s.procs[p].pc; pc.LockAcquire? || pc.UnlockAcquire?
    ensures var pc := s.procs[p].pc;
            && pc.l < |s.locks| && s.locks[pc.l].inner.None?
            && Do(s, c, ch)
               == AcquireInner(s, c, p, pc.l, if pc.LockAcquire? then LockTest(pc.l) else UnlockClear(pc.l))
  {}

  lemma TakeInnerInv(s: State, c: nat, p: nat, ch: Choice)
    requires Inv(s) && Enabled(s, c, ch) && At(s, c, p) && !ch.Interrupt?
    requires var pc := s.procs[p].pc; pc.LockAcquire? || pc.UnlockAcquire?
    ensures Inv(Do(s, c, ch))
  {
    Here(s, c, p);
    TakeInnerDoes(s, c, p, ch);
    hide Inv, InnerOk, LockOk, ClaimsApart, Moved, Do, Enabled, WhyUnlocks, SpotUnlocks, ShapedSpot, ShapedWhy;
    InnerStep(s, Do(s, c, ch), c, p, s.procs[p].pc.l);
  }

  lemma DropInnerInv(s: State, c: nat, p: nat, ch: Choice)
    requires Inv(s) && Enabled(s, c, ch) && At(s, c, p)
    requires var pc := s.procs[p].pc; pc.LockRelease? || pc.SleepRelease?
    ensures Inv(Do(s, c, ch))
  {
    Here(s, c, p);
    hide Inv, InnerOk, LockOk, ClaimsApart, Moved;
    InnerStep(s, Do(s, c, ch), c, p, s.procs[p].pc.l);
  }

  // ---------- taking and freeing the sleep lock, waking its waiters ----------

  predicate ProcWell(s: State, s': State, c: nat, p: nat)
    requires SameBounds(s, s') && c < |s.cpus| && p < |s.procs|
  {
    ProcKept(s, s', c, p) && ProcNext(s, s', c, p) && OwnLock(s', c, p) && ShapedProc(s'.procs[p], |s'.locks|)
  }

  predicate LockWell(s: State, s': State, c: nat, l: nat)
    requires SameBounds(s, s') && c < |s.cpus| && l < |s.locks|
  {
    LockKept(s, s', c, l) && OwnInner(s', c, l)
  }

  /** A step of p's thread, from its parts. */
  lemma Parts(s: State, s': State, c: nat, p: nat)
    requires Inv(s) && SameBounds(s, s') && At(s, c, p) && s'.cpus == s.cpus[c := s'.cpus[c]]
    requires ShapedCpu(s'.cpus[c], |s.procs|) && Claim(s'.cpus[c].pc) == Some(p)
    requires Shaped(s') ==> CpuOk(s', c)
    requires forall o | 0 <= o < |s.procs| :: ProcWell(s, s', c, o)
    requires forall l | 0 <= l < |s.locks| :: LockWell(s, s', c, l)
    requires forall o | 0 <= o < |s'.procs| :: DueOk(s', o) && GuardsOk(s', o)
    requires forall l | 0 <= l < |s'.locks| :: LockOk(s', l)
    ensures Inv(s')
  {
    hide Inv, CpuOk, ProcKept, LockKept, ProcNext, ShapedCpu, ShapedProc, DueOk, GuardsOk, LockOk;
    forall o | 0 <= o < |s.procs|
      ensures ProcKept(s, s', c, o) && ProcNext(s, s', c, o) && OwnLock(s', c, o) && ShapedProc(s'.procs[o], |s'.locks|)
    {
      assert ProcWell(s, s', c, o);
    }
    forall l | 0 <= l < |s.locks|
      ensures LockKept(s, s', c, l) && OwnInner(s', c, l)
    {
      assert LockWell(s, s', c, l);
    }
    ShapedIs(s, s', c);
    Assemble(s, s', c);
  }

  lemma ShapedIs(s: State, s': State, c: nat)
    requires Inv(s) && SameBounds(s, s') && c < |s.cpus| && s'.cpus == s.cpus[c := s'.cpus[c]]
    requires ShapedCpu(s'.cpus[c], |s.procs|)
    requires forall o | 0 <= o < |s.procs| :: ShapedProc(s'.procs[o], |s'.locks|)
    ensures Shaped(s')
  {
    hide CpuOk, ProcOk, OwnerOk, LockOk, InnerOk, ClaimsApart, ShapedProc;
  }

  predicate SameWait(q: Proc, q': Proc) {
    WillSleep(q').Some? ==> WillSleep(q') == WillSleep(q)
  }

  /** What happens to the waiters of other locks. */
  lemma OtherWaiters(s: State, s': State, c: nat, o: nat, l: nat)
    requires Inv(s) && SameBounds(s, s') && c < |s.cpus| && o < |s.procs| && SameWait(s.procs[o], s'.procs[o])
    requires forall m | 0 <= m < |s.locks| && m != l :: s'.locks[m] == s.locks[m]
    requires forall p | 0 <= p < |s.procs| :: ProcKept(s, s', c, p)
    requires forall m | 0 <= m < |s.locks| :: LockKept(s, s', c, m)
    requires forall d | 0 <= d < |s.cpus| && d != c :: s'.cpus[d] == s.cpus[d]
    requires HeldInner(s, c) == Some(l)
    ensures WillSleep(s'.procs[o]).Some? && WillSleep(s'.procs[o]).value != l ==> DueOk(s', o)
  {
    hide CpuOk, OwnerOk, LockOk, ClaimsApart, ProcKept, LockKept, WakeDue, WillSleep, HeldInner;
    assert ProcOk(s, o);
    var w := WillSleep(s'.procs[o]);
    if w.Some? && w.value != l {
      DueInRange(s, w.value, o);
      assert InnerOk(s, w.value);
      DueKept(s, s', c, w.value, o);
    }
  }

  lemma DueInRange(s: State, l: nat, p: nat)
    requires WakeDue(s, l, p)
    ensures l < |s.locks|
  {}
}
