/** What every step of every CPU keeps. */
module SchedInvariant {
  import opened Options
  import opened SchedMachine

  // ---------- who holds what, read off the program counters ----------

  /** The process a CPU's scheduler has picked and not yet given back. */
  function Claim(pc: SchedPc): Option<nat> {
    match pc
    case Loop => None
    case Seek(_) => None
    case SeekCheck(_) => None
    case Found(p) => Some(p)
    case Claimed(p) => Some(p)
    case Peek(p) => Some(p)
    case Astray(p) => Some(p)
    case Held(p) => Some(p)
    case Out(p, _) => Some(p)
    case Away(p) => Some(p)
    case Returned(p) => Some(p)
    case Release(p) => Some(p)
  }

  /** The CPU's process pointer: set once the scheduler has picked a process, until it is back. */
  function Pointer(pc: SchedPc): Option<nat> {
    if pc.Found? || pc.Release? then None else Claim(pc)
  }

  /** The process lock a thread of process p at `pc` holds. */
  function PcHeldProc(pc: ProcPc, p: nat): Option<nat> {
    if pc.SleepRelease? || pc.SleepSet? || pc.TryTest? || pc.YieldSet? then Some(p)
    else if pc.Sched? || pc.Switch? || pc.Back? then Some(p)
    else if pc.WakeCheck? then Some(pc.i)
    else None
  }

  function PcHeldInner(pc: ProcPc): Option<nat> {
    match pc
    case LockTest(l) => Some(l)
    case LockRelease(l) => Some(l)
    case SleepAcquire(l) => Some(l)
    case SleepRelease(l) => Some(l)
    case UnlockClear(l) => Some(l)
    case Wake(l, _) => Some(l)
    case WakeCheck(l, _) => Some(l)
    case _ => None
  }

  function HeldProc(s: State, c: nat): Option<nat>
    requires c < |s.cpus|
  {
    match s.cpus[c].pc
    case SeekCheck(i) => Some(i)
    case Peek(p) => Some(p)
    case Held(p) => Some(p)
    case Out(p, _) => Some(p)
    case Returned(p) => Some(p)
    case Release(p) => Some(p)
    case Away(p) => if p < |s.procs| then PcHeldProc(s.procs[p].pc, p) else None
    case _ => None
  }

  function HeldInner(s: State, c: nat): Option<nat>
    requires c < |s.cpus|
  {
    match s.cpus[c].pc
    case Away(p) => if p < |s.procs| then PcHeldInner(s.procs[p].pc) else None
    case _ => None
  }

  function Depth(s: State, c: nat): nat
    requires c < |s.cpus|
  {
    (if HeldProc(s, c).Some? then 1 else 0) + (if HeldInner(s, c).Some? then 1 else 0)
  }

  // ---------- one CPU ----------

  /** n of the moves of `switch` are done: registers `from` go to `ctx`, context `to` to `regs`. */
  ghost predicate Moved(n: nat, from: Regs, ctx: Regs, regs: Regs, to: Regs)
    requires |from| == |ctx| == |regs| == |to| == NREGS && n <= 2 * NREGS
  {
    if n <= NREGS then regs == from && ctx[..n] == from[..n]
    else ctx == from && regs[..n - NREGS] == to[..n - NREGS]
  }

  /** A process that is off its CPU, its registers all saved. */
  predicate Parked(q: Proc) {
    q.pc.Off? && q.ctx == q.frame
  }

  predicate Leaving(q: Proc, why: Why) {
    match why
    case Yielded(_) => q.state == RUNNABLE
    case Slept(l) => q.state == SLEEPING && q.chan == Some(l)
  }

  /** Process q runs on CPU k. */
  ghost predicate Running(k: Cpu, q: Proc)
    requires |k.regs| == |k.ctx| == |k.frame| == |q.ctx| == |q.frame| == NREGS
  {
    && k.ctx == k.frame && !q.pc.Off?
    && match q.pc
       case Sched(why) => Leaving(q, why)
       case Switch(why, n) => n <= 2 * NREGS && Leaving(q, why) && Moved(n, q.frame, q.ctx, k.regs, k.ctx)
       case Back(_) => q.state == RUNNING && q.ctx == q.frame && k.regs == q.frame
       case _ => q.state == RUNNING
  }

  ghost predicate Serving(k: Cpu, q: Proc)
    requires |k.regs| == |k.ctx| == |k.frame| == |q.ctx| == |q.frame| == NREGS
  {
    match k.pc
    case Found(_) => Parked(q) && q.state == ALLOCATED
    case Claimed(_) => Parked(q) && q.state == ALLOCATED
    case Peek(_) => Parked(q) && q.state == ALLOCATED
    case Astray(_) => false
    case Held(_) => Parked(q) && q.state == ALLOCATED
    case Out(_, n) => n <= 2 * NREGS && Parked(q) && q.state == RUNNING && Moved(n, k.frame, k.ctx, k.regs, q.ctx)
    case Away(_) => Running(k, q)
    case Returned(_) => Parked(q) && q.state in {RUNNABLE, SLEEPING} && k.regs == k.frame
    case Release(_) => Parked(q) && q.state in {RUNNABLE, SLEEPING} && k.regs == k.frame
    case _ => true
  }

  ghost predicate CpuOk(s: State, c: nat)
    requires Shaped(s) && c < |s.cpus|
  {
    var k := s.cpus[c];
    assert ShapedCpu(k, |s.procs|);
    && (HeldProc(s, c).Some? ==>
          HeldProc(s, c).value < |s.procs| && s.procs[HeldProc(s, c).value].lock == Some(c))
    && (HeldInner(s, c).Some? ==>
          HeldInner(s, c).value < |s.locks| && s.locks[HeldInner(s, c).value].inner == Some(c))
    && k.noff == Depth(s, c)
    && k.cur == Pointer(k.pc)
    && (Claim(k.pc).Some? ==>
          var p := Claim(k.pc).value;
          p < |s.procs| && ShapedProc(s.procs[p], |s.locks|) && Serving(k, s.procs[p]))
  }

  // ---------- one process, one sleep lock ----------

  /** The sleep lock a process is about to wait for, or waits for. */
  function WillSleep(q: Proc): Option<nat> {
    match q.pc
    case SleepAcquire(l) => Some(l)
    case SleepRelease(l) => Some(l)
    case SleepSet(l) => Some(l)
    case _ => if q.state == SLEEPING then q.chan else None
  }

  /** The sleep lock a thread is about to unlock, now or when it is back from an interrupt. */
  function WillUnlock(pc: ProcPc): Option<nat> {
    match pc
    case UnlockAcquire(l) => Some(l)
    case UnlockClear(l) => Some(l)
    case TryAcquire(at) => SpotUnlocks(at)
    case TryTest(at) => SpotUnlocks(at)
    case YieldAcquire(at) => SpotUnlocks(at)
    case YieldSet(at) => SpotUnlocks(at)
    case Sched(why) => WhyUnlocks(why)
    case Switch(why, _) => WhyUnlocks(why)
    case Off(why) => WhyUnlocks(why)
    case Back(why) => WhyUnlocks(why)
    case _ => None
  }

  function SpotUnlocks(at: Spot): Option<nat> {
    if at.AtUnlock? then Some(at.l) else None
  }

  function WhyUnlocks(why: Why): Option<nat> {
    if why.Yielded? then SpotUnlocks(why.at) else None
  }

  /** Who unlocks holds the lock, and who has just locked it does too. */
  predicate Entitled(q: Proc) {
    && (WillUnlock(q.pc).Some? ==> WillUnlock(q.pc).value in q.guards)
    && (q.pc.LockRelease? ==> q.pc.l in q.guards)
  }

  /** The thread is waking the waiters of l and has process p still before it. */
  predicate Waking(pc: ProcPc, l: nat, p: nat) {
    (pc.Wake? || pc.WakeCheck?) && pc.l == l && pc.i <= p
  }

  predicate WakerAt(s: State, l: nat, p: nat)
    requires l < |s.locks|
  {
    && s.locks[l].inner.Some?
    && var c := s.locks[l].inner.value;
       && c < |s.cpus| && s.cpus[c].pc.Away? && s.cpus[c].pc.p < |s.procs|
       && Waking(s.procs[s.cpus[c].pc.p].pc, l, p)
  }

  /** A waiter is safe: the lock is taken, or its wake-up is on the way. */
  predicate WakeDue(s: State, l: nat, p: nat) {
    l < |s.locks| && (s.locks[l].locked || WakerAt(s, l, p))
  }

  ghost predicate ClaimedSomewhere(s: State, p: nat) {
    exists c :: 0 <= c < |s.cpus| && Claim(s.cpus[c].pc) == Some(p)
  }

  ghost predicate OwnerOk(s: State, p: nat)
    requires p < |s.procs|
  {
    s.procs[p].lock.Some? ==>
      var c := s.procs[p].lock.value;
      c < |s.cpus| && HeldProc(s, c) == Some(p)
  }

  ghost predicate ProcOk(s: State, p: nat)
    requires p < |s.procs|
  {
    var q := s.procs[p];
    && (q.pc.Off? ==> q.ctx == q.frame)
    && (q.state == ALLOCATED || q.state == RUNNING || !q.pc.Off? ==> ClaimedSomewhere(s, p))
    && (q.state == SLEEPING ==> q.chan.Some?) && Entitled(q)
    && (WillSleep(q).Some? ==> WakeDue(s, WillSleep(q).value, p))
    && (forall l | l in q.guards :: GuardOk(s, l, p))
  }

  ghost predicate GuardOk(s: State, l: nat, p: nat) {
    l < |s.locks| && s.locks[l].holder == Some(p)
  }

  ghost predicate InnerOk(s: State, l: nat)
    requires l < |s.locks|
  {
    s.locks[l].inner.Some? ==>
      var c := s.locks[l].inner.value;
      c < |s.cpus| && HeldInner(s, c) == Some(l)
  }

  ghost predicate LockOk(s: State, l: nat)
    requires l < |s.locks|
  {
    var m := s.locks[l];
    && (m.locked <==> m.holder.Some?)
    && (m.holder.Some? ==> m.holder.value < |s.procs| && l in s.procs[m.holder.value].guards)
  }

  ghost predicate ClaimsApart(s: State) {
    forall c, d | 0 <= c < |s.cpus| && 0 <= d < |s.cpus|
                  && Claim(s.cpus[c].pc).Some? && Claim(s.cpus[c].pc) == Claim(s.cpus[d].pc) :: c == d
  }

  ghost predicate Inv(s: State) {
    && Shaped(s) && ClaimsApart(s)
    && (forall c | 0 <= c < |s.cpus| :: CpuOk(s, c))
    && (forall p | 0 <= p < |s.procs| :: OwnerOk(s, p))
    && (forall p | 0 <= p < |s.procs| :: ProcOk(s, p))
    && (forall l | 0 <= l < |s.locks| :: InnerOk(s, l))
    && (forall l | 0 <= l < |s.locks| :: LockOk(s, l))
  }

  // ---------- what a step of CPU c leaves alone ----------

  /** Process q as seen by a CPU that has claimed it while another CPU takes a step. */
  predicate Kept(q: Proc, q': Proc) {
    && q'.pc == q.pc && q'.ctx == q.ctx && q'.frame == q.frame && q'.guards == q.guards && q'.chan == q.chan
    && (q.state == ALLOCATED || q.state == RUNNING ==> q'.state == q.state)
  }

  predicate SameBounds(s: State, s': State) {
    |s'.cpus| == |s.cpus| && |s'.procs| == |s.procs| && |s'.locks| == |s.locks|
  }

  predicate ProcKept(s: State, s': State, c: nat, p: nat)
    requires SameBounds(s, s') && c < |s.cpus| && p < |s.procs|
  {
    var q, q' := s.procs[p], s'.procs[p];
    && (Claim(s.cpus[c].pc) != Some(p) ==> Kept(q, q'))
    && (q.lock.Some? && q.lock != Some(c) ==> q'.lock == q.lock && q'.state == q.state && q'.chan == q.chan)
    && (q'.lock.Some? && q'.lock != Some(c) ==> q.lock == q'.lock)
  }

  predicate LockKept(s: State, s': State, c: nat, l: nat)
    requires SameBounds(s, s') && l < |s.locks|
  {
    var m, m' := s.locks[l], s'.locks[l];
    && (m.inner.Some? && m.inner != Some(c) ==> m' == m)
    && (m'.inner.Some? && m'.inner != Some(c) ==> m.inner == m'.inner)
  }

  ghost predicate Others(s: State, s': State, c: nat) {
    && SameBounds(s, s') && c < |s.cpus|
    && (forall d | 0 <= d < |s.cpus| && d != c :: s'.cpus[d] == s.cpus[d])
    && (forall p | 0 <= p < |s.procs| :: ProcKept(s, s', c, p))
    && (forall l | 0 <= l < |s.locks| :: LockKept(s, s', c, l))
  }

  /** Another CPU's step disturbs nothing this CPU relies on. */
  lemma HeldSame(s: State, s': State, c: nat, d: nat)
    requires Inv(s) && Shaped(s') && Others(s, s', c) && d < |s.cpus| && d != c
    ensures HeldProc(s', d) == HeldProc(s, d) && HeldInner(s', d) == HeldInner(s, d)
    ensures HeldProc(s, d).Some? ==>
              && HeldProc(s, d).value < |s.procs|
              && s'.procs[HeldProc(s, d).value].lock == s.procs[HeldProc(s, d).value].lock
              && s'.procs[HeldProc(s, d).value].state == s.procs[HeldProc(s, d).value].state
    ensures HeldInner(s, d).Some? ==>
              HeldInner(s, d).value < |s.locks| && s'.locks[HeldInner(s, d).value] == s.locks[HeldInner(s, d).value]
  {
    hide Moved, Serving, OwnerOk, ProcOk, InnerOk, LockOk;
    assert CpuOk(s, d) && s'.cpus[d] == s.cpus[d];
    var claim := Claim(s.cpus[d].pc);
    if claim.Some? {
      assert Claim(s.cpus[c].pc) != claim;
      assert ProcKept(s, s', c, claim.value);
    }
    if HeldProc(s, d).Some? {
      assert ProcKept(s, s', c, HeldProc(s, d).value);
    }
    if HeldInner(s, d).Some? {
      assert LockKept(s, s', c, HeldInner(s, d).value);
    }
  }

  lemma FrameCpu(s: State, s': State, c: nat, d: nat)
    requires Inv(s) && Shaped(s') && Others(s, s', c) && d < |s.cpus| && d != c
    ensures CpuOk(s', d)
  {
    hide Moved, OwnerOk, ProcOk, InnerOk, LockOk;
    HeldSame(s, s', c, d);
    assert CpuOk(s, d) && s'.cpus[d] == s.cpus[d];
    var claim := Claim(s.cpus[d].pc);
    if claim.Some? {
      assert Claim(s.cpus[c].pc) != claim;
      assert ProcKept(s, s', c, claim.value) && ShapedProc(s'.procs[claim.value], |s'.locks|);
    }
  }

  // ---------- putting a step together ----------

  ghost predicate OwnLocks(s: State, c: nat)
    requires c < |s.cpus|
  {
    && (forall p | 0 <= p < |s.procs| :: OwnLock(s, c, p))
    && (forall l | 0 <= l < |s.locks| :: OwnInner(s, c, l))
  }

  predicate OwnLock(s: State, c: nat, p: nat)
    requires c < |s.cpus| && p < |s.procs|
  {
    s.procs[p].lock == Some(c) ==> HeldProc(s, c) == Some(p)
  }

  predicate OwnInner(s: State, c: nat, l: nat)
    requires c < |s.cpus| && l < |s.locks|
  {
    s.locks[l].inner == Some(c) ==> HeldInner(s, c) == Some(l)
  }

  /** The CPU keeps its claim, drops it, or claims a process that nobody else has. */
  ghost predicate ClaimStep(s: State, s': State, c: nat)
    requires SameBounds(s, s') && c < |s.cpus|
  {
    var claim := Claim(s'.cpus[c].pc);
    claim.None? || claim == Claim(s.cpus[c].pc)
    || forall d | 0 <= d < |s.cpus| && d != c :: Claim(s.cpus[d].pc) != claim
  }

  ghost predicate Controlled(s: State, s': State, c: nat) {
    && Shaped(s') && Others(s, s', c) && CpuOk(s', c) && OwnLocks(s', c) && ClaimStep(s, s', c)
  }

  /** Whoever has to be claimed by some CPU. */
  predicate NeedsCpu(q: Proc) {
    q.state == ALLOCATED || q.state == RUNNING || !q.pc.Off?
  }

  /** Process p's own data after the step, but for locks. */
  predicate ProcNext(s: State, s': State, c: nat, p: nat)
    requires SameBounds(s, s') && c < |s.cpus| && p < |s.procs|
  {
    var q, q' := s.procs[p], s'.procs[p];
    && (q'.pc.Off? ==> q'.ctx == q'.frame)
    && (NeedsCpu(q') ==> Claim(s'.cpus[c].pc) == Some(p) || (Claim(s.cpus[c].pc) != Some(p) && NeedsCpu(q)))
    && (q'.state == SLEEPING ==> q'.chan.Some?) && Entitled(q')
  }

  lemma ClaimKept(s: State, s': State, c: nat, p: nat)
    requires Inv(s) && Controlled(s, s', c) && p < |s.procs| && ProcNext(s, s', c, p)
    ensures NeedsCpu(s'.procs[p]) ==> ClaimedSomewhere(s', p)
  {
    hide CpuOk, OwnerOk, InnerOk, LockOk, OwnLocks, ProcKept, LockKept, ClaimsApart, ClaimStep;
    assert ProcOk(s, p);
    if NeedsCpu(s'.procs[p]) {
      if Claim(s'.cpus[c].pc) == Some(p) {
        assert 0 <= c < |s'.cpus|;
      } else {
        var d :| 0 <= d < |s.cpus| && Claim(s.cpus[d].pc) == Some(p);
        assert s'.cpus[d] == s.cpus[d];
      }
    }
  }

  lemma LocksOk(s: State, s': State, c: nat)
    requires Inv(s) && Controlled(s, s', c)
    ensures forall p | 0 <= p < |s'.procs| :: OwnerOk(s', p)
    ensures forall l | 0 <= l < |s'.locks| :: InnerOk(s', l)
  {
    hide CpuOk, ProcOk, LockOk, ClaimsApart, ClaimStep, HeldProc, HeldInner;
    forall p | 0 <= p < |s'.procs|
      ensures OwnerOk(s', p)
    {
      assert OwnLock(s', c, p) && ProcKept(s, s', c, p) && OwnerOk(s, p);
      var lock := s'.procs[p].lock;
      if lock.Some? && lock.value != c {
        HeldSame(s, s', c, lock.value);
      }
    }
    forall l | 0 <= l < |s'.locks|
      ensures InnerOk(s', l)
    {
      assert OwnInner(s', c, l) && LockKept(s, s', c, l) && InnerOk(s, l);
      var lock := s'.locks[l].inner;
      if lock.Some? && lock.value != c {
        HeldSame(s, s', c, lock.value);
      }
    }
  }

  lemma ClaimsStayApart(s: State, s': State, c: nat)
    requires Inv(s) && Controlled(s, s', c)
    ensures ClaimsApart(s')
  {
    hide CpuOk, ProcOk, LockOk, OwnerOk, InnerOk, OwnLocks, ProcKept, LockKept, Shaped, Claim;
    forall d, e | 0 <= d < |s'.cpus| && 0 <= e < |s'.cpus|
                  && Claim(s'.cpus[d].pc).Some? && Claim(s'.cpus[d].pc) == Claim(s'.cpus[e].pc)
      ensures d == e
    {
      assert d != c ==> s'.cpus[d] == s.cpus[d];
      assert e != c ==> s'.cpus[e] == s.cpus[e];
    }
  }

  ghost predicate DataOk(s: State, s': State, c: nat)
    requires SameBounds(s, s') && c < |s.cpus|
  {
    && (forall p | 0 <= p < |s'.procs| :: ProcNext(s, s', c, p))
    && (forall p | 0 <= p < |s'.procs| :: DueOk(s', p))
    && (forall p | 0 <= p < |s'.procs| :: GuardsOk(s', p))
    && (forall l | 0 <= l < |s'.locks| :: LockOk(s', l))
  }

  predicate DueOk(s: State, p: nat)
    requires p < |s.procs|
  {
    WillSleep(s.procs[p]).Some? ==> WakeDue(s, WillSleep(s.procs[p]).value, p)
  }

  ghost predicate GuardsOk(s: State, p: nat)
    requires p < |s.procs|
  {
    forall l | l in s.procs[p].guards :: GuardOk(s, l, p)
  }

  lemma Assemble(s: State, s': State, c: nat)
    requires Inv(s) && Controlled(s, s', c) && DataOk(s, s', c)
    ensures Inv(s')
  {
    hide CpuOk, LockOk, OwnerOk, InnerOk, OwnLocks, ProcKept, LockKept, ClaimsApart, ClaimStep;
    hide GuardOk, WakeDue, WillSleep, ClaimedSomewhere, Claim, ShapedCpu, ShapedProc;
    LocksOk(s, s', c);
    ClaimsStayApart(s, s', c);
    forall d | 0 <= d < |s'.cpus|
      ensures CpuOk(s', d)
    {
      if d != c {
        FrameCpu(s, s', c, d);
      }
    }
    forall p | 0 <= p < |s'.procs|
      ensures ProcOk(s', p)
    {
      assert ProcNext(s, s', c, p) && DueOk(s', p) && GuardsOk(s', p);
      ClaimKept(s, s', c, p);
    }
  }

  // ---------- steps that leave the sleep locks' own data alone ----------

  predicate NotWaking(s: State, c: nat)
    requires c < |s.cpus|
  {
    s.cpus[c].pc.Away? && s.cpus[c].pc.p < |s.procs| ==>
      !s.procs[s.cpus[c].pc.p].pc.Wake? && !s.procs[s.cpus[c].pc.p].pc.WakeCheck?
  }

  predicate SameLock(m: SleepLock, m': SleepLock) {
    m'.locked == m.locked && m'.holder == m.holder
  }

  predicate Waits(s: State, s': State, p: nat)
    requires SameBounds(s, s') && p < |s.procs|
  {
    var q, q' := s.procs[p], s'.procs[p];
    && q'.guards == q.guards
    && (WillSleep(q').Some? ==>
          WillSleep(q') == WillSleep(q)
          || (WillSleep(q').value < |s'.locks| && s'.locks[WillSleep(q').value].locked))
  }

  ghost predicate Quiet(s: State, s': State, c: nat)
    requires SameBounds(s, s') && c < |s.cpus|
  {
    && NotWaking(s, c)
    && (forall l | 0 <= l < |s.locks| :: SameLock(s.locks[l], s'.locks[l]))
    && (forall p | 0 <= p < |s.procs| :: Waits(s, s', p))
  }

  /** A wake-up by another CPU stays on its way. */
  lemma DueKept(s: State, s': State, c: nat, l: nat, p: nat)
    requires Inv(s) && Others(s, s', c) && WakeDue(s, l, p)
    requires s.locks[l].locked ==> s'.locks[l].locked
    requires s.locks[l].inner != Some(c)
    ensures WakeDue(s', l, p)
  {
    hide OwnerOk, ProcOk, LockOk;
    if !s.locks[l].locked {
      var d := s.locks[l].inner.value;
      assert LockKept(s, s', c, l) && s'.cpus[d] == s.cpus[d];
      assert CpuOk(s, d);
      assert Claim(s.cpus[c].pc) != Claim(s.cpus[d].pc);
      assert ProcKept(s, s', c, s.cpus[d].pc.p);
    }
  }

  lemma NotWakingHere(s: State, c: nat, l: nat, p: nat)
    requires c < |s.cpus| && NotWaking(s, c) && l < |s.locks| && WakerAt(s, l, p)
    ensures s.locks[l].inner != Some(c)
  {}

  lemma QuietData(s: State, s': State, c: nat)
    requires Inv(s) && Others(s, s', c) && Quiet(s, s', c)
    ensures forall p | 0 <= p < |s'.procs| :: DueOk(s', p)
    ensures forall p | 0 <= p < |s'.procs| :: GuardsOk(s', p)
    ensures forall l | 0 <= l < |s'.locks| :: LockOk(s', l)
  {
    hide CpuOk, OwnerOk, InnerOk, ProcKept, LockKept, ClaimsApart, WillSleep, Shaped, NotWaking;
    forall p | 0 <= p < |s'.procs|
      ensures DueOk(s', p)
    {
      assert ProcOk(s, p) && Waits(s, s', p);
      var w := WillSleep(s'.procs[p]);
      if w.Some? && w == WillSleep(s.procs[p]) {
        assert SameLock(s.locks[w.value], s'.locks[w.value]);
        if !s.locks[w.value].locked {
          NotWakingHere(s, c, w.value, p);
          DueKept(s, s', c, w.value, p);
        }
      }
    }
    forall p | 0 <= p < |s'.procs|
      ensures GuardsOk(s', p)
    {
      assert ProcOk(s, p) && Waits(s, s', p);
      forall l | l in s'.procs[p].guards
        ensures GuardOk(s', l, p)
      {
        assert GuardOk(s, l, p) && SameLock(s.locks[l], s'.locks[l]);
      }
    }
    forall l | 0 <= l < |s'.locks|
      ensures LockOk(s', l)
    {
      assert LockOk(s, l) && SameLock(s.locks[l], s'.locks[l]);
      if s'.locks[l].holder.Some? {
        assert Waits(s, s', s'.locks[l].holder.value);
      }
    }
  }

  ghost predicate Fine(s: State, s': State, c: nat) {
    && Controlled(s, s', c) && Quiet(s, s', c)
    && (forall p | 0 <= p < |s'.procs| :: ProcNext(s, s', c, p))
  }

  lemma QuietStep(s: State, s': State, c: nat)
    requires Inv(s) && Fine(s, s', c)
    ensures Inv(s')
  {
    hide Inv, CpuOk, OwnLocks, ProcNext, ClaimStep, NotWaking, Shaped, Waits, DueOk, GuardsOk, LockOk;
    QuietData(s, s', c);
    Assemble(s, s', c);
  }
}
