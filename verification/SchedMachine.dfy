/** Scheduler, context switch, sleep/wakeup and sleep locks as one machine: any number of CPUs,
    each taking one step at a time in any order. A step is at most one operation on a spinlock
    or on memory shared without one. */
module SchedMachine {
  import opened Options

  /** Registers that `switch` saves: ra, sp and s0 to s11. */
  const NREGS := 14

  type Regs = seq<int>

  datatype ProcState = UNUSED | SLEEPING | RUNNABLE | RUNNING | ALLOCATED

  /** Where a thread can be interrupted, and goes on afterwards: wherever it holds no spinlock. The
      handler itself runs with interrupts off. */
  datatype Spot = AtRun | AtLock(l: nat) | AtUnlock(l: nat)

  /** Why a process gave up its CPU: `yielding`, or waiting for sleep lock `l`. */
  datatype Why = Yielded(at: Spot) | Slept(l: nat)

  /** Where a process's kernel thread is. `Run` holds no spinlock; a thread at an `…Acquire` is
      spinning or about to; `TryAcquire` and `TryTest` are in `try_yield_proc`; `Switch(why, n)`
      has done n of the moves of `switch`; `Off` is switched out. */
  datatype ProcPc =
    | Run
    | LockAcquire(l: nat) | LockTest(l: nat) | LockRelease(l: nat)
    | SleepAcquire(l: nat) | SleepRelease(l: nat) | SleepSet(l: nat)
    | TryAcquire(at: Spot) | TryTest(at: Spot) | YieldAcquire(at: Spot) | YieldSet(at: Spot)
    | Sched(why: Why) | Switch(why: Why, n: nat) | Off(why: Why) | Back(why: Why)
    | UnlockAcquire(l: nat) | UnlockClear(l: nat) | Wake(l: nat, i: nat) | WakeCheck(l: nat, i: nat)

  /** Where a CPU's scheduler thread is. `Away(p)`: the CPU runs process p's thread. `Peek(p)`:
      interrupted once it has set its process pointer, it looks at p's state; finding RUNNING,
      it would go `Astray` and yield on behalf of p. */
  datatype SchedPc =
    | Loop
    | Seek(i: nat) | SeekCheck(i: nat)
    | Found(p: nat) | Claimed(p: nat) | Peek(p: nat) | Astray(p: nat) | Held(p: nat)
    | Out(p: nat, n: nat) | Away(p: nat)
    | Returned(p: nat) | Release(p: nat)

  /** `lock` is the CPU that holds the process lock. `chan` is the sleep lock whose channel the
      process waits on. `frame` is history: the registers when it last called `switch`. `guards`
      are the sleep locks it holds. */
  datatype Proc = Proc(lock: Option<nat>, state: ProcState, chan: Option<nat>, pc: ProcPc,
                       ctx: Regs, frame: Regs, guards: set<nat>)

  /** `cur` is the CPU's process pointer, `noff` its push_off depth. */
  datatype Cpu = Cpu(pc: SchedPc, cur: Option<nat>, noff: nat, regs: Regs, ctx: Regs, frame: Regs)

  /** `inner` is the CPU that holds the lock's spinlock; `holder` is history: who set `locked`. */
  datatype SleepLock = SleepLock(inner: Option<nat>, locked: bool, holder: Option<nat>)

  datatype State = State(procs: seq<Proc>, cpus: seq<Cpu>, locks: seq<SleepLock>)

  /** What happens next where a thread's code leaves a choice: `Yield` is a timer interrupt that
      finds the process in user mode, `Interrupt` one that finds the CPU in the kernel. */
  datatype Choice = Go | Compute(regs: Regs) | Yield | Lock(l: nat) | Unlock(l: nat) | Interrupt

  // ---------- small updates ----------

  function SetCpu(s: State, c: nat, cpu: Cpu): State
    requires c < |s.cpus|
  {
    s.(cpus := s.cpus[c := cpu])
  }

  function SetProc(s: State, p: nat, proc: Proc): State
    requires p < |s.procs|
  {
    s.(procs := s.procs[p := proc])
  }

  function SetLock(s: State, l: nat, lock: SleepLock): State
    requires l < |s.locks|
  {
    s.(locks := s.locks[l := lock])
  }

  /** One move of `switch`: registers to the old context, then the new context to registers. */
  function SaveOne(ctx: Regs, regs: Regs, n: nat): Regs
    requires |ctx| == |regs| == NREGS
  {
    if n < NREGS then ctx[n := regs[n]] else ctx
  }

  function LoadOne(regs: Regs, ctx: Regs, n: nat): Regs
    requires |ctx| == |regs| == NREGS
  {
    if NREGS <= n < 2 * NREGS then regs[n - NREGS := ctx[n - NREGS]] else regs
  }

  // ---------- the scheduler thread ----------

  predicate Shaped(s: State) {
    && (forall c | 0 <= c < |s.cpus| :: ShapedCpu(s.cpus[c], |s.procs|))
    && (forall p | 0 <= p < |s.procs| :: ShapedProc(s.procs[p], |s.locks|))
  }

  predicate ShapedCpu(k: Cpu, nproc: nat) {
    && |k.regs| == |k.ctx| == |k.frame| == NREGS
    && match k.pc
       case Loop => true
       case Seek(i) => i <= nproc
       case SeekCheck(i) => i < nproc
       case Found(p) => p < nproc
       case Claimed(p) => p < nproc
       case Peek(p) => p < nproc
       case Astray(p) => p < nproc
       case Held(p) => p < nproc
       case Out(p, n) => p < nproc && n <= 2 * NREGS
       case Away(p) => p < nproc
       case Returned(p) => p < nproc
       case Release(p) => p < nproc
  }

  predicate ShapedSpot(at: Spot, nlock: nat) {
    match at
    case AtRun => true
    case AtLock(l) => l < nlock
    case AtUnlock(l) => l < nlock
  }

  predicate ShapedWhy(why: Why, nlock: nat) {
    match why
    case Yielded(at) => ShapedSpot(at, nlock)
    case Slept(l) => l < nlock
  }

  predicate ShapedProc(q: Proc, nlock: nat) {
    && |q.ctx| == |q.frame| == NREGS
    && match q.pc
       case Run => true
       case LockAcquire(l) => l < nlock
       case LockTest(l) => l < nlock
       case LockRelease(l) => l < nlock
       case SleepAcquire(l) => l < nlock
       case SleepRelease(l) => l < nlock
       case SleepSet(l) => l < nlock
       case TryAcquire(at) => ShapedSpot(at, nlock)
       case TryTest(at) => ShapedSpot(at, nlock)
       case YieldAcquire(at) => ShapedSpot(at, nlock)
       case YieldSet(at) => ShapedSpot(at, nlock)
       case Sched(why) => ShapedWhy(why, nlock)
       case Switch(why, n) => ShapedWhy(why, nlock) && n <= 2 * NREGS
       case Off(why) => ShapedWhy(why, nlock)
       case Back(why) => ShapedWhy(why, nlock)
       case UnlockAcquire(l) => l < nlock
       case UnlockClear(l) => l < nlock
       case Wake(l, _) => l < nlock
       case WakeCheck(l, _) => l < nlock
  }

  /** `seek_runnable` and `scheduler`, one step. */
  function SchedStep(s: State, c: nat, ch: Choice): State
    requires c < |s.cpus| && Shaped(s) && !s.cpus[c].pc.Away?
  {
    var k := s.cpus[c];
    match k.pc
    case Loop =>
      if ch.Compute? then SetCpu(s, c, k.(regs := ch.regs)) else SetCpu(s, c, k.(pc := Seek(0)))
    case Seek(i) =>
      if i < |s.procs| then
        SetProc(SetCpu(s, c, k.(pc := SeekCheck(i), noff := k.noff + 1)), i, s.procs[i].(lock := Some(c)))
      else SetCpu(s, c, k.(pc := Loop))
    case SeekCheck(i) =>
      var q := s.procs[i];
      var noff := if k.noff > 0 then k.noff - 1 else 0;
      if q.state == RUNNABLE then
        SetProc(SetCpu(s, c, k.(pc := Found(i), noff := noff)), i, q.(state := ALLOCATED, lock := None))
      else
        SetProc(SetCpu(s, c, k.(pc := Seek(i + 1), noff := noff)), i, q.(lock := None))
    case Found(p) => SetCpu(s, c, k.(pc := Claimed(p), cur := Some(p)))
    case Claimed(p) =>
      var pc := if ch.Interrupt? then Peek(p) else Held(p);
      SetProc(SetCpu(s, c, k.(pc := pc, noff := k.noff + 1)), p, s.procs[p].(lock := Some(c)))
    case Peek(p) =>
      var pc := if s.procs[p].state == RUNNING then Astray(p) else Claimed(p);
      SetProc(SetCpu(s, c, k.(pc := pc, noff := if k.noff > 0 then k.noff - 1 else 0)), p, s.procs[p].(lock := None))
    case Astray(_) => s
    case Held(p) =>
      SetProc(SetCpu(s, c, k.(pc := Out(p, 0), frame := k.regs)), p, s.procs[p].(state := RUNNING))
    case Out(p, n) =>
      var q := s.procs[p];
      if n < 2 * NREGS then
        SetCpu(s, c, k.(pc := Out(p, n + 1), ctx := SaveOne(k.ctx, k.regs, n), regs := LoadOne(k.regs, q.ctx, n)))
      else SetProc(SetCpu(s, c, k.(pc := Away(p))), p, if q.pc.Off? then q.(pc := Back(q.pc.why)) else q)
    case Returned(p) => SetCpu(s, c, k.(pc := Release(p), cur := None))
    case Release(p) =>
      SetProc(SetCpu(s, c, k.(pc := Loop, noff := if k.noff > 0 then k.noff - 1 else 0)), p, s.procs[p].(lock := None))
  }

  predicate SchedEnabled(s: State, c: nat, ch: Choice)
    requires c < |s.cpus| && Shaped(s) && !s.cpus[c].pc.Away?
  {
    match s.cpus[c].pc
    case Loop => ch.Go? || (ch.Compute? && |ch.regs| == NREGS)
    case Seek(i) => ch.Go? && (i < |s.procs| ==> s.procs[i].lock.None?)
    case Claimed(p) => (ch.Go? || ch.Interrupt?) && s.procs[p].lock.None?
    case Astray(_) => false
    case _ => ch.Go?
  }

  // ---------- a process's kernel thread ----------

  function Deeper(k: Cpu): Cpu {
    k.(noff := k.noff + 1)
  }

  function Shallower(k: Cpu): Cpu {
    k.(noff := if k.noff > 0 then k.noff - 1 else 0)
  }

  /** Acquiring and releasing process p's own lock on CPU c, moving p's thread to `pc`. */
  function AcquireOwn(s: State, c: nat, p: nat, pc: ProcPc): State
    requires c < |s.cpus| && p < |s.procs|
  {
    SetProc(SetCpu(s, c, Deeper(s.cpus[c])), p, s.procs[p].(lock := Some(c), pc := pc))
  }

  function AcquireInner(s: State, c: nat, p: nat, l: nat, pc: ProcPc): State
    requires c < |s.cpus| && p < |s.procs| && l < |s.locks|
  {
    SetLock(SetProc(SetCpu(s, c, Deeper(s.cpus[c])), p, s.procs[p].(pc := pc)), l, s.locks[l].(inner := Some(c)))
  }

  function ReleaseInner(s: State, c: nat, p: nat, l: nat, pc: ProcPc): State
    requires c < |s.cpus| && p < |s.procs| && l < |s.locks|
  {
    SetLock(SetProc(SetCpu(s, c, Shallower(s.cpus[c])), p, s.procs[p].(pc := pc)), l, s.locks[l].(inner := None))
  }

  /** One step of `wake_up` on process i, holding its lock. */
  function Woken(q: Proc, l: nat): Proc {
    if q.state == SLEEPING && q.chan == Some(l) then q.(state := RUNNABLE) else q
  }

  function RunStep(s: State, c: nat, p: nat, ch: Choice): State
    requires c < |s.cpus| && p < |s.procs|
  {
    var q := s.procs[p];
    match ch
    case Compute(regs) => SetCpu(s, c, s.cpus[c].(regs := regs))
    case Yield => SetProc(s, p, q.(pc := YieldAcquire(AtRun)))
    case Interrupt => SetProc(s, p, q.(pc := TryAcquire(AtRun)))
    case Lock(l) => SetProc(s, p, q.(pc := LockAcquire(l)))
    case Unlock(l) => SetProc(s, p, q.(pc := UnlockAcquire(l)))
    case Go => s
  }

  /** Where the thread goes on after an interrupt. */
  function Resumed(at: Spot): ProcPc {
    match at
    case AtRun => Run
    case AtLock(l) => LockAcquire(l)
    case AtUnlock(l) => UnlockAcquire(l)
  }

  /** `SleepLock::lock`, `unlock`, `sleep`, `yielding`, `sched` and `wake_up`, one step. */
  function ProcStep(s: State, c: nat, p: nat, ch: Choice): State
    requires c < |s.cpus| && Shaped(s) && s.cpus[c].pc == Away(p)
  {
    assert ShapedCpu(s.cpus[c], |s.procs|);
    var k, q := s.cpus[c], s.procs[p];
    match q.pc
    case Run => RunStep(s, c, p, ch)
    case LockAcquire(l) =>
      if ch.Interrupt? then SetProc(s, p, q.(pc := TryAcquire(AtLock(l)))) else AcquireInner(s, c, p, l, LockTest(l))
    case LockTest(l) =>
      if s.locks[l].locked then SetProc(s, p, q.(pc := SleepAcquire(l)))
      else
        SetLock(SetProc(s, p, q.(pc := LockRelease(l), guards := q.guards + {l})), l,
                s.locks[l].(locked := true, holder := Some(p)))
    case LockRelease(l) => ReleaseInner(s, c, p, l, Run)
    case SleepAcquire(l) => AcquireOwn(s, c, p, SleepRelease(l))
    case SleepRelease(l) => ReleaseInner(s, c, p, l, SleepSet(l))
    case SleepSet(l) => SetProc(s, p, q.(pc := Sched(Slept(l)), chan := Some(l), state := SLEEPING))
    case TryAcquire(at) => AcquireOwn(s, c, p, TryTest(at))
    case TryTest(at) =>
      SetProc(SetCpu(s, c, Shallower(k)), p,
              q.(pc := if q.state == RUNNING then YieldAcquire(at) else Resumed(at), lock := None))
    case YieldAcquire(at) => AcquireOwn(s, c, p, YieldSet(at))
    case YieldSet(at) => SetProc(s, p, q.(pc := Sched(Yielded(at)), state := RUNNABLE))
    case Sched(why) => SetProc(s, p, q.(pc := Switch(why, 0), frame := k.regs))
    case Switch(why, n) =>
      if n < 2 * NREGS then
        SetProc(SetCpu(s, c, k.(regs := LoadOne(k.regs, k.ctx, n))), p,
                q.(pc := Switch(why, n + 1), ctx := SaveOne(q.ctx, k.regs, n)))
      else SetProc(SetCpu(s, c, k.(pc := Returned(p))), p, q.(pc := Off(why)))
    case Off(_) => s
    case Back(why) =>
      SetProc(SetCpu(s, c, Shallower(k)), p,
              if why.Slept? then q.(pc := LockAcquire(why.l), chan := None, lock := None)
              else q.(pc := Resumed(why.at), lock := None))
    case UnlockAcquire(l) =>
      if ch.Interrupt? then SetProc(s, p, q.(pc := TryAcquire(AtUnlock(l))))
      else AcquireInner(s, c, p, l, UnlockClear(l))
    case UnlockClear(l) =>
      SetLock(SetProc(s, p, q.(pc := Wake(l, 0), guards := q.guards - {l})), l,
              s.locks[l].(locked := false, holder := None))
    case Wake(l, i) =>
      if i < |s.procs| then
        var t := SetProc(SetCpu(s, c, Deeper(k)), p, q.(pc := WakeCheck(l, i)));
        SetProc(t, i, t.procs[i].(lock := Some(c)))
      else ReleaseInner(s, c, p, l, Run)
    case WakeCheck(l, i) =>
      var t := SetProc(SetCpu(s, c, Shallower(k)), p, q.(pc := Wake(l, i + 1)));
      if i < |s.procs| then SetProc(t, i, Woken(t.procs[i], l).(lock := None)) else t
  }

  predicate ProcEnabled(s: State, c: nat, p: nat, ch: Choice)
    requires c < |s.cpus| && Shaped(s) && s.cpus[c].pc == Away(p)
  {
    assert ShapedCpu(s.cpus[c], |s.procs|);
    var q := s.procs[p];
    match q.pc
    case Run =>
      (match ch
       case Go => false
       case Compute(regs) => |regs| == NREGS
       case Yield => true
       case Interrupt => true
       case Lock(l) => l < |s.locks|
       case Unlock(l) => l in q.guards && l < |s.locks|)
    case LockAcquire(l) => ch.Interrupt? || (ch.Go? && s.locks[l].inner.None?)
    case SleepAcquire(_) => ch.Go? && q.lock.None?
    case TryAcquire(_) => ch.Go? && q.lock.None?
    case YieldAcquire(_) => ch.Go? && q.lock.None?
    case UnlockAcquire(l) => ch.Interrupt? || (ch.Go? && s.locks[l].inner.None?)
    case Wake(_, i) => ch.Go? && (i < |s.procs| ==> s.procs[i].lock.None?)
    case Sched(_) => ch.Go? && !SchedPanics(s, c, p)
    case _ => ch.Go?
  }

  /** The checks of `sched` on entry. */
  predicate SchedPanics(s: State, c: nat, p: nat)
    requires c < |s.cpus| && p < |s.procs|
  {
    s.procs[p].lock != Some(c) || s.cpus[c].noff != 1 || s.procs[p].state == RUNNING
  }

  // ---------- runs ----------

  predicate Enabled(s: State, c: nat, ch: Choice) {
    && Shaped(s) && c < |s.cpus|
    && (if s.cpus[c].pc.Away? then ProcEnabled(s, c, s.cpus[c].pc.p, ch) else SchedEnabled(s, c, ch))
  }

  function Do(s: State, c: nat, ch: Choice): State
    requires Enabled(s, c, ch)
  {
    if s.cpus[c].pc.Away? then ProcStep(s, c, s.cpus[c].pc.p, ch) else SchedStep(s, c, ch)
  }

  /** All CPUs in their scheduler loop; runnable processes start with a prepared context. */
  ghost predicate Init(s: State) {
    && Shaped(s)
    && (forall c | 0 <= c < |s.cpus| :: s.cpus[c].pc == Loop && s.cpus[c].noff == 0 && s.cpus[c].cur == None)
    && (forall p | 0 <= p < |s.procs| ::
          var q := s.procs[p];
          && q.lock.None? && q.state in {UNUSED, RUNNABLE} && q.pc == Off(Yielded(AtRun))
          && q.frame == q.ctx && q.guards == {})
    && (forall l | 0 <= l < |s.locks| :: s.locks[l] == SleepLock(None, false, None))
  }
}
