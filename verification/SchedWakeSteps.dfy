/** The invariant under the steps that take and free a sleep lock and wake its waiters: no
    wake-up is lost. */
module SchedWakeSteps {
  import opened Options
  import opened SchedMachine
  import opened SchedInvariant
  import opened SchedSteps
  import opened SchedProcSteps

  /** Control and locks after a step of p's thread while it holds the spinlock inside l. */
  ghost predicate Holding(s: State, s': State, c: nat, p: nat, l: nat) {
    && Inv(s) && SameBounds(s, s') && At(s, c, p) && l < |s.locks| && HeldInner(s, c) == Some(l)
    && s'.cpus == s.cpus[c := s'.cpus[c]] && s'.locks == s.locks[l := s'.locks[l]]
    && (forall o | 0 <= o < |s.procs| :: ProcWell(s, s', c, o))
    && (s'.locks[l].inner == None || (s'.locks[l].inner == Some(c) && HeldInner(s', c) == Some(l)))
  }

  lemma HoldingLocks(s: State, s': State, c: nat, p: nat, l: nat)
    requires Holding(s, s', c, p, l)
    ensures s.locks[l].inner == Some(c)
    ensures forall m | 0 <= m < |s.locks| :: LockWell(s, s', c, m)
  {
    hide ProcOk, OwnerOk, LockOk, ClaimsApart, ProcWell, HeldProc, HeldInner;
    assert CpuOk(s, c);
    forall m | 0 <= m < |s.locks|
      ensures LockWell(s, s', c, m)
    {
      assert InnerOk(s, m);
    }
  }

  /** Waiters of locks other than l stay safe. */
  lemma HoldingWaiters(s: State, s': State, c: nat, p: nat, l: nat, o: nat)
    requires Holding(s, s', c, p, l) && o < |s.procs| && SameWait(s.procs[o], s'.procs[o])
    ensures WillSleep(s'.procs[o]).Some? && WillSleep(s'.procs[o]).value != l ==> DueOk(s', o)
  {
    HoldingLocks(s, s', c, p, l);
    hide Inv, ProcKept, LockKept, ProcNext, WillSleep, DueOk, HeldProc, HeldInner, SameWait;
    forall q | 0 <= q < |s.procs|
      ensures ProcKept(s, s', c, q)
    {
      assert ProcWell(s, s', c, q);
    }
    forall m | 0 <= m < |s.locks|
      ensures LockKept(s, s', c, m)
    {
      assert LockWell(s, s', c, m);
    }
    OtherWaiters(s, s', c, o, l);
  }

  // ---------- guards ----------

  /** Guards of the other locks, and of the other processes, stay right. */
  lemma OtherGuards(s: State, s': State, p: nat, l: nat, o: nat)
    requires Inv(s) && SameBounds(s, s') && p < |s.procs| && l < |s.locks| && o < |s.procs|
    requires s'.locks == s.locks[l := s'.locks[l]]
    requires s'.procs[o].guards - {l} == s.procs[o].guards - {l}
    requires l in s'.procs[o].guards ==> s'.locks[l].holder == Some(o)
    ensures GuardsOk(s', o)
  {
    hide CpuOk, OwnerOk, InnerOk, LockOk, ClaimsApart, Shaped;
    assert ProcOk(s, o);
    forall m | m in s'.procs[o].guards
      ensures GuardOk(s', m, o)
    {
      if m != l {
        assert m in s'.procs[o].guards - {l};
        assert GuardOk(s, m, o);
      }
    }
  }

  lemma OtherHolders(s: State, s': State, l: nat, m: nat)
    requires Inv(s) && SameBounds(s, s') && l < |s.locks| && m < |s.locks| && m != l
    requires s'.locks == s.locks[l := s'.locks[l]]
    requires forall o | 0 <= o < |s.procs| :: s'.procs[o].guards - {l} == s.procs[o].guards - {l}
    ensures LockOk(s', m)
  {
    hide CpuOk, OwnerOk, InnerOk, ProcOk, ClaimsApart, Shaped;
    assert LockOk(s, m);
    if s.locks[m].holder.Some? {
      var o := s.locks[m].holder.value;
      assert m in s.procs[o].guards - {l};
      assert m in s'.procs[o].guards - {l};
    }
  }

  lemma GuardsAndHolders(s: State, s': State, p: nat, l: nat)
    requires Inv(s) && SameBounds(s, s') && p < |s.procs| && l < |s.locks|
    requires s'.locks == s.locks[l := s'.locks[l]]
    requires forall o | 0 <= o < |s.procs| :: s'.procs[o].guards - {l} == s.procs[o].guards - {l}
    requires forall o | 0 <= o < |s.procs| :: l in s'.procs[o].guards ==> s'.locks[l].holder == Some(o)
    requires LockOk(s', l)
    ensures forall o | 0 <= o < |s'.procs| :: GuardsOk(s', o)
    ensures forall m | 0 <= m < |s'.locks| :: LockOk(s', m)
  {
    hide Inv, GuardsOk, LockOk;
    forall o | 0 <= o < |s'.procs|
      ensures GuardsOk(s', o)
    {
      OtherGuards(s, s', p, l, o);
    }
    forall m | 0 <= m < |s'.locks|
      ensures LockOk(s', m)
    {
      if m != l {
        OtherHolders(s, s', l, m);
      }
    }
  }

  // ---------- taking the lock ----------

  lemma TakeWell(s: State, c: nat, p: nat, ch: Choice)
    requires Inv(s) && Enabled(s, c, ch) && At(s, c, p)
    requires var pc := s.procs[p].pc; pc.LockTest? && !s.locks[pc.l].locked
    ensures var s' := Do(s, c, ch);
            Holding(s, s', c, p, s.procs[p].pc.l) && ShapedCpu(s'.cpus[c], |s.procs|) && (Shaped(s') ==> CpuOk(s', c))
  {
    Here(s, c, p);
    hide InnerOk, LockOk, ClaimsApart, Moved;
    var s' := Do(s, c, ch);
    OthersFine(s, s', c, p);
    forall o | 0 <= o < |s.procs|
      ensures ProcWell(s, s', c, o)
    {
      assert o != p ==> ProcFine(s, s', c, o);
    }
  }

  lemma TakeInv(s: State, c: nat, p: nat, ch: Choice)
    requires Inv(s) && Enabled(s, c, ch) && At(s, c, p)
    requires var pc := s.procs[p].pc; pc.LockTest? && !s.locks[pc.l].locked
    ensures Inv(Do(s, c, ch))
  {
    TakeWell(s, c, p, ch);
    var s', l := Do(s, c, ch), s.procs[p].pc.l;
    HoldingLocks(s, s', c, p, l);
    Here(s, c, p);
    hide InnerOk, ClaimsApart, CpuOk, OwnerOk, ProcWell, LockWell;
    assert LockOk(s, l);
    forall o | 0 <= o < |s.procs|
      ensures DueOk(s', o) && (l in s'.procs[o].guards ==> s'.locks[l].holder == Some(o))
    {
      HoldingWaiters(s, s', c, p, l, o);
      assert ProcOk(s, o);
      assert l in s.procs[o].guards ==> GuardOk(s, l, o);
    }
    GuardsAndHolders(s, s', p, l);
    Parts(s, s', c, p);
  }

  // ---------- freeing the lock ----------

  lemma ClearWell(s: State, c: nat, p: nat, ch: Choice)
    requires Inv(s) && Enabled(s, c, ch) && At(s, c, p) && s.procs[p].pc.UnlockClear?
    ensures var s' := Do(s, c, ch);
            Holding(s, s', c, p, s.procs[p].pc.l) && ShapedCpu(s'.cpus[c], |s.procs|) && (Shaped(s') ==> CpuOk(s', c))
  {
    Here(s, c, p);
    hide InnerOk, LockOk, ClaimsApart, Moved;
    var s' := Do(s, c, ch);
    OthersFine(s, s', c, p);
    forall o | 0 <= o < |s.procs|
      ensures ProcWell(s, s', c, o)
    {
      assert o != p ==> ProcFine(s, s', c, o);
    }
  }

  /** From here on every waiter is still before the waker. */
  lemma ClearInv(s: State, c: nat, p: nat, ch: Choice)
    requires Inv(s) && Enabled(s, c, ch) && At(s, c, p) && s.procs[p].pc.UnlockClear?
    ensures Inv(Do(s, c, ch))
  {
    ClearWell(s, c, p, ch);
    var s', l := Do(s, c, ch), s.procs[p].pc.l;
    HoldingLocks(s, s', c, p, l);
    Here(s, c, p);
    hide InnerOk, ClaimsApart, OwnerOk, ProcWell, LockWell, Moved, Serving;
    assert LockOk(s, l);
    forall o | 0 <= o < |s.procs|
      ensures DueOk(s', o) && (l in s'.procs[o].guards ==> s'.locks[l].holder == Some(o))
    {
      HoldingWaiters(s, s', c, p, l, o);
      assert ProcOk(s, o);
      assert l in s.procs[o].guards ==> GuardOk(s, l, o);
      assert GuardOk(s, l, p);
    }
    GuardsAndHolders(s, s', p, l);
    Parts(s, s', c, p);
  }

  // ---------- waking ----------

  /** Data of a step that leaves the sleep locks' own data and all guards alone. */
  lemma WakeData(s: State, s': State, c: nat, p: nat, l: nat)
    requires Holding(s, s', c, p, l) && SameLock(s.locks[l], s'.locks[l])
    requires forall o | 0 <= o < |s.procs| ::
               s'.procs[o].guards == s.procs[o].guards && SameWait(s.procs[o], s'.procs[o])
    requires forall o | 0 <= o < |s.procs| && WillSleep(s'.procs[o]) == Some(l) ::
               s.locks[l].locked || WakerAt(s', l, o)
    ensures forall o | 0 <= o < |s'.procs| :: DueOk(s', o) && GuardsOk(s', o)
    ensures forall m | 0 <= m < |s'.locks| :: LockOk(s', m)
  {
    hide CpuOk, OwnerOk, InnerOk, ClaimsApart, ProcWell, LockWell, WillSleep, WakerAt, HeldProc, HeldInner, SameWait;
    assert LockOk(s, l);
    forall o | 0 <= o < |s.procs|
      ensures DueOk(s', o) && (l in s'.procs[o].guards ==> s'.locks[l].holder == Some(o))
    {
      HoldingWaiters(s, s', c, p, l, o);
      assert ProcOk(s, o);
      assert l in s.procs[o].guards ==> GuardOk(s, l, o);
    }
    GuardsAndHolders(s, s', p, l);
  }

  /** The waker holds no process lock but that of the process it is checking. */
  lemma WakeCheckOwner(s: State, c: nat, p: nat, o: nat)
    requires c < |s.cpus| && o < |s.procs| && OwnerOk(s, o) && At(s, c, p) && s.procs[p].pc.WakeCheck?
    requires o != s.procs[p].pc.i
    ensures s.procs[o].lock != Some(c)
  {}

  lemma WakeAcquireOwner(s: State, c: nat, p: nat, o: nat)
    requires c < |s.cpus| && o < |s.procs| && OwnerOk(s, o) && At(s, c, p) && s.procs[p].pc.Wake?
    ensures s.procs[o].lock != Some(c)
  {}

  lemma FineIsWell(s: State, s': State, c: nat, o: nat)
    requires SameBounds(s, s') && c < |s.cpus| && o < |s.procs| && ProcFine(s, s', c, o)
    ensures ProcWell(s, s', c, o)
  {}

  lemma WakeAcquireDoes(s: State, c: nat, p: nat, ch: Choice)
    requires Enabled(s, c, ch) && At(s, c, p) && s.procs[p].pc.Wake? && s.procs[p].pc.i < |s.procs|
    ensures var pc := s.procs[p].pc;
            var t := SetProc(SetCpu(s, c, Deeper(s.cpus[c])), p, s.procs[p].(pc := WakeCheck(pc.l, pc.i)));
            Do(s, c, ch) == SetProc(t, pc.i, t.procs[pc.i].(lock := Some(c))) && s.procs[pc.i].lock.None?
  {}

  lemma WakeAcquireProc(s: State, c: nat, p: nat, ch: Choice, o: nat)
    requires Inv(s) && Enabled(s, c, ch) && At(s, c, p) && s.procs[p].pc.Wake? && s.procs[p].pc.i < |s.procs|
    requires o < |s.procs| && (o == p || o == s.procs[p].pc.i)
    ensures SameBounds(s, Do(s, c, ch)) && ProcWell(s, Do(s, c, ch), c, o)
  {
    hide Inv, Moved, Do, Enabled, ShapedSpot, ShapedWhy, WhyUnlocks, SpotUnlocks;
    WakeAcquireDoes(s, c, p, ch);
    Here(s, c, p);
    Here(s, c, o);
  }

  lemma WakeAcquireRest(s: State, c: nat, p: nat, ch: Choice, o: nat)
    requires Inv(s) && Enabled(s, c, ch) && At(s, c, p) && s.procs[p].pc.Wake? && s.procs[p].pc.i < |s.procs|
    requires o < |s.procs| && o != p && o != s.procs[p].pc.i
    ensures SameBounds(s, Do(s, c, ch)) && ProcWell(s, Do(s, c, ch), c, o)
  {
    hide Inv, Do, Enabled, CpuOk, OwnerOk, ProcOk, ProcFine, ProcWell, Moved, Serving;
    WakeAcquireDoes(s, c, p, ch);
    Here(s, c, p);
    Here(s, c, o);
    WakeAcquireOwner(s, c, p, o);
    Rest(s, Do(s, c, ch), c, o);
    FineIsWell(s, Do(s, c, ch), c, o);
  }

  lemma WakeAcquireProcs(s: State, c: nat, p: nat, ch: Choice)
    requires Inv(s) && Enabled(s, c, ch) && At(s, c, p) && s.procs[p].pc.Wake? && s.procs[p].pc.i < |s.procs|
    ensures SameBounds(s, Do(s, c, ch)) && forall o | 0 <= o < |s.procs| :: ProcWell(s, Do(s, c, ch), c, o)
  {
    Here(s, c, p);
    hide Inv, Do, Enabled, ProcWell, ProcOk, OwnerOk, Moved, Serving;
    forall o | 0 <= o < |s.procs|
      ensures SameBounds(s, Do(s, c, ch)) && ProcWell(s, Do(s, c, ch), c, o)
    {
      if o == p || o == s.procs[p].pc.i {
        WakeAcquireProc(s, c, p, ch, o);
      } else {
        WakeAcquireRest(s, c, p, ch, o);
      }
    }
  }

  lemma WakeAcquireWell(s: State, c: nat, p: nat, ch: Choice)
    requires Inv(s) && Enabled(s, c, ch) && At(s, c, p) && s.procs[p].pc.Wake? && s.procs[p].pc.i < |s.procs|
    ensures var s' := Do(s, c, ch);
            Holding(s, s', c, p, s.procs[p].pc.l) && ShapedCpu(s'.cpus[c], |s.procs|) && (Shaped(s') ==> CpuOk(s', c))
  {
    hide InnerOk, LockOk, ClaimsApart, Moved, OwnerOk, ProcOk, ProcWell;
    WakeAcquireProcs(s, c, p, ch);
    assert CpuOk(s, c);
  }

  lemma WakeAcquireInv(s: State, c: nat, p: nat, ch: Choice)
    requires Inv(s) && Enabled(s, c, ch) && At(s, c, p) && s.procs[p].pc.Wake? && s.procs[p].pc.i < |s.procs|
    ensures Inv(Do(s, c, ch))
  {
    WakeAcquireWell(s, c, p, ch);
    var s', l := Do(s, c, ch), s.procs[p].pc.l;
    HoldingLocks(s, s', c, p, l);
    Here(s, c, p);
    WakeAcquireDoes(s, c, p, ch);
    hide InnerOk, ClaimsApart, OwnerOk, ProcWell, LockWell, Moved, CpuOk, LockOk, GuardOk, Do, Enabled;
    forall o | 0 <= o < |s.procs| && WillSleep(s'.procs[o]) == Some(l)
      ensures s.locks[l].locked || WakerAt(s', l, o)
    {
      assert ProcOk(s, o);
    }
    WakeData(s, s', c, p, l);
    Parts(s, s', c, p);
  }

  lemma WakeEndWell(s: State, c: nat, p: nat, ch: Choice)
    requires Inv(s) && Enabled(s, c, ch) && At(s, c, p) && s.procs[p].pc.Wake? && s.procs[p].pc.i >= |s.procs|
    ensures var s' := Do(s, c, ch);
            Holding(s, s', c, p, s.procs[p].pc.l) && ShapedCpu(s'.cpus[c], |s.procs|) && (Shaped(s') ==> CpuOk(s', c))
  {
    Here(s, c, p);
    hide InnerOk, LockOk, ClaimsApart, Moved;
    var s' := Do(s, c, ch);
    OthersFine(s, s', c, p);
    forall o | 0 <= o < |s.procs|
      ensures ProcWell(s, s', c, o)
    {
      assert o != p ==> ProcFine(s, s', c, o);
    }
  }

  /** When the waker lets go, nobody waits for the lock unless it has been taken again. */
  lemma WakeEndInv(s: State, c: nat, p: nat, ch: Choice)
    requires Inv(s) && Enabled(s, c, ch) && At(s, c, p) && s.procs[p].pc.Wake? && s.procs[p].pc.i >= |s.procs|
    ensures Inv(Do(s, c, ch))
  {
    WakeEndWell(s, c, p, ch);
    var s', l := Do(s, c, ch), s.procs[p].pc.l;
    HoldingLocks(s, s', c, p, l);
    Here(s, c, p);
    hide InnerOk, ClaimsApart, OwnerOk, ProcWell, LockWell, Moved, CpuOk, LockOk, GuardOk;
    forall o | 0 <= o < |s.procs| && WillSleep(s'.procs[o]) == Some(l)
      ensures s.locks[l].locked || WakerAt(s', l, o)
    {
      assert ProcOk(s, o);
    }
    WakeData(s, s', c, p, l);
    Parts(s, s', c, p);
  }

  lemma WakeCheckDoes(s: State, c: nat, p: nat, ch: Choice)
    requires Enabled(s, c, ch) && At(s, c, p) && s.procs[p].pc.WakeCheck?
    ensures var pc := s.procs[p].pc;
            var t := SetProc(SetCpu(s, c, Shallower(s.cpus[c])), p, s.procs[p].(pc := Wake(pc.l, pc.i + 1)));
            Do(s, c, ch) == if pc.i < |s.procs| then SetProc(t, pc.i, Woken(t.procs[pc.i], pc.l).(lock := None)) else t
  {}

  lemma WakeCheckProc(s: State, c: nat, p: nat, ch: Choice, o: nat)
    requires Inv(s) && Enabled(s, c, ch) && At(s, c, p) && s.procs[p].pc.WakeCheck?
    requires s.procs[p].pc.i < |s.procs| && s.procs[s.procs[p].pc.i].lock == Some(c)
    requires o < |s.procs| && (o == p || o == s.procs[p].pc.i)
    ensures SameBounds(s, Do(s, c, ch)) && ProcWell(s, Do(s, c, ch), c, o)
  {
    hide Inv, Moved, Do, Enabled, ShapedSpot, ShapedWhy, WhyUnlocks, SpotUnlocks;
    WakeCheckDoes(s, c, p, ch);
    Here(s, c, p);
    Here(s, c, o);
  }

  lemma WakeCheckRest(s: State, c: nat, p: nat, ch: Choice, o: nat)
    requires Inv(s) && Enabled(s, c, ch) && At(s, c, p) && s.procs[p].pc.WakeCheck?
    requires s.procs[p].pc.i < |s.procs| && s.procs[s.procs[p].pc.i].lock == Some(c)
    requires o < |s.procs| && o != p && o != s.procs[p].pc.i
    ensures SameBounds(s, Do(s, c, ch)) && ProcWell(s, Do(s, c, ch), c, o)
  {
    hide Inv, Do, Enabled, CpuOk, OwnerOk, ProcOk, ProcFine, ProcWell, Moved, Serving;
    WakeCheckDoes(s, c, p, ch);
    Here(s, c, p);
    Here(s, c, o);
    WakeCheckOwner(s, c, p, o);
    Rest(s, Do(s, c, ch), c, o);
    FineIsWell(s, Do(s, c, ch), c, o);
  }

  lemma WakeCheckProcs(s: State, c: nat, p: nat, ch: Choice)
    requires Inv(s) && Enabled(s, c, ch) && At(s, c, p) && s.procs[p].pc.WakeCheck?
    ensures s.procs[p].pc.i < |s.procs| && s.procs[s.procs[p].pc.i].lock == Some(c)
    ensures SameBounds(s, Do(s, c, ch)) && forall o | 0 <= o < |s.procs| :: ProcWell(s, Do(s, c, ch), c, o)
  {
    Here(s, c, p);
    hide Inv, Do, Enabled, ProcWell, ProcOk, OwnerOk, Moved, Serving;
    assert HeldProc(s, c) == Some(s.procs[p].pc.i);
    forall o | 0 <= o < |s.procs|
      ensures SameBounds(s, Do(s, c, ch)) && ProcWell(s, Do(s, c, ch), c, o)
    {
      if o == p || o == s.procs[p].pc.i {
        WakeCheckProc(s, c, p, ch, o);
      } else {
        WakeCheckRest(s, c, p, ch, o);
      }
    }
  }

  lemma WakeCheckWell(s: State, c: nat, p: nat, ch: Choice)
    requires Inv(s) && Enabled(s, c, ch) && At(s, c, p) && s.procs[p].pc.WakeCheck?
    ensures s.procs[p].pc.i < |s.procs| && s.procs[s.procs[p].pc.i].lock == Some(c)
    ensures var s' := Do(s, c, ch);
            Holding(s, s', c, p, s.procs[p].pc.l) && ShapedCpu(s'.cpus[c], |s.procs|) && (Shaped(s') ==> CpuOk(s', c))
  {
    hide InnerOk, LockOk, ClaimsApart, Moved, OwnerOk, ProcOk, ProcWell;
    WakeCheckProcs(s, c, p, ch);
    assert CpuOk(s, c);
  }

  /** The process just checked is RUNNABLE if it waited for l, and does not go on to sleep: it would
      need the spinlock inside l or its own lock for that, and the waker has both. */
  lemma CheckedIsAwake(s: State, c: nat, p: nat, l: nat, i: nat)
    requires Inv(s) && At(s, c, p) && s.procs[p].pc == WakeCheck(l, i) && i < |s.procs|
    requires s.procs[i].lock == Some(c)
    ensures WillSleep(Woken(s.procs[i], l)) != Some(l)
    ensures WillSleep(s.procs[i]) == Some(l) ==> Woken(s.procs[i], l).state == RUNNABLE
  {
    Here(s, c, p);
    Here(s, c, i);
    var pc := s.procs[i].pc;
    if (pc.SleepAcquire? || pc.SleepRelease? || pc.SleepSet?) && pc.l == l {
      var d :| 0 <= d < |s.cpus| && Claim(s.cpus[d].pc) == Some(i);
      hide InnerOk, LockOk, ClaimsApart, Moved, OwnerOk, ProcOk;
      Here(s, d, i);
    }
  }

  /** After the check, whoever still waits for l has the waker before it. */
  lemma WakeCheckWaits(s: State, c: nat, p: nat, ch: Choice)
    requires Inv(s) && Enabled(s, c, ch) && At(s, c, p) && s.procs[p].pc.WakeCheck?
    requires s.procs[p].pc.i < |s.procs| && s.procs[s.procs[p].pc.i].lock == Some(c) && s.procs[p].pc.l < |s.locks|
    ensures var s', l := Do(s, c, ch), s.procs[p].pc.l;
            && SameBounds(s, s') && SameLock(s.locks[l], s'.locks[l])
            && (forall o | 0 <= o < |s.procs| ::
                  s'.procs[o].guards == s.procs[o].guards && SameWait(s.procs[o], s'.procs[o]))
            && (forall o | 0 <= o < |s.procs| && WillSleep(s'.procs[o]) == Some(l) ::
                  s.locks[l].locked || WakerAt(s', l, o))
  {
    var s', l, i := Do(s, c, ch), s.procs[p].pc.l, s.procs[p].pc.i;
    CheckedIsAwake(s, c, p, l, i);
    WakeCheckDoes(s, c, p, ch);
    hide InnerOk, ClaimsApart, OwnerOk, Moved, LockOk, GuardOk, CpuOk, Do, Enabled;
    forall o | 0 <= o < |s.procs|
      ensures s'.procs[o].guards == s.procs[o].guards && SameWait(s.procs[o], s'.procs[o])
      ensures WillSleep(s'.procs[o]) == Some(l) ==> s.locks[l].locked || WakerAt(s', l, o)
    {
      assert ProcOk(s, o);
    }
  }

  lemma WakeCheckInv(s: State, c: nat, p: nat, ch: Choice)
    requires Inv(s) && Enabled(s, c, ch) && At(s, c, p) && s.procs[p].pc.WakeCheck?
    ensures Inv(Do(s, c, ch))
  {
    var s', l := Do(s, c, ch), s.procs[p].pc.l;
    hide Inv, Do, Enabled, ProcWell, LockWell, WillSleep, WakerAt, SameWait, SameLock, CpuOk;
    hide LockOk, DueOk, GuardsOk, HeldInner;
    WakeCheckWell(s, c, p, ch);
    HoldingLocks(s, s', c, p, l);
    WakeCheckWaits(s, c, p, ch);
    WakeData(s, s', c, p, l);
    WakeCheckClaim(s, c, p, ch);
    Parts(s, s', c, p);
  }

  lemma WakeCheckClaim(s: State, c: nat, p: nat, ch: Choice)
    requires Enabled(s, c, ch) && At(s, c, p) && s.procs[p].pc.WakeCheck?
    ensures c < |Do(s, c, ch).cpus| && Claim(Do(s, c, ch).cpus[c].pc) == Some(p)
  {}
}
