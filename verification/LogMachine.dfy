/** The write-ahead log over the block cache as one state machine.

    Every spinlock-protected section, every disk transfer and every pin or unpin is one
    step; file-system operations, readers and the committing (or recovering) thread
    interleave freely, and a crash may come between any two steps. */
module LogMachine {
  import opened Options
  import opened LogSpec

  /** Who asked for a buffer. `Committer` is also the thread that runs recovery at boot. */
  datatype Agent = Op(id: nat) | Reader | Committer

  /** One call of `bread`: it counts one reference until its buffer is dropped. */
  datatype Handle = Handle(agent: Agent, id: nat)

  /** A cache slot. `users` are the handles behind `refcnt`, `owner` holds the sleep lock,
      and `dirty` says the owner changed the data and has neither logged nor written it. */
  datatype Entry = Entry(
    target: Option<nat>, refcnt: nat, valid: bool, data: Block,
    users: set<Handle>, owner: Option<Handle>, dirty: bool)

  /** Program counter of the committing or recovering thread. */
  datatype Phase =
    | Boot
    | Idle
    | WriteLog(k: nat)
    | WriteHead
    | Install(k: nat, written: bool)
    | EmptyHead
    | Finish

  datatype LogRecord = LogRecord(op: nat, b: nat, data: Block)

  /** `ops` maps each outstanding operation to the number of fresh blocks it has logged.
      `groups` are the home states after each committed group, the oldest first, and
      `pending` the log writes since the last of them. */
  datatype State = State(
    disk: Disk, cache: seq<Entry>,
    len: nat, slots: seq<nat>, ops: map<nat, nat>, outstanding: nat, committing: bool,
    phase: Phase, recovering: bool,
    groups: seq<map<nat, Block>>, pending: seq<LogRecord>)

  datatype Step =
    | Bget(h: Handle, i: nat, b: nat)
    | Lock(h: Handle, i: nat)
    | Fill(h: Handle, i: nat)
    | Modify(h: Handle, i: nat, data: Block)
    | LogWrite(h: Handle, i: nat)
    | Unlock(h: Handle, i: nat)
    | Brelse(h: Handle, i: nat)
    | BeginOp(o: nat)
    | EndOp(o: nat)
    | CopyToSlot(h: Handle, i: nat, h2: Handle, i2: nat)
    | WriteSlot(h: Handle, i: nat)
    | SlotsDone
    | CopyHeader(h: Handle, i: nat)
    | WriteHeader(h: Handle, i: nat)
    | CopyToHome(h: Handle, i: nat, h2: Handle, i2: nat)
    | WriteHome(h: Handle, i: nat)
    | Unpin(h: Handle, i: nat)
    | HomesDone
    | ClearHeader(h: Handle, i: nat)
    | WriteCleared(h: Handle, i: nat)
    | FinishCommit
    | ReadHeader(h: Handle, i: nat)
    | Crash

  // ---------- the code's own tests ----------

  /** `begin_op` goes on only past this test. */
  predicate Admits(s: State) {
    !s.committing && 1 + s.len + (s.outstanding + 1) * MAXOPBLOCKS <= LOGSIZE
  }

  predicate IsLogged(s: State, b: nat)
    requires s.len <= |s.slots|
  {
    exists j :: 0 <= j < s.len && s.slots[j] == b
  }

  /** One of the three panics of a log write of block `b`. */
  predicate LogWritePanics(y: Layout, s: State, b: nat)
    requires s.len <= |s.slots|
  {
    || s.len + 1 >= LOGSIZE || s.len + 1 >= y.size
    || s.outstanding < 1
    || (!IsLogged(s, b) && (s.len + 2 >= LOGSIZE || s.len + 2 >= y.size))
  }

  predicate UnpinPanics(e: Entry) {
    e.refcnt <= 1
  }

  // ---------- the steps ----------

  predicate Holds(s: State, h: Handle, i: nat) {
    i < |s.cache| && s.cache[i].owner == Some(h)
  }

  predicate HoldsBlock(s: State, h: Handle, i: nat, b: nat) {
    Holds(s, h, i) && s.cache[i].valid && s.cache[i].target == Some(b)
  }

  predicate IsCached(s: State, b: nat) {
    exists i :: 0 <= i < |s.cache| && s.cache[i].target == Some(b)
  }

  predicate Shape(y: Layout, s: State) {
    y.Valid() && |s.disk| == y.nblocks && |s.slots| == HEADER_SLOTS && s.len <= HEADER_SLOTS
  }

  predicate Enabled(y: Layout, s: State, step: Step)
    requires Shape(y, s)
  {
    match step
    case Bget(h, i, b) =>
      && b < y.nblocks && i < |s.cache| && h !in s.cache[i].users
      && (s.cache[i].target == Some(b) || (!IsCached(s, b) && s.cache[i].refcnt == 0))
    case Lock(h, i) =>
      i < |s.cache| && h in s.cache[i].users && s.cache[i].owner.None?
    case Fill(h, i) =>
      && Holds(s, h, i) && !s.cache[i].valid
      && s.cache[i].target.Some? && s.cache[i].target.value < y.nblocks
    case Modify(h, i, data) =>
      && Holds(s, h, i) && s.cache[i].valid
      && h.agent.Op? && h.agent.id in s.ops
      && s.cache[i].target.Some? && y.IsHome(s.cache[i].target.value)
    case LogWrite(h, i) => CanLogWrite(y, s, h, i)
    case Unlock(h, i) =>
      Holds(s, h, i) && !s.cache[i].dirty
    case Brelse(h, i) =>
      i < |s.cache| && h in s.cache[i].users && s.cache[i].owner != Some(h) && s.cache[i].refcnt > 0
    case BeginOp(o) =>
      s.phase != Boot && !s.recovering && o !in s.ops && Admits(s)
    case EndOp(o) =>
      && o in s.ops && s.outstanding > 0 && !s.committing
      && forall i | 0 <= i < |s.cache| && s.cache[i].dirty :: !OwnedByOp(s.cache[i], o)
    case CopyToSlot(h, i, h2, i2) =>
      && s.phase.WriteLog? && s.phase.k < s.len && h.agent.Committer?
      && HoldsBlock(s, h, i, y.start + 1 + s.phase.k)
      && HoldsBlock(s, h2, i2, s.slots[s.phase.k])
      && h2.agent.Committer?
    case WriteSlot(h, i) =>
      && s.phase.WriteLog? && s.phase.k < s.len && h.agent.Committer?
      && y.start + 1 + s.phase.k < y.nblocks
      && HoldsBlock(s, h, i, y.start + 1 + s.phase.k) && s.cache[i].dirty
    case SlotsDone =>
      s.phase.WriteLog? && s.phase.k == s.len
    case CopyHeader(h, i) =>
      s.phase.WriteHead? && h.agent.Committer? && HoldsBlock(s, h, i, y.start)
    case WriteHeader(h, i) =>
      && s.phase.WriteHead? && h.agent.Committer?
      && HoldsBlock(s, h, i, y.start) && s.cache[i].dirty && |s.groups| > 0
    case CopyToHome(h, i, h2, i2) =>
      && s.phase.Install? && !s.phase.written && s.phase.k < s.len && h.agent.Committer?
      && HoldsBlock(s, h, i, s.slots[s.phase.k])
      && HoldsBlock(s, h2, i2, y.start + 1 + s.phase.k)
      && h2.agent.Committer?
    case WriteHome(h, i) =>
      && s.phase.Install? && !s.phase.written && s.phase.k < s.len && h.agent.Committer?
      && s.slots[s.phase.k] < y.nblocks
      && HoldsBlock(s, h, i, s.slots[s.phase.k]) && s.cache[i].dirty
    case Unpin(h, i) =>
      && s.phase.Install? && s.phase.written && s.phase.k < s.len && h.agent.Committer?
      && HoldsBlock(s, h, i, s.slots[s.phase.k]) && !UnpinPanics(s.cache[i])
    case HomesDone =>
      s.phase.Install? && !s.phase.written && s.phase.k == s.len
    case ClearHeader(h, i) =>
      s.phase.EmptyHead? && h.agent.Committer? && HoldsBlock(s, h, i, y.start)
    case WriteCleared(h, i) =>
      && s.phase.EmptyHead? && h.agent.Committer?
      && HoldsBlock(s, h, i, y.start) && s.cache[i].dirty
    case FinishCommit =>
      s.phase.Finish?
    case ReadHeader(h, i) =>
      && s.phase.Boot? && h.agent.Committer? && HoldsBlock(s, h, i, y.start)
      && HeaderLen(s.cache[i].data) <= HEADER_SLOTS
    case Crash => |s.groups| > 0
  }

  predicate CanLogWrite(y: Layout, s: State, h: Handle, i: nat)
    requires s.len <= |s.slots|
  {
    && Holds(s, h, i) && s.cache[i].valid
    && h.agent.Op? && h.agent.id in s.ops
    && s.cache[i].target.Some? && y.IsHome(s.cache[i].target.value)
    && !LogWritePanics(y, s, s.cache[i].target.value)
  }

  predicate OwnedByOp(e: Entry, o: nat) {
    e.owner.Some? && e.owner.value.agent == Op(o)
  }

  function EmptyEntry(): Entry {
    Entry(None, 0, false, ZeroWords(), {}, None, false)
  }

  function WithEntry(s: State, i: nat, e: Entry): State
    requires i < |s.cache|
  {
    s.(cache := s.cache[i := e])
  }

  function DoBget(s: State, h: Handle, i: nat, b: nat): State
    requires i < |s.cache|
  {
    var e := s.cache[i];
    WithEntry(s, i,
      if e.target == Some(b) then e.(refcnt := e.refcnt + 1, users := e.users + {h})
      else e.(target := Some(b), refcnt := e.refcnt + 1, valid := false, users := e.users + {h}))
  }

  function DoLogWrite(s: State, h: Handle, i: nat): State
    requires i < |s.cache| && s.cache[i].target.Some? && h.agent.Op? && h.agent.id in s.ops
    requires |s.slots| == HEADER_SLOTS && s.len < HEADER_SLOTS
  {
    var e := s.cache[i];
    var b := e.target.value;
    var record := LogRecord(h.agent.id, b, e.data);
    if IsLogged(s, b) then
      WithEntry(s, i, e.(dirty := false)).(pending := s.pending + [record])
    else
      WithEntry(s, i, e.(dirty := false, refcnt := e.refcnt + 1))
      .(pending := s.pending + [record],
        slots := s.slots[s.len := b], len := s.len + 1,
        ops := s.ops[h.agent.id := s.ops[h.agent.id] + 1])
  }

  function DoEndOp(s: State, o: nat): State
    requires s.outstanding > 0
  {
    var t := s.(outstanding := s.outstanding - 1, ops := s.ops - {o});
    if t.outstanding == 0 then
      t.(committing := true, phase := if s.len > 0 then WriteLog(0) else Finish)
    else t
  }

  function DoReadHeader(s: State, i: nat): State
    requires i < |s.cache|
  {
    var h := s.cache[i].data;
    s.(len := HeaderLen(h), slots := HeaderSlots(h),
       recovering := HeaderLen(h) > 0,
       phase := if HeaderLen(h) > 0 then Install(0, false) else Idle)
  }

  function DoCrash(s: State): State {
    s.(cache := seq(NBUF, _ => EmptyEntry()),
       len := 0, slots := seq(HEADER_SLOTS, _ => 0), ops := map[], outstanding := 0,
       committing := false, phase := Boot, recovering := true, pending := [])
  }

  function Do(y: Layout, s: State, step: Step): State
    requires Shape(y, s) && Enabled(y, s, step)
  {
    match step
    case Bget(h, i, b) => DoBget(s, h, i, b)
    case Lock(h, i) => WithEntry(s, i, s.cache[i].(owner := Some(h)))
    case Fill(h, i) =>
      WithEntry(s, i, s.cache[i].(data := s.disk[s.cache[i].target.value], valid := true))
    case Modify(h, i, data) => WithEntry(s, i, s.cache[i].(data := data, dirty := true))
    case LogWrite(h, i) => DoLogWrite(s, h, i)
    case Unlock(h, i) => WithEntry(s, i, s.cache[i].(owner := None))
    case Brelse(h, i) =>
      WithEntry(s, i, s.cache[i].(users := s.cache[i].users - {h}, refcnt := s.cache[i].refcnt - 1))
    case BeginOp(o) => s.(outstanding := s.outstanding + 1, ops := s.ops[o := 0])
    case EndOp(o) => DoEndOp(s, o)
    case CopyToSlot(h, i, h2, i2) =>
      WithEntry(s, i, s.cache[i].(data := s.cache[i2].data, dirty := true))
    case WriteSlot(h, i) =>
      WithEntry(s, i, s.cache[i].(dirty := false))
      .(disk := s.disk[y.start + 1 + s.phase.k := s.cache[i].data], phase := WriteLog(s.phase.k + 1))
    case SlotsDone => s.(phase := WriteHead)
    case CopyHeader(h, i) =>
      WithEntry(s, i, s.cache[i].(data := WithHeader(s.cache[i].data, s.len, s.slots), dirty := true))
    case WriteHeader(h, i) =>
      WithEntry(s, i, s.cache[i].(dirty := false))
      .(disk := s.disk[y.start := s.cache[i].data], phase := Install(0, false),
        groups := s.groups + [Current(s)], pending := [])
    case CopyToHome(h, i, h2, i2) =>
      WithEntry(s, i, s.cache[i].(data := s.cache[i2].data, dirty := true))
    case WriteHome(h, i) =>
      WithEntry(s, i, s.cache[i].(dirty := false))
      .(disk := s.disk[s.slots[s.phase.k] := s.cache[i].data],
        phase := if s.recovering then Install(s.phase.k + 1, false) else Install(s.phase.k, true))
    case Unpin(h, i) =>
      WithEntry(s, i, s.cache[i].(refcnt := s.cache[i].refcnt - 1))
      .(phase := Install(s.phase.k + 1, false))
    case HomesDone => s.(phase := EmptyHead, len := 0)
    case ClearHeader(h, i) =>
      WithEntry(s, i, s.cache[i].(data := WithHeaderLen(s.cache[i].data, 0), dirty := true))
    case WriteCleared(h, i) =>
      WithEntry(s, i, s.cache[i].(dirty := false))
      .(disk := s.disk[y.start := s.cache[i].data],
        phase := if s.recovering then Idle else Finish, recovering := false)
    case FinishCommit => s.(phase := Idle, committing := false)
    case ReadHeader(h, i) => DoReadHeader(s, i)
    case Crash => DoCrash(s)
  }

  // ---------- what the state means ----------

  function Apply(m: map<nat, Block>, records: seq<LogRecord>): map<nat, Block> {
    if records == [] then m
    else
      var last := |records| - 1;
      Apply(m, records[..last])[records[last].b := records[last].data]
  }

  /** The home blocks as operations see them: the last committed group plus what has been
      logged since. */
  function Current(s: State): map<nat, Block>
    requires |s.groups| > 0
  {
    Apply(s.groups[|s.groups| - 1], s.pending)
  }

  function Committed(s: State): map<nat, Block>
    requires |s.groups| > 0
  {
    s.groups[|s.groups| - 1]
  }

  predicate Init(y: Layout, s: State) {
    && DiskOk(y, s.disk)
    && s == DoCrash(s)
    && s.groups == [HomeOf(y, Recovered(y, s.disk))]
  }
}
