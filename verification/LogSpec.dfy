/** The on-disk layout of the write-ahead log, and what recovery reads out of a disk.

    A disk is a sequence of blocks. A block is a sequence of 32-bit words, so that the
    log header (a length followed by LOGSIZE-1 block numbers) is a prefix of a block. */
module LogSpec {
  const MAXOPBLOCKS: nat := 10
  const LOGSIZE: nat := 30
  const NBUF: nat := 30
  const BLOCK_WORDS: nat := 256
  const HEADER_SLOTS: nat := 29

  function ZeroWords(): seq<nat> {
    seq(BLOCK_WORDS, _ => 0)
  }

  type Block = b: seq<nat> | |b| == BLOCK_WORDS witness ZeroWords()
  type Disk = seq<Block>

  /** Where the log lives: header at `start`, log slots behind it, `size` blocks in all. */
  datatype Layout = Layout(start: nat, size: nat, nblocks: nat) {
    predicate Valid() {
      1 <= size && start + size <= nblocks
    }

    predicate IsHome(b: nat) {
      b < nblocks && !(start <= b < start + size)
    }

    function HomeBlocks(): set<nat> {
      set b | 0 <= b < nblocks && IsHome(b)
    }
  }

  function HeaderLen(b: Block): nat {
    b[0]
  }

  function HeaderSlots(b: Block): (slots: seq<nat>)
    ensures |slots| == HEADER_SLOTS
  {
    b[1..HEADER_SLOTS + 1]
  }

  /** The header struct overlays the first words of the block and keeps the rest. */
  function WithHeader(b: Block, len: nat, slots: seq<nat>): (r: Block)
    requires |slots| == HEADER_SLOTS
    ensures HeaderLen(r) == len && HeaderSlots(r) == slots
    ensures r[HEADER_SLOTS + 1..] == b[HEADER_SLOTS + 1..]
  {
    [len] + slots + b[HEADER_SLOTS + 1..]
  }

  function WithHeaderLen(b: Block, len: nat): (r: Block)
    ensures HeaderLen(r) == len && HeaderSlots(r) == HeaderSlots(b)
  {
    b[0 := len]
  }

  /** The first `len` slots name pairwise distinct home blocks, and the log can hold them. */
  predicate SlotsOk(y: Layout, len: nat, slots: seq<nat>) {
    && len <= |slots| == HEADER_SLOTS
    && (len > 0 ==> len + 1 <= y.size)
    && (forall i | 0 <= i < len :: y.IsHome(slots[i]))
    && (forall i, j | 0 <= i < j < len :: slots[i] != slots[j])
  }

  predicate DiskOk(y: Layout, d: Disk) {
    && y.Valid()
    && |d| == y.nblocks
    && SlotsOk(y, HeaderLen(d[y.start]), HeaderSlots(d[y.start]))
  }

  /** `n` rounds of the copy loop: slot i goes to the home block it names. */
  function InstallUpTo(y: Layout, d: Disk, slots: seq<nat>, n: nat): (r: Disk)
    requires y.Valid() && |d| == y.nblocks && SlotsOk(y, n, slots)
    ensures |r| == |d|
    decreases n
  {
    if n == 0 then d
    else
      var r := InstallUpTo(y, d, slots, n - 1);
      r[slots[n - 1] := r[y.start + n]]
  }

  /** The disk that recovery leaves. */
  function Recovered(y: Layout, d: Disk): (r: Disk)
    requires DiskOk(y, d)
    ensures |r| == |d|
  {
    var h := d[y.start];
    if HeaderLen(h) > 0 then
      InstallUpTo(y, d, HeaderSlots(h), HeaderLen(h))[y.start := WithHeaderLen(h, 0)]
    else
      d
  }

  function HomeOf(y: Layout, d: Disk): (m: map<nat, Block>)
    requires |d| == y.nblocks
    ensures m.Keys == y.HomeBlocks()
  {
    map b | b in y.HomeBlocks() :: d[b]
  }

  /** Home block `b` as the installed disk shows it, without running the loop. */
  ghost predicate InstalledAt(y: Layout, d: Disk, slots: seq<nat>, n: nat, b: nat, v: Block)
    requires y.Valid() && |d| == y.nblocks && SlotsOk(y, n, slots) && y.IsHome(b)
  {
    && (forall i | 0 <= i < n && slots[i] == b :: v == d[y.start + 1 + i])
    && ((forall i | 0 <= i < n :: slots[i] != b) ==> v == d[b])
  }

  lemma {:induction false} InstallUpToAt(y: Layout, d: Disk, slots: seq<nat>, n: nat)
    requires y.Valid() && |d| == y.nblocks && SlotsOk(y, n, slots)
    ensures forall b: nat | y.start <= b < y.start + y.size :: InstallUpTo(y, d, slots, n)[b] == d[b]
    ensures forall b: nat | y.IsHome(b) :: InstalledAt(y, d, slots, n, b, InstallUpTo(y, d, slots, n)[b])
  {
    if n > 0 {
      InstallUpToAt(y, d, slots, n - 1);
    }
  }

  /** What a crash would recover to, home block by home block. */
  ghost predicate RecoversTo(y: Layout, d: Disk, m: map<nat, Block>)
    requires DiskOk(y, d)
  {
    && m.Keys == y.HomeBlocks()
    && forall b | b in m ::
         InstalledAt(y, d, HeaderSlots(d[y.start]), HeaderLen(d[y.start]), b, m[b])
  }

  lemma RecoversToIsRecovered(y: Layout, d: Disk, m: map<nat, Block>)
    requires DiskOk(y, d)
    ensures RecoversTo(y, d, m) <==> HomeOf(y, Recovered(y, d)) == m
  {
    var slots, n := HeaderSlots(d[y.start]), HeaderLen(d[y.start]);
    InstallUpToAt(y, d, slots, n);
    var r := InstallUpTo(y, d, slots, n);
    assert forall b: nat | y.IsHome(b) :: Recovered(y, d)[b] == r[b];
    forall b: nat | y.IsHome(b)
      ensures forall v: Block :: InstalledAt(y, d, slots, n, b, v) <==> v == r[b]
    {
      assert InstalledAt(y, d, slots, n, b, r[b]);
    }
    if RecoversTo(y, d, m) {
      assert forall b | b in m :: m[b] == HomeOf(y, Recovered(y, d))[b];
    }
  }

  /** Writing a logged block at home changes nothing for recovery. */
  lemma HomeWriteRecovers(y: Layout, d: Disk, m: map<nat, Block>, k: nat, data: Block)
    requires DiskOk(y, d) && RecoversTo(y, d, m) && k < HeaderLen(d[y.start])
    ensures var b := HeaderSlots(d[y.start])[k];
            && y.IsHome(b) && DiskOk(y, d[b := data]) && RecoversTo(y, d[b := data], m)
  {
    var slots, n := HeaderSlots(d[y.start]), HeaderLen(d[y.start]);
    var d' := d[slots[k] := data];
    forall c | c in m
      ensures InstalledAt(y, d', slots, n, c, m[c])
    {
      assert InstalledAt(y, d, slots, n, c, m[c]);
    }
  }
}
