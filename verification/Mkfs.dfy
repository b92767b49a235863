/** The image builder: `ialloc`, `iappend` and `balloc` over a disk of blocks. */
module Mkfs {
  import opened PowersOfTwo
  import opened MkfsDisk
  import opened MkfsImage

  /** The inode of the root directory. */
  const ROOTINO := 1

  function Min(a: nat, b: nat): nat {
    if a < b then a else b
  }

  /** Blocks a file of `size` bytes takes when n bytes are appended, indirect block included. */
  function NewBlocks(size: nat, n: nat): nat {
    var before, after := Nblocks(size), Nblocks(size + n);
    (if after >= before then after - before else 0) + (if before <= NDIRECT < after then 1 else 0)
  }

  // ---------- the image while an inode is still in memory ----------

  /** The disk as it will be once inode i is written with words `din` and this size. */
  function Seen(d: Disk, i: nat, din: Inode, size: nat): (r: Disk)
    requires IsDisk(d) && InTable(i) && IsInode(din) && size < WORD
    ensures IsDisk(r)
  {
    TablePlace(i);
    WithInode(d, i, Resize(din, size))
  }

  function Resize(din: Inode, size: nat): (r: Inode)
    requires IsInode(din) && size < WORD
    ensures IsInode(r)
  {
    var r: Inode := din[..2] + [size] + din[3..];
    r
  }

  function SetAddr(din: Inode, k: nat, b: nat): (r: Inode)
    requires IsInode(din) && k <= NDIRECT && b < WORD
    ensures IsInode(r) && r[3 + k] == b && forall m | 0 <= m < IWORDS && m != 3 + k :: r[m] == din[m]
  {
    var r: Inode := din[..3 + k] + [b] + din[3 + k + 1..];
    r
  }

  lemma SeenDef(d: Disk, i: nat, din: Inode, size: nat)
    requires IsDisk(d) && InTable(i) && IsInode(din) && size < WORD
    ensures Seen(d, i, din, size) == WithInode(d, i, Resize(din, size))
  {}

  lemma SeenWords(d: Disk, i: nat, din: Inode, size: nat)
    requires IsDisk(d) && InTable(i) && IsInode(din) && size < WORD
    ensures Size(Seen(d, i, din, size), i) == size
    ensures forall m | 0 <= m < IWORDS && m != 2 :: IWord(Seen(d, i, din, size), i, m) == din[m]
    ensures forall b | BMAPSTART <= b < FSSIZE :: Seen(d, i, din, size)[b] == d[b]
  {
    hide IWord, WithInode;
    forall m | 0 <= m < IWORDS
      ensures IWord(Seen(d, i, din, size), i, m) == Resize(din, size)[m]
    {
      WithInodeAt(d, i, Resize(din, size), i, m);
    }
    forall b | BMAPSTART <= b < FSSIZE
      ensures Seen(d, i, din, size)[b] == d[b]
    {
      WithInodeElsewhere(d, i, Resize(din, size), b);
    }
  }

  /** Data blocks apart, only inode i differs between two such views. */
  lemma SeenOthers(d: Disk, d': Disk, i: nat, din: Inode, din': Inode, size: nat, size': nat)
    requires IsDisk(d) && IsDisk(d') && InTable(i) && IsInode(din) && IsInode(din') && size < WORD && size' < WORD
    requires forall b | 0 <= b < BMAPSTART :: d'[b] == d[b]
    ensures OtherInodesSame(Seen(d, i, din, size), Seen(d', i, din', size'), i)
  {
    var v, v' := Seen(d, i, din, size), Seen(d', i, din', size');
    hide WithInode, GetWord, IBlock, IStart;
    forall k | 0 <= k < ITABLE && k != i
      ensures InodeSame(v, v', k)
    {
      forall m | 0 <= m < IWORDS
        ensures IWord(v', k, m) == IWord(v, k, m)
      {
        WithInodeAt(d, i, Resize(din, size), k, m);
        WithInodeAt(d', i, Resize(din', size'), k, m);
        TablePlace(k);
      }
    }
  }

  // ---------- the three ways to add a block ----------

  /** What adding block f of file i achieves. */
  ghost predicate Added(v: Disk, v': Disk, owner': Owner, free': nat, count: nat, i: nat, f: nat, x: nat) {
    && IsDisk(v) && InTable(i) && f < MAXFILE
    && ImageOk(v', owner', free', count, i, f + 1) && BlockOf(v', i, f) == x < FSSIZE && v'[x] == ZeroBlock()
    && OthersSame(v, v', count, i) && PrefixSame(v, v', i, f * BSIZE)
  }

  /** A new block reads as zeros. */
  lemma NewBlockZero(v: Disk, v': Disk, owner': Owner, free': nat, count: nat, i: nat, f: nat, x: nat, off: nat)
    requires Added(v, v', owner', free', count, i, f, x) && f * BSIZE <= off
    ensures IsDisk(v') && ZeroBehind(v', i, off, (f + 1) * BSIZE)
  {
    hide BlockOf, FileOk, OthersSame, PrefixSame;
    forall a | off <= a < (f + 1) * BSIZE
      ensures ByteOf(v', i, a) == 0
    {
      assert a / BSIZE == f;
    }
  }

  lemma FirstFree(v: Disk, owner: Owner, free: nat, count: nat, i: nat, f: nat)
    requires ImageOk(v, owner, free, count, i, f) && f < MAXFILE
    ensures BlockOf(v, i, f) == 0
            && (f > NDIRECT ==> NMETA <= Addr(v, i, NDIRECT) < free && Owned(owner, Addr(v, i, NDIRECT), Ind(i)))
    ensures f <= NDIRECT ==> Addr(v, i, NDIRECT) == 0
  {
    assert SlotOk(v, owner, i, f, f);
  }

  lemma AddDirect(d: Disk, i: nat, din: Inode, size: nat, owner: Owner, free: nat, count: nat, f: nat)
    requires IsDisk(d) && InTable(i) && IsInode(din) && size < WORD && free < FSSIZE && f < NDIRECT
    requires ImageOk(Seen(d, i, din, size), owner, free, count, i, f)
    ensures Added(Seen(d, i, din, size), Seen(d, i, SetAddr(din, f, free), size), owner[free := Data(i, f)],
                  free + 1, count, i, f, free)
  {
    hide Seen, SetAddr, BlockOf, IWord, FileOk, OtherInodesSame, SlotAdded, PutWord, GetWord, ByteOf, Content, Size;
    var din', owner' := SetAddr(din, f, free), owner[free := Data(i, f)];
    var v, v' := Seen(d, i, din, size), Seen(d, i, din', size);
    SeenWords(d, i, din, size);
    SeenWords(d, i, din', size);
    SeenOthers(d, d, i, din, din', size, size);
    SizeWord(v, v', i);
    DirectAdded(v, v', owner, i, f, free);
    Grown(v, v', owner, owner', free, free + 1, count, i, f, free, {});
  }

  lemma SizeWord(v: Disk, v': Disk, i: nat)
    requires IsDisk(v) && IsDisk(v') && InTable(i) && Size(v, i) == Size(v', i)
    ensures IWord(v', i, 2) == IWord(v, i, 2)
  {}

  /** The words of the indirect block before and after one is filled in. */
  lemma AddIndirect(d: Disk, i: nat, din: Inode, size: nat, owner: Owner, free: nat, count: nat, f: nat)
    requires IsDisk(d) && InTable(i) && IsInode(din) && size < WORD && free < FSSIZE && NDIRECT < f < MAXFILE
    requires ImageOk(Seen(d, i, din, size), owner, free, count, i, f)
    ensures din[15] < FSSIZE && NMETA <= din[15]
    ensures var d' := d[din[15] := PutWord(d[din[15]], f - NDIRECT, free)];
            && IsDisk(d')
            && Added(Seen(d, i, din, size), Seen(d', i, din, size), owner[free := Data(i, f)],
                     free + 1, count, i, f, free)
  {
    hide Seen, SetAddr, BlockOf, IWord, FileOk, OtherInodesSame, SlotAdded, PutWord, GetWord, ByteOf, Content, Size;
    var v := Seen(d, i, din, size);
    SeenWords(d, i, din, size);
    FirstFree(v, owner, free, count, i, f);
    var ib := din[15];
    assert Addr(v, i, NDIRECT) == ib;
    var d' := d[ib := PutWord(d[ib], f - NDIRECT, free)];
    var owner' := owner[free := Data(i, f)];
    var v' := Seen(d', i, din, size);
    SeenWords(d', i, din, size);
    SeenOthers(d, d', i, din, din, size, size);
    IndirectFilled(v, v', i, f, ib, free);
    Grown(v, v', owner, owner', free, free + 1, count, i, f, free, {ib});
  }

  lemma IndirectFilled(v: Disk, v': Disk, i: nat, f: nat, ib: nat, x: nat)
    requires IsDisk(v) && IsDisk(v') && InTable(i) && NDIRECT < f < MAXFILE && NMETA <= ib < FSSIZE && x < FSSIZE
    requires Addr(v, i, NDIRECT) == ib && (forall m | 0 <= m < IWORDS && m != 2 :: IWord(v', i, m) == IWord(v, i, m))
    requires v'[ib] == PutWord(v[ib], f - NDIRECT, x)
    ensures SlotAdded(v, v', i, f, x) && Addr(v', i, NDIRECT) == ib
  {
    hide IWord, GetWord, PutWord;
    assert IWord(v', i, 3 + NDIRECT) == IWord(v, i, 3 + NDIRECT);
    forall k | 0 <= k < NDIRECT
      ensures Addr(v', i, k) == Addr(v, i, k)
    {
      assert IWord(v', i, 3 + k) == IWord(v, i, 3 + k);
    }
    WordRoundTrip(v[ib], f - NDIRECT, x, f - NDIRECT);
    forall g | NDIRECT <= g < MAXFILE && g != f
      ensures BlockOf(v, i, g) == Word(v', ib, g - NDIRECT)
    {
      WordRoundTrip(v[ib], f - NDIRECT, x, g - NDIRECT);
    }
    IndirectAdded(v, v', i, f, ib, x);
  }

  lemma AddFirstIndirect(d: Disk, i: nat, din: Inode, size: nat, owner: Owner, free: nat, count: nat)
    requires IsDisk(d) && InTable(i) && IsInode(din) && size < WORD && free + 1 < FSSIZE
    requires ImageOk(Seen(d, i, din, size), owner, free, count, i, NDIRECT)
    ensures var d' := d[free := PutWord(d[free], 0, free + 1)];
            && IsDisk(d') && GetWord(d[free], 0) == 0
            && Added(Seen(d, i, din, size), Seen(d', i, SetAddr(din, NDIRECT, free), size),
                     owner[free := Ind(i)][free + 1 := Data(i, NDIRECT)], free + 2, count, i, NDIRECT, free + 1)
  {
    hide Seen, SetAddr, BlockOf, IWord, FileOk, OtherInodesSame, SlotAdded, PutWord, GetWord, ByteOf, Content, Size;
    var din' := SetAddr(din, NDIRECT, free);
    var d' := d[free := PutWord(d[free], 0, free + 1)];
    var owner' := owner[free := Ind(i)][free + 1 := Data(i, NDIRECT)];
    var v, v' := Seen(d, i, din, size), Seen(d', i, din', size);
    SeenWords(d, i, din, size);
    SeenWords(d', i, din', size);
    SeenOthers(d, d', i, din, din', size, size);
    FirstFree(v, owner, free, count, i, NDIRECT);
    ZeroWord(0);
    assert d[free] == v[free] == ZeroBlock();
    SizeWord(v, v', i);
    FirstFilled(v, v', i, free);
    Grown(v, v', owner, owner', free, free + 2, count, i, NDIRECT, free + 1, {free});
  }

  lemma FirstFilled(v: Disk, v': Disk, i: nat, ib: nat)
    requires IsDisk(v) && IsDisk(v') && InTable(i) && NMETA <= ib && ib + 1 < FSSIZE
    requires Addr(v, i, NDIRECT) == 0 && Addr(v', i, NDIRECT) == ib
    requires forall m | 0 <= m < IWORDS && m != 3 + NDIRECT :: IWord(v', i, m) == IWord(v, i, m)
    requires v[ib] == ZeroBlock() && v'[ib] == PutWord(v[ib], 0, ib + 1)
    ensures SlotAdded(v, v', i, NDIRECT, ib + 1)
  {
    hide IWord, GetWord, PutWord;
    forall k | 0 <= k < NDIRECT
      ensures Addr(v', i, k) == Addr(v, i, k)
    {
      assert IWord(v', i, 3 + k) == IWord(v, i, 3 + k);
    }
    WordRoundTrip(v[ib], 0, ib + 1, 0);
    forall g | NDIRECT <= g < MAXFILE && g != NDIRECT
      ensures BlockOf(v, i, g) == Word(v', ib, g - NDIRECT)
    {
      WordRoundTrip(v[ib], 0, ib + 1, g - NDIRECT);
      ZeroWord(g - NDIRECT);
    }
    IndirectAdded(v, v', i, NDIRECT, ib, ib + 1);
  }

  // ---------- writing into a block ----------

  function Splice(b: Block, start: nat, chunk: seq<int>): (r: Block)
    requires IsBlock(b) && start + |chunk| <= BSIZE && IsBytes(chunk)
    ensures IsBlock(r)
    ensures forall k | 0 <= k < BSIZE :: r[k] == if start <= k < start + |chunk| then chunk[k - start] else b[k]
  {
    b[..start] + chunk + b[start + |chunk|..]
  }

  predicate IsBytes(p: seq<int>) {
    forall k | 0 <= k < |p| :: 0 <= p[k] < 256
  }

  /** The bytes of file i up to `end`: those of d up to `off`, then `chunk`. */
  ghost predicate Appended(d: Disk, d': Disk, i: nat, off: nat, chunk: seq<int>)
    requires IsDisk(d) && IsDisk(d') && InTable(i)
  {
    forall a | 0 <= a < off + |chunk| :: ByteOf(d', i, a) == if a < off then ByteOf(d, i, a) else chunk[a - off]
  }

  lemma ChunkWritten(d: Disk, i: nat, din: Inode, off: nat, owner: Owner, free: nat, count: nat, f: nat, x: nat,
                     chunk: seq<int>)
    requires IsDisk(d) && InTable(i) && IsInode(din) && f < MAXFILE && f * BSIZE <= off
             && off + |chunk| <= (f + 1) * BSIZE && IsBytes(chunk)
    requires ImageOk(Seen(d, i, din, off), owner, free, count, i, f + 1) && BlockOf(Seen(d, i, din, off), i, f) == x
    requires ZeroBehind(Seen(d, i, din, off), i, off, (f + 1) * BSIZE)
    ensures NMETA <= x < FSSIZE && off + |chunk| < WORD
    ensures var d' := d[x := Splice(d[x], off - f * BSIZE, chunk)];
            var v, v' := Seen(d, i, din, off), Seen(d', i, din, off + |chunk|);
            && ImageOk(v', owner, free, count, i, f + 1) && OthersSame(v, v', count, i)
            && Size(v', i) == off + |chunk| && Appended(v, v', i, off, chunk)
            && ZeroBehind(v', i, off + |chunk|, (f + 1) * BSIZE)
  {
    hide Seen, IWord, FileOk, GetWord, BlockOf, ByteOf, Size;
    var v := Seen(d, i, din, off);
    BlockInRange(v, owner, free, count, i, f);
    var d' := d[x := Splice(d[x], off - f * BSIZE, chunk)];
    var m, v' := Seen(d', i, din, off), Seen(d', i, din, off + |chunk|);
    SeenWords(d, i, din, off);
    SeenWords(d', i, din, off);
    SeenWords(d', i, din, off + |chunk|);
    SeenOthers(d, d', i, din, din, off, off);
    SeenOthers(d', d', i, din, din, off, off + |chunk|);
    SizeWord(v, m, i);
    Written(v, m, owner, free, count, i, f + 1, f, x);
    Resized(m, v', owner, free, count, i, f + 1);
    OthersTrans(v, m, v', count, i);
    forall a | 0 <= a < (f + 1) * BSIZE
      ensures ByteOf(v', i, a)
              == if a < off then ByteOf(v, i, a) else if a < off + |chunk| then chunk[a - off] else 0
    {
      assert ByteOf(v', i, a) == ByteOf(m, i, a);
      ByteWritten(v, m, owner, free, count, i, f, x, off, chunk, a);
    }
  }

  lemma BlockInRange(v: Disk, owner: Owner, free: nat, count: nat, i: nat, f: nat)
    requires ImageOk(v, owner, free, count, i, f + 1) && f < MAXFILE
    ensures NMETA <= BlockOf(v, i, f) < FSSIZE
  {
    assert SlotOk(v, owner, i, f + 1, f);
  }

  lemma ByteWritten(v: Disk, m: Disk, owner: Owner, free: nat, count: nat, i: nat, f: nat, x: nat, off: nat,
                    chunk: seq<int>, a: nat)
    requires ImageOk(v, owner, free, count, i, f + 1) && IsDisk(m) && f < MAXFILE && NMETA <= x < FSSIZE
             && BlockOf(v, i, f) == x
    requires forall g | 0 <= g < MAXFILE :: BlockOf(m, i, g) == BlockOf(v, i, g)
    requires forall g | 0 <= g < f + 1 && g != f :: BlockOf(v, i, g) != x
    requires forall b | NMETA <= b < FSSIZE && b != x :: m[b] == v[b]
    requires f * BSIZE <= off && off + |chunk| <= (f + 1) * BSIZE && IsBytes(chunk)
             && m[x] == Splice(v[x], off - f * BSIZE, chunk)
    requires a < (f + 1) * BSIZE
    ensures ByteOf(m, i, a) == if off <= a < off + |chunk| then chunk[a - off] else ByteOf(v, i, a)
  {
    hide BlockOf, Splice;
    var g := a / BSIZE;
    assert g < f + 1 && a == g * BSIZE + a % BSIZE;
    assert SlotOk(v, owner, i, f + 1, g);
    if g == f {
      assert a % BSIZE == a - f * BSIZE;
    }
  }

  lemma OthersTrans(a: Disk, b: Disk, c: Disk, count: nat, i: nat)
    requires OthersSame(a, b, count, i) && OthersSame(b, c, count, i)
    ensures OthersSame(a, c, count, i)
  {
    hide ByteOf, Size;
    forall k | 1 <= k < count && k != i
      ensures FileSame(a, c, k)
    {
      assert FileSame(a, b, k) && FileSame(b, c, k);
    }
  }

  // ---------- the builder ----------

  /** Every file is sound with the number of blocks its size calls for. */
  ghost predicate Sound(d: Disk, owner: Owner, free: nat, count: nat) {
    && Ground(d, owner, free) && 1 <= count <= ITABLE
    && forall k | 1 <= k < count :: FileOk(d, owner, k, Nblocks(Size(d, k))) && TailZero(d, k)
  }

  /** Reading an inode and looking at the disk through it changes nothing. */
  lemma SeenSelf(d: Disk, i: nat, din: Inode, owner: Owner, free: nat, count: nat)
    requires Sound(d, owner, free, count) && 1 <= i < count && IsInode(din)
             && forall m | 0 <= m < IWORDS :: din[m] == IWord(d, i, m)
    ensures var v := Seen(d, i, din, Size(d, i));
            && ImageOk(v, owner, free, count, i, Nblocks(Size(d, i))) && OthersSame(d, v, count, i)
            && PrefixSame(d, v, i, Size(d, i)) && Size(v, i) == Size(d, i)
            && ZeroBehind(v, i, Size(d, i), Nblocks(Size(d, i)) * BSIZE)
  {
    var v := Seen(d, i, din, Size(d, i));
    hide Seen, FileOk, GetWord, BlockOf, ByteOf, Nblocks, WithInode;
    SeenWords(d, i, din, Size(d, i));
    forall k | 0 <= k < ITABLE
      ensures InodeSame(d, v, k)
    {
      SeenInode(d, i, din, k);
    }
    var n := Nblocks(Size(d, i));
    assert ImageOk(d, owner, free, count, i, n);
    OthersKept(d, v, owner, owner, free, count, i, n, {});
    Untouched(d, v, owner, owner, i, n, {});
    UntouchedBytes(d, v, owner, i, n, {});
    SameContent(d, v, i);
    InBlocks(Size(d, i));
  }

  lemma SeenInode(d: Disk, i: nat, din: Inode, k: nat)
    requires IsDisk(d) && InTable(i) && IsInode(din) && (forall m | 0 <= m < IWORDS :: din[m] == IWord(d, i, m))
             && InTable(k)
    ensures InodeSame(d, Seen(d, i, din, Size(d, i)), k)
  {
    hide WithInode, IWord;
    forall m | 0 <= m < IWORDS
      ensures IWord(Seen(d, i, din, Size(d, i)), k, m) == IWord(d, k, m)
    {
      WithInodeAt(d, i, Resize(din, Size(d, i)), k, m);
    }
  }

  /** Inode i is as it was but for its size and addresses, and every other inode is as it was. */
  ghost predicate InodesKept(d: Disk, d': Disk, i: nat)
    requires IsDisk(d) && IsDisk(d') && InTable(i)
  {
    && OtherInodesSame(d, d', i)
    && IWord(d', i, 0) == IWord(d, i, 0) && IWord(d', i, 1) == IWord(d, i, 1)
  }

  /** The boot block, the super block, the log and the table's other blocks are as they were. */
  predicate MetaKept(d: Disk, d': Disk, i: nat)
    requires IsDisk(d) && IsDisk(d')
  {
    forall b | 0 <= b < NMETA && b != IBlock(i) :: d'[b] == d[b]
  }

  lemma InodeWritten(d0: Disk, d: Disk, i: nat, din: Inode)
    requires IsDisk(d0) && IsDisk(d) && InTable(i) && IsInode(din)
    requires (forall b | 0 <= b < NMETA :: d[b] == d0[b]) && din[0] == IWord(d0, i, 0) && din[1] == IWord(d0, i, 1)
    ensures InodesKept(d0, WithInode(d, i, din), i) && MetaKept(d0, WithInode(d, i, din), i)
  {
    var d' := WithInode(d, i, din);
    assert MetaKept(d0, d', i);
    hide WithInode, GetWord;
    WithInodeAt(d, i, din, i, 0);
    WithInodeAt(d, i, din, i, 1);
    forall k | 0 <= k < ITABLE && k != i
      ensures InodeSame(d0, d', k)
    {
      TablePlace(k);
      forall m | 0 <= m < IWORDS
        ensures IWord(d', k, m) == IWord(d0, k, m)
      {
        WithInodeAt(d, i, din, k, m);
      }
    }
  }

  /** Inode k has this type, no device numbers and one link. */
  predicate Headed(d: Disk, k: nat, kind: nat)
    requires IsDisk(d) && InTable(k)
  {
    IWord(d, k, 0) == kind && IWord(d, k, 1) == 0x1_0000
  }

  /** Inode 1 was taken first. */
  predicate AsTaken(d: Disk, kinds: seq<nat>, k: nat)
    requires IsDisk(d) && InTable(k)
  {
    1 <= k <= |kinds| && Headed(d, k, kinds[k - 1])
  }

  ghost predicate AllHeaded(d: Disk, kinds: seq<nat>, count: nat) {
    && IsDisk(d) && count <= ITABLE && |kinds| + 1 == count
    && forall k | 1 <= k < count :: AsTaken(d, kinds, k)
  }

  lemma StillHeaded(d: Disk, d': Disk, kinds: seq<nat>, count: nat, i: nat)
    requires AllHeaded(d, kinds, count) && IsDisk(d') && InTable(i) && InodesKept(d, d', i)
    ensures AllHeaded(d', kinds, count)
  {
    hide IWord;
    forall k | 1 <= k < count
      ensures AsTaken(d', kinds, k)
    {
      assert AsTaken(d, kinds, k);
      if k != i {
        assert InodeSame(d, d', k);
      }
    }
  }

  lemma MoreHeaded(d: Disk, d': Disk, kinds: seq<nat>, i: nat, kind: nat)
    requires AllHeaded(d, kinds, i) && IsDisk(d') && InTable(i) && OtherInodesSame(d, d', i) && Headed(d', i, kind)
    ensures AllHeaded(d', kinds + [kind], i + 1)
  {
    hide IWord;
    forall k | 1 <= k < i + 1
      ensures AsTaken(d', kinds + [kind], k)
    {
      if k != i {
        assert AsTaken(d, kinds, k) && InodeSame(d, d', k);
      }
    }
  }

  class Image {
    var disk: Disk
    var freeblock: nat
    var freeinode: nat
    ghost var owner: Owner
    /** The types given to `IAlloc` so far. */
    ghost var kinds: seq<nat>

    ghost predicate Valid()
      reads this
    {
      Sound(disk, owner, freeblock, freeinode)
    }

    /** Every inode taken has the type it was taken with and one link. */
    ghost predicate Typed()
      reads this
    {
      AllHeaded(disk, kinds, freeinode)
    }

    /** An image without files, all blocks zero. */
    constructor ()
      ensures Valid() && Typed() && freeinode == 1 && freeblock == NMETA
      ensures forall b | 0 <= b < FSSIZE :: disk[b] == ZeroBlock()
    {
      disk := seq(FSSIZE, _ => ZeroBlock());
      freeblock, freeinode := NMETA, 1;
      owner := map[];
      kinds := [];
    }

    method RInode(i: nat) returns (din: Inode)
      requires IsDisk(disk) && InTable(i)
      ensures IsInode(din) && forall m | 0 <= m < IWORDS :: din[m] == IWord(disk, i, m)
    {
      TablePlace(i);
      var b := disk[IBlock(i)];
      din := [];
      for m := 0 to IWORDS
        invariant |din| == m && forall k | 0 <= k < m :: din[k] == IWord(disk, i, k) && din[k] < WORD
      {
        din := din + [GetWord(b, IStart(i) + m)];
      }
    }

    /** The block for offset off of file i, whose inode is in memory, allocated if need be. Stops the
        program, giving `false`, where it has to read a block behind the end of the image. */
    method BlockFor(i: nat, din0: Inode, off: nat) returns (ok: bool, din: Inode, x: nat)
      requires IsDisk(disk) && InTable(i) && IsInode(din0) && off / BSIZE < MAXFILE && off < WORD
      requires ImageOk(Seen(disk, i, din0, off), owner, freeblock, freeinode, i, Nblocks(off))
      requires ZeroBehind(Seen(disk, i, din0, off), i, off, Nblocks(off) * BSIZE)
      modifies this`disk, this`freeblock, this`owner
      ensures ok <==> old(freeblock) + NewBlocks(off, 1) <= FSSIZE
      ensures ok ==> IsDisk(disk) && IsInode(din) && freeblock == old(freeblock) + NewBlocks(off, 1)
      ensures ok ==>
                var v, v' := Seen(old(disk), i, din0, off), Seen(disk, i, din, off);
                && ImageOk(v', owner, freeblock, freeinode, i, off / BSIZE + 1) && BlockOf(v', i, off / BSIZE) == x
                && OthersSame(v, v', freeinode, i) && PrefixSame(v, v', i, off)
                && ZeroBehind(v', i, off, (off / BSIZE + 1) * BSIZE)
      ensures ok ==> (forall b | 0 <= b < NMETA :: disk[b] == old(disk)[b]) && din[..3] == din0[..3]
    {
      hide Seen, ImageOk, IWord, GetWord, PutWord, BlockOf, ByteOf, SetAddr, FileOk, ZeroBehind;
      ghost var v := Seen(disk, i, din0, off);
      SeenWords(disk, i, din0, off);
      din := din0;
      var f := off / BSIZE;
      BlocksFor(off);
      Lookup(v, disk, i, din, owner, freeblock, freeinode, Nblocks(off), f, off);
      if Nblocks(off) == f + 1 {
        BlockInRange(v, owner, freeblock, freeinode, i, f);
      }
      if f < NDIRECT {
        if din[3 + f] == 0 {
          ghost var b := freeblock;
          din := SetAddr(din, f, freeblock);
          SetAddrIs(din0, f, freeblock);
          freeblock := freeblock + 1;
          if b < FSSIZE {
            AddDirect(disk, i, din0, off, owner, b, freeinode, f);
            owner := owner[b := Data(i, f)];
            NewBlockZero(v, Seen(disk, i, din, off), owner, freeblock, freeinode, i, f, b, off);
          }
        }
        x := din[3 + f];
      } else if din[15] == 0 {
        var ib := freeblock;
        din := SetAddr(din, NDIRECT, ib);
        SetAddrIs(din0, NDIRECT, ib);
        freeblock := freeblock + 1;
        if ib >= FSSIZE {
          return false, din, 0;
        }
        var indirect := disk[din[15]];
        ZeroWord(0);
        WordRoundTrip(indirect, 0, freeblock, 0);
        if ib + 1 < FSSIZE {
          AddFirstIndirect(disk, i, din0, off, owner, ib, freeinode);
        }
        if GetWord(indirect, f - NDIRECT) == 0 {
          indirect := PutWord(indirect, f - NDIRECT, freeblock);
          freeblock := freeblock + 1;
          disk := disk[din[15] := indirect];
        }
        x := GetWord(indirect, f - NDIRECT);
        if x < FSSIZE {
          owner := owner[ib := Ind(i)][x := Data(i, NDIRECT)];
          NewBlockZero(v, Seen(disk, i, din, off), owner, freeblock, freeinode, i, f, x, off);
        }
      } else {
        var indirect := disk[din[15]];
        if GetWord(indirect, f - NDIRECT) == 0 {
          ghost var b, d := freeblock, disk;
          WordRoundTrip(indirect, f - NDIRECT, freeblock, f - NDIRECT);
          indirect := PutWord(indirect, f - NDIRECT, freeblock);
          freeblock := freeblock + 1;
          disk := disk[din[15] := indirect];
          if b < FSSIZE {
            AddIndirect(d, i, din, off, owner, b, freeinode, f);
            owner := owner[b := Data(i, f)];
            NewBlockZero(v, Seen(disk, i, din, off), owner, freeblock, freeinode, i, f, b, off);
          }
        }
        x := GetWord(indirect, f - NDIRECT);
      }
      ok := x < FSSIZE;
    }

    /** Appends `data` to file i. Stops the program, giving `false`, if the file would become too
        large or no block is left. */
    method IAppend(i: nat, data: seq<int>) returns (ok: bool)
      requires Valid() && 1 <= i < freeinode && IsBytes(data)
      modifies this
      ensures ok <==> data == []
                      || (old(Size(disk, i)) + |data| <= MAXFILE * BSIZE
                          && old(freeblock) + NewBlocks(old(Size(disk, i)), |data|) <= FSSIZE)
      ensures ok ==> Valid() && freeinode == old(freeinode)
      ensures ok ==> freeblock == old(freeblock) + NewBlocks(old(Size(disk, i)), |data|)
      ensures ok ==> Content(disk, i) == old(Content(disk, i)) + data
      ensures ok ==> forall k | 1 <= k < freeinode && k != i :: Content(disk, k) == old(Content(disk, k))
      ensures ok ==> InodesKept(old(disk), disk, i) && MetaKept(old(disk), disk, i)
      ensures ok && old(Typed()) ==> Typed() && kinds == old(kinds)
    {
      hide Seen, ImageOk, IWord, GetWord, PutWord, BlockOf, ByteOf, FileOk, Splice, IsBytes, NewBlocks;
      hide OthersSame, Appended, ZeroBehind, InodesKept, MetaKept, AllHeaded;
      ghost var d0, size0 := disk, Size(disk, i);
      var din := RInode(i);
      ghost var din0 := din;
      var off := din[2];
      SeenSelf(disk, i, din, owner, freeblock, freeinode);
      var n: nat, p: nat := |data|, 0;
      SizeBound(disk, owner, freeblock, freeinode, i);
      StartAppend(d0, Seen(disk, i, din, off), i, size0);
      while n > 0
        invariant n + p == |data| && off == size0 + p <= MAXFILE * BSIZE && IsInode(din) && IsDisk(disk)
                  && freeinode == old(freeinode)
        invariant freeblock + NewBlocks(off, n) == old(freeblock) + NewBlocks(size0, |data|)
        invariant ImageOk(Seen(disk, i, din, off), owner, freeblock, freeinode, i, Nblocks(off))
        invariant OthersSame(d0, Seen(disk, i, din, off), freeinode, i)
        invariant Appended(d0, Seen(disk, i, din, off), i, size0, data[..p]) && Size(Seen(disk, i, din, off), i) == off
        invariant ZeroBehind(Seen(disk, i, din, off), i, off, Nblocks(off) * BSIZE)
        invariant (forall b | 0 <= b < NMETA :: disk[b] == d0[b]) && din[..3] == din0[..3] && kinds == old(kinds)
      {
        var fbn := off / BSIZE;
        if fbn >= MAXFILE {
          return false;
        }
        ghost var v := Seen(disk, i, din, off);
        var n1 := Min(n, (fbn + 1) * BSIZE - off);
        StepBlocks(off, n, n1);
        var found: bool, x: nat;
        found, din, x := BlockFor(i, din, off);
        if !found {
          return false;
        }
        ghost var v1 := Seen(disk, i, din, off);
        var chunk := data[p..p + n1];
        ChunkBytes(data, p, n1);
        ChunkWritten(disk, i, din, off, owner, freeblock, freeinode, fbn, x, chunk);
        disk := disk[x := Splice(disk[x], off - fbn * BSIZE, chunk)];
        ghost var v2 := Seen(disk, i, din, off + n1);
        OthersTrans(d0, v, v1, freeinode, i);
        OthersTrans(d0, v1, v2, freeinode, i);
        AppendMore(d0, v, v1, v2, i, size0, data, p, n1);
        n := n - n1;
        off := off + n1;
        p := p + n1;
      }
      NoMore(off);
      ghost var v := Seen(disk, i, din, off);
      SeenDef(disk, i, din, off);
      HeadSame(din0, din, off);
      InodeWritten(d0, disk, i, Resize(din, off));
      disk := WithInode(disk, i, Resize(din, off));
      if old(Typed()) {
        StillHeaded(d0, disk, kinds, freeinode, i);
      }
      SeenIs(d0, disk, old(owner), old(freeblock), owner, freeblock, freeinode, i);
      assert data[..p] == data;
      ContentIs(d0, disk, i, data);
      ContentsSame(d0, disk, freeinode, i);
      ok := true;
    }

    /** Takes the next inode for an empty file of the given type. Nothing tests its number: up to 207
        it is in the table, and beyond that another block is written. Stops the program, giving
        `false`, where that block lies behind the end of the image. */
    method IAlloc(kind: nat) returns (ok: bool, i: nat)
      requires IsDisk(disk) && kind < 0x1_0000
      modifies this`disk, this`freeinode, this`kinds
      ensures i == old(freeinode) && freeinode == i + 1
      ensures ok <==> IBlock(i) < FSSIZE
      ensures ok ==> IsDisk(disk) && forall b | 0 <= b < FSSIZE && b != IBlock(i) :: disk[b] == old(disk)[b]
      ensures ok ==> disk == WithInode(old(disk), i, EmptyInode(kind))
      ensures old(Valid()) ==> ok && (Valid() <==> InTable(i))
      ensures Valid() && old(Valid()) ==> Content(disk, i) == []
      ensures Valid() && old(Valid()) ==> IWord(disk, i, 0) == kind && IWord(disk, i, 1) == 0x1_0000
      ensures Valid() && old(Valid()) ==> forall k | 1 <= k < i :: Content(disk, k) == old(Content(disk, k))
      ensures ok && InTable(i) ==> OtherInodesSame(old(disk), disk, i)
      ensures kinds == old(kinds) + [kind] && (old(Typed()) && InTable(i) ==> Typed())
    {
      hide OtherInodesSame, AllHeaded;
      i := freeinode;
      freeinode := freeinode + 1;
      kinds := kinds + [kind];
      ok := IBlock(i) < FSSIZE;
      if !ok {
        return;
      }
      ghost var d0 := disk;
      disk := WithInode(disk, i, EmptyInode(kind));
      if InTable(i) {
        NewInode(d0, i, kind);
        if AllHeaded(d0, old(kinds), i) {
          MoreHeaded(d0, disk, old(kinds), i, kind);
        }
        if Sound(d0, owner, freeblock, i) {
          FreshInode(d0, owner, freeblock, i, EmptyInode(kind));
        }
      }
    }

    /** Rounds the size of file i up to whole blocks, and by one block more if it is whole already.
        Then its last block is missing; otherwise the file goes on with zeros. */
    method RoundSize(i: nat)
      requires Valid() && 1 <= i < freeinode
      modifies this`disk
      ensures ImageOk(disk, owner, freeblock, freeinode, i, Nblocks(old(Size(disk, i))))
      ensures Size(disk, i) == (old(Size(disk, i)) / BSIZE + 1) * BSIZE
      ensures Valid() <==> old(Size(disk, i)) % BSIZE != 0
      ensures Valid() ==> Content(disk, i) == old(Content(disk, i)) + Zeros(Size(disk, i) - old(Size(disk, i)))
      ensures forall k | 1 <= k < freeinode && k != i :: Content(disk, k) == old(Content(disk, k))
      ensures InodesKept(old(disk), disk, i) && MetaKept(old(disk), disk, i)
      ensures forall m | 0 <= m < IWORDS && m != 2 :: IWord(disk, i, m) == old(IWord(disk, i, m))
    {
      SoundFacts(disk, owner, freeblock, freeinode);
      hide Sound, Seen, ImageOk, IWord, ByteOf, BlockOf, FileOk, Nblocks, OthersSame;
      ghost var d0 := disk;
      var din := RInode(i);
      SizeBound(disk, owner, freeblock, freeinode, i);
      var off := din[2];
      off := (off / BSIZE + 1) * BSIZE;
      SeenDef(disk, i, din, off);
      SeenResized(disk, i, din, owner, freeblock, freeinode, off);
      SeenWords(disk, i, din, off);
      InodeWritten(disk, disk, i, Resize(din, off));
      disk := WithInode(disk, i, Resize(din, off));
      ContentsSame(d0, disk, freeinode, i);
      RoundedSound(d0, disk, owner, freeblock, freeinode, i);
    }

    /** Writes the bitmap: one bit for each of the first `used` blocks. Sizes do not matter; file i
        may have any number n of blocks. */
    method BAlloc(used: nat, ghost i: nat, ghost n: nat)
      requires 1 <= i < freeinode && ImageOk(disk, owner, freeblock, freeinode, i, n) && used == freeblock
      modifies this`disk
      ensures ImageOk(disk, owner, freeblock, freeinode, i, n) && (old(Valid()) <==> Valid())
      ensures forall b | 0 <= b < 8 * BSIZE :: BitSet(disk[BMAPSTART], b) <==> b < used
      ensures forall k | 1 <= k < freeinode :: Content(disk, k) == old(Content(disk, k))
      ensures forall b | 0 <= b < FSSIZE && b != BMAPSTART :: disk[b] == old(disk)[b]
    {
      hide FileOk, BitSet, Sound;
      var buf := ZeroBlock();
      for m := 0 to used
        invariant unchanged(this) && IsBlock(buf) && forall j | 0 <= j < BSIZE :: buf[j] == Filled(m, j)
      {
        NextBit(m);
        buf := buf[m / 8 := OrBit(buf[m / 8], m % 8)];
      }
      BitmapWritten(disk, owner, freeblock, freeinode, i, n, buf);
      forall b | 0 <= b < 8 * BSIZE
        ensures BitSet(buf, b) <==> b < used
      {
        BitIs(buf, used, b);
      }
      disk := disk[BMAPSTART := buf];
    }

    /** The end of the program: the root's size is rounded and the bitmap written. Every block that
        an inode reaches is marked, whatever the root's size was. */
    method Finish()
      requires Valid() && ROOTINO < freeinode
      modifies this`disk
      ensures IsDisk(disk) && Size(disk, ROOTINO) == (old(Size(disk, ROOTINO)) / BSIZE + 1) * BSIZE
      ensures ImageOk(disk, owner, freeblock, freeinode, ROOTINO, Nblocks(old(Size(disk, ROOTINO))))
      ensures Valid() <==> old(Size(disk, ROOTINO)) % BSIZE != 0
      ensures forall i, b: nat | 1 <= i < freeinode && Reaches(disk, i, b) ::
                b < 8 * BSIZE && BitSet(disk[BMAPSTART], b)
      ensures forall k | 1 <= k < freeinode && k != ROOTINO :: Content(disk, k) == old(Content(disk, k))
      ensures Valid() ==> Content(disk, ROOTINO)
                          == old(Content(disk, ROOTINO)) + Zeros(Size(disk, ROOTINO) - old(Size(disk, ROOTINO)))
      ensures OtherInodesSame(old(disk), disk, ROOTINO)
              && forall m | 0 <= m < IWORDS && m != 2 :: IWord(disk, ROOTINO, m) == old(IWord(disk, ROOTINO, m))
      ensures old(Typed()) ==> Typed()
    {
      SoundFacts(disk, owner, freeblock, freeinode);
      hide Sound, FileOk, IWord, Nblocks, BitSet, Reaches, Content;
      ghost var n := Nblocks(Size(disk, ROOTINO));
      RoundSize(ROOTINO);
      ghost var d := disk;
      BAlloc(freeblock, ROOTINO, n);
      SizeIs(d, disk, ROOTINO);
      BitmapInodes(old(disk), d, disk, ROOTINO);
      if old(Typed()) {
        StillHeaded(old(disk), disk, kinds, freeinode, ROOTINO);
      }
      forall i, b: nat | 1 <= i < freeinode && Reaches(disk, i, b)
        ensures b < 8 * BSIZE && BitSet(disk[BMAPSTART], b)
      {
        BitmapMarksReached(disk, owner, freeblock, freeinode, ROOTINO, n, i, b);
      }
    }
  }

  lemma SoundFacts(d: Disk, owner: Owner, free: nat, count: nat)
    requires Sound(d, owner, free, count)
    ensures IsDisk(d) && count <= ITABLE
  {}

  function Zeros(n: nat): (z: seq<int>)
    ensures |z| == n && forall k | 0 <= k < n :: z[k] == 0
  {
    seq(n, _ => 0)
  }

  lemma SizeIs(d: Disk, d': Disk, i: nat)
    requires IsDisk(d) && IsDisk(d') && InTable(i) && Content(d', i) == Content(d, i)
    ensures Size(d', i) == Size(d, i)
  {}

  // ---------- rounding a size ----------

  lemma SeenResized(d: Disk, i: nat, din: Inode, owner: Owner, free: nat, count: nat, size: nat)
    requires Sound(d, owner, free, count) && 1 <= i < count && IsInode(din) && size < WORD
    requires forall m | 0 <= m < IWORDS :: din[m] == IWord(d, i, m)
    ensures var v, n := Seen(d, i, din, size), Nblocks(Size(d, i));
            && ImageOk(v, owner, free, count, i, n) && OthersSame(d, v, count, i)
            && PrefixSame(d, v, i, n * BSIZE) && Size(v, i) == size
  {
    hide Seen, FileOk, GetWord, BlockOf, ByteOf, Nblocks, WithInode, IWord;
    var v0, v := Seen(d, i, din, Size(d, i)), Seen(d, i, din, size);
    SeenWords(d, i, din, size);
    SeenOthers(d, d, i, din, din, Size(d, i), size);
    forall k | 0 <= k < ITABLE && k != i
      ensures InodeSame(d, v, k)
    {
      SeenInode(d, i, din, k);
      assert InodeSame(v0, v, k);
    }
    Resized(d, v, owner, free, count, i, Nblocks(Size(d, i)));
  }

  /** With a block missing the image is not sound; without one the file goes on with zeros. */
  lemma RoundedSound(d: Disk, d': Disk, owner: Owner, free: nat, count: nat, i: nat)
    requires Sound(d, owner, free, count) && 1 <= i < count && OthersSame(d, d', count, i)
    requires ImageOk(d', owner, free, count, i, Nblocks(Size(d, i)))
             && PrefixSame(d, d', i, Nblocks(Size(d, i)) * BSIZE)
    requires Size(d', i) == (Size(d, i) / BSIZE + 1) * BSIZE
    ensures Sound(d', owner, free, count) <==> Size(d, i) % BSIZE != 0
    ensures Size(d, i) % BSIZE != 0 ==> Content(d', i) == Content(d, i) + Zeros(Size(d', i) - Size(d, i))
  {
    hide BlockOf, ByteOf, Content, Nblocks, Size, FileSame, IWord;
    var n := Nblocks(Size(d, i));
    RoundedBlocks(Size(d, i));
    if Size(d, i) % BSIZE != 0 {
      NoTail(d', i);
      SeenIs(d, d', owner, free, owner, free, count, i);
      RoundedContent(d, d', i);
    } else {
      MissingBlock(d', owner, free, i, n);
    }
  }

  lemma RoundedBlocks(size: nat)
    ensures var up := (size / BSIZE + 1) * BSIZE;
            && Nblocks(up) == size / BSIZE + 1 && Nblocks(up) * BSIZE == up
            && Nblocks(size) == (if size % BSIZE != 0 then Nblocks(up) else Nblocks(up) - 1)
  {}

  lemma NoTail(d: Disk, i: nat)
    requires IsDisk(d) && InTable(i) && Nblocks(Size(d, i)) * BSIZE == Size(d, i)
    ensures TailZero(d, i)
  {}

  lemma MissingBlock(d: Disk, owner: Owner, free: nat, i: nat, n: nat)
    requires Ground(d, owner, free) && InTable(i) && FileOk(d, owner, i, n)
    ensures !FileOk(d, owner, i, n + 1)
  {
    hide BlockOf;
    if n < MAXFILE {
      assert SlotOk(d, owner, i, n, n) && !SlotOk(d, owner, i, n + 1, n);
    }
  }

  lemma RoundedContent(d: Disk, d': Disk, i: nat)
    requires IsDisk(d) && IsDisk(d') && InTable(i) && TailZero(d, i)
    requires PrefixSame(d, d', i, Nblocks(Size(d, i)) * BSIZE)
    requires Size(d, i) <= Size(d', i) == Nblocks(Size(d, i)) * BSIZE
    ensures Content(d', i) == Content(d, i) + Zeros(Size(d', i) - Size(d, i))
  {
    hide ByteOf, Size, Nblocks;
    forall a | 0 <= a < Size(d', i)
      ensures Content(d', i)[a] == (Content(d, i) + Zeros(Size(d', i) - Size(d, i)))[a]
    {
      assert Content(d', i)[a] == ByteOf(d', i, a) == ByteOf(d, i, a);
    }
  }

  // ---------- the bitmap ----------

  /** Setting bit k of a byte. */
  function OrBit(x: int, k: nat): int {
    if (x / Pow2(k)) % 2 == 1 then x else x + Pow2(k)
  }

  predicate BitSet(b: Block, n: nat)
    requires IsBlock(b) && n < 8 * BSIZE
  {
    (b[n / 8] / Pow2(n % 8)) % 2 == 1
  }

  /** Byte m once the first n bits are set. */
  function Filled(n: nat, m: nat): (x: int)
    ensures 0 <= x < 256
  {
    if 8 * m + 8 <= n then 255
    else if n <= 8 * m then 0
    else
      var t := n - 8 * m;
      assert Pow2(t) - 1 < 256 by {
        PowMonotone(t, 8);
        assert Pow2(8) == 256 by { Pow2Of8(); }
      }
      Pow2(t) - 1
  }

  lemma Pow2Of8()
    ensures Pow2(8) == 256
  {
    assert Pow2(4) == 16;
    PowAdd(4, 4);
  }

  /** Bit k of 2^t - 1 is set exactly when k < t. */
  lemma OnesBit(t: nat, k: nat)
    ensures ((Pow2(t) - 1) / Pow2(k)) % 2 == 1 <==> k < t
  {
    hide *;
    if k < t {
      PowAdd(t - k, k);
      EvenPower(t - k);
      OneLess(Pow2(t), Pow2(t - k), Pow2(k));
    } else {
      PowMonotone(t, k);
      NoQuotient(Pow2(t) - 1, Pow2(k));
    }
  }

  lemma OneLess(n: nat, q: nat, p: nat)
    requires q >= 1 && p >= 1 && n == q * p && q % 2 == 0
    ensures ((n - 1) / p) % 2 == 1
  {
    assert q * p - 1 == (q - 1) * p + (p - 1);
    MulDiv(q - 1, p, p - 1);
  }

  lemma NoQuotient(n: int, p: nat)
    requires 0 <= n < p
    ensures (n / p) % 2 == 0
  {
    MulDiv(0, p, n);
  }

  lemma EvenPower(n: nat)
    requires n > 0
    ensures Pow2(n) % 2 == 0
  {}

  lemma FilledIs(n: nat, m: nat, k: nat) returns (t: nat)
    requires k < 8
    ensures Filled(n, m) == Pow2(t) - 1 && (k < t <==> 8 * m + k < n)
  {
    Pow2Of8();
    t := if 8 * m + 8 <= n then 8 else if n <= 8 * m then 0 else n - 8 * m;
  }

  lemma NextBit(i: nat)
    requires i < 8 * BSIZE
    ensures i / 8 < BSIZE && OrBit(Filled(i, i / 8), i % 8) == Filled(i + 1, i / 8)
    ensures forall m | 0 <= m < BSIZE && m != i / 8 :: Filled(i + 1, m) == Filled(i, m)
  {
    var m, k := i / 8, i % 8;
    OnesBit(k, k);
    Pow2Of8();
    assert Filled(i, m) == Pow2(k) - 1;
    assert Filled(i + 1, m) == Pow2(k + 1) - 1;
  }

  lemma BitIs(b: Block, n: nat, k: nat)
    requires IsBlock(b) && (forall m | 0 <= m < BSIZE :: b[m] == Filled(n, m)) && k < 8 * BSIZE
    ensures BitSet(b, k) <==> k < n
  {
    hide Filled, Pow2;
    var t := FilledIs(n, k / 8, k % 8);
    OnesBit(t, k % 8);
    assert k == 8 * (k / 8) + k % 8;
  }

  /** No file notices a write to the bitmap. */
  lemma BitmapFile(d: Disk, owner: Owner, free: nat, k: nat, n: nat, buf: Block)
    requires Ground(d, owner, free) && InTable(k) && FileOk(d, owner, k, n) && IsBlock(buf)
    ensures var d' := d[BMAPSTART := buf];
            && IsDisk(d') && FileOk(d', owner, k, n) && Size(d', k) == Size(d, k)
            && Content(d', k) == Content(d, k) && forall a: nat :: ByteOf(d', k, a) == ByteOf(d, k, a)
  {
    var d' := d[BMAPSTART := buf];
    hide BlockOf, GetWord, Content;
    TablePlace(k);
    Untouched(d, d', owner, owner, k, n, {});
    forall a: nat
      ensures ByteOf(d', k, a) == ByteOf(d, k, a)
    {
      if a / BSIZE < MAXFILE {
        assert SlotOk(d, owner, k, n, a / BSIZE);
      }
    }
    AllBytesSame(d, d', k);
  }

  lemma AllBytesSame(d: Disk, d': Disk, k: nat)
    requires IsDisk(d) && IsDisk(d') && InTable(k) && Size(d', k) == Size(d, k)
    requires forall a: nat :: ByteOf(d', k, a) == ByteOf(d, k, a)
    ensures Content(d', k) == Content(d, k) && (TailZero(d, k) <==> TailZero(d', k))
  {
    hide ByteOf, Size;
  }

  /** Nor does any inode. */
  lemma BitmapInodes(d0: Disk, d: Disk, d': Disk, i: nat)
    requires IsDisk(d0) && IsDisk(d) && IsDisk(d') && InTable(i)
    requires OtherInodesSame(d0, d, i) && forall m | 0 <= m < IWORDS && m != 2 :: IWord(d, i, m) == IWord(d0, i, m)
    requires forall b | 0 <= b < FSSIZE && b != BMAPSTART :: d'[b] == d[b]
    ensures InodesKept(d0, d', i)
    ensures forall m | 0 <= m < IWORDS && m != 2 :: IWord(d', i, m) == IWord(d0, i, m)
  {
    forall k, m | 0 <= k < ITABLE && 0 <= m < IWORDS
      ensures IWord(d', k, m) == IWord(d, k, m)
    {
      TablePlace(k);
    }
    hide IWord;
    forall k | 0 <= k < ITABLE && k != i
      ensures InodeSame(d0, d', k)
    {
      assert InodeSame(d0, d, k);
    }
  }

  /** The bitmap block is no file's: whether the image is sound does not change. */
  lemma BitmapWritten(d: Disk, owner: Owner, free: nat, count: nat, i: nat, n: nat, buf: Block)
    requires ImageOk(d, owner, free, count, i, n) && 1 <= i < count && IsBlock(buf)
    ensures var d' := d[BMAPSTART := buf];
            && ImageOk(d', owner, free, count, i, n)
            && (Sound(d', owner, free, count) <==> Sound(d, owner, free, count))
            && forall k | 1 <= k < count :: Content(d', k) == Content(d, k)
  {
    var d' := d[BMAPSTART := buf];
    hide FileOk, Size, Content, ByteOf, Nblocks, TailZero;
    assert d'[BMAPSTART := d[BMAPSTART]] == d;
    forall k | 1 <= k < count
      ensures Size(d', k) == Size(d, k) && Content(d', k) == Content(d, k) && (TailZero(d, k) <==> TailZero(d', k))
      ensures k != i ==> FileOk(d', owner, k, Nblocks(Size(d, k)))
    {
      BitmapFile(d, owner, free, k, if k == i then n else Nblocks(Size(d, k)), buf);
      AllBytesSame(d, d', k);
    }
    BitmapFile(d, owner, free, i, n, buf);
    var m := Nblocks(Size(d, i));
    if FileOk(d, owner, i, m) {
      BitmapFile(d, owner, free, i, m, buf);
    }
    if FileOk(d', owner, i, m) {
      BitmapFile(d', owner, free, i, m, d[BMAPSTART]);
    }
  }

  // ---------- what the finished image promises ----------

  /** Block b holds part of file i, or its indirect addresses. */
  predicate Reaches(d: Disk, i: nat, b: nat)
    requires IsDisk(d) && InTable(i)
  {
    || (b != 0 && b == Addr(d, i, NDIRECT))
    || exists f :: 0 <= f < MAXFILE && BlockOf(d, i, f) == b && b != 0
  }

  /** A file is sound with some number of blocks, the rounded one too. */
  function BlocksOf(d: Disk, r: nat, n: nat, i: nat): nat
    requires IsDisk(d) && InTable(i)
  {
    if i == r then n else Nblocks(Size(d, i))
  }

  lemma ReachedIsOwned(d: Disk, owner: Owner, free: nat, count: nat, r: nat, n: nat, i: nat, b: nat)
    requires ImageOk(d, owner, free, count, r, n) && 1 <= i < count && Reaches(d, i, b)
    ensures NMETA <= b < free && b in owner && owner[b].i == i
  {
    hide BlockOf, Nblocks;
    var m := BlocksOf(d, r, n, i);
    assert FileOk(d, owner, i, m);
    if b != Addr(d, i, NDIRECT) {
      var f :| 0 <= f < MAXFILE && BlockOf(d, i, f) == b && b != 0;
      assert SlotOk(d, owner, i, m, f);
    }
  }

  /** No block is shared between files. */
  lemma NoSharing(d: Disk, owner: Owner, free: nat, count: nat, r: nat, n: nat, i: nat, k: nat, b: nat)
    requires ImageOk(d, owner, free, count, r, n) && 1 <= i < count && 1 <= k < count
    requires Reaches(d, i, b) && Reaches(d, k, b)
    ensures i == k
  {
    ReachedIsOwned(d, owner, free, count, r, n, i, b);
    ReachedIsOwned(d, owner, free, count, r, n, k, b);
  }

  /** Nor used twice inside one. */
  lemma NoReuse(d: Disk, owner: Owner, free: nat, count: nat, r: nat, n: nat, i: nat, f: nat, g: nat)
    requires ImageOk(d, owner, free, count, r, n) && 1 <= i < count && f < g < MAXFILE && BlockOf(d, i, f) != 0
    ensures BlockOf(d, i, f) != BlockOf(d, i, g) && BlockOf(d, i, f) != Addr(d, i, NDIRECT)
  {
    hide BlockOf, Nblocks;
    var m := BlocksOf(d, r, n, i);
    assert FileOk(d, owner, i, m) && SlotOk(d, owner, i, m, f) && SlotOk(d, owner, i, m, g);
  }

  /** The bitmap marks every block that some inode reaches. */
  lemma BitmapMarksReached(d: Disk, owner: Owner, free: nat, count: nat, r: nat, n: nat, i: nat, b: nat)
    requires ImageOk(d, owner, free, count, r, n) && 1 <= i < count && Reaches(d, i, b)
    requires forall m | 0 <= m < 8 * BSIZE :: BitSet(d[BMAPSTART], m) <==> m < free
    ensures b < 8 * BSIZE && BitSet(d[BMAPSTART], b)
  {
    hide BitSet;
    ReachedIsOwned(d, owner, free, count, r, n, i, b);
  }

  /** One link, a size of zero and no blocks. */
  function EmptyInode(kind: nat): (din: Inode)
    requires kind < 0x1_0000
    ensures IsInode(din) && din[0] == kind && din[1] == 0x1_0000 && forall m | 2 <= m < IWORDS :: din[m] == 0
  {
    var din: Inode := [kind, 0x1_0000] + NoAddrs();
    din
  }

  /** The first block taken after the layout is the root's, once something is appended to it. */
  lemma RootIsFirst(d: Disk, owner: Owner, count: nat)
    requires Sound(d, owner, NMETA + 1, count) && ROOTINO < count && Size(d, ROOTINO) > 0
    ensures BlockOf(d, ROOTINO, 0) == NMETA
  {
    hide BlockOf;
    var n := Nblocks(Size(d, ROOTINO));
    assert FileOk(d, owner, ROOTINO, n) && SlotOk(d, owner, ROOTINO, n, 0);
  }

  /** With the root directory there, the inode with number 224 is written over its first entry: the
      entry's inode number becomes the new file's type. */
  lemma RootOverwritten(d: Disk, kind: nat)
    requires IsDisk(d) && BlockOf(d, ROOTINO, 0) == NMETA && kind < 0x1_0000
    ensures IBlock(224) < FSSIZE
    ensures var d' := WithInode(d, 224, EmptyInode(kind));
            ByteOf(d', ROOTINO, 0) == kind % 0x100 && ByteOf(d', ROOTINO, 1) == kind / 0x100
  {
    InodePlace(224);
    TablePlace(ROOTINO);
    var din := EmptyInode(kind);
    var d' := WithInode(d, 224, din);
    hide PutWords, GetWord;
    assert BlockOf(d', ROOTINO, 0) == NMETA;
    PutWordsAt(d[NMETA], 0, din, 0);
    LowBytes(d'[NMETA]);
  }

  lemma LowBytes(b: Block)
    requires IsBlock(b) && GetWord(b, 0) < 0x1_0000
    ensures b[0] == GetWord(b, 0) % 0x100 && b[1] == GetWord(b, 0) / 0x100
  {}

  /** A size of zero and no blocks. */
  function NoAddrs(): (z: seq<nat>)
    ensures |z| == IWORDS - 2 && forall m | 0 <= m < |z| :: z[m] == 0
  {
    seq(IWORDS - 2, _ => 0)
  }

  lemma FreshInode(d: Disk, owner: Owner, free: nat, i: nat, din: Inode)
    requires Sound(d, owner, free, i) && i < ITABLE && IsInode(din) && forall m | 2 <= m < IWORDS :: din[m] == 0
    ensures var d' := WithInode(d, i, din);
            && Sound(d', owner, free, i + 1) && Size(d', i) == 0 && Content(d', i) == []
            && IWord(d', i, 0) == din[0] && IWord(d', i, 1) == din[1]
            && forall k | 1 <= k < i :: Content(d', k) == Content(d, k)
  {
    var d' := WithInode(d, i, din);
    hide WithInode, IWord, GetWord, TailZero, Nblocks;
    forall m | 0 <= m < IWORDS
      ensures IWord(d', i, m) == din[m]
    {
      WithInodeAt(d, i, din, i, m);
    }
    EmptyFile(d', i);
    forall f | 0 <= f < MAXFILE
      ensures SlotOk(d', owner, i, 0, f)
    {
      assert IWord(d', i, 3 + NDIRECT) == 0;
      if f < NDIRECT {
        assert IWord(d', i, 3 + f) == 0;
      }
    }
    forall b | NMETA <= b < FSSIZE
      ensures d'[b] == d[b]
    {
      WithInodeElsewhere(d, i, din, b);
    }
    forall k | 1 <= k < i
      ensures FileOk(d', owner, k, Nblocks(Size(d', k))) && TailZero(d', k) && Content(d', k) == Content(d, k)
    {
      OldInode(d, owner, free, i, din, k);
    }
  }

  lemma NewInode(d: Disk, i: nat, kind: nat)
    requires IsDisk(d) && InTable(i) && kind < 0x1_0000
    ensures IBlock(i) < FSSIZE
    ensures var d' := WithInode(d, i, EmptyInode(kind)); OtherInodesSame(d, d', i) && Headed(d', i, kind)
  {
    TablePlace(i);
    var d' := WithInode(d, i, EmptyInode(kind));
    hide WithInode, GetWord, EmptyInode;
    WithInodeAt(d, i, EmptyInode(kind), i, 0);
    WithInodeAt(d, i, EmptyInode(kind), i, 1);
    forall k | 0 <= k < ITABLE && k != i
      ensures InodeSame(d, d', k)
    {
      forall m | 0 <= m < IWORDS
        ensures IWord(d', k, m) == IWord(d, k, m)
      {
        WithInodeAt(d, i, EmptyInode(kind), k, m);
      }
    }
  }

  lemma EmptyFile(d: Disk, i: nat)
    requires IsDisk(d) && InTable(i) && IWord(d, i, 2) == 0
    ensures Nblocks(Size(d, i)) == 0 && TailZero(d, i) && Content(d, i) == []
  {}

  lemma OldInode(d: Disk, owner: Owner, free: nat, i: nat, din: Inode, k: nat)
    requires Sound(d, owner, free, i) && i < ITABLE && IsInode(din) && 1 <= k < i
    ensures var d' := WithInode(d, i, din);
            FileOk(d', owner, k, Nblocks(Size(d', k))) && TailZero(d', k) && Content(d', k) == Content(d, k)
  {
    var d', n := WithInode(d, i, din), Nblocks(Size(d, k));
    hide WithInode, IWord, GetWord, BlockOf, Nblocks, TailZero;
    forall m | 0 <= m < IWORDS
      ensures IWord(d', k, m) == IWord(d, k, m)
    {
      WithInodeAt(d, i, din, k, m);
    }
    forall b | NMETA <= b < FSSIZE
      ensures d'[b] == d[b]
    {
      WithInodeElsewhere(d, i, din, b);
    }
    assert FileOk(d, owner, k, n);
    Untouched(d, d', owner, owner, k, n, {});
    UntouchedBytes(d, d', owner, k, n, {});
    SameContent(d, d', k);
  }

  lemma SizeBound(d: Disk, owner: Owner, free: nat, count: nat, i: nat)
    requires Sound(d, owner, free, count) && 1 <= i < count
    ensures Size(d, i) <= MAXFILE * BSIZE
  {
    assert FileOk(d, owner, i, Nblocks(Size(d, i)));
  }

  lemma StartAppend(d: Disk, v: Disk, i: nat, size: nat)
    requires IsDisk(d) && IsDisk(v) && InTable(i) && PrefixSame(d, v, i, size)
    ensures Appended(d, v, i, size, [])
  {}

  /** The blocks needed for n bytes are those for the first n1 and those for the rest. */
  lemma StepBlocks(off: nat, n: nat, n1: nat)
    requires n > 0 && n1 == Min(n, (off / BSIZE + 1) * BSIZE - off)
    ensures 1 <= n1 <= n && NewBlocks(off, n) == NewBlocks(off, 1) + NewBlocks(off + n1, n - n1)
    ensures Nblocks(off + n1) == off / BSIZE + 1 && off + n1 <= (off / BSIZE + 1) * BSIZE
    ensures off / BSIZE * BSIZE <= off
  {
    BlocksFor(off);
    var f := off / BSIZE;
    assert Nblocks(off + n1) == f + 1;
    assert Nblocks(off + n) >= f + 1;
  }

  lemma NoMore(off: nat)
    ensures NewBlocks(off, 0) == 0
  {}

  lemma ChunkBytes(data: seq<int>, p: nat, n1: nat)
    requires IsBytes(data) && p + n1 <= |data|
    ensures IsBytes(data[p..p + n1]) && |data[p..p + n1]| == n1
  {}

  lemma AppendMore(d0: Disk, v: Disk, v1: Disk, v2: Disk, i: nat, size0: nat, data: seq<int>, p: nat, n1: nat)
    requires IsDisk(d0) && IsDisk(v) && IsDisk(v1) && IsDisk(v2) && InTable(i) && p + n1 <= |data|
    requires Appended(d0, v, i, size0, data[..p]) && PrefixSame(v, v1, i, size0 + p)
             && Appended(v1, v2, i, size0 + p, data[p..p + n1])
    ensures Appended(d0, v2, i, size0, data[..p + n1])
  {
    hide ByteOf;
    forall a | 0 <= a < size0 + p + n1
      ensures ByteOf(v2, i, a) == if a < size0 then ByteOf(d0, i, a) else data[..p + n1][a - size0]
    {
      if a < size0 + p {
        assert ByteOf(v2, i, a) == ByteOf(v1, i, a) == ByteOf(v, i, a);
      }
    }
  }

  lemma SeenIs(d0: Disk, d: Disk, owner0: Owner, free0: nat, owner: Owner, free: nat, count: nat, i: nat)
    requires Sound(d0, owner0, free0, count) && OthersSame(d0, d, count, i) && 1 <= i < count
    requires ImageOk(d, owner, free, count, i, Nblocks(Size(d, i))) && TailZero(d, i)
    ensures Sound(d, owner, free, count)
  {
    hide TailZero, FileOk, FileSame, Content, Size, Nblocks;
    forall k | 1 <= k < count
      ensures FileOk(d, owner, k, Nblocks(Size(d, k))) && TailZero(d, k)
    {
      if k != i {
        SameContent(d0, d, k);
      }
    }
  }

  lemma ContentIs(d0: Disk, d: Disk, i: nat, data: seq<int>)
    requires IsDisk(d0) && IsDisk(d) && InTable(i) && Size(d, i) == Size(d0, i) + |data|
             && Appended(d0, d, i, Size(d0, i), data)
    ensures Content(d, i) == Content(d0, i) + data
  {
    hide ByteOf, Size;
    forall a | 0 <= a < Size(d, i)
      ensures Content(d, i)[a] == (Content(d0, i) + data)[a]
    {
      assert Content(d, i)[a] == ByteOf(d, i, a);
    }
  }

  lemma ContentsSame(d0: Disk, d: Disk, count: nat, i: nat)
    requires OthersSame(d0, d, count, i)
    ensures forall k | 1 <= k < count && k != i :: Content(d, k) == Content(d0, k)
  {
    hide ByteOf, Size, Content;
    forall k | 1 <= k < count && k != i
      ensures Content(d, k) == Content(d0, k)
    {
      SameContent(d0, d, k);
    }
  }

  lemma HeadSame(din0: Inode, din: Inode, size: nat)
    requires IsInode(din0) && IsInode(din) && size < WORD && din[..3] == din0[..3]
    ensures Resize(din, size)[0] == din0[0] && Resize(din, size)[1] == din0[1]
  {
    assert din[..3][0] == din0[..3][0] && din[..3][1] == din0[..3][1];
  }

  lemma SetAddrIs(din: Inode, k: nat, b: nat)
    requires IsInode(din) && k <= NDIRECT && b < WORD
    ensures SetAddr(din, k, b)[3 + k] == b && SetAddr(din, k, b)[..3] == din[..3]
  {}

  /** How many blocks a byte at `off` needs. */
  lemma BlocksFor(off: nat)
    ensures var f := off / BSIZE;
            && (off % BSIZE == 0 ==> Nblocks(off) == f && off == f * BSIZE && Nblocks(off + 1) == f + 1)
            && (off % BSIZE != 0 ==> Nblocks(off) == f + 1 == Nblocks(off + 1))
            && f * BSIZE <= off < (f + 1) * BSIZE
            && NewBlocks(off, 1) == (if off % BSIZE != 0 then 0 else if f == NDIRECT then 2 else 1)
  {}

  /** The addresses in memory say what the file has. */
  lemma Lookup(v: Disk, d: Disk, i: nat, din: Inode, owner: Owner, free: nat, count: nat, n: nat, f: nat, off: nat)
    requires IsDisk(d) && InTable(i) && IsInode(din) && off < WORD && v == Seen(d, i, din, off)
             && ImageOk(v, owner, free, count, i, n)
    requires f < MAXFILE && (n == f || n == f + 1)
    ensures f < NDIRECT ==> BlockOf(v, i, f) == din[3 + f]
    ensures f >= NDIRECT ==> (din[15] == 0 <==> n == NDIRECT) && (din[15] != 0 ==> NMETA <= din[15] < FSSIZE)
    ensures f >= NDIRECT && din[15] != 0 ==> BlockOf(v, i, f) == GetWord(d[din[15]], f - NDIRECT)
    ensures BlockOf(v, i, f) == 0 <==> n == f
    ensures Ground(v, owner, free) && OthersSame(v, v, count, i)
  {
    hide IWord, GetWord, Seen;
    SeenWords(d, i, din, off);
    assert IWord(v, i, 3 + NDIRECT) == din[15];
    assert SlotOk(v, owner, i, n, f);
    if f < NDIRECT {
      assert IWord(v, i, 3 + f) == din[3 + f];
    }
  }
}
