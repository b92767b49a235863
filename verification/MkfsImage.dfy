/** Files in an image: the blocks an inode reaches, who owns which block, and what adding a
    block or writing into one does. */
module MkfsImage {
  import opened MkfsDisk

  /** What a data block is for: block f of file i, or the indirect block of file i. */
  datatype Use = Data(i: nat, f: nat) | Ind(i: nat)

  type Owner = map<nat, Use>

  // ---------- reading a file ----------

  function Size(d: Disk, i: nat): nat
    requires IsDisk(d) && InTable(i)
  {
    IWord(d, i, 2)
  }

  function Addr(d: Disk, i: nat, k: nat): nat
    requires IsDisk(d) && InTable(i) && k <= NDIRECT
  {
    IWord(d, i, 3 + k)
  }

  /** The block that holds block f of file i, 0 if there is none. */
  function BlockOf(d: Disk, i: nat, f: nat): nat
    requires IsDisk(d) && InTable(i) && f < MAXFILE
  {
    if f < NDIRECT then Addr(d, i, f)
    else if Addr(d, i, NDIRECT) == 0 || Addr(d, i, NDIRECT) >= FSSIZE then 0
    else Word(d, Addr(d, i, NDIRECT), f - NDIRECT)
  }

  /** The byte at offset a, read through direct and indirect addresses. */
  function ByteOf(d: Disk, i: nat, a: nat): int
    requires IsDisk(d) && InTable(i)
  {
    if a / BSIZE < MAXFILE && BlockOf(d, i, a / BSIZE) < FSSIZE then d[BlockOf(d, i, a / BSIZE)][a % BSIZE] else 0
  }

  function Content(d: Disk, i: nat): (s: seq<int>)
    requires IsDisk(d) && InTable(i)
    ensures |s| == Size(d, i) && forall a | 0 <= a < |s| :: s[a] == ByteOf(d, i, a)
  {
    seq(Size(d, i), a requires 0 <= a => ByteOf(d, i, a))
  }

  // ---------- who owns which block ----------

  function Nblocks(size: nat): nat {
    (size + BSIZE - 1) / BSIZE
  }

  predicate Owned(owner: Owner, b: nat, use: Use) {
    b in owner && owner[b] == use
  }

  predicate SlotOk(d: Disk, owner: Owner, i: nat, n: nat, f: nat)
    requires IsDisk(d) && InTable(i) && f < MAXFILE
  {
    if f < n then Owned(owner, BlockOf(d, i, f), Data(i, f)) else BlockOf(d, i, f) == 0
  }

  /** File i has exactly its first n blocks, and each block and the indirect block is its own. */
  ghost predicate FileOk(d: Disk, owner: Owner, i: nat, n: nat)
    requires IsDisk(d) && InTable(i)
  {
    && n <= MAXFILE
    && (forall f | 0 <= f < MAXFILE :: SlotOk(d, owner, i, n, f))
    && (if n > NDIRECT then Owned(owner, Addr(d, i, NDIRECT), Ind(i)) else Addr(d, i, NDIRECT) == 0)
  }

  /** Owned blocks are data blocks below `free`; the blocks from there on are zero. */
  ghost predicate Ground(d: Disk, owner: Owner, free: nat) {
    && IsDisk(d) && NMETA <= free <= FSSIZE
    && (forall b | b in owner :: NMETA <= b < free)
    && (forall b | free <= b < FSSIZE :: d[b] == ZeroBlock())
  }

  /** All files below `count` are sound; file i is taken to have n blocks. */
  ghost predicate ImageOk(d: Disk, owner: Owner, free: nat, count: nat, i: nat, n: nat) {
    && Ground(d, owner, free) && count <= ITABLE && InTable(i)
    && (forall k | 1 <= k < count && k != i :: FileOk(d, owner, k, Nblocks(Size(d, k))))
    && FileOk(d, owner, i, n)
  }

  // ---------- framing ----------

  /** Inode k is as it was. */
  predicate InodeSame(d: Disk, d': Disk, k: nat)
    requires IsDisk(d) && IsDisk(d') && InTable(k)
  {
    forall m | 0 <= m < IWORDS :: IWord(d', k, m) == IWord(d, k, m)
  }

  /** File k reads the same, up to the end of its last block. */
  ghost predicate FileSame(d: Disk, d': Disk, k: nat)
    requires IsDisk(d) && IsDisk(d') && InTable(k)
  {
    Size(d', k) == Size(d, k) && forall a | 0 <= a < Nblocks(Size(d, k)) * BSIZE :: ByteOf(d', k, a) == ByteOf(d, k, a)
  }

  /** Behind the first `size` bytes the last block of file k is zero. */
  ghost predicate ZeroBehind(d: Disk, k: nat, size: nat, end: nat)
    requires IsDisk(d) && InTable(k)
  {
    forall a | size <= a < end :: ByteOf(d, k, a) == 0
  }

  ghost predicate TailZero(d: Disk, k: nat)
    requires IsDisk(d) && InTable(k)
  {
    ZeroBehind(d, k, Size(d, k), Nblocks(Size(d, k)) * BSIZE)
  }

  lemma SameContent(d: Disk, d': Disk, k: nat)
    requires IsDisk(d) && IsDisk(d') && InTable(k) && FileSame(d, d', k)
    ensures Content(d', k) == Content(d, k) && (TailZero(d, k) ==> TailZero(d', k))
  {
    hide ByteOf, Size;
    InBlocks(Size(d, k));
  }

  lemma InBlocks(size: nat)
    ensures size <= Nblocks(size) * BSIZE < size + BSIZE
  {}

  /** A file whose inode and blocks are untouched is as it was. */
  lemma Untouched(d: Disk, d': Disk, owner: Owner, owner': Owner, k: nat, n: nat, touched: set<nat>)
    requires IsDisk(d) && IsDisk(d') && InTable(k) && FileOk(d, owner, k, n) && InodeSame(d, d', k)
    requires forall b | b in owner :: b in owner' && owner'[b] == owner[b] && b < FSSIZE
    requires forall b | NMETA <= b < FSSIZE && b !in touched :: d'[b] == d[b]
    requires forall b | b in touched && b in owner :: owner[b] != Ind(k)
    requires forall b | b in owner :: NMETA <= b
    ensures FileOk(d', owner', k, n) && Size(d', k) == Size(d, k)
    ensures forall f | 0 <= f < MAXFILE :: BlockOf(d', k, f) == BlockOf(d, k, f)
  {
    assert IWord(d', k, 2) == IWord(d, k, 2);
    forall f | 0 <= f < MAXFILE
      ensures BlockOf(d', k, f) == BlockOf(d, k, f) && SlotOk(d', owner', k, n, f)
    {
      BlockSame(d, d', owner, k, n, touched, f);
      assert SlotOk(d, owner, k, n, f);
    }
    assert Addr(d', k, NDIRECT) == Addr(d, k, NDIRECT);
  }

  lemma BlockSame(d: Disk, d': Disk, owner: Owner, k: nat, n: nat, touched: set<nat>, f: nat)
    requires IsDisk(d) && IsDisk(d') && InTable(k) && FileOk(d, owner, k, n) && InodeSame(d, d', k) && f < MAXFILE
    requires forall b | NMETA <= b < FSSIZE && b !in touched :: d'[b] == d[b]
    requires forall b | b in touched && b in owner :: owner[b] != Ind(k)
    requires forall b | b in owner :: NMETA <= b
    ensures BlockOf(d', k, f) == BlockOf(d, k, f)
  {
    hide IWord, GetWord;
    if f < NDIRECT {
      assert IWord(d', k, 3 + f) == IWord(d, k, 3 + f);
    } else {
      assert IWord(d', k, 3 + NDIRECT) == IWord(d, k, 3 + NDIRECT);
    }
  }

  /** And so are its bytes, when none of its data blocks is touched. */
  lemma UntouchedBytes(d: Disk, d': Disk, owner: Owner, k: nat, n: nat, touched: set<nat>)
    requires IsDisk(d) && IsDisk(d') && InTable(k) && FileOk(d, owner, k, n) && Nblocks(Size(d, k)) <= n
    requires Size(d', k) == Size(d, k)
    requires forall f | 0 <= f < MAXFILE :: BlockOf(d', k, f) == BlockOf(d, k, f)
    requires forall b | NMETA <= b < FSSIZE && b !in touched :: d'[b] == d[b]
    requires forall b | b in touched && b in owner :: owner[b].Ind? || owner[b].i != k
    requires forall b | b in owner :: NMETA <= b < FSSIZE
    ensures FileSame(d, d', k)
  {
    hide BlockOf, Size, Nblocks;
    forall a | 0 <= a < Nblocks(Size(d, k)) * BSIZE
      ensures ByteOf(d', k, a) == ByteOf(d, k, a)
    {
      var f := a / BSIZE;
      BlockIndex(a, Nblocks(Size(d, k)));
      assert SlotOk(d, owner, k, n, f);
    }
  }

  lemma BlockIndex(a: nat, n: nat)
    requires a < n * BSIZE
    ensures a / BSIZE < n
  {}

  // ---------- adding a block ----------

  /** The block of d' that f of file i now leads to; every other block of the file is as
      before. */
  ghost predicate SlotAdded(d: Disk, d': Disk, i: nat, f: nat, x: nat)
    requires IsDisk(d) && IsDisk(d') && InTable(i)
  {
    && f < MAXFILE && BlockOf(d', i, f) == x
    && forall g | 0 <= g < MAXFILE && g != f :: BlockOf(d', i, g) == BlockOf(d, i, g)
  }

  lemma FileGrown(d: Disk, d': Disk, owner: Owner, owner': Owner, i: nat, f: nat, x: nat)
    requires IsDisk(d) && IsDisk(d') && InTable(i) && FileOk(d, owner, i, f) && SlotAdded(d, d', i, f, x)
    requires forall b | b in owner :: b in owner' && owner'[b] == owner[b]
    requires Owned(owner', x, Data(i, f))
    requires if f + 1 > NDIRECT then Owned(owner', Addr(d', i, NDIRECT), Ind(i)) else Addr(d', i, NDIRECT) == 0
    ensures FileOk(d', owner', i, f + 1)
  {
    hide BlockOf, Addr;
    var n := f + 1;
    forall g | 0 <= g < MAXFILE
      ensures SlotOk(d', owner', i, n, g)
    {
      assert SlotOk(d, owner, i, f, g);
    }
  }

  /** A direct address is filled in. */
  lemma DirectAdded(d: Disk, d': Disk, owner: Owner, i: nat, f: nat, x: nat)
    requires IsDisk(d) && IsDisk(d') && InTable(i) && f < NDIRECT && FileOk(d, owner, i, f)
    requires IWord(d', i, 3 + f) == x
    requires forall m | 0 <= m < IWORDS && m != 3 + f :: IWord(d', i, m) == IWord(d, i, m)
    ensures SlotAdded(d, d', i, f, x) && Addr(d', i, NDIRECT) == Addr(d, i, NDIRECT) == 0
  {
    hide IWord, GetWord;
    assert IWord(d', i, 3 + NDIRECT) == IWord(d, i, 3 + NDIRECT);
    forall g | 0 <= g < MAXFILE && g != f
      ensures BlockOf(d', i, g) == BlockOf(d, i, g)
    {
      if g < NDIRECT {
        assert IWord(d', i, 3 + g) == IWord(d, i, 3 + g);
      }
    }
  }

  /** A word of the indirect block is filled in. */
  lemma IndirectAdded(d: Disk, d': Disk, i: nat, f: nat, ib: nat, x: nat)
    requires IsDisk(d) && IsDisk(d') && InTable(i) && NDIRECT <= f < MAXFILE
    requires Addr(d', i, NDIRECT) == ib && NMETA <= ib < FSSIZE && x < WORD
    requires forall k | 0 <= k < NDIRECT :: Addr(d', i, k) == Addr(d, i, k)
    requires forall g | NDIRECT <= g < MAXFILE && g != f :: BlockOf(d, i, g) == Word(d', ib, g - NDIRECT)
    requires Word(d', ib, f - NDIRECT) == x
    ensures SlotAdded(d, d', i, f, x)
  {
    hide IWord, GetWord, Word;
    forall g | 0 <= g < MAXFILE && g != f
      ensures BlockOf(d', i, g) == BlockOf(d, i, g)
    {}
  }

  // ---------- the whole image ----------

  /** Every other file reads the same. */
  ghost predicate OthersSame(d: Disk, d': Disk, count: nat, i: nat) {
    IsDisk(d) && IsDisk(d') && count <= ITABLE && forall k | 1 <= k < count && k != i :: FileSame(d, d', k)
  }

  /** The first bytes of file i, up to `size`, read the same. */
  ghost predicate PrefixSame(d: Disk, d': Disk, i: nat, size: nat)
    requires IsDisk(d) && IsDisk(d') && InTable(i)
  {
    forall a | 0 <= a < size :: ByteOf(d', i, a) == ByteOf(d, i, a)
  }

  ghost predicate OtherInodesSame(d: Disk, d': Disk, i: nat)
    requires IsDisk(d) && IsDisk(d')
  {
    forall k | 0 <= k < ITABLE && k != i :: InodeSame(d, d', k)
  }

  /** A step that works on file i: it touches new blocks and blocks that file i owns. */
  ghost predicate Works(d: Disk, d': Disk, owner: Owner, owner': Owner, i: nat, touched: set<nat>) {
    && IsDisk(d) && IsDisk(d') && OtherInodesSame(d, d', i)
    && (forall b | b in owner :: b in owner' && owner'[b] == owner[b])
    && (forall b | NMETA <= b < FSSIZE && b !in touched :: d'[b] == d[b])
    && (forall b | b in touched && b in owner :: owner[b].i == i)
  }

  /** It leaves all other files alone. */
  lemma OthersKept(d: Disk, d': Disk, owner: Owner, owner': Owner, free: nat, count: nat, i: nat, n: nat,
                   touched: set<nat>)
    requires ImageOk(d, owner, free, count, i, n) && Works(d, d', owner, owner', i, touched)
    ensures OthersSame(d, d', count, i)
    ensures forall k | 1 <= k < count && k != i :: FileOk(d', owner', k, Nblocks(Size(d', k)))
  {
    hide BlockOf, Size, FileOk, FileSame, InodeSame, Nblocks;
    forall k | 1 <= k < count && k != i
      ensures FileOk(d', owner', k, Nblocks(Size(d', k))) && FileSame(d, d', k)
    {
      var m := Nblocks(Size(d, k));
      assert FileOk(d, owner, k, m) && InodeSame(d, d', k);
      Untouched(d, d', owner, owner', k, m, touched);
      UntouchedBytes(d, d', owner, k, m, touched);
    }
  }

  /** One more block for file i. */
  lemma Grown(d: Disk, d': Disk, owner: Owner, owner': Owner, free: nat, free': nat, count: nat, i: nat, f: nat,
              x: nat, touched: set<nat>)
    requires ImageOk(d, owner, free, count, i, f) && Works(d, d', owner, owner', i, touched)
    requires SlotAdded(d, d', i, f, x) && Owned(owner', x, Data(i, f)) && Ground(d', owner', free')
    requires if f + 1 > NDIRECT then Owned(owner', Addr(d', i, NDIRECT), Ind(i)) else Addr(d', i, NDIRECT) == 0
    requires forall b | b in touched && b in owner :: owner[b].Ind?
    ensures ImageOk(d', owner', free', count, i, f + 1) && OthersSame(d, d', count, i)
    ensures PrefixSame(d, d', i, f * BSIZE) && f < MAXFILE && BlockOf(d', i, f) == x
  {
    OthersKept(d, d', owner, owner', free, count, i, f, touched);
    FileGrown(d, d', owner, owner', i, f, x);
    hide BlockOf, Size, Nblocks, Addr;
    forall a | 0 <= a < f * BSIZE
      ensures ByteOf(d', i, a) == ByteOf(d, i, a)
    {
      assert a / BSIZE < f;
      assert SlotOk(d, owner, i, f, a / BSIZE);
    }
  }

  /** Bytes written into block f of file i. */
  lemma Written(d: Disk, d': Disk, owner: Owner, free: nat, count: nat, i: nat, n: nat, f: nat, x: nat)
    requires ImageOk(d, owner, free, count, i, n) && f < n && BlockOf(d, i, f) == x
    requires IsDisk(d') && OtherInodesSame(d, d', i) && InodeSame(d, d', i)
    requires forall b | NMETA <= b < FSSIZE && b != x :: d'[b] == d[b]
    ensures NMETA <= x < free && ImageOk(d', owner, free, count, i, n) && OthersSame(d, d', count, i)
    ensures Size(d', i) == Size(d, i) && forall g | 0 <= g < MAXFILE :: BlockOf(d', i, g) == BlockOf(d, i, g)
    ensures forall g | 0 <= g < n && g != f :: BlockOf(d, i, g) != x
  {
    hide BlockOf, Size, Nblocks, Addr, InodeSame;
    assert SlotOk(d, owner, i, n, f);
    OthersKept(d, d', owner, owner, free, count, i, n, {x});
    Untouched(d, d', owner, owner, i, n, {x});
    forall g | 0 <= g < n && g != f
      ensures BlockOf(d, i, g) != x
    {
      assert SlotOk(d, owner, i, n, g);
    }
  }

  /** Only the size of inode i changes. */
  lemma Resized(d: Disk, d': Disk, owner: Owner, free: nat, count: nat, i: nat, n: nat)
    requires ImageOk(d, owner, free, count, i, n) && IsDisk(d') && OtherInodesSame(d, d', i)
    requires forall m | 0 <= m < IWORDS && m != 2 :: IWord(d', i, m) == IWord(d, i, m)
    requires forall b | NMETA <= b < FSSIZE :: d'[b] == d[b]
    ensures ImageOk(d', owner, free, count, i, n) && OthersSame(d, d', count, i)
    ensures PrefixSame(d, d', i, n * BSIZE)
  {
    hide Nblocks, IWord, GetWord;
    OthersKept(d, d', owner, owner, free, count, i, n, {});
    forall g | 0 <= g < MAXFILE
      ensures BlockOf(d', i, g) == BlockOf(d, i, g) && SlotOk(d', owner, i, n, g)
    {
      assert SlotOk(d, owner, i, n, g);
      assert IWord(d', i, 3 + NDIRECT) == IWord(d, i, 3 + NDIRECT);
      if g < NDIRECT {
        assert IWord(d', i, 3 + g) == IWord(d, i, 3 + g);
      }
    }
    assert IWord(d', i, 3 + NDIRECT) == IWord(d, i, 3 + NDIRECT);
    forall a | 0 <= a < n * BSIZE
      ensures ByteOf(d', i, a) == ByteOf(d, i, a)
    {
      assert a / BSIZE < n;
      assert SlotOk(d, owner, i, n, a / BSIZE);
    }
  }
}
