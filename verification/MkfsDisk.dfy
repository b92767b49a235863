/** Disk blocks as bytes, little-endian words in them, and inodes as sixteen words. */
module MkfsDisk {
  const BSIZE := 1024
  const NDIRECT := 12
  /** Words in a block. */
  const NINDIRECT := 256
  const MAXFILE := 268
  /** Inodes per block, and words per inode. */
  const IPB := 16
  const IWORDS := 16
  const FSSIZE := 1000
  /** Inodes in the table's 13 blocks. The super block says 200. */
  const ITABLE := 208
  /** boot, super block, 30 log blocks, 13 inode blocks, 1 bitmap block. */
  const INODESTART := 32
  const BMAPSTART := 45
  const NMETA := 46

  const WORD := 0x1_0000_0000

  type Block = seq<int>
  type Disk = seq<Block>

  predicate IsBlock(b: Block) {
    |b| == BSIZE && forall k | 0 <= k < BSIZE :: 0 <= b[k] < 256
  }

  predicate IsDisk(d: Disk) {
    |d| == FSSIZE && forall n | 0 <= n < FSSIZE :: IsBlock(d[n])
  }

  function ZeroBlock(): (z: Block)
    ensures IsBlock(z) && forall k | 0 <= k < BSIZE :: z[k] == 0
  {
    seq(BSIZE, _ => 0)
  }

  // ---------- words ----------

  function GetWord(b: Block, j: nat): (w: nat)
    requires IsBlock(b) && j < NINDIRECT
    ensures w < WORD
  {
    b[4 * j] + 0x100 * b[4 * j + 1] + 0x1_0000 * b[4 * j + 2] + 0x100_0000 * b[4 * j + 3]
  }

  /** `xint`: lowest byte first. */
  function PutWord(b: Block, j: nat, w: nat): (r: Block)
    requires IsBlock(b) && j < NINDIRECT && w < WORD
    ensures IsBlock(r)
  {
    b[4 * j := w % 0x100][4 * j + 1 := w / 0x100 % 0x100]
     [4 * j + 2 := w / 0x1_0000 % 0x100][4 * j + 3 := w / 0x100_0000]
  }

  /** A word reads back, and no other word changes. */
  lemma WordRoundTrip(b: Block, j: nat, w: nat, k: nat)
    requires IsBlock(b) && j < NINDIRECT && w < WORD && k < NINDIRECT
    ensures GetWord(PutWord(b, j, w), k) == if k == j then w else GetWord(b, k)
  {
    if k == j {
      Bytes(w);
    }
  }

  lemma Bytes(w: nat)
    ensures w == w % 0x100 + 0x100 * (w / 0x100 % 0x100) + 0x1_0000 * (w / 0x1_0000 % 0x100)
            + 0x100_0000 * (w / 0x100_0000)
  {
    var a := w / 0x100;
    var b := a / 0x100;
    assert w / 0x1_0000 == b;
    assert w / 0x100_0000 == b / 0x100;
  }

  lemma ZeroWord(j: nat)
    requires j < NINDIRECT
    ensures GetWord(ZeroBlock(), j) == 0
  {}

  function Word(d: Disk, n: nat, j: nat): nat
    requires IsDisk(d) && n < FSSIZE && j < NINDIRECT
  {
    GetWord(d[n], j)
  }

  function PutWords(b: Block, start: nat, ws: seq<nat>): (r: Block)
    requires IsBlock(b) && start + |ws| <= NINDIRECT && forall i | 0 <= i < |ws| :: ws[i] < WORD
    ensures IsBlock(r)
    decreases |ws|
  {
    if ws == [] then b else PutWords(PutWord(b, start, ws[0]), start + 1, ws[1..])
  }

  lemma {:induction false} PutWordsAt(b: Block, start: nat, ws: seq<nat>, k: nat)
    requires IsBlock(b) && start + |ws| <= NINDIRECT && (forall i | 0 <= i < |ws| :: ws[i] < WORD) && k < NINDIRECT
    ensures GetWord(PutWords(b, start, ws), k) == if start <= k < start + |ws| then ws[k - start] else GetWord(b, k)
    decreases |ws|
  {
    if ws != [] {
      hide GetWord, PutWord;
      PutWordsAt(PutWord(b, start, ws[0]), start + 1, ws[1..], k);
      WordRoundTrip(b, start, ws[0], k);
    }
  }

  // ---------- inodes ----------

  /** Sixteen words: type and device numbers and link count in the first two, the size, and
      thirteen addresses. */
  type Inode = seq<nat>

  predicate IsInode(ws: Inode) {
    |ws| == IWORDS && forall i | 0 <= i < IWORDS :: ws[i] < WORD
  }

  function IBlock(i: nat): nat {
    i / IPB + INODESTART
  }

  function IStart(i: nat): nat {
    (i % IPB) * IWORDS
  }

  predicate InTable(i: nat) {
    i < ITABLE
  }

  lemma TablePlace(i: nat)
    requires InTable(i)
    ensures INODESTART <= IBlock(i) < BMAPSTART && IStart(i) + IWORDS <= NINDIRECT
  {}

  /** Where an inode is written: in the table exactly up to number 207, then over the bitmap, and
      from 224 on over data blocks. */
  lemma InodePlace(i: nat)
    ensures InTable(i) <==> IBlock(i) < BMAPSTART
    ensures IBlock(i) == BMAPSTART <==> ITABLE <= i < ITABLE + IPB
    ensures IBlock(i) >= NMETA <==> i >= ITABLE + IPB
    ensures IBlock(ITABLE + IPB) == NMETA && IStart(ITABLE + IPB) == 0
  {}

  function IWord(d: Disk, i: nat, j: nat): nat
    requires IsDisk(d) && InTable(i) && j < IWORDS
  {
    TablePlace(i);
    Word(d, IBlock(i), IStart(i) + j)
  }

  /** `winode`. */
  function WithInode(d: Disk, i: nat, ws: Inode): (r: Disk)
    requires IsDisk(d) && IBlock(i) < FSSIZE && IsInode(ws)
    ensures IsDisk(r)
  {
    d[IBlock(i) := PutWords(d[IBlock(i)], IStart(i), ws)]
  }

  lemma SamePlace(i: nat, k: nat, j: nat, m: nat)
    requires j < IWORDS && m < IWORDS && IBlock(i) == IBlock(k) && IStart(i) + j == IStart(k) + m
    ensures i == k && j == m
  {}

  /** Writing an inode changes that inode and nothing else. */
  lemma WithInodeAt(d: Disk, i: nat, ws: Inode, k: nat, m: nat)
    requires IsDisk(d) && InTable(i) && IsInode(ws) && InTable(k) && m < IWORDS
    ensures IWord(WithInode(d, i, ws), k, m) == if k == i then ws[m] else IWord(d, k, m)
  {
    TablePlace(i);
    TablePlace(k);
    var b, s := IBlock(i), IStart(i);
    hide GetWord, PutWords;
    if IBlock(k) == b {
      PutWordsAt(d[b], s, ws, IStart(k) + m);
      if s <= IStart(k) + m < s + IWORDS {
        SamePlace(i, k, IStart(k) + m - s, m);
      }
    }
  }

  lemma WithInodeElsewhere(d: Disk, i: nat, ws: Inode, n: nat)
    requires IsDisk(d) && InTable(i) && IsInode(ws) && BMAPSTART <= n < FSSIZE
    ensures WithInode(d, i, ws)[n] == d[n]
  {
    TablePlace(i);
  }
}
