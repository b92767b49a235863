/** The commit and recovery code itself, with its loops, writing to a disk whose every
    intermediate image is recorded: a crash may leave any one of them. */
module LogCode {
  import opened LogSpec

  /** Every image of the trace recovers to `m`. */
  ghost predicate AllRecoverTo(y: Layout, images: seq<Disk>, m: map<nat, Block>) {
    forall i | 0 <= i < |images| :: DiskOk(y, images[i]) && RecoversTo(y, images[i], m)
  }

  lemma OneMoreImage(y: Layout, images: seq<Disk>, from: nat, m: map<nat, Block>, d: Disk)
    requires from <= |images| && AllRecoverTo(y, images[from..], m)
    requires DiskOk(y, d) && RecoversTo(y, d, m)
    ensures AllRecoverTo(y, (images + [d])[from..], m)
  {
    assert (images + [d])[from..] == images[from..] + [d];
  }

  lemma NoImages(y: Layout, images: seq<Disk>, m: map<nat, Block>)
    ensures AllRecoverTo(y, images[|images|..], m)
  {}

  /** A trace that goes over from one recovered content to another at a single write. */
  lemma SwitchAt(y: Layout, from: nat, written: seq<Disk>, d: Disk, images: seq<Disk>,
                 m: map<nat, Block>, m': map<nat, Block>)
    requires from <= |written| && AllRecoverTo(y, written[from..], m)
    requires DiskOk(y, d) && RecoversTo(y, d, m')
    requires written + [d] <= images && AllRecoverTo(y, images[|written| + 1..], m')
    ensures AllRecoverTo(y, images[from..|written|], m) && AllRecoverTo(y, images[|written|..], m')
  {
    assert images[from..|written|] == written[from..];
    assert images[|written|..] == [d] + images[|written| + 1..];
  }

  /** What recovery makes of the disk stays the same when the log is empty and only log
      slots are written. */
  lemma SlotWriteRecovers(y: Layout, d: Disk, m: map<nat, Block>, b: nat, data: Block)
    requires DiskOk(y, d) && RecoversTo(y, d, m) && HeaderLen(d[y.start]) == 0
    requires y.start < b < y.start + y.size
    ensures DiskOk(y, d[b := data]) && RecoversTo(y, d[b := data], m)
  {}

  /** With all slots in place, the header write switches recovery over to the new content. */
  lemma HeaderWriteRecovers(y: Layout, d: Disk, m: map<nat, Block>, m': map<nat, Block>, header: Block)
    requires DiskOk(y, d) && RecoversTo(y, d, m) && HeaderLen(d[y.start]) == 0
    requires SlotsOk(y, HeaderLen(header), HeaderSlots(header)) && m'.Keys == m.Keys
    requires forall i | 0 <= i < HeaderLen(header) ::
               HeaderSlots(header)[i] in m' && d[y.start + 1 + i] == m'[HeaderSlots(header)[i]]
    requires forall b | b in m && (forall i | 0 <= i < HeaderLen(header) :: HeaderSlots(header)[i] != b) ::
               m'[b] == m[b]
    ensures DiskOk(y, d[y.start := header]) && RecoversTo(y, d[y.start := header], m')
  {
    var d' := d[y.start := header];
    forall b | b in m'
      ensures InstalledAt(y, d', HeaderSlots(header), HeaderLen(header), b, m'[b])
    {
      assert y.IsHome(b);
      assert InstalledAt(y, d, HeaderSlots(d[y.start]), 0, b, m[b]);
    }
  }

  /** Once every logged block is at home, the emptied header recovers to the same content. */
  lemma ClearRecovers(y: Layout, d: Disk, m: map<nat, Block>, header: Block)
    requires DiskOk(y, d) && RecoversTo(y, d, m) && HeaderLen(header) == 0
    requires forall i | 0 <= i < HeaderLen(d[y.start]) ::
               var b := HeaderSlots(d[y.start])[i];
               b in m && b < |d| && d[b] == m[b]
    ensures DiskOk(y, d[y.start := header]) && RecoversTo(y, d[y.start := header], m)
  {
    var d' := d[y.start := header];
    forall b | b in m
      ensures InstalledAt(y, d', HeaderSlots(header), 0, b, m[b])
    {
      assert y.IsHome(b);
      assert InstalledAt(y, d, HeaderSlots(d[y.start]), HeaderLen(d[y.start]), b, m[b]);
    }
  }

  lemma SlotContent(y: Layout, d: Disk, m: map<nat, Block>, k: nat)
    requires DiskOk(y, d) && RecoversTo(y, d, m) && k < HeaderLen(d[y.start])
    ensures HeaderSlots(d[y.start])[k] in m && d[y.start + 1 + k] == m[HeaderSlots(d[y.start])[k]]
  {
    var b := HeaderSlots(d[y.start])[k];
    assert y.IsHome(b) && b in y.HomeBlocks();
    assert InstalledAt(y, d, HeaderSlots(d[y.start]), HeaderLen(d[y.start]), b, m[b]);
  }

  class Log {
    const y: Layout
    var disk: Disk
    var len: nat
    var slots: seq<nat>
    var committing: bool
    /** Every image the disk has had since the log was set up. */
    ghost var images: seq<Disk>

    ghost predicate Valid()
      reads this
    {
      && DiskOk(y, disk) && SlotsOk(y, len, slots)
      && |images| > 0 && images[|images| - 1] == disk
    }

    /** One atomic block write. */
    method Bwrite(b: nat, data: Block)
      requires b < |disk|
      modifies this`disk, this`images
      ensures disk == old(disk)[b := data] && images == old(images) + [disk]
    {
      disk := disk[b := data];
      images := images + [disk];
    }

    method EmptyHead()
      requires y.Valid() && |disk| == y.nblocks
      modifies this`disk, this`images, this`len
      ensures len == 0 && disk == old(disk)[y.start := WithHeaderLen(old(disk)[y.start], 0)]
      ensures images == old(images) + [disk]
    {
      len := 0;
      var buf := disk[y.start];
      Bwrite(y.start, WithHeaderLen(buf, 0));
    }

    /** Copies every logged block from its slot to its home. */
    method InstallTrans(ghost m: map<nat, Block>)
      requires Valid() && RecoversTo(y, disk, m)
      requires HeaderLen(disk[y.start]) == len && HeaderSlots(disk[y.start]) == slots
      modifies this`disk, this`images
      ensures Valid() && RecoversTo(y, disk, m) && disk[y.start] == old(disk)[y.start]
      ensures disk == InstallUpTo(y, old(disk), slots, len)
      ensures forall i | 0 <= i < len :: slots[i] in m && disk[slots[i]] == m[slots[i]]
      ensures old(images) <= images && AllRecoverTo(y, images[|old(images)|..], m)
    {
      hide RecoversTo, AllRecoverTo, HeaderLen, HeaderSlots;
      ghost var before := disk;
      NoImages(y, images, m);
      var i := 0;
      while i < len
        invariant i <= len && Valid() && RecoversTo(y, disk, m)
        invariant disk[y.start] == before[y.start] && disk == InstallUpTo(y, before, slots, i)
        invariant forall j | 0 <= j < i :: slots[j] in m && disk[slots[j]] == m[slots[j]]
        invariant old(images) <= images && AllRecoverTo(y, images[|old(images)|..], m)
      {
        SlotContent(y, disk, m, i);
        HomeWriteRecovers(y, disk, m, i, disk[y.start + 1 + i]);
        var logBuf := disk[y.start + 1 + i];
        OneMoreImage(y, images, |old(images)|, m, disk[slots[i] := logBuf]);
        Bwrite(slots[i], logBuf);
        i := i + 1;
      }
    }

    /** Boot: whatever image a crash left, the home blocks come out as recovery defines
        them, and a crash during recovery loses nothing. */
    method Recover()
      requires DiskOk(y, disk) && |images| > 0 && images[|images| - 1] == disk
      modifies this`disk, this`images, this`len, this`slots
      ensures Valid() && len == 0
      ensures disk == Recovered(y, old(disk))
      ensures old(images) <= images
      ensures AllRecoverTo(y, images[|old(images)|..], HomeOf(y, Recovered(y, old(disk))))
    {
      ghost var m := HomeOf(y, Recovered(y, disk));
      RecoversToIsRecovered(y, disk, m);
      len, slots := HeaderLen(disk[y.start]), HeaderSlots(disk[y.start]);
      if len > 0 {
        Settle(m);
      }
    }

    /** Copies the logged buffers into the log slots. */
    method WriteLog(cached: map<nat, Block>, ghost m: map<nat, Block>)
      requires Valid() && RecoversTo(y, disk, m) && HeaderLen(disk[y.start]) == 0
      requires forall i | 0 <= i < len :: slots[i] in cached
      modifies this`disk, this`images
      ensures Valid() && RecoversTo(y, disk, m) && disk[y.start] == old(disk)[y.start]
      ensures forall i | 0 <= i < len :: disk[y.start + 1 + i] == cached[slots[i]]
      ensures old(images) <= images && AllRecoverTo(y, images[|old(images)|..], m)
    {
      var i := 0;
      while i < len
        invariant i <= len && Valid() && RecoversTo(y, disk, m) && disk[y.start] == old(disk)[y.start]
        invariant forall j | 0 <= j < i :: disk[y.start + 1 + j] == cached[slots[j]]
        invariant old(images) <= images && AllRecoverTo(y, images[|old(images)|..], m)
      {
        SlotWriteRecovers(y, disk, m, y.start + 1 + i, cached[slots[i]]);
        OneMoreImage(y, images, |old(images)|, m, disk[y.start + 1 + i := cached[slots[i]]]);
        hide RecoversTo, AllRecoverTo;
        Bwrite(y.start + 1 + i, cached[slots[i]]);
        i := i + 1;
      }
    }

    method WriteHead()
      requires y.Valid() && |disk| == y.nblocks && |slots| == HEADER_SLOTS
      modifies this`disk, this`images
      ensures disk == old(disk)[y.start := WithHeader(old(disk)[y.start], len, slots)]
      ensures images == old(images) + [disk]
    {
      var buf := disk[y.start];
      Bwrite(y.start, WithHeader(buf, len, slots));
    }

    /** Takes a written header's blocks home and empties the header. */
    method Settle(ghost m: map<nat, Block>)
      requires Valid() && RecoversTo(y, disk, m)
      requires HeaderLen(disk[y.start]) == len && HeaderSlots(disk[y.start]) == slots
      modifies this`disk, this`images, this`len
      ensures Valid() && len == 0 && HeaderLen(disk[y.start]) == 0 && RecoversTo(y, disk, m)
      ensures disk == InstallUpTo(y, old(disk), slots, old(len))[y.start := WithHeaderLen(old(disk)[y.start], 0)]
      ensures old(images) <= images && AllRecoverTo(y, images[|old(images)|..], m)
    {
      InstallTrans(m);
      hide RecoversTo, AllRecoverTo, InstallUpTo;
      var cleared := WithHeaderLen(disk[y.start], 0);
      ClearRecovers(y, disk, m, cleared);
      OneMoreImage(y, images, |old(images)|, m, disk[y.start := cleared]);
      EmptyHead();
    }

    /** The whole commit: every image before the header write recovers to the old home
        blocks, every image from it on to the new ones, and in the end they are at home. */
    method Commit(cached: map<nat, Block>) returns (ghost switch: nat)
      requires Valid() && committing && HeaderLen(disk[y.start]) == 0
      requires forall i | 0 <= i < len :: slots[i] in cached
      modifies this`disk, this`images, this`len
      ensures Valid() && len == 0 && HeaderLen(disk[y.start]) == 0
      ensures HomeOf(y, disk) == NewHome(old(len), old(slots), cached, HomeOf(y, old(disk)))
      ensures old(images) <= images && |old(images)| <= switch <= |images|
      ensures AllRecoverTo(y, images[|old(images)|..switch], HomeOf(y, old(disk)))
      ensures AllRecoverTo(y, images[switch..], HomeOf(y, disk))
    {
      hide RecoversTo, AllRecoverTo, InstallUpTo, NewHome, HomeOf;
      ghost var m := HomeOf(y, disk);
      ghost var m' := NewHome(len, slots, cached, m);
      RecoversToIsRecovered(y, disk, m);
      if len == 0 {
        NothingLogged(y, slots, cached, m, images);
        return |images|;
      }
      HomeKeys(y, disk);
      NewHomeAt(y, len, slots, cached, m);
      WriteLog(cached, m);
      ghost var written := images;
      HeaderWriteRecovers(y, disk, m, m', WithHeader(disk[y.start], len, slots));
      WriteHead();
      ghost var header := disk;
      Settle(m');
      RecoversToIsRecovered(y, disk, m');
      switch := |written|;
      SwitchAt(y, |old(images)|, written, header, images, m, m');
    }
  }

  /** The home blocks with the logged ones replaced. */
  ghost function NewHome(len: nat, slots: seq<nat>, cached: map<nat, Block>, m: map<nat, Block>): map<nat, Block>
    requires len <= |slots| && forall i | 0 <= i < len :: slots[i] in cached
  {
    map b | b in m :: if b in slots[..len] then cached[b] else m[b]
  }

  lemma NothingLogged(y: Layout, slots: seq<nat>, cached: map<nat, Block>, m: map<nat, Block>, images: seq<Disk>)
    ensures NewHome(0, slots, cached, m) == m
    ensures AllRecoverTo(y, images[|images|..], m) && AllRecoverTo(y, images[|images|..|images|], m)
  {}

  lemma HomeKeys(y: Layout, disk: Disk)
    requires DiskOk(y, disk)
    ensures HomeOf(y, disk).Keys == y.HomeBlocks()
  {}

  lemma NewHomeAt(y: Layout, len: nat, slots: seq<nat>, cached: map<nat, Block>, m: map<nat, Block>)
    requires SlotsOk(y, len, slots) && m.Keys == y.HomeBlocks() && forall i | 0 <= i < len :: slots[i] in cached
    ensures var m' := NewHome(len, slots, cached, m);
            && m'.Keys == m.Keys
            && (forall i | 0 <= i < len :: slots[i] in m' && m'[slots[i]] == cached[slots[i]])
            && (forall b | b in m && (forall i | 0 <= i < len :: slots[i] != b) :: m'[b] == m[b])
  {
    forall i | 0 <= i < len
      ensures slots[i] in m && slots[i] in slots[..len]
    {
      assert y.IsHome(slots[i]);
      assert slots[..len][i] == slots[i];
    }
  }
}
