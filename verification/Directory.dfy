/** kernel/fs.c: dirlookup and dirlink over the files of a disk. */
module Directory {
  import opened Blocks
  import opened FsCore
  import opened Files
  import opened FileMap
  import opened FileBytes
  import opened FileWrite
  import opened FileSys
  import opened DirEntries
  import opened Options

  const SLOTS: nat := 32     // entries per block

  /** `data` is block `bn` of the file. */
  ghost predicate IsBlock(fs: Fs, i: nat, bn: nat, data: Block) {
    && IsSlot(fs, i, 0)
    && forall x :: 0 <= x < BSIZE ==> bn * BSIZE + x < MAXBYTES && data[x] == ByteAt(fs, i, bn * BSIZE + x)
  }

  /** Block `bn` of a file as it lies on disk, past the size of the file too. */
  method BlockOf(d: Disk, i: nat, bn: nat) returns (data: Block)
    requires FsOk(d.State(), d.own) && i < |d.inodes| && bn * BSIZE < d.inodes[i].size
    modifies d
    ensures d.State() == old(d.State()) && FsOk(d.State(), d.own) && i < |d.inodes|
    ensures IsBlock(d.State(), i, bn, data)
  {
    ghost var fs := d.State();
    FullBlock(fs, d.own, i, bn);
    assert d.Valid();
    hide FsOk, Inv, BmapResult, Addr, HasBlock, ByteAt, IsBlock;
    var a := d.Bmap(i, bn);
    BmapFull(fs, d.State(), i, bn, a);
    SameFiles(fs, old(d.own), d.own);
    data := d.disk[a.value];
  }

  lemma FullBlock(fs: Fs, own: Owners, i: nat, bn: nat)
    requires FsOk(fs, own) && i < |fs.inodes| && bn * BSIZE < fs.inodes[i].size
    ensures bn < MAXFILE && HasBlock(fs, i, bn) && Addr(fs, i, SlotOf(bn)) < |fs.disk|
    ensures IsBlock(fs, i, bn, fs.disk[Addr(fs, i, SlotOf(bn))])
  {
    hide BlockOk, Addr;
    assert FileOk(fs, i);
    assert HasBlock(fs, i, bn);
    var a := Addr(fs, i, SlotOf(bn));
    assert SlotOk(fs, own, i, SlotOf(bn)) && OwnOk(fs, own, a);
    forall x | 0 <= x < BSIZE ensures bn * BSIZE + x < MAXBYTES && fs.disk[a][x] == ByteAt(fs, i, bn * BSIZE + x) {
      assert (bn * BSIZE + x) / BSIZE == bn && (bn * BSIZE + x) % BSIZE == x;
    }
  }

  /** The first entry of a block in use for the name; SLOTS if there is none. */
  method ScanBlock(data: Block, name: seq<byte>) returns (k: nat)
    ensures k <= SLOTS && forall j :: 0 <= j < k ==> !Binds(data, j, Canon(name))
    ensures k < SLOTS ==> Binds(data, k, Canon(name))
  {
    k := 0;
    while k < SLOTS
      invariant k <= SLOTS && forall j :: 0 <= j < k ==> !Binds(data, j, Canon(name))
    {
      if Inum(data, k) != 0 {
        var r := Strncmp(name, NameOf(data, k));
        if r == 0 { return; }
      }
      k := k + 1;
    }
  }

  /** Entries of a block are entries of the directory; those past its size are not in use, because
      a file reads as zero there. */
  lemma BlockEntry(fs: Fs, own: Owners, i: nat, bn: nat, data: Block, j: nat, key: Name)
    requires FsOk(fs, own) && i < |fs.inodes| && |Content(fs, i)| % ENTRY == 0 && bn * BSIZE < fs.inodes[i].size
    requires j < SLOTS
    requires IsBlock(fs, i, bn, data)
    ensures Binds(data, j, key) <==> Binds(Content(fs, i), SLOTS * bn + j, key)
    ensures Binds(data, j, key) ==> Inum(data, j) == Inum(Content(fs, i), SLOTS * bn + j)
  {
    hide ByteAt, Inv;
    assert FileOk(fs, i);
    var (c, e) := (Content(fs, i), SLOTS * bn + j);
    assert ENTRY * e == bn * BSIZE + ENTRY * j;
    if EntryIn(c, e) {
      assert forall x :: ENTRY * j <= x < ENTRY * j + ENTRY ==> data[x] == c[bn * BSIZE + x];
      assert NameOf(data, j) == NameOf(c, e);
    } else {
      assert ENTRY * e >= |c|;
      assert data[ENTRY * j] == ByteAt(fs, i, bn * BSIZE + ENTRY * j) == 0;
      assert data[ENTRY * j + 1] == ByteAt(fs, i, bn * BSIZE + (ENTRY * j + 1)) == 0;
    }
  }

  datatype Found = Found(inum: nat, off: nat)

  /** Look a name up.  The scan runs over whole blocks, and agrees with the map. */
  method Dirlookup(d: Disk, i: nat, name: seq<byte>) returns (r: Option<Found>)
    requires FsOk(d.State(), d.own) && i < |d.inodes| && d.inodes[i].isDir && DirOk(Content(d.State(), i))
    modifies d
    ensures d.State() == old(d.State()) && FsOk(d.State(), d.own)
    ensures r.None? ==> forall e: nat :: !Binds(Content(d.State(), i), e, Canon(name))
    ensures r.Some? ==>
              exists e: nat ::
                && r.value.off == ENTRY * e && Binds(Content(d.State(), i), e, Canon(name))
                && Inum(Content(d.State(), i), e) == r.value.inum
  {
    ghost var (fs, c, key) := (d.State(), Content(d.State(), i), Canon(name));
    ContentSize(fs, d.own, i);
    assert |c| % ENTRY == 0;
    hide FsOk, Content, DirOk, IsBlock;
    var bn := 0;
    while bn * BSIZE < d.inodes[i].size
      invariant d.State() == fs && FsOk(fs, d.own) && 0 <= bn
      invariant forall e: nat :: e < SLOTS * bn ==> !Binds(c, e, key)
      decreases d.inodes[i].size - bn * BSIZE
    {
      var data := BlockOf(d, i, bn);
      var k := ScanBlock(data, name);
      EntriesSeen(fs, d.own, i, bn, data, k, key);
      if k < SLOTS {
        BlockEntry(fs, d.own, i, bn, data, k, key);
        EntryOffset(bn, k);
        return Some(Found(Inum(data, k), bn * BSIZE + ENTRY * k));
      }
      bn := bn + 1;
    }
    r := None;
  }

  lemma EntriesSeen(fs: Fs, own: Owners, i: nat, bn: nat, data: Block, k: nat, key: Name)
    requires FsOk(fs, own) && i < |fs.inodes| && |Content(fs, i)| % ENTRY == 0 && bn * BSIZE < fs.inodes[i].size
    requires k <= SLOTS
    requires IsBlock(fs, i, bn, data) && forall j :: 0 <= j < k ==> !Binds(data, j, key)
    ensures forall e: nat :: SLOTS * bn <= e < SLOTS * bn + k ==> !Binds(Content(fs, i), e, key)
  {
    hide FsOk, Content, IsBlock, Binds;
    forall e: nat | SLOTS * bn <= e < SLOTS * bn + k ensures !Binds(Content(fs, i), e, key) {
      assert !Binds(data, e - SLOTS * bn, key);
      EntrySeen(fs, own, i, bn, data, e - SLOTS * bn, key);
    }
  }

  lemma EntrySeen(fs: Fs, own: Owners, i: nat, bn: nat, data: Block, j: nat, key: Name)
    requires FsOk(fs, own) && i < |fs.inodes| && |Content(fs, i)| % ENTRY == 0 && bn * BSIZE < fs.inodes[i].size
    requires j < SLOTS
    requires IsBlock(fs, i, bn, data) && !Binds(data, j, key)
    ensures !Binds(Content(fs, i), SLOTS * bn + j, key)
  {
    BlockEntry(fs, own, i, bn, data, j, key);
  }

  lemma EntryOffset(bn: nat, k: nat)
    ensures bn * BSIZE + ENTRY * k == ENTRY * (SLOTS * bn + k)
  {
  }

  datatype LinkResult = Linked | Exists | Panicked

  ghost predicate IsBound(c: seq<byte>, key: Name) { exists e: nat :: Binds(c, e, key) }

  /** `c` has the bindings of `c0` and one more. */
  ghost predicate Extends(c0: seq<byte>, c: seq<byte>, key: Name, inum: nat) {
    DirOk(c) && forall k: Name, n: nat :: Bound(c, k, n) <==> (k == key && n == inum) || Bound(c0, k, n)
  }

  /** No entry of the directory is free. */
  ghost predicate Crowded(c: seq<byte>) { forall e: nat :: Vacant(c, e) ==> ENTRY * e == |c| }

  ghost predicate OthersSame(fs0: Fs, fs: Fs, i: nat) {
    |fs.inodes| == |fs0.inodes| && forall j :: 0 <= j < |fs0.inodes| && j != i ==> Content(fs, j) == Content(fs0, j)
  }

  /** What dirlink promises: it fails exactly when the name is bound, panics exactly when it is not
      and the directory must grow and cannot, and otherwise adds that binding and no other. */
  ghost predicate LinkOutcome(fs0: Fs, fs: Fs, own: Owners, i: nat, name: seq<byte>, inum: nat, r: LinkResult) {
    && OthersSame(fs0, fs, i) && (r == Exists <==> IsBound(Content(fs0, i), Canon(name)))
    && (r == Panicked <==> !IsBound(Content(fs0, i), Canon(name)) && Crowded(Content(fs0, i)) && NoRoom(fs0, i))
    && (r == Exists ==> fs == fs0)
    && (r == Linked ==> FsOk(fs, own) && Extends(Content(fs0, i), Content(fs, i), Canon(name), inum))
  }

  /** The file is as large as can be, or one more entry needs more blocks than are free. */
  ghost predicate NoRoom(fs: Fs, i: nat) {
    IsSlot(fs, i, 0) && (|Content(fs, i)| == MAXBYTES || |Needed(fs, i, |Content(fs, i)|, ENTRY)| > |Free(fs)|)
  }

  /** The first entry that can be taken. */
  method FirstVacant(d: Disk, i: nat) returns (e: nat)
    requires FsOk(d.State(), d.own) && i < |d.inodes| && DirOk(Content(d.State(), i))
    modifies d
    ensures d.State() == old(d.State()) && FsOk(d.State(), d.own)
    ensures Vacant(Content(d.State(), i), e) && forall f: nat :: Vacant(Content(d.State(), i), f) ==> e <= f
  {
    ghost var (fs, c) := (d.State(), Content(d.State(), i));
    ContentSize(fs, d.own, i);
    assert |c| % ENTRY == 0;
    hide FsOk, Content, DirOk;
    e := 0;
    while ENTRY * e < d.inodes[i].size
      invariant d.State() == fs && FsOk(fs, d.own) && ENTRY * e <= |c|
      invariant forall f: nat :: f < e ==> !Vacant(c, f)
      decreases |c| - ENTRY * e
    {
      var de := d.Readi(i, ENTRY * e, ENTRY);
      assert de.value == c[ENTRY * e..ENTRY * e + ENTRY];
      if de.value[0] == 0 && de.value[1] == 0 { return; }
      e := e + 1;
    }
  }

  /** Bind a name that is not bound yet. */
  method Dirlink(d: Disk, i: nat, name: seq<byte>, inum: nat) returns (r: LinkResult)
    requires FsOk(d.State(), d.own) && i < |d.inodes| && d.inodes[i].isDir && DirOk(Content(d.State(), i))
    requires 0 < inum < 0x1_0000
    modifies d
    ensures d.Valid() && LinkOutcome(old(d.State()), d.State(), d.own, i, name, inum, r)
  {
    ghost var (fs, c) := (d.State(), Content(d.State(), i));
    assert d.Valid();
    hide FsOk, Content, DirOk, WriteOutcome, LinkOutcome, Inv, Vacant, Canon, Binds, Inum;
    var found := Dirlookup(d, i, name);
    if found.Some? {
      assert IsBound(c, Canon(name));
      StillThere(fs, d.own, i, name, inum);
      return Exists;
    }
    assert !IsBound(c, Canon(name));
    r := AddEntry(d, i, name, inum);
  }

  /** The part of dirlink after the name was not found. */
  method AddEntry(d: Disk, i: nat, name: seq<byte>, inum: nat) returns (r: LinkResult)
    requires FsOk(d.State(), d.own) && i < |d.inodes| && DirOk(Content(d.State(), i)) && 0 < inum < 0x1_0000
    requires !IsBound(Content(d.State(), i), Canon(name))
    modifies d
    ensures d.Valid() && LinkOutcome(old(d.State()), d.State(), d.own, i, name, inum, r)
  {
    ghost var (fs, own0) := (d.State(), d.own);
    hide FsOk, Content, DirOk, WriteOutcome, LinkOutcome, Inv, Vacant, IsBound;
    var e := FirstVacant(d, i);
    VacantAt(Content(fs, i), e);
    ContentSize(fs, own0, i);
    var de := Strncpy(name);
    var w := d.Writei(i, ENTRY * e, [inum % 0x100, inum / 0x100] + de);
    LinkWritten(fs, own0, d.State(), d.own, i, name, inum, e, w);
    r := if w == Wrote(ENTRY) then Linked else Panicked;
  }

  lemma VacantAt(c: seq<byte>, e: nat)
    requires Vacant(c, e)
    ensures ENTRY * e <= |c|
  {
  }

  lemma StillThere(fs: Fs, own: Owners, i: nat, name: seq<byte>, inum: nat)
    requires FsOk(fs, own) && IsBound(Content(fs, i), Canon(name))
    ensures LinkOutcome(fs, fs, own, i, name, inum, Exists) && Inv(fs, own, {})
  {
    hide Content, IsBound;
  }

  lemma LinkWritten(fs0: Fs, own0: Owners, fs: Fs, own: Owners, i: nat, name: seq<byte>, inum: nat, e: nat,
          w: WriteResult)
    requires FsOk(fs0, own0) && i < |fs0.inodes| && 0 < inum < 0x1_0000 && DirOk(Content(fs0, i))
    requires Vacant(Content(fs0, i), e)
    requires forall f: nat :: Vacant(Content(fs0, i), f) ==> e <= f
    requires !IsBound(Content(fs0, i), Canon(name))
    requires WriteOutcome(fs0, fs, own, i, ENTRY * e, Entry(Canon(name), inum), w)
    ensures LinkOutcome(fs0, fs, own, i, name, inum, if w == Wrote(ENTRY) then Linked else Panicked)
  {
    EntryAdded(Content(fs0, i), e, name, inum);
    LinkPanics(fs0, own0, fs, own, i, Entry(Canon(name), inum), e, w);
    hide FsOk, Content, DirOk, Needed, Free, IsBound, Bound, NoRoom, Crowded, Vacant, Canon;
    assert w == Wrote(ENTRY) ==> Fits(ENTRY * e, Entry(Canon(name), inum)) == Entry(Canon(name), inum);
  }

  /** The write of the entry falls short exactly when the directory must grow and cannot. */
  lemma LinkPanics(fs0: Fs, own0: Owners, fs: Fs, own: Owners, i: nat, d: seq<byte>, e: nat, w: WriteResult)
    requires FsOk(fs0, own0) && i < |fs0.inodes| && |d| == ENTRY && |Content(fs0, i)| % ENTRY == 0
    requires Vacant(Content(fs0, i), e) && forall f: nat :: Vacant(Content(fs0, i), f) ==> e <= f
    requires WriteOutcome(fs0, fs, own, i, ENTRY * e, d, w)
    ensures w == Wrote(ENTRY) <==> !(Crowded(Content(fs0, i)) && NoRoom(fs0, i))
    ensures ENTRY * e <= |Content(fs0, i)|
  {
    var c0 := Content(fs0, i);
    ContentSize(fs0, own0, i);
    if ENTRY * e < |c0| { InPlace(fs0, own0, i, e); }
    hide FsOk, Content, Needed, Free;
    assert ENTRY * e + |d| <= MAXBYTES ==> Fits(ENTRY * e, d) == d;
  }

  /** Writing over an entry needs no new block. */
  lemma InPlace(fs: Fs, own: Owners, i: nat, e: nat)
    requires FsOk(fs, own) && i < |fs.inodes| && ENTRY * e + ENTRY <= |Content(fs, i)|
    ensures IsSlot(fs, i, 0) && Needed(fs, i, ENTRY * e, ENTRY) == {}
  {
    hide Addr, Inv, ByteAt;
    ContentSize(fs, own, i);
    assert FileOk(fs, i);
    var bn := ENTRY * e / BSIZE;
    assert BlockEnd(ENTRY * e, ENTRY) == bn + 1;
    assert HasBlock(fs, i, bn);
    PathFull(fs, i, bn);
    forall k | k in Slots(bn, bn + 1) ensures k in Path(bn) { assert Through(bn, bn + 1, k); }
    assert Missing(fs, i, Slots(bn, bn + 1)) <= Missing(fs, i, Path(bn));
  }
}
