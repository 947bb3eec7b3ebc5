/** Files as bytes: what each file reads as, and what the block operations do to it. */
module Files {
  import opened Blocks
  import opened FsCore

  const MAXBYTES: nat := 71680   // MAXFILE * BSIZE

  /** The slot that bmap uses for block `bn` of a file. */
  function SlotOf(bn: nat): nat { if bn < NDIRECT then bn else bn + 1 }

  /** Byte `o` of file `i`; a hole reads as zero. */
  function ByteAt(fs: Fs, i: nat, o: nat): byte
    requires IsSlot(fs, i, 0) && o < MAXBYTES
  {
    var a := Addr(fs, i, SlotOf(o / BSIZE));
    if 0 < a < |fs.disk| then fs.disk[a][o % BSIZE] else 0
  }

  predicate SameByte(fs: Fs, fs': Fs, i: nat, o: nat) {
    IsSlot(fs, i, 0) && IsSlot(fs', i, 0) && o < MAXBYTES && ByteAt(fs', i, o) == ByteAt(fs, i, o)
  }

  /** Every file reads the same. */
  ghost predicate SameBytes(fs: Fs, fs': Fs) {
    forall i, o :: 0 <= i < |fs.inodes| && 0 <= o < MAXBYTES ==> SameByte(fs, fs', i, o)
  }

  predicate SameMeta(fs: Fs, fs': Fs) {
    && fs'.size == fs.size && fs'.ninodes == fs.ninodes && |fs'.inodes| == |fs.inodes|
    && forall i :: 0 <= i < |fs.inodes| ==>
          fs'.inodes[i].size == fs.inodes[i].size && fs'.inodes[i].isDir == fs.inodes[i].isDir
  }

  predicate HasBlock(fs: Fs, i: nat, bn: nat) { IsSlot(fs, i, SlotOf(bn)) && Addr(fs, i, SlotOf(bn)) != 0 }

  /** A file within its size has no holes, and reads as zero past its size. */
  ghost predicate FileOk(fs: Fs, i: nat) {
    && IsSlot(fs, i, 0) && fs.inodes[i].size <= MAXBYTES
    && (forall bn :: 0 <= bn && bn * BSIZE < fs.inodes[i].size ==> HasBlock(fs, i, bn))
    && (forall o :: fs.inodes[i].size <= o < MAXBYTES ==> ByteAt(fs, i, o) == 0)
  }

  ghost predicate FsOk(fs: Fs, own: Owners) {
    Inv(fs, own, {}) && forall i :: 0 <= i < |fs.inodes| ==> FileOk(fs, i)
  }

  /** What file `i` holds. */
  function Content(fs: Fs, i: nat): seq<byte> {
    if IsSlot(fs, i, 0) && fs.inodes[i].size <= MAXBYTES then
      seq(fs.inodes[i].size, o requires 0 <= o < fs.inodes[i].size => ByteAt(fs, i, o))
    else []
  }

  lemma ContentSize(fs: Fs, own: Owners, i: nat)
    requires FsOk(fs, own) && i < |fs.inodes|
    ensures |Content(fs, i)| == fs.inodes[i].size <= MAXBYTES
  {
    assert FileOk(fs, i);
  }

  lemma FilesInv(fs: Fs, own: Owners)
    requires FsOk(fs, own)
    ensures Inv(fs, own, {})
  {
  }

  lemma SameFiles(fs: Fs, own: Owners, own': Owners)
    requires FsOk(fs, own) && Inv(fs, own', {})
    ensures FsOk(fs, own')
  {
  }

  // The free blocks.

  ghost function Free(fs: Fs): set<nat> { set b | 0 <= b < fs.size && !Marked(fs, b) }

  lemma FreeIs(fs: Fs, own: Owners, spare: set<nat>)
    requires Inv(fs, own, spare)
    ensures Free(fs) == set b | MetaEnd(fs) <= b < fs.size && b !in own && b !in spare
  {
    forall b ensures b in Free(fs) <==> MetaEnd(fs) <= b < fs.size && b !in own && b !in spare {
      assert 0 <= b < fs.size ==> BlockOk(fs, own, spare, b);
    }
  }

  /** Giving an empty slot a fresh block takes one block from the free ones and is not visible
      in any file. */
  lemma AllocSlot(fs: Fs, own: Owners, i: nat, k: nat, b: nat)
    requires Inv(fs, own, {}) && IsSlot(fs, i, k) && Addr(fs, i, k) == 0 && b < fs.size && !Marked(fs, b)
    requires k > NDIRECT ==> Addr(fs, i, NDIRECT) != 0
    ensures MapBlock(fs, b) < |fs.disk|
    ensures var m := Mark(fs, b); IsSlot(m, i, k) && (k > NDIRECT ==> m.inodes[i].addrs[NDIRECT] < |m.disk|)
    ensures var fs' := Link(Mark(fs, b), i, k, b);
      && Inv(fs', own[b := Slot(i, k)], {}) && SameMeta(fs, fs') && SameBytes(fs, fs')
      && Free(fs') == Free(fs) - {b} && b != 0
      && forall j, l :: 0 <= j < |fs.inodes| && 0 <= l < NSLOTS ==>
            Addr(fs', j, l) == if i == j && k == l then b else Addr(fs, j, l)
  {
    assert SlotOk(fs, own, i, NDIRECT);
    assert k > NDIRECT ==> var d := fs.inodes[i].addrs[NDIRECT]; d in own && own[d].k == NDIRECT;
    hide BlockOk, SlotOk, OwnOk, Addr, Marked;
    MapBlockIs(fs, b);
    MarkInv(fs, own, {}, b);
    var m := Mark(fs, b);
    assert {} + {b} == {b};
    LinkInv(m, own, {b}, i, k, b);
    var fs' := Link(m, i, k, b);
    assert {b} - {b} == {};
    FreeIs(fs, own, {});
    FreeIs(fs', own[b := Slot(i, k)], {});
    assert Free(fs') == Free(fs) - {b};
    forall j, o | 0 <= j < |fs.inodes| && 0 <= o < MAXBYTES ensures SameByte(fs, fs', j, o) {
      AllocByte(fs, own, i, k, b, j, o);
    }
  }

  lemma AllocByte(fs: Fs, own: Owners, i: nat, k: nat, b: nat, j: nat, o: nat)
    requires Inv(fs, own, {}) && IsSlot(fs, i, k) && b < fs.size && MapBlock(fs, b) < MetaEnd(fs) && MetaEnd(fs) <= b
    requires b !in own
    requires var m := Mark(fs, b);
      && IsSlot(m, i, k)
      && (k > NDIRECT ==> var d := m.inodes[i].addrs[NDIRECT]; d < |m.disk| && d in own && own[d].k == NDIRECT)
    requires Mark(fs, b).disk[b] == Zeros()
    requires var fs' := Link(Mark(fs, b), i, k, b);
      && IsSlot(fs', j, 0)
      && forall l :: 0 <= l < NSLOTS ==> Addr(fs', j, l) == if i == j && k == l then b else Addr(fs, j, l)
    requires j < |fs.inodes| && o < MAXBYTES && Addr(fs, i, k) == 0
    ensures SameByte(fs, Link(Mark(fs, b), i, k, b), j, o)
  {
    hide BlockOk, Addr, Marked;
    var fs' := Link(Mark(fs, b), i, k, b);
    var l := SlotOf(o / BSIZE);
    var a := Addr(fs, j, l);
    if a != 0 {
      assert SlotOk(fs, own, j, l) && OwnOk(fs, own, a);
      assert fs'.disk[a] == fs.disk[a];
    }
  }

  /** Types and sizes of inodes do not matter to blocks, bytes and ownership. */
  lemma MetaFrame(fs: Fs, fs': Fs, own: Owners)
    requires Inv(fs, own, {}) && fs' == fs.(inodes := fs'.inodes) && |fs'.inodes| == |fs.inodes|
    requires forall i :: 0 <= i < |fs.inodes| ==> fs'.inodes[i].addrs == fs.inodes[i].addrs
    ensures Inv(fs', own, {}) && SameBytes(fs, fs') && Free(fs') == Free(fs)
    ensures forall j, k :: 0 <= j < |fs.inodes| && 0 <= k < NSLOTS ==> Addr(fs', j, k) == Addr(fs, j, k)
  {
    forall j, k | 0 <= j < |fs.inodes| && 0 <= k < NSLOTS
      ensures SlotOk(fs', own, j, k) && Addr(fs', j, k) == Addr(fs, j, k)
    {
      assert SlotOk(fs, own, j, k);
    }
    hide Addr;
    forall b | b in own ensures OwnOk(fs', own, b) { assert OwnOk(fs, own, b); }
    forall b | 0 <= b < fs.size ensures BlockOk(fs', own, {}, b) { assert BlockOk(fs, own, {}, b); }
    FreeIs(fs, own, {});
    FreeIs(fs', own, {});
    forall j, o | 0 <= j < |fs.inodes| && 0 <= o < MAXBYTES ensures SameByte(fs, fs', j, o) { }
  }
}
