/** Reading and writing ranges of a file, block by block. */
module FileBytes {
  import opened Blocks
  import opened FsCore
  import opened Files
  import opened FileMap
  import opened Options

  // The slots a range of blocks goes through.

  ghost function Slots(lo: nat, hi: nat): set<nat> {
    set k: nat | k < NSLOTS && Through(lo, hi, k)
  }

  ghost predicate Through(lo: nat, hi: nat, k: nat) { exists bn :: lo <= bn < hi && k in Path(bn) }

  /** One past the last block touched by `n` bytes from `off` on. */
  function BlockEnd(off: nat, n: nat): nat { if n == 0 then off / BSIZE else (off + n - 1) / BSIZE + 1 }

  /** The blocks a write of `n` bytes at `off` has to allocate, as slots. */
  ghost function Needed(fs: Fs, i: nat, off: nat, n: nat): set<nat>
    requires IsSlot(fs, i, 0)
  {
    Missing(fs, i, Slots(off / BSIZE, BlockEnd(off, n)))
  }

  lemma MissingSplit(fs: Fs, i: nat, slots: set<nat>, part: set<nat>)
    requires IsSlot(fs, i, 0) && part <= slots
    ensures |Missing(fs, i, slots)| == |Missing(fs, i, part)| + |Missing(fs, i, slots - part)|
  {
    hide Addr;
    assert Missing(fs, i, slots) == Missing(fs, i, part) + Missing(fs, i, slots - part);
  }

  /** One bmap on the way of a larger write: free blocks and missing slots go down together,
      and it stops only when there are more missing slots than free blocks. */
  lemma BmapBalance(fs: Fs, fs': Fs, i: nat, bn: nat, r: Option<nat>, slots: set<nat>)
    requires bn < MAXFILE && BmapResult(fs, fs', i, bn, r) && Path(bn) <= slots
    ensures |Free(fs)| - |Missing(fs, i, slots)| == |Free(fs')| - |Missing(fs', i, slots)|
    ensures r.None? ==> |Missing(fs, i, slots)| > |Free(fs)|
    ensures Missing(fs', i, slots) <= Missing(fs, i, slots)
  {
    hide Addr, Free;
    MissingSplit(fs, i, slots, Path(bn));
    MissingSplit(fs', i, slots, Path(bn));
    var rest := slots - Path(bn);
    forall k | k in slots && k < NSLOTS ensures SlotGrew(fs, fs', i, Path(bn), i, k) { }
    assert Missing(fs', i, rest) == Missing(fs, i, rest);
  }

  // Bytes.

  predicate ByteIs(fs0: Fs, fs: Fs, i: nat, off: nat, d: seq<byte>, j: nat, o: nat) {
    && IsSlot(fs0, j, 0) && IsSlot(fs, j, 0) && o < MAXBYTES
    && ByteAt(fs, j, o) == if j == i && off <= o < off + |d| then d[o - off] else ByteAt(fs0, j, o)
  }

  /** `fs` is `fs0` with the bytes `d` at `off` of file `i`, and every other byte of every file
      as it was. */
  ghost predicate Written(fs0: Fs, fs: Fs, i: nat, off: nat, d: seq<byte>) {
    && SameMeta(fs0, fs)
    && forall j, o :: 0 <= j < |fs0.inodes| && 0 <= o < MAXBYTES ==> ByteIs(fs0, fs, i, off, d, j, o)
  }

  /** Block `x` with the bytes `d` at `at`. */
  function Patch(x: Block, at: nat, d: seq<byte>): Block
    requires at + |d| <= BSIZE
  {
    x[..at] + d + x[at + |d|..]
  }

  /** The image after writing `d` at `at` into block `b`. */
  function Patched(fs: Fs, b: nat, at: nat, d: seq<byte>): Fs {
    if b < |fs.disk| && at + |d| <= BSIZE then SetBlock(fs, b, Patch(fs.disk[b], at, d)) else fs
  }

  /** Writing into the block that holds byte `off` of the file writes those bytes of the file. */
  lemma PatchWrites(fs: Fs, own: Owners, i: nat, off: nat, d: seq<byte>, a: nat)
    requires Inv(fs, own, {}) && i < |fs.inodes| && off < MAXBYTES && off % BSIZE + |d| <= BSIZE
    requires HasBlock(fs, i, off / BSIZE) && a == Addr(fs, i, SlotOf(off / BSIZE))
    ensures a < |fs.disk|
    ensures var fs' := Patched(fs, a, off % BSIZE, d);
      && Inv(fs', own, {}) && Written(fs, fs', i, off, d) && Free(fs') == Free(fs) && fs'.inodes == fs.inodes
      && forall j, k :: 0 <= j < |fs.inodes| && 0 <= k < NSLOTS ==> Addr(fs', j, k) == Addr(fs, j, k)
  {
    hide BlockOk;
    assert SlotOk(fs, own, i, SlotOf(off / BSIZE)) && OwnOk(fs, own, a);
    var x := Patch(fs.disk[a], off % BSIZE, d);
    StoreInv(fs, own, {}, a, x);
    var fs' := SetBlock(fs, a, x);
    FreeIs(fs, own, {});
    FreeIs(fs', own, {});
    hide Inv, Addr, Free;
    forall j, o | 0 <= j < |fs.inodes| && 0 <= o < MAXBYTES ensures ByteIs(fs, fs', i, off, d, j, o) {
      PatchByte(fs, own, i, off, d, a, j, o);
    }
  }

  lemma PatchByte(fs: Fs, own: Owners, i: nat, off: nat, d: seq<byte>, a: nat, j: nat, o: nat)
    requires Inv(fs, own, {}) && i < |fs.inodes| && off < MAXBYTES && off % BSIZE + |d| <= BSIZE
    requires HasBlock(fs, i, off / BSIZE) && j < |fs.inodes| && o < MAXBYTES
    requires a == Addr(fs, i, SlotOf(off / BSIZE)) < |fs.disk|
    requires var fs' := Patched(fs, a, off % BSIZE, d);
      IsSlot(fs', j, 0) && Addr(fs', j, SlotOf(o / BSIZE)) == Addr(fs, j, SlotOf(o / BSIZE))
    ensures ByteIs(fs, Patched(fs, a, off % BSIZE, d), i, off, d, j, o)
  {
    hide BlockOk, Addr;
    assert IsSlot(fs, j, 0);
    var c := Addr(fs, j, SlotOf(o / BSIZE));
    assert SlotOk(fs, own, i, SlotOf(off / BSIZE)) && SlotOk(fs, own, j, SlotOf(o / BSIZE));
    if c == a {
      assert SlotOf(off / BSIZE) == SlotOf(o / BSIZE) && off / BSIZE == o / BSIZE;
      assert o - off == o % BSIZE - off % BSIZE;
    } else if j == i {
      assert off / BSIZE != o / BSIZE;
    }
  }

  /** Filling slots, then writing the next part, extends what is written. */
  lemma WrittenMore(fs0: Fs, fs: Fs, mid: Fs, fs': Fs, i: nat, off: nat, d: seq<byte>, more: seq<byte>)
    requires Written(fs0, fs, i, off, d) && SameBytes(fs, mid) && SameMeta(fs, mid)
    requires Written(mid, fs', i, off + |d|, more)
    ensures Written(fs0, fs', i, off, d + more)
  {
    hide ByteAt;
    forall j, o | 0 <= j < |fs0.inodes| && 0 <= o < MAXBYTES ensures ByteIs(fs0, fs', i, off, d + more, j, o) {
      assert ByteIs(fs0, fs, i, off, d, j, o) && SameByte(fs, mid, j, o) && ByteIs(mid, fs', i, off + |d|, more, j, o);
    }
  }

  lemma WrittenNone(fs: Fs, i: nat, off: nat)
    requires Shape(fs)
    ensures Written(fs, fs, i, off, [])
  {
    forall j, o | 0 <= j < |fs.inodes| && 0 <= o < MAXBYTES ensures ByteIs(fs, fs, i, off, [], j, o) { }
  }

  // The whole of a read and of a write.

  function Min(a: int, b: int): int { if a < b then a else b }

  /** What a write of `d` at `off` makes of the contents `c`: overwrite, and append what goes
      past the end. */
  function Overwrite(c: seq<byte>, off: nat, d: seq<byte>): seq<byte>
    requires off <= |c|
  {
    c[..off] + d + c[Min(|c|, off + |d|)..]
  }

  /** The part of a write at `off` that fits the largest file. */
  function Fits(off: nat, d: seq<byte>): seq<byte> {
    if off + |d| > MAXBYTES then (if off <= MAXBYTES then d[..MAXBYTES - off] else []) else d
  }

  function Grown(fs: Fs, i: nat, end: nat): Fs
    requires i < |fs.inodes|
  {
    fs.(inodes := fs.inodes[i := fs.inodes[i].(size := if end > fs.inodes[i].size then end else fs.inodes[i].size)])
  }

  /** The files after a complete write: the one written to is overwritten or extended, the
      others are as they were. */
  lemma WriteDone(fs0: Fs, own0: Owners, fs: Fs, own: Owners, i: nat, off: nat, d: seq<byte>)
    requires FsOk(fs0, own0) && i < |fs0.inodes| && off <= fs0.inodes[i].size && off + |d| <= MAXBYTES
    requires Inv(fs, own, {}) && Written(fs0, fs, i, off, d)
    requires forall j, k :: 0 <= j < |fs0.inodes| && 0 <= k < NSLOTS && Addr(fs0, j, k) != 0 ==> Addr(fs, j, k) != 0
    requires forall bn :: off / BSIZE <= bn < BlockEnd(off, |d|) ==> HasBlock(fs, i, bn)
    ensures var fs' := Grown(fs, i, off + |d|);
      && FsOk(fs', own) && |fs'.inodes| == |fs0.inodes| && off <= |Content(fs0, i)|
      && Content(fs', i) == Overwrite(Content(fs0, i), off, d)
      && forall j :: 0 <= j < |fs0.inodes| && j != i ==> Content(fs', j) == Content(fs0, j)
  {
    var fs' := Grown(fs, i, off + |d|);
    MetaFrame(fs, fs', own);
    forall j | 0 <= j < |fs0.inodes|
      ensures FileOk(fs', j)
      ensures Content(fs', j) == if j == i then Overwrite(Content(fs0, i), off, d) else Content(fs0, j)
    {
      hide Inv, Addr, ByteAt, Content;
      WriteFile(fs0, own0, fs, fs', i, off, d, j);
    }
  }

  lemma WriteFile(fs0: Fs, own0: Owners, fs: Fs, fs': Fs, i: nat, off: nat, d: seq<byte>, j: nat)
    requires FsOk(fs0, own0) && i < |fs0.inodes| && off <= fs0.inodes[i].size && off + |d| <= MAXBYTES
    requires j < |fs0.inodes|
    requires Written(fs0, fs, i, off, d) && SameBytes(fs, fs') && fs' == Grown(fs, i, off + |d|) && Shape(fs)
    requires Shape(fs')
    requires forall k :: 0 <= k < NSLOTS && Addr(fs0, j, k) != 0 ==> Addr(fs, j, k) != 0
    requires forall k :: 0 <= k < NSLOTS ==> Addr(fs', j, k) == Addr(fs, j, k)
    requires forall bn :: off / BSIZE <= bn < BlockEnd(off, |d|) ==> HasBlock(fs, i, bn)
    ensures FileOk(fs', j)
    ensures off <= |Content(fs0, i)|
    ensures Content(fs', j) == if j == i then Overwrite(Content(fs0, i), off, d) else Content(fs0, j)
  {
    hide Inv, Addr, ByteAt;
    assert FileOk(fs0, j) && FileOk(fs0, i);
    forall bn | 0 <= bn && bn * BSIZE < fs'.inodes[j].size ensures HasBlock(fs', j, bn) {
      if bn * BSIZE < fs0.inodes[j].size { assert HasBlock(fs0, j, bn); }
      else { assert HasBlock(fs, i, bn); }
    }
    forall o | 0 <= o < MAXBYTES ensures ByteIs(fs0, fs', i, off, d, j, o) {
      assert ByteIs(fs0, fs, i, off, d, j, o) && SameByte(fs, fs', j, o);
    }
    forall o | fs'.inodes[j].size <= o < MAXBYTES
      ensures ByteAt(fs', j, o) == 0
    {
      assert ByteIs(fs0, fs', i, off, d, j, o);
    }
    var c := if j == i then Overwrite(Content(fs0, i), off, d) else Content(fs0, j);
    assert |Content(fs', j)| == |c|;
    forall o | 0 <= o < |c| ensures Content(fs', j)[o] == c[o] { assert ByteIs(fs0, fs', i, off, d, j, o); }
  }

  lemma PathFull(fs: Fs, i: nat, bn: nat)
    requires bn < MAXFILE && HasBlock(fs, i, bn)
    ensures IsSlot(fs, i, 0) && Missing(fs, i, Path(bn)) == {}
  {
  }

  /** Part of a block within the size of the file is that part of the contents. */
  lemma ReadBlock(fs: Fs, own: Owners, i: nat, o: nat, m: nat)
    requires FsOk(fs, own) && i < |fs.inodes| && 0 < m && o + m <= |Content(fs, i)| && o % BSIZE + m <= BSIZE
    ensures o / BSIZE < MAXFILE && HasBlock(fs, i, o / BSIZE) && Addr(fs, i, SlotOf(o / BSIZE)) < |fs.disk|
    ensures fs.disk[Addr(fs, i, SlotOf(o / BSIZE))][o % BSIZE..o % BSIZE + m] == Content(fs, i)[o..o + m]
  {
    hide Addr, BlockOk;
    assert FileOk(fs, i);
    var bn := o / BSIZE;
    assert HasBlock(fs, i, bn);
    var a := Addr(fs, i, SlotOf(bn));
    assert SlotOk(fs, own, i, SlotOf(bn)) && OwnOk(fs, own, a);
    hide Inv, FileOk;
    var (p, q) := (fs.disk[a][o % BSIZE..o % BSIZE + m], Content(fs, i)[o..o + m]);
    forall x | 0 <= x < m ensures p[x] == q[x] {
      assert (o + x) / BSIZE == bn && (o + x) % BSIZE == o % BSIZE + x;
      assert q[x] == ByteAt(fs, i, o + x);
    }
  }

  /** Where every slot on the way is full, bmap only looks. */
  lemma BmapFull(fs: Fs, fs': Fs, i: nat, bn: nat, r: Option<nat>)
    requires BmapResult(fs, fs', i, bn, r) && bn < MAXFILE && HasBlock(fs, i, bn)
    ensures fs' == fs && r == Some(Addr(fs, i, SlotOf(bn)))
  {
    PathFull(fs, i, bn);
  }

  /** What readi promises: nothing past the end, nothing for a range that wraps. */
  function ReadOf(c: seq<byte>, off: nat, n: nat): Option<seq<byte>> {
    if off > |c| || off + n >= WORD then None else Some(c[off..Min(|c|, off + n)])
  }
}
