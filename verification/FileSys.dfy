/** kernel/fs.c: balloc, bfree, bmap, readi, writei and itrunc, on the blocks and inodes in place. */
module FileSys {
  import opened Blocks
  import opened FsCore
  import opened Files
  import opened FileBytes
  import opened FileMap
  import opened FileTrunc
  import opened FileWrite
  import opened Options

  class Disk {
    const size: nat
    const ninodes: nat
    var disk: seq<Block>
    var inodes: seq<Inode>
    ghost var own: Owners

    ghost function State(): Fs
      reads this
    {
      Fs(size, ninodes, disk, inodes)
    }

    ghost predicate Valid()
      reads this
    {
      Inv(State(), own, {})
    }

    constructor (fs: Fs, ghost own: Owners)
      ensures State() == fs && this.own == own
    {
      size, ninodes, disk, inodes, this.own := fs.size, fs.ninodes, fs.disk, fs.inodes, own;
    }

    /** Mark the first clear bit.  The scan covers whole bitmap blocks, so the bit can lie past
        the last block of the image; it does exactly when no block is free. None stands for the
        panic. */
    method Balloc() returns (r: Option<nat>)
      requires Shape(State())
      modifies `disk
      ensures r.None? ==> disk == old(disk) && forall c :: 0 <= c < Bits(size) ==> Marked(old(State()), c)
      ensures r.Some? ==>
                r.value < Bits(size) && !Marked(old(State()), r.value) && MapBlock(State(), r.value) < MetaEnd(State())
      ensures r.Some? ==> forall c :: 0 <= c < r.value ==> Marked(old(State()), c)
      ensures r.Some? ==> State() == Mark(old(State()), r.value)
      ensures r.Some? && r.value < size <==> Free(old(State())) != {}
    {
      hide Marked, Mark;
      ghost var fs := State();
      var b := 0;
      while b < size
        invariant b % BPB == 0 && b <= Bits(size) && State() == fs
        invariant forall c :: 0 <= c < b ==> Marked(fs, c)
      {
        var m := b / BPB + ninodes / IPB + 3;
        var bp := disk[m];
        for bi := 0 to BPB
          invariant State() == fs
          invariant forall c :: 0 <= c < b + bi ==> Marked(fs, c)
        {
          BitOf(fs, b, bi);
          if !TestBit(bp, bi) {
            disk := disk[m := MarkBit(bp, bi)];
            FirstFree(fs, b + bi);
            return Some(b + bi);
          }
        }
        b := b + BPB;
      }
      BitsEnd(size, b);
      FirstFree(fs, b);
      return None;
    }

    /** Zero the block, then clear its bit; a panic if the bit is clear already, but then the block
        is zero. */
    method Bfree(b: nat) returns (panicked: bool)
      requires Shape(State()) && MetaEnd(State()) <= b < size
      modifies `disk
      ensures panicked <==> !Marked(old(State()), b)
      ensures State() == if panicked then SetBlock(old(State()), b, Zeros()) else Clear(old(State()), b)
    {
      MapBlockIs(State(), b);
      disk := disk[b := Zeros()];
      var m := b / BPB + ninodes / IPB + 3;
      var bp := disk[m];
      if !TestBit(bp, b % BPB) {
        return true;
      }
      disk := disk[m := ClearBit(bp, b % BPB)];
      panicked := false;
    }

    /** Read slot `k` of inode `i`, allocating a block for it if it is empty. */
    method SlotAddr(i: nat, k: nat) returns (r: Option<nat>)
      requires Valid() && IsSlot(State(), i, k)
      requires k > NDIRECT ==> Addr(State(), i, NDIRECT) != 0
      modifies this
      ensures Valid() && SlotResult(old(State()), State(), i, k, r)
    {
      ghost var fs := State();
      var addr := 0;
      assert SlotOk(fs, own, i, NDIRECT);
      if k <= NDIRECT {
        addr := inodes[i].addrs[k];
      } else {
        assert OwnOk(fs, own, inodes[i].addrs[NDIRECT]);
        addr := Word(disk[inodes[i].addrs[NDIRECT]], k - NDIRECT - 1);
      }
      assert addr == Addr(fs, i, k);
      hide Addr, SlotOk, OwnOk, BlockOk, Marked, Grew;
      if addr != 0 {
        GrewNone(fs, i, {k});
        return Some(addr);
      }
      r := Balloc();
      if r.Some? && r.value < size {
        var b := r.value;
        SlotFilled(fs, own, i, k, b);
        hide SlotResult, Inv;
        if k <= NDIRECT {
          inodes := inodes[i := inodes[i].(addrs := inodes[i].addrs[k := b])];
        } else {
          var d := inodes[i].addrs[NDIRECT];
          disk := disk[d := PutWord(disk[d], k - NDIRECT - 1, b)];
        }
        own := own[b := Slot(i, k)];
        assert State() == Link(Mark(fs, b), i, k, b);
      } else {
        NoneFree(fs, own, State(), r, i, k);
        r := None;
      }
    }

    /** The address of block `bn` of the file, allocated if there is none. */
    method Bmap(i: nat, bn: nat) returns (r: Option<nat>)
      requires Valid() && i < |inodes|
      modifies this
      ensures Valid() && BmapResult(old(State()), State(), i, bn, r)
    {
      hide Inv, Addr, Grew, BmapResult, SlotResult;
      ghost var fs := State();
      SlotIn(fs, own, {}, i);
      if bn < NDIRECT {
        r := SlotAddr(i, bn);
        BmapDirect(fs, State(), i, bn, r);
        return;
      }
      if bn >= MAXFILE {
        BmapRange(fs, i, bn);
        return None;
      }
      r := SlotAddr(i, NDIRECT);
      ghost var (mid, q) := (State(), r);
      if r.Some? {
        SlotGot(fs, mid, i, NDIRECT, r);
        r := SlotAddr(i, bn + 1);
      }
      BmapIndirect(fs, mid, State(), i, bn, q, r);
    }

    /** Copy `m` bytes at `o` out of the block that holds them. */
    method ReadPart(i: nat, o: nat, m: nat) returns (d: seq<byte>)
      requires FsOk(State(), own) && i < |inodes| && 0 < m && o + m <= |Content(State(), i)| && o % BSIZE + m <= BSIZE
      modifies this
      ensures State() == old(State()) && FsOk(State(), own)
      ensures d == Content(State(), i)[o..o + m]
    {
      hide FsOk, Content, Inv, BmapResult, Addr, HasBlock;
      ghost var fs := State();
      FilesInv(fs, own);
      ReadBlock(fs, own, i, o, m);
      var a := Bmap(i, o / BSIZE);
      BmapFull(fs, State(), i, o / BSIZE, a);
      SameFiles(fs, old(own), own);
      d := disk[a.value][o % BSIZE..o % BSIZE + m];
    }

    /** Read `n` bytes at `off`; None is the result -1.  The block map is complete up to the size
        of the file, so reading allocates nothing. */
    method Readi(i: nat, off: nat, n: nat) returns (r: Option<seq<byte>>)
      requires FsOk(State(), own) && i < |inodes| && off < WORD && n < WORD
      modifies this
      ensures State() == old(State()) && FsOk(State(), own)
      ensures r == ReadOf(Content(State(), i), off, n)
    {
      hide FsOk, Content;
      ghost var c := Content(State(), i);
      ContentSize(State(), own, i);
      WrapTest(off, n);
      if off > inodes[i].size || (off + n) % WORD < off { return None; }
      var len := if off + n > inodes[i].size then inodes[i].size - off else n;
      var (tot, o, dst: seq<byte>) := (0, off, []);
      while tot < len
        invariant tot <= len && o == off + tot && State() == old(State()) && FsOk(State(), own)
        invariant dst == c[off..off + tot]
      {
        var m := Min(len - tot, BSIZE - o % BSIZE);
        var d := ReadPart(i, o, m);
        dst := dst + d;
        tot, o := tot + m, o + m;
      }
      r := Some(dst);
    }

    /** Copy `d` into block `b` at `at` and write the block. */
    method PatchBlock(b: nat, at: nat, d: seq<byte>)
      requires b < |disk| && at + |d| <= BSIZE
      modifies `disk
      ensures State() == Patched(old(State()), b, at, d)
    {
      var bp := disk[b];
      disk := disk[b := bp[..at] + d + bp[at + |d|..]];
    }

    /** The loop of writei: one block at a time, until balloc gives out. */
    method WriteBlocks(i: nat, off: nat, d: seq<byte>) returns (ok: bool)
      requires FsOk(State(), own) && i < |inodes| && off + |d| <= MAXBYTES
      modifies this
      ensures Valid()
      ensures if ok then Progress(old(State()), State(), i, off, d, |d|) else CutShort(old(State()), State(), i, off, d)
    {
      hide Inv, Patched, FsOk, BmapResult, Progress, CutShort;
      ghost var (fs0, own0) := (State(), own);
      var (tot, o) := (0, off);
      WriteStart(fs0, own0, i, off, d);
      while tot < |d|
        invariant tot <= |d| && o == off + tot && Valid() && i < |inodes|
        invariant Progress(fs0, State(), i, off, d, tot)
      {
        ghost var fs := State();
        var a := Bmap(i, o / BSIZE);
        ghost var mid := State();
        if a.None? {
          WriteStops(fs0, own0, fs, mid, i, off, d, tot);
          return false;
        }
        var m := Min(|d| - tot, BSIZE - o % BSIZE);
        ProgressStep(fs0, fs, mid, own, i, off, d, tot, m, a);
        PatchBlock(a.value, o % BSIZE, d[tot..tot + m]);
        tot, o := tot + m, o + m;
      }
      ok := true;
    }

    /** Write `src` at `off`.  Stopped stands for a panic, or a block past the end, in balloc. */
    method Writei(i: nat, off: nat, src: seq<byte>) returns (r: WriteResult)
      requires FsOk(State(), own) && i < |inodes| && off < WORD && |src| < WORD
      modifies this
      ensures Valid() && WriteOutcome(old(State()), State(), own, i, off, src, r)
    {
      hide WriteOutcome, FsOk, Content, Progress, CutShort, Inv;
      ghost var (fs0, own0) := (State(), own);
      FilesInv(fs0, own0);
      ContentSize(fs0, own0, i);
      WrapTest(off, |src|);
      if off > inodes[i].size || (off + |src|) % WORD < off {
        WriteRefused(fs0, own0, i, off, src);
        return Refused;
      }
      var n := if off + |src| > MAXBYTES then MAXBYTES - off else |src|;
      var d := src[..n];
      assert d == Fits(off, src);
      var ok := WriteBlocks(i, off, d);
      if !ok {
        WriteCut(fs0, own0, State(), own, i, off, src);
        return Stopped;
      }
      ghost var fs := State();
      WriteEnds(fs0, own0, fs, own, i, off, src);
      if n > 0 && off + n > inodes[i].size {
        inodes := inodes[i := inodes[i].(size := off + n)];
      }
      assert State() == Grown(fs, i, off + n);
      r := Wrote(n);
    }

    /** Free the direct blocks, the blocks of the indirect block, and the indirect block. */
    method Itrunc(i: nat)
      requires FsOk(State(), own) && i < |inodes|
      modifies this
      ensures Truncated(old(State()), State(), own, i)
    {
      ghost var (fs0, own0) := (State(), own);
      assert Valid();
      hide FsOk;
      TruncDirect(i);
      ghost var fs := State();
      if inodes[i].addrs[NDIRECT] != 0 {
        FreeIndirect(i, inodes[i].addrs[NDIRECT], fs0, own0);
      } else {
        NoIndirect(fs0, own0, fs, own, i);
      }
      hide Inv, Cut;
      TruncDone(fs0, own0, State(), own, i);
      inodes := inodes[i := inodes[i].(size := 0)];
    }

    method TruncDirect(i: nat)
      requires Valid() && i < |inodes|
      modifies this
      ensures Cut(old(State()), old(own), State(), own, i, NDIRECT)
    {
      hide Inv, Clear, Marked, Cut, Addr;
      ghost var (fs0, own0) := (State(), own);
      CutStart(fs0, own0, i);
      for x := 0 to NDIRECT
        invariant Cut(fs0, own0, State(), own, i, x) && i < |inodes|
      {
        ghost var fs := State();
        DirectAt(fs0, own0, fs, own, i, x);
        var b := inodes[i].addrs[x];
        CutDirect(fs0, own0, fs, own, i, x);
        if b != 0 {
          ClearFrame(Link(fs, i, x, 0), fs.inodes, b);
          var panicked := Bfree(b);
          inodes := inodes[i := inodes[i].(addrs := inodes[i].addrs[x := 0])];
          own := own - {b};
          assert State() == Clear(Link(fs, i, x, 0), b);
        }
      }
    }

    /** Free the blocks named in `bp`, the indirect block of inode `i`. */
    method FreeEntries(i: nat, bp: Block) returns (ghost v: Fs)
      requires Valid() && i < |inodes| && Addr(State(), i, NDIRECT) != 0
      requires forall j :: 0 <= j < NINDIRECT ==> Addr(State(), i, NDIRECT + 1 + j) == Word(bp, j)
      modifies `disk
      ensures CutIndirect(old(State()), own, v, i, NINDIRECT) && State() == v.(inodes := old(inodes))
    {
      ghost var fs := State();
      v := Link(fs, i, NDIRECT, 0);
      IndirectStart(fs, own, i);
      hide Clear, Marked, Inv, CutIndirect, Addr, Word;
      for j := 0 to NINDIRECT
        invariant CutIndirect(fs, own, v, i, j) && State() == v.(inodes := fs.inodes)
      {
        IndirectStep(fs, own, v, i, j);
        var w := Word(bp, j);
        if w != 0 {
          ClearFrame(v, fs.inodes, w);
          var panicked := Bfree(w);
          v := Clear(v, w);
        }
      }
    }

    method FreeIndirect(i: nat, d: nat, ghost fs0: Fs, ghost own0: Owners)
      requires Inv(fs0, own0, {}) && Cut(fs0, own0, State(), own, i, NDIRECT) && i < |inodes|
      requires d == inodes[i].addrs[NDIRECT] != 0
      modifies this
      ensures Cut(fs0, own0, State(), own, i, NSLOTS)
    {
      hide Clear, Marked, Cut, Inv, CutIndirect, Addr, Word;
      ghost var (fs, was) := (State(), own);
      IndirectAt(fs0, own0, fs, was, i, NDIRECT);
      ghost var v := FreeEntries(i, disk[d]);
      IndirectEnd(fs0, own0, fs, was, v, i);
      ClearFrame(v, fs.inodes, d);
      var panicked := Bfree(d);
      inodes := inodes[i := inodes[i].(addrs := inodes[i].addrs[NDIRECT := 0])];
      own := was - Entries(was, i, 0);
      assert State() == Clear(v, d);
    }
  }

  /** Bit `bi` of the bitmap block for block `b`, a multiple of BPB. */
  lemma BitOf(fs: Fs, b: nat, bi: nat)
    requires Shape(fs) && b < fs.size && b % BPB == 0 && bi < BPB
    ensures var m := b / BPB + fs.ninodes / IPB + 3;
      && m < |fs.disk| && MapBlock(fs, b + bi) == m < MetaEnd(fs) && (Marked(fs, b + bi) <==> TestBit(fs.disk[m], bi))
      && Mark(fs, b + bi) == fs.(disk := fs.disk[m := MarkBit(fs.disk[m], bi)])
  {
    MapBlockIs(fs, b);
    assert (b + bi) / BPB == b / BPB && (b + bi) % BPB == bi;
  }

  /** The first clear bit is a free block exactly when there is one. */
  lemma FirstFree(fs: Fs, b: nat)
    requires forall c :: 0 <= c < b ==> Marked(fs, c)
    requires b < fs.size ==> !Marked(fs, b)
    ensures b < fs.size <==> Free(fs) != {}
  {
    hide Marked;
    if b < fs.size { assert b in Free(fs); }
  }

  lemma BitsEnd(size: nat, b: nat)
    requires b % BPB == 0 && size <= b <= Bits(size)
    ensures b == Bits(size)
  {
  }
}
