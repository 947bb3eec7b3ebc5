/** The progress of writei through the blocks of a range. */
module FileWrite {
  import opened Blocks
  import opened FsCore
  import opened Files
  import opened FileMap
  import opened FileBytes
  import opened Options

  /** Slots are filled, never emptied. */
  ghost predicate Kept(fs: Fs, fs': Fs) {
    forall j, l :: 0 <= j < |fs.inodes| && 0 <= l < NSLOTS ==> SlotKept(fs, fs', j, l)
  }

  predicate SlotKept(fs: Fs, fs': Fs, j: nat, l: nat) {
    IsSlot(fs, j, l) && IsSlot(fs', j, l) && (Addr(fs, j, l) != 0 ==> Addr(fs', j, l) != 0)
  }

  predicate PathKept(fs: Fs, i: nat, bn: nat) {
    HasBlock(fs, i, bn) && (bn >= NDIRECT ==> Addr(fs, i, NDIRECT) != 0)
  }

  /** After `tot` bytes of a write of `d` at `off`: those bytes are written and nothing else,
      their blocks are there, and one free block went for each slot filled. */
  ghost predicate Progress(fs0: Fs, fs: Fs, i: nat, off: nat, d: seq<byte>, tot: nat) {
    && tot <= |d| && i < |fs0.inodes| && IsSlot(fs0, i, 0) && IsSlot(fs, i, 0)
    && Written(fs0, fs, i, off, d[..tot]) && Kept(fs0, fs)
    && (forall bn :: off / BSIZE <= bn < BlockEnd(off, tot) ==> PathKept(fs, i, bn))
    && Balance(fs0, fs, i, Slots(off / BSIZE, BlockEnd(off, |d|)))
  }

  ghost predicate Balance(fs0: Fs, fs: Fs, i: nat, slots: set<nat>)
    requires IsSlot(fs0, i, 0) && IsSlot(fs, i, 0)
  {
    |Free(fs0)| - |Missing(fs0, i, slots)| == |Free(fs)| - |Missing(fs, i, slots)|
  }

  lemma ProgressStart(fs: Fs, i: nat, off: nat, d: seq<byte>)
    requires Shape(fs) && i < |fs.inodes|
    ensures Progress(fs, fs, i, off, d, 0)
  {
    WrittenNone(fs, i, off);
    assert d[..0] == [];
    hide Addr;
    forall j, l | 0 <= j < |fs.inodes| && 0 <= l < NSLOTS ensures SlotKept(fs, fs, j, l) { }
  }

  lemma WriteStart(fs: Fs, own: Owners, i: nat, off: nat, d: seq<byte>)
    requires FsOk(fs, own) && i < |fs.inodes|
    ensures Inv(fs, own, {}) && Progress(fs, fs, i, off, d, 0)
  {
    hide Progress;
    ProgressStart(fs, i, off, d);
  }

  lemma PathIn(off: nat, n: nat, tot: nat)
    requires tot < n && off + n <= MAXBYTES
    ensures (off + tot) / BSIZE < MAXFILE
    ensures Path((off + tot) / BSIZE) <= Slots(off / BSIZE, BlockEnd(off, n))
  {
    var bn := (off + tot) / BSIZE;
    assert off / BSIZE <= bn < BlockEnd(off, n);
    forall k | k in Path(bn) ensures k in Slots(off / BSIZE, BlockEnd(off, n)) {
      assert Through(off / BSIZE, BlockEnd(off, n), k);
    }
  }

  /** When bmap stops in the middle of a write, the write needed more blocks than were free. */
  lemma ProgressStop(fs0: Fs, fs: Fs, mid: Fs, i: nat, off: nat, d: seq<byte>, tot: nat)
    requires Progress(fs0, fs, i, off, d, tot) && tot < |d| && off + |d| <= MAXBYTES
    requires BmapResult(fs, mid, i, (off + tot) / BSIZE, None)
    ensures |Needed(fs0, i, off, |d|)| > |Free(fs0)|
  {
    hide Addr, Free, Missing, Written, Kept;
    PathIn(off, |d|, tot);
    BmapBalance(fs, mid, i, (off + tot) / BSIZE, None, Slots(off / BSIZE, BlockEnd(off, |d|)));
  }

  lemma PathDone(fs: Fs, i: nat, bn: nat)
    requires bn < MAXFILE && IsSlot(fs, i, 0) && Missing(fs, i, Path(bn)) == {}
    ensures PathKept(fs, i, bn)
  {
    hide Addr;
    forall k | k in Path(bn) ensures Addr(fs, i, k) != 0 {
      assert k !in Missing(fs, i, Path(bn));
    }
  }

  /** One round of the loop: bmap, then the bytes up to the end of the block or of the write. */
  lemma ProgressStep(fs0: Fs, fs: Fs, mid: Fs, own: Owners, i: nat, off: nat, d: seq<byte>, tot: nat, m: nat,
          r: Option<nat>)
    requires Progress(fs0, fs, i, off, d, tot) && off + |d| <= MAXBYTES
    requires tot < tot + m <= |d| && m == Min(|d| - tot, BSIZE - (off + tot) % BSIZE)
    requires BmapResult(fs, mid, i, (off + tot) / BSIZE, r) && r.Some? && Inv(mid, own, {})
    ensures r.value < |mid.disk| && i < |mid.inodes|
    ensures var fs' := Patched(mid, r.value, (off + tot) % BSIZE, d[tot..tot + m]);
      Inv(fs', own, {}) && Progress(fs0, fs', i, off, d, tot + m)
  {
    hide Patched, Inv, BmapResult, PatchResult, Progress, Written, Kept, PathKept, Balance;
    var (o, bn, more) := (off + tot, (off + tot) / BSIZE, d[tot..tot + m]);
    PathIn(off, |d|, tot);
    StepPatch(fs, mid, own, i, o, more, r);
    var fs' := Patched(mid, r.value, o % BSIZE, more);
    StepBalance(fs0, fs, mid, fs', i, off, d, tot, r);
    StepKept(fs0, fs, mid, fs', i, off, d, tot, r);
    StepPaths(fs0, fs, mid, fs', i, off, d, tot, m, r);
    StepWritten(fs0, fs, mid, fs', i, off, d, tot, m, r);
    ProgressIs(fs0, fs', i, off, d, tot + m);
  }

  lemma ProgressIs(fs0: Fs, fs: Fs, i: nat, off: nat, d: seq<byte>, tot: nat)
    requires tot <= |d| && i < |fs0.inodes| && IsSlot(fs0, i, 0) && IsSlot(fs, i, 0)
    requires Written(fs0, fs, i, off, d[..tot]) && Kept(fs0, fs)
    requires forall bn :: off / BSIZE <= bn < BlockEnd(off, tot) ==> PathKept(fs, i, bn)
    requires Balance(fs0, fs, i, Slots(off / BSIZE, BlockEnd(off, |d|)))
    ensures Progress(fs0, fs, i, off, d, tot)
  {
    hide Written, Kept, Balance, PathKept;
  }

  /** `fs'` is `mid` with the bytes `more` at `o` of file `i`, in blocks the file already had. */
  ghost predicate PatchResult(mid: Fs, fs': Fs, i: nat, o: nat, more: seq<byte>) {
    && Shape(mid) && Shape(fs') && i < |mid.inodes| && fs'.inodes == mid.inodes
    && Written(mid, fs', i, o, more) && Free(fs') == Free(mid)
    && forall j, k :: 0 <= j < |mid.inodes| && 0 <= k < NSLOTS ==> Addr(fs', j, k) == Addr(mid, j, k)
  }

  lemma StepPatch(fs: Fs, mid: Fs, own: Owners, i: nat, o: nat, more: seq<byte>, r: Option<nat>)
    requires BmapResult(fs, mid, i, o / BSIZE, r) && r.Some? && Inv(mid, own, {}) && o < MAXBYTES
    requires o % BSIZE + |more| <= BSIZE
    ensures r.value < |mid.disk| && i < |mid.inodes|
    ensures var fs' := Patched(mid, r.value, o % BSIZE, more); Inv(fs', own, {}) && PatchResult(mid, fs', i, o, more)
  {
    hide Addr, Free, Patched, Missing, ByteAt, SlotOk, OwnOk, BlockOk;
    BmapGot(fs, mid, i, o / BSIZE, r);
    hide BmapResult;
    PatchWrites(mid, own, i, o, more, r.value);
  }

  lemma BmapGot(fs: Fs, mid: Fs, i: nat, bn: nat, r: Option<nat>)
    requires BmapResult(fs, mid, i, bn, r) && r.Some?
    ensures HasBlock(mid, i, bn) && r.value == Addr(mid, i, SlotOf(bn))
    ensures Grew(fs, mid, i, Path(bn)) && SameMeta(fs, mid) && SameBytes(fs, mid)
  {
  }

  lemma StepBalance(fs0: Fs, fs: Fs, mid: Fs, fs': Fs, i: nat, off: nat, d: seq<byte>, tot: nat, r: Option<nat>)
    requires Progress(fs0, fs, i, off, d, tot) && tot < |d| && off + |d| <= MAXBYTES
    requires BmapResult(fs, mid, i, (off + tot) / BSIZE, r)
    requires exists o, more :: PatchResult(mid, fs', i, o, more)
    ensures IsSlot(fs0, i, 0) && IsSlot(fs', i, 0) && Balance(fs0, fs', i, Slots(off / BSIZE, BlockEnd(off, |d|)))
  {
    hide Addr, Free, Written, Kept;
    PathIn(off, |d|, tot);
    var slots := Slots(off / BSIZE, BlockEnd(off, |d|));
    BmapBalance(fs, mid, i, (off + tot) / BSIZE, r, slots);
    assert Missing(fs', i, slots) == Missing(mid, i, slots);
  }

  lemma StepKept(fs0: Fs, fs: Fs, mid: Fs, fs': Fs, i: nat, off: nat, d: seq<byte>, tot: nat, r: Option<nat>)
    requires Progress(fs0, fs, i, off, d, tot) && BmapResult(fs, mid, i, (off + tot) / BSIZE, r)
    requires exists o, more :: PatchResult(mid, fs', i, o, more)
    ensures Kept(fs0, fs')
  {
    hide Addr, Free, Missing, Balance;
    forall j, l | 0 <= j < |fs0.inodes| && 0 <= l < NSLOTS ensures SlotKept(fs0, fs', j, l) {
      assert SlotKept(fs0, fs, j, l) && SlotGrew(fs, mid, i, Path((off + tot) / BSIZE), j, l);
    }
  }

  lemma StepPaths(fs0: Fs, fs: Fs, mid: Fs, fs': Fs, i: nat, off: nat, d: seq<byte>, tot: nat, m: nat, r: Option<nat>)
    requires Progress(fs0, fs, i, off, d, tot) && off + |d| <= MAXBYTES
    requires tot < tot + m <= |d| && m == Min(|d| - tot, BSIZE - (off + tot) % BSIZE)
    requires BmapResult(fs, mid, i, (off + tot) / BSIZE, r) && r.Some?
    requires exists o, more :: PatchResult(mid, fs', i, o, more)
    ensures forall bn :: off / BSIZE <= bn < BlockEnd(off, tot + m) ==> PathKept(fs', i, bn)
  {
    hide Addr, Free, Balance, Written, Kept;
    var last := (off + tot) / BSIZE;
    PathDone(mid, i, last);
    assert BlockEnd(off, tot + m) == last + 1;
    forall bn | off / BSIZE <= bn < BlockEnd(off, tot + m) ensures PathKept(fs', i, bn) {
      if bn != last {
        assert PathKept(fs, i, bn);
        assert SlotGrew(fs, mid, i, Path(last), i, SlotOf(bn)) && SlotGrew(fs, mid, i, Path(last), i, NDIRECT);
      }
    }
  }

  lemma StepWritten(fs0: Fs, fs: Fs, mid: Fs, fs': Fs, i: nat, off: nat, d: seq<byte>, tot: nat, m: nat, r: Option<nat>)
    requires Progress(fs0, fs, i, off, d, tot) && tot + m <= |d| && BmapResult(fs, mid, i, (off + tot) / BSIZE, r)
    requires PatchResult(mid, fs', i, off + tot, d[tot..tot + m])
    ensures Written(fs0, fs', i, off, d[..tot + m]) && i < |fs0.inodes|
  {
    hide Addr, Free, Missing, Balance, Kept, Written;
    WrittenMore(fs0, fs, mid, fs', i, off, d[..tot], d[tot..tot + m]);
    assert d[..tot] + d[tot..tot + m] == d[..tot + m];
  }

  /** A finished write needed no more blocks than were free, and took exactly those. */
  lemma ProgressEnd(fs0: Fs, fs: Fs, i: nat, off: nat, d: seq<byte>)
    requires Progress(fs0, fs, i, off, d, |d|) && off + |d| <= MAXBYTES
    ensures |Free(fs)| == |Free(fs0)| - |Needed(fs0, i, off, |d|)|
  {
    hide Addr, Free, Written, Kept;
    var slots := Slots(off / BSIZE, BlockEnd(off, |d|));
    forall k | k in slots ensures Addr(fs, i, k) != 0 {
      var bn :| off / BSIZE <= bn < BlockEnd(off, |d|) && k in Path(bn);
      assert PathKept(fs, i, bn);
    }
    assert Missing(fs, i, slots) == {};
  }

  datatype WriteResult = Refused | Wrote(n: nat) | Stopped

  /** What writei promises about the image before and after. */
  ghost predicate WriteOutcome(fs0: Fs, fs: Fs, own: Owners, i: nat, off: nat, src: seq<byte>, r: WriteResult) {
    && IsSlot(fs0, i, 0) && |fs.inodes| == |fs0.inodes|
    && (r.Refused? <==> off > |Content(fs0, i)| || off + |src| >= WORD)
    && (r.Refused? ==> fs == fs0)
    && var d := Fits(off, src);
      && (!r.Refused? ==> (r.Wrote? <==> |Needed(fs0, i, off, |d|)| <= |Free(fs0)|))
      && (r.Wrote? ==> r.n == |d| && FsOk(fs, own) && Content(fs, i) == Overwrite(Content(fs0, i), off, d))
      && (r.Wrote? ==> |Free(fs)| == |Free(fs0)| - |Needed(fs0, i, off, |d|)|)
      && (r.Wrote? ==> fs.inodes[i].isDir == fs0.inodes[i].isDir)
      && forall j :: 0 <= j < |fs0.inodes| && j != i ==> Content(fs, j) == Content(fs0, j)
  }

  /** A write that stops half way leaves every other file alone. */
  ghost predicate CutShort(fs0: Fs, fs: Fs, i: nat, off: nat, d: seq<byte>) {
    && IsSlot(fs0, i, 0) && |Needed(fs0, i, off, |d|)| > |Free(fs0)| && |fs.inodes| == |fs0.inodes|
    && forall j :: 0 <= j < |fs0.inodes| && j != i ==> Content(fs, j) == Content(fs0, j)
  }

  lemma WriteStops(fs0: Fs, own0: Owners, fs: Fs, mid: Fs, i: nat, off: nat, d: seq<byte>, tot: nat)
    requires FsOk(fs0, own0) && i < |fs0.inodes|
    requires Progress(fs0, fs, i, off, d, tot) && tot < |d| && off + |d| <= MAXBYTES
    requires BmapResult(fs, mid, i, (off + tot) / BSIZE, None)
    ensures CutShort(fs0, mid, i, off, d)
  {
    hide Addr, Inv, Free, Missing, ByteAt, Kept;
    ProgressStop(fs0, fs, mid, i, off, d, tot);
    assert FileOk(fs0, i);
    forall j | 0 <= j < |fs0.inodes| && j != i ensures Content(mid, j) == Content(fs0, j) {
      assert FileOk(fs0, j);
      assert ByteIs(fs0, fs, i, off, d[..tot], j, 0) && SameByte(fs, mid, j, 0);
      forall o | 0 <= o < MAXBYTES ensures ByteAt(mid, j, o) == ByteAt(fs0, j, o) {
        assert ByteIs(fs0, fs, i, off, d[..tot], j, o) && SameByte(fs, mid, j, o);
      }
    }
  }

  lemma WriteRefused(fs: Fs, own: Owners, i: nat, off: nat, src: seq<byte>)
    requires FsOk(fs, own) && i < |fs.inodes| && (off > fs.inodes[i].size || off + |src| >= WORD)
    ensures WriteOutcome(fs, fs, own, i, off, src, Refused)
  {
    hide ByteAt;
    assert FileOk(fs, i);
  }

  lemma WriteCut(fs0: Fs, own0: Owners, fs: Fs, own: Owners, i: nat, off: nat, src: seq<byte>)
    requires FsOk(fs0, own0) && i < |fs0.inodes| && off <= fs0.inodes[i].size && off + |src| < WORD
    requires CutShort(fs0, fs, i, off, Fits(off, src))
    ensures WriteOutcome(fs0, fs, own, i, off, src, Stopped)
  {
    hide ByteAt, Needed, Free;
    assert FileOk(fs0, i);
  }

  lemma WriteEnds(fs0: Fs, own0: Owners, fs: Fs, own: Owners, i: nat, off: nat, src: seq<byte>)
    requires FsOk(fs0, own0) && i < |fs0.inodes| && off <= fs0.inodes[i].size && off + |src| < WORD
    requires var d := Fits(off, src); Progress(fs0, fs, i, off, d, |d|) && off + |d| <= MAXBYTES
    requires Inv(fs, own, {})
    ensures i < |fs.inodes| && fs.inodes[i].size == fs0.inodes[i].size
    ensures var fs' := Grown(fs, i, off + |Fits(off, src)|);
      Inv(fs', own, {}) && WriteOutcome(fs0, fs', own, i, off, src, Wrote(|Fits(off, src)|))
  {
    hide Addr, Free, Missing, ByteAt, SlotOk, OwnOk, BlockOk;
    var d := Fits(off, src);
    assert FileOk(fs0, i);
    assert d[..|d|] == d;
    ProgressEnd(fs0, fs, i, off, d);
    MetaFrame(fs, Grown(fs, i, off + |d|), own);
    forall j, k | 0 <= j < |fs0.inodes| && 0 <= k < NSLOTS && Addr(fs0, j, k) != 0 ensures Addr(fs, j, k) != 0 {
      assert SlotKept(fs0, fs, j, k);
    }
    forall bn | off / BSIZE <= bn < BlockEnd(off, |d|) ensures HasBlock(fs, i, bn) { assert PathKept(fs, i, bn); }
    WriteDone(fs0, own0, fs, own, i, off, d);
  }

  /** The source's test for a range that wraps around. */
  lemma WrapTest(off: nat, n: nat)
    requires off < WORD && n < WORD
    ensures (off + n) % WORD < off <==> off + n >= WORD
  {
  }
}
