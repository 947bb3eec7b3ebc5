/** The block maps of files: what filling empty slots does to the image, and bmap's outcome. */
module FileMap {
  import opened Blocks
  import opened FsCore
  import opened Files
  import opened Options

  /** The slots that bmap goes through for block `bn`. */
  ghost function Path(bn: nat): set<nat> { if bn < NDIRECT then {bn} else {NDIRECT, bn + 1} }

  /** Those of `slots` that are empty. */
  ghost function Missing(fs: Fs, i: nat, slots: set<nat>): set<nat>
    requires IsSlot(fs, i, 0)
  {
    set k | k in slots && k < NSLOTS && Addr(fs, i, k) == 0
  }

  /** The number of bits that balloc looks at: whole bitmap blocks. */
  function Bits(size: nat): nat { (size + BPB - 1) / BPB * BPB }

  ghost function Empty(fs: Fs, i: nat, k: nat): nat
    requires IsSlot(fs, i, k)
  {
    if Addr(fs, i, k) == 0 then 1 else 0
  }

  /** What reading or filling slot `k` comes to: it succeeds exactly when the slot is full or a
      block is free, and takes at most that one block. */
  ghost predicate SlotResult(fs: Fs, fs': Fs, i: nat, k: nat, r: Option<nat>) {
    && IsSlot(fs, i, k) && Grew(fs, fs', i, {k}) && IsSlot(fs', i, k)
    && (r.Some? <==> Addr(fs, i, k) != 0 || Free(fs) != {})
    && (r.Some? ==> r.value == Addr(fs', i, k) != 0)
    && (r.None? ==> Addr(fs', i, k) == 0 && Free(fs') == {})
    && (Addr(fs, i, k) != 0 ==> fs' == fs)
    && (Addr(fs, i, k) == 0 && r.Some? ==> r.value in Free(fs) && Free(fs') == Free(fs) - {r.value})
  }

  /** What bmap comes to: no file reads differently; blocks are taken for exactly the empty slots
      on the way, and it succeeds exactly when there are enough of them. */
  ghost predicate BmapResult(fs: Fs, fs': Fs, i: nat, bn: nat, r: Option<nat>) {
    && IsSlot(fs, i, 0) && Grew(fs, fs', i, Path(bn)) && IsSlot(fs', i, 0) && Free(fs') <= Free(fs)
    && (r.Some? <==> bn < MAXFILE && |Missing(fs, i, Path(bn))| <= |Free(fs)|)
    && (r.Some? ==> r.value == Addr(fs', i, SlotOf(bn)) != 0 && Missing(fs', i, Path(bn)) == {})
    && (bn < MAXFILE ==> |Free(fs)| - |Missing(fs, i, Path(bn))| == |Free(fs')| - |Missing(fs', i, Path(bn))|)
    && (bn < MAXFILE && r.None? ==> Free(fs') == {})
    && (bn < MAXFILE && Missing(fs, i, Path(bn)) == {} ==> fs' == fs)
  }

  lemma BmapDirect(fs: Fs, fs': Fs, i: nat, bn: nat, r: Option<nat>)
    requires bn < NDIRECT && SlotResult(fs, fs', i, bn, r)
    ensures BmapResult(fs, fs', i, bn, r)
  {
    hide Grew, Free, Addr;
    MissingOne(fs, i, bn);
    MissingOne(fs', i, bn);
  }

  lemma BmapRange(fs: Fs, i: nat, bn: nat)
    requires bn >= MAXFILE && Shape(fs) && i < |fs.inodes|
    ensures BmapResult(fs, fs, i, bn, None)
  {
    GrewNone(fs, i, Path(bn));
  }

  lemma BmapIndirect(fs: Fs, mid: Fs, fs': Fs, i: nat, bn: nat, q: Option<nat>, r: Option<nat>)
    requires NDIRECT <= bn < MAXFILE && SlotResult(fs, mid, i, NDIRECT, q)
    requires if q.Some? then SlotResult(mid, fs', i, bn + 1, r) else fs' == mid && r == q
    ensures BmapResult(fs, fs', i, bn, r)
  {
    IndirectGrew(fs, mid, fs', i, bn, q, r);
    IndirectCount(fs, mid, fs', i, bn, q, r);
    MissingTwo(fs, i, bn + 1);
    MissingTwo(fs', i, bn + 1);
    hide Grew, Free, Addr, Missing, SlotResult, Empty;
  }

  lemma IndirectGrew(fs: Fs, mid: Fs, fs': Fs, i: nat, bn: nat, q: Option<nat>, r: Option<nat>)
    requires NDIRECT <= bn < MAXFILE && SlotResult(fs, mid, i, NDIRECT, q)
    requires if q.Some? then SlotResult(mid, fs', i, bn + 1, r) else fs' == mid && r == q
    ensures Grew(fs, fs', i, Path(bn)) && IsSlot(fs, i, bn + 1) && IsSlot(fs', i, bn + 1)
    ensures Empty(fs, i, NDIRECT) + Empty(fs, i, bn + 1) == 0 ==> fs' == fs
  {
    hide Free, Addr;
    if q.Some? {
      GrewBoth(fs, mid, fs', i, {NDIRECT}, {bn + 1});
      assert {NDIRECT} + {bn + 1} == Path(bn);
    } else {
      GrewMore(fs, mid, i, {NDIRECT}, Path(bn));
    }
  }

  lemma IndirectCount(fs: Fs, mid: Fs, fs': Fs, i: nat, bn: nat, q: Option<nat>, r: Option<nat>)
    requires NDIRECT <= bn < MAXFILE && SlotResult(fs, mid, i, NDIRECT, q)
    requires if q.Some? then SlotResult(mid, fs', i, bn + 1, r) else fs' == mid && r == q
    requires IsSlot(fs, i, bn + 1) && IsSlot(fs', i, bn + 1)
    ensures var (e, e') := (Empty(fs, i, NDIRECT) + Empty(fs, i, bn + 1),
                            Empty(fs', i, NDIRECT) + Empty(fs', i, bn + 1));
      && |Free(fs)| - e == |Free(fs')| - e' && Free(fs') <= Free(fs) && (r.Some? <==> e <= |Free(fs)|)
      && (r.Some? ==> e' == 0 && r.value == Addr(fs', i, bn + 1)) && (r.None? ==> Free(fs') == {})
  {
    assert SlotGrew(fs, mid, i, {NDIRECT}, i, bn + 1);
    assert q.Some? ==> SlotGrew(mid, fs', i, {bn + 1}, i, NDIRECT);
    hide Grew, Free, Addr;
    SlotCount(fs, mid, i, NDIRECT, q);
    if q.Some? { SlotCount(mid, fs', i, bn + 1, r); }
  }

  lemma SlotGot(fs: Fs, fs': Fs, i: nat, k: nat, r: Option<nat>)
    requires SlotResult(fs, fs', i, k, r) && r.Some?
    ensures IsSlot(fs', i, k) && Addr(fs', i, k) != 0
  {
  }

  lemma SlotCount(fs: Fs, fs': Fs, i: nat, k: nat, r: Option<nat>)
    requires SlotResult(fs, fs', i, k, r)
    ensures Free(fs') <= Free(fs) && |Free(fs)| - Empty(fs, i, k) == |Free(fs')| - Empty(fs', i, k)
    ensures (Free(fs') == {} <==> |Free(fs')| == 0) && (Free(fs) == {} <==> |Free(fs)| == 0)
  {
    hide Addr, Grew, Free;
  }

  /** From `fs` to `fs'` only empty slots among `slots` of inode `i` were filled: no file reads
      differently. */
  ghost predicate Grew(fs: Fs, fs': Fs, i: nat, slots: set<nat>) {
    && SameMeta(fs, fs') && SameBytes(fs, fs')
    && forall j, l :: 0 <= j < |fs.inodes| && 0 <= l < NSLOTS ==> SlotGrew(fs, fs', i, slots, j, l)
  }

  ghost predicate SlotGrew(fs: Fs, fs': Fs, i: nat, slots: set<nat>, j: nat, l: nat) {
    && IsSlot(fs, j, l) && IsSlot(fs', j, l)
    && (Addr(fs', j, l) == Addr(fs, j, l) || (Addr(fs, j, l) == 0 && j == i && l in slots))
  }

  lemma GrewNone(fs: Fs, i: nat, slots: set<nat>)
    requires Shape(fs)
    ensures Grew(fs, fs, i, slots)
  {
    forall j, l | 0 <= j < |fs.inodes| && 0 <= l < NSLOTS ensures SlotGrew(fs, fs, i, slots, j, l) { }
  }

  lemma GrewMore(fs: Fs, fs': Fs, i: nat, s: set<nat>, t: set<nat>)
    requires Grew(fs, fs', i, s) && s <= t
    ensures Grew(fs, fs', i, t)
  {
    forall j, l | 0 <= j < |fs.inodes| && 0 <= l < NSLOTS ensures SlotGrew(fs, fs', i, t, j, l) {
      assert SlotGrew(fs, fs', i, s, j, l);
    }
  }

  lemma GrewBoth(fs: Fs, mid: Fs, fs': Fs, i: nat, s: set<nat>, t: set<nat>)
    requires Grew(fs, mid, i, s) && Grew(mid, fs', i, t)
    ensures Grew(fs, fs', i, s + t)
  {
    hide Addr;
    forall j, l | 0 <= j < |fs.inodes| && 0 <= l < NSLOTS ensures SlotGrew(fs, fs', i, s + t, j, l) {
      assert SlotGrew(fs, mid, i, s, j, l) && SlotGrew(mid, fs', i, t, j, l);
    }
    forall j, o | 0 <= j < |fs.inodes| && 0 <= o < MAXBYTES ensures SameByte(fs, fs', j, o) {
      assert SameByte(fs, mid, j, o) && SameByte(mid, fs', j, o);
    }
  }

  lemma MissingOne(fs: Fs, i: nat, k: nat)
    requires IsSlot(fs, i, k)
    ensures Missing(fs, i, {k}) == if Addr(fs, i, k) == 0 then {k} else {}
  {
  }

  lemma MissingTwo(fs: Fs, i: nat, k: nat)
    requires IsSlot(fs, i, k) && k > NDIRECT
    ensures |Missing(fs, i, {NDIRECT, k})| == Empty(fs, i, NDIRECT) + Empty(fs, i, k)
    ensures Missing(fs, i, {NDIRECT, k}) == {} <==> Empty(fs, i, NDIRECT) + Empty(fs, i, k) == 0
  {
    hide Addr;
    var d := if Addr(fs, i, NDIRECT) == 0 then {NDIRECT} else {};
    assert Missing(fs, i, {NDIRECT, k}) == d + (if Addr(fs, i, k) == 0 then {k} else {});
  }

  lemma SlotFilled(fs: Fs, own: Owners, i: nat, k: nat, b: nat)
    requires Inv(fs, own, {}) && IsSlot(fs, i, k) && Addr(fs, i, k) == 0 && b < fs.size && !Marked(fs, b)
    requires k > NDIRECT ==> Addr(fs, i, NDIRECT) != 0
    ensures MapBlock(fs, b) < |fs.disk|
    ensures var m := Mark(fs, b); IsSlot(m, i, k) && (k > NDIRECT ==> m.inodes[i].addrs[NDIRECT] < |m.disk|)
    ensures var fs' := Link(Mark(fs, b), i, k, b);
      Inv(fs', own[b := Slot(i, k)], {}) && SlotResult(fs, fs', i, k, Some(b))
  {
    AllocSlot(fs, own, i, k, b);
    assert b in Free(fs);
    hide Addr, Inv, SameBytes, SameMeta, Free;
    var fs' := Link(Mark(fs, b), i, k, b);
    forall j, l | 0 <= j < |fs.inodes| && 0 <= l < NSLOTS ensures SlotGrew(fs, fs', i, {k}, j, l) { }
  }

  /** When balloc finds no clear bit below the size of the image, no block is free. */
  lemma NoneFree(fs: Fs, own: Owners, fs': Fs, r: Option<nat>, i: nat, k: nat)
    requires Inv(fs, own, {}) && (r.Some? ==> r.value >= fs.size)
    requires r.None? ==> fs' == fs && forall c :: 0 <= c < Bits(fs.size) ==> Marked(fs, c)
    requires r.Some? ==> MapBlock(fs, r.value) < MetaEnd(fs) && fs' == Mark(fs, r.value) && !Marked(fs, r.value)
    requires r.Some? ==> forall c :: 0 <= c < r.value ==> Marked(fs, c)
    requires IsSlot(fs, i, k) && Addr(fs, i, k) == 0
    ensures Inv(fs', own, {}) && SlotResult(fs, fs', i, k, None)
  {
    assert Bits(fs.size) >= fs.size;
    assert Free(fs) == {};
    hide Addr, Marked, BlockOk;
    if r.Some? {
      MarkInv(fs, own, {}, r.value);
      FreeIs(fs, own, {});
      FreeIs(fs', own, {});
      assert Free(fs') == Free(fs);
    }
    forall j, l | 0 <= j < |fs.inodes| && 0 <= l < NSLOTS ensures SlotGrew(fs, fs', i, {k}, j, l) { }
    forall j, o | 0 <= j < |fs.inodes| && 0 <= o < MAXBYTES ensures SameByte(fs, fs', j, o) {
      var a := Addr(fs, j, SlotOf(o / BSIZE));
      assert SlotOk(fs, own, j, SlotOf(o / BSIZE));
      if a != 0 { assert OwnOk(fs, own, a); }
    }
  }
}
