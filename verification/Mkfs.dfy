/** tools/mkfs.c: building the image that the kernel starts from. */
module Mkfs {
  import opened Blocks
  import opened FsCore
  import opened Files
  import opened FileMap
  import opened FileBytes
  import opened FileWrite
  import opened FileTrunc
  import FileSys
  import opened DirEntries
  import opened Options

  /** A bitmap block with the first `n` bits set. */
  function FirstBits(n: nat): Block
    requires n <= BPB
  {
    if n == 0 then Zeros() else MarkBit(FirstBits(n - 1), n - 1)
  }

  lemma {:induction false} FirstBitsAre(n: nat, j: nat)
    requires n <= BPB && j < BPB
    ensures TestBit(FirstBits(n), j) <==> j < n
  {
    if n == 0 {
      ZeroBit(j % 8);
    } else {
      FirstBitsAre(n - 1, j);
      BitOps(FirstBits(n - 1), n - 1, j);
    }
  }

  lemma {:induction false} ZeroBit(k: nat)
    ensures !Bit(0, k)
  {
    if k > 0 { ZeroBit(k - 1); }
  }

  /** The image with its first `n` blocks marked in the bitmap. */
  function WithBits(fs: Fs, n: nat): Fs
    requires n <= BPB && fs.ninodes / IPB + 3 < |fs.disk|
  {
    SetBlock(fs, fs.ninodes / IPB + 3, FirstBits(n))
  }

  /** The bitmap blocks are still empty. */
  predicate NoBits(fs: Fs) {
    Shape(fs) && forall b :: fs.ninodes / IPB + 3 <= b < MetaEnd(fs) ==> fs.disk[b] == Zeros()
  }

  lemma WithBitsMarked(fs: Fs, n: nat, b: nat)
    requires NoBits(fs) && n <= BPB && b < fs.size
    ensures Shape(WithBits(fs, n)) && (Marked(WithBits(fs, n), b) <==> b < n)
  {
    MapBlockIs(fs, b);
    FirstBitsAre(n, b % BPB);
    ZeroBit(b % BPB % 8);
    if b < BPB { assert b / BPB == 0 && b % BPB == b; }
  }

  /** The image as it will be once the bitmap is written keeps the kernel's invariant. */
  ghost predicate Built(fs: Fs, n: nat, own: Owners) {
    NoBits(fs) && MetaEnd(fs) <= n <= BPB && n <= fs.size && FsOk(WithBits(fs, n), own)
  }

  /** No block of file `i` lies past its size. */
  ghost predicate Tight(fs: Fs, i: nat) {
    i < |fs.inodes| && forall bn: nat :: bn * BSIZE >= fs.inodes[i].size ==> !HasBlock(fs, i, bn)
  }

  ghost predicate AllTight(fs: Fs) { forall i :: 0 <= i < |fs.inodes| ==> Tight(fs, i) }

  lemma FreeBlocks(fs: Fs, n: nat)
    requires NoBits(fs) && n <= BPB && n <= fs.size
    ensures Free(WithBits(fs, n)) == (set b: nat | n <= b < fs.size && InRange(n, b))
    ensures |Free(WithBits(fs, n))| == fs.size - n
  {
    var r := set b: nat | n <= b < fs.size && InRange(n, b);
    forall b: nat ensures b in Free(WithBits(fs, n)) <==> b in r {
      if b < fs.size { WithBitsMarked(fs, n, b); }
    }
    RangeSize(n, fs.size);
  }

  predicate InRange(n: nat, b: nat) { n <= b }

  lemma {:induction false} RangeSize(n: nat, m: nat)
    requires n <= m
    ensures |set b: nat | n <= b < m && InRange(n, b)| == m - n
    decreases m - n
  {
    var r := set b: nat | n <= b < m && InRange(n, b);
    if n == m {
      assert r == {};
    } else {
      RangeSize(n, m - 1);
      assert r == (set b: nat | n <= b < m - 1 && InRange(n, b)) + {m - 1};
    }
  }

  /** Taking the next block for an empty slot. */
  lemma NextBlock(fs: Fs, n: nat, own: Owners, i: nat, k: nat)
    requires NoBits(fs) && MetaEnd(fs) <= n < BPB && n < fs.size && Inv(WithBits(fs, n), own, {})
    requires IsSlot(fs, i, k) && Addr(WithBits(fs, n), i, k) == 0
    requires k > NDIRECT ==> Addr(WithBits(fs, n), i, NDIRECT) != 0
    ensures k > NDIRECT ==> MetaEnd(fs) <= fs.inodes[i].addrs[NDIRECT] < |fs.disk|
    ensures NoBits(Link(fs, i, k, n)) && Inv(WithBits(Link(fs, i, k, n), n + 1), own[n := Slot(i, k)], {})
    ensures SlotResult(WithBits(fs, n), WithBits(Link(fs, i, k, n), n + 1), i, k, Some(n))
  {
    hide Inv, SlotResult, Marked, Addr, FirstBits, Link, Mark, WithBits, NoBits;
    NextFacts(fs, n, own, i, k);
    SlotFilled(WithBits(fs, n), own, i, k, n);
    MarkNext(fs, n);
    LinkBits(fs, i, k, n, n + 1);
  }

  lemma NextFacts(fs: Fs, n: nat, own: Owners, i: nat, k: nat)
    requires NoBits(fs) && MetaEnd(fs) <= n < BPB && n < fs.size && Inv(WithBits(fs, n), own, {}) && IsSlot(fs, i, k)
    ensures !Marked(WithBits(fs, n), n) && WithBits(fs, n).inodes == fs.inodes && |fs.disk| == fs.size < WORD
    ensures WithBits(fs, n).size == fs.size
    ensures k > NDIRECT && Addr(WithBits(fs, n), i, NDIRECT) != 0 ==>
              MetaEnd(fs) <= fs.inodes[i].addrs[NDIRECT] < |fs.disk|
  {
    hide FirstBits, BlockOk;
    var w := WithBits(fs, n);
    assert SlotOk(w, own, i, NDIRECT);
    assert k > NDIRECT && Addr(w, i, NDIRECT) != 0 ==> OwnOk(w, own, w.inodes[i].addrs[NDIRECT]);
    WithBitsMarked(fs, n, n);
  }

  /** Filling a slot does not touch the bitmap. */
  lemma LinkBits(fs: Fs, i: nat, k: nat, b: nat, n: nat)
    requires NoBits(fs) && n <= BPB && IsSlot(fs, i, k) && b < WORD
    requires k > NDIRECT ==> MetaEnd(fs) <= fs.inodes[i].addrs[NDIRECT] < |fs.disk|
    ensures NoBits(Link(fs, i, k, b)) && WithBits(fs, n).inodes == fs.inodes && |WithBits(fs, n).disk| == |fs.disk|
    ensures Link(WithBits(fs, n), i, k, b) == WithBits(Link(fs, i, k, b), n)
  {
    hide FirstBits;
    var (l, d) := (Link(fs, i, k, b), fs.inodes[i].addrs[NDIRECT]);
    if k > NDIRECT { assert Link(WithBits(fs, n), i, k, b).disk == WithBits(l, n).disk; }
  }

  lemma MarkNext(fs: Fs, n: nat)
    requires n < BPB && fs.ninodes / IPB + 3 < |fs.disk|
    ensures MapBlock(WithBits(fs, n), n) < |fs.disk| && Mark(WithBits(fs, n), n) == WithBits(fs, n + 1)
  {
    assert n / BPB == 0 && n % BPB == n;
  }

  const EMPTY: Inode := Inode(false, 0, [0, 0, 0, 0, 0, 0, 0, 0, 0, 0, 0, 0, 0])

  /** An image of zero blocks, its superblock apart, with empty inodes. */
  predicate Blank(fs: Fs) {
    && Shape(fs) && (forall b :: 0 <= b < fs.size && b != 1 ==> fs.disk[b] == Zeros())
    && forall i :: 0 <= i < |fs.inodes| ==> fs.inodes[i] == EMPTY
  }

  lemma BlankBuilt(fs: Fs)
    requires Blank(fs) && MetaEnd(fs) <= BPB
    ensures Built(fs, MetaEnd(fs), map[])
  {
    var (n, w) := (MetaEnd(fs), WithBits(fs, MetaEnd(fs)));
    assert NoBits(fs);
    hide FirstBits;
    forall b | 0 <= b < fs.size ensures BlockOk(w, map[], {}, b) {
      WithBitsMarked(fs, n, b);
    }
    hide Marked;
    forall i, k | 0 <= i < |w.inodes| && 0 <= k < NSLOTS
      ensures SlotOk(w, map[], i, k) && Addr(w, i, k) == 0
    {
      assert w.inodes[i] == EMPTY;
    }
    forall i | 0 <= i < |w.inodes| ensures FileOk(w, i) { assert w.inodes[i] == EMPTY; assert IsSlot(w, i, 0); }
  }

  lemma BlankTight(fs: Fs)
    requires Blank(fs) && MetaEnd(fs) <= BPB
    ensures AllTight(WithBits(fs, MetaEnd(fs)))
  {
    var w := WithBits(fs, MetaEnd(fs));
    hide FirstBits;
    forall i, bn: nat | 0 <= i < |w.inodes| ensures !HasBlock(w, i, bn) {
      assert w.inodes[i] == EMPTY;
    }
  }

  class Image {
    const size: nat
    const ninodes: nat
    var disk: seq<Block>
    var inodes: seq<Inode>
    var freeblock: nat
    var freeinode: nat
    ghost var own: Owners

    ghost function State(): Fs
      reads this
    {
      Fs(size, ninodes, disk, inodes)
    }

    ghost predicate Valid()
      reads this
    {
      && Built(State(), freeblock, own) && AllTight(WithBits(State(), freeblock))
      && |inodes| == ninodes && 0 < freeinode
      && forall i :: freeinode <= i < ninodes ==> inodes[i] == EMPTY
    }

    /** The image once its bitmap is written. */
    ghost function View(): Fs
      requires Valid()
      reads this
    {
      WithBits(State(), freeblock)
    }

    /** mkfs: `sb` is the superblock. */
    constructor (size: nat, ninodes: nat, sb: Block)
      requires var m := ninodes / IPB + 3 + size / BPB + 1; m <= size < WORD && m <= BPB
      ensures Valid() && this.size == size && this.ninodes == ninodes && freeinode == 1
      ensures freeblock == MetaEnd(State()) && forall i :: 0 <= i < ninodes ==> Content(View(), i) == []
    {
      var d: seq<Block> := [];
      for i := 0 to size
        invariant |d| == i && forall b :: 0 <= b < i ==> d[b] == Zeros()
      {
        d := d + [Zeros()];
      }
      this.size, this.ninodes, disk := size, ninodes, d[1 := sb];
      inodes := seq(ninodes, _ => EMPTY);
      freeblock, freeinode := ninodes / IPB + 3 + size / BPB + 1, 1;
      own := map[];
      new;
      BlankBuilt(State());
      BlankTight(State());
    }

    /** A new inode of the given type. */
    method Ialloc(isDir: bool) returns (inum: nat)
      requires Valid() && freeinode < ninodes
      modifies `inodes, `freeinode
      ensures Valid() && inum == old(freeinode) && freeinode == inum + 1
      ensures inodes == old(inodes)[inum := Inode(isDir, 0, EMPTY.addrs)]
      ensures forall i :: 0 <= i < ninodes ==> Content(View(), i) == old(Content(View(), i))
    {
      ghost var fs := State();
      inum := freeinode;
      TypeSet(fs, freeblock, own, inum, isDir);
      TypeTight(fs, freeblock, inum, isDir);
      freeinode := freeinode + 1;
      inodes := inodes[inum := Inode(isDir, 0, EMPTY.addrs)];
    }

    /** In the middle of an append: blocks and slots are in order. */
    ghost predicate Mid()
      reads this
    {
      && NoBits(State()) && MetaEnd(State()) <= freeblock <= BPB && freeblock <= size && ninodes / IPB + 3 < |disk|
      && Inv(WithBits(State(), freeblock), own, {})
    }

    /** Read slot `k` of inode `i`, giving it the next block if it is empty. */
    method SlotAddr(i: nat, k: nat) returns (x: nat)
      requires Mid() && IsSlot(State(), i, k)
      requires (Addr(WithBits(State(), freeblock), i, k) == 0 ==> freeblock < BPB && freeblock < size)
      requires k > NDIRECT ==> Addr(WithBits(State(), freeblock), i, NDIRECT) != 0
      modifies this
      ensures Mid() && SlotResult(old(WithBits(State(), freeblock)), WithBits(State(), freeblock), i, k, Some(x))
      ensures freeblock == old(freeblock) + Empty(old(WithBits(State(), freeblock)), i, k)
      ensures SameBut(old(inodes), inodes, i) && freeinode == old(freeinode)
    {
      ghost var fs := State();
      SlotRead(fs, freeblock, own, i, k);
      x := if k <= NDIRECT then inodes[i].addrs[k] else Word(disk[inodes[i].addrs[NDIRECT]], k - NDIRECT - 1);
      hide Addr, Inv, SlotResult, WithBits, NoBits;
      if x != 0 {
        SlotThere(fs, freeblock, own, i, k);
        return;
      }
      x := FillNext(i, k);
    }

    /** Give the empty slot the next block. */
    method FillNext(i: nat, k: nat) returns (x: nat)
      requires Mid() && IsSlot(State(), i, k) && Addr(WithBits(State(), freeblock), i, k) == 0 && freeblock < BPB
      requires freeblock < size
      requires k > NDIRECT ==> Addr(WithBits(State(), freeblock), i, NDIRECT) != 0
      modifies this
      ensures Mid() && SlotResult(old(WithBits(State(), freeblock)), WithBits(State(), freeblock), i, k, Some(x))
      ensures freeblock == old(freeblock) + 1 && SameBut(old(inodes), inodes, i) && freeinode == old(freeinode)
    {
      ghost var fs := State();
      hide Addr, Inv, SlotResult, WithBits, NoBits, PutWord;
      NextBlock(fs, freeblock, own, i, k);
      x := freeblock;
      if k <= NDIRECT {
        inodes := inodes[i := inodes[i].(addrs := inodes[i].addrs[k := x])];
      } else {
        var d := inodes[i].addrs[NDIRECT];
        disk := disk[d := PutWord(disk[d], k - NDIRECT - 1, x)];
      }
      own := own[x := Slot(i, k)];
      freeblock := freeblock + 1;
      assert State() == Link(fs, i, k, x);
    }

    /** The block for block `fbn` of the file, and for the indirect block if needed. */
    method BlockFor(i: nat, fbn: nat) returns (x: nat)
      requires Mid() && i < |inodes| && fbn < MAXFILE && IsSlot(State(), i, 0)
      requires var m := |Missing(WithBits(State(), freeblock), i, Path(fbn))|;
        freeblock + m <= BPB && freeblock + m <= size
      modifies this
      ensures Mid() && BmapResult(old(WithBits(State(), freeblock)), WithBits(State(), freeblock), i, fbn, Some(x))
      ensures freeblock == old(freeblock) + |Missing(old(WithBits(State(), freeblock)), i, Path(fbn))|
      ensures SameBut(old(inodes), inodes, i) && freeinode == old(freeinode)
    {
      hide Inv, Addr, Grew, BmapResult, SlotResult, NoBits, FirstBits, Missing;
      ghost var w := WithBits(State(), freeblock);
      if fbn < NDIRECT {
        MissingOne(w, i, fbn);
        MissingCount(w, i, fbn);
        x := SlotAddr(i, fbn);
        BmapDirect(w, WithBits(State(), freeblock), i, fbn, Some(x));
        return;
      }
      MissingTwo(w, i, fbn + 1);
      var y := SlotAddr(i, NDIRECT);
      ghost var v := WithBits(State(), freeblock);
      FilledThere(w, v, i, y, fbn + 1);
      x := SlotAddr(i, fbn + 1);
      BmapIndirect(w, v, WithBits(State(), freeblock), i, fbn, Some(y), Some(x));
    }

    /** Copy `d` into block `b` at `at`. */
    method PatchBlock(b: nat, at: nat, d: seq<byte>)
      requires Mid() && MetaEnd(State()) <= b < |disk| && at + |d| <= BSIZE
      requires Inv(Patched(WithBits(State(), freeblock), b, at, d), own, {})
      modifies `disk
      ensures Mid() && WithBits(State(), freeblock) == Patched(old(WithBits(State(), freeblock)), b, at, d)
    {
      hide Inv, FirstBits;
      ghost var fs := State();
      PatchBits(fs, freeblock, b, at, d);
      var bp := disk[b];
      disk := disk[b := bp[..at] + d + bp[at + |d|..]];
      assert State() == Patched(fs, b, at, d);
    }

    /** The loop of iappend, from byte `off0` of the file on. */
    method AppendBlocks(i: nat, off0: nat, d: seq<byte>)
      requires Mid() && i < |inodes| && IsSlot(State(), i, 0) && off0 + |d| <= MAXBYTES
      requires var m := |Needed(WithBits(State(), freeblock), i, off0, |d|)|;
        freeblock + m <= BPB && freeblock + m <= size
      modifies this
      ensures Mid() && SameBut(old(inodes), inodes, i) && freeinode == old(freeinode)
      ensures Progress(old(WithBits(State(), freeblock)), WithBits(State(), freeblock), i, off0, d, |d|)
      ensures Filled(old(WithBits(State(), freeblock)), WithBits(State(), freeblock), i, off0, |d|)
    {
      hide Inv, BmapResult, Progress, NoBits, Needed, Patched, FirstBits, Filled;
      ghost var (w0, n0) := (WithBits(State(), freeblock), freeblock);
      AppendStart(State(), freeblock, own, i, off0, d);
      FilledStart(w0, i, off0, |d|);
      var off, tot := off0, 0;
      while tot < |d|
        invariant tot <= |d| && off == off0 + tot && Mid() && i < |inodes| && IsSlot(State(), i, 0)
        invariant Progress(w0, WithBits(State(), freeblock), i, off0, d, tot)
        invariant Filled(w0, WithBits(State(), freeblock), i, off0, |d|)
        invariant SameBut(old(inodes), inodes, i) && freeinode == old(freeinode)
      {
        ghost var w := WithBits(State(), freeblock);
        var fbn := off / BSIZE;
        AppendRoom(w0, n0, State(), freeblock, own, i, off0, d, tot);
        var x := BlockFor(i, fbn);
        ghost var mid := WithBits(State(), freeblock);
        var n1 := Min(|d| - tot, (fbn + 1) * BSIZE - off);
        ProgressStep(w0, w, mid, own, i, off0, d, tot, n1, Some(x));
        FilledStep(w0, w, mid, own, i, off0, d, tot, n1, x);
        DataBlock(w, mid, own, i, fbn, x);
        PatchBlock(x, off % BSIZE, d[tot..tot + n1]);
        tot, off := tot + n1, off + n1;
      }
    }

    /** Append `d` to the file; the image has room for it. */
    method Iappend(i: nat, d: seq<byte>)
      requires Valid() && i < freeinode <= ninodes && inodes[i].size + |d| <= MAXBYTES
      requires var m := |Needed(View(), i, inodes[i].size, |d|)|; freeblock + m <= BPB && freeblock + m <= size
      modifies this
      ensures Valid() && freeinode == old(freeinode) && Content(View(), i) == old(Content(View(), i)) + d
      ensures inodes[i].size == old(inodes[i].size) + |d| && inodes[i].isDir == old(inodes[i].isDir)
      ensures forall j :: 0 <= j < ninodes && j != i ==> Content(View(), j) == old(Content(View(), j))
      ensures freeblock == old(freeblock) + |Needed(old(View()), i, old(inodes[i].size), |d|)|
    {
      ghost var (w0, own0, n0) := (View(), own, freeblock);
      hide Inv, Progress, NoBits, FsOk, Needed, FirstBits, Content, Filled, AllTight;
      BuiltMid(State(), freeblock, own, i);
      var off := inodes[i].size;
      AppendBlocks(i, off, d);
      ghost var fs := State();
      AppendDone(w0, own0, n0, fs, freeblock, own, i, off, d);
      AppendTight(w0, fs, freeblock, i, off, d);
      inodes := inodes[i := inodes[i].(size := off + |d|)];
      assert State() == Grown(fs, i, off + |d|);
    }

    /** The end of add_dir: round the size of the directory up to the next block. The image
        stays in order exactly when the directory does not already end on a block boundary;
        it then reads as before, with zeros behind its entries. */
    method RoundUp(i: nat)
      requires Valid() && i < freeinode <= ninodes
      modifies `inodes
      ensures inodes == old(inodes)[i := old(inodes[i]).(size := Rounded(old(inodes[i].size)))]
      ensures Valid() <==> old(inodes[i].size) % BSIZE != 0
      ensures Valid() ==> Content(View(), i) == old(Content(View(), i)) + NoBytes(inodes[i].size - old(inodes[i].size))
      ensures Valid() ==> forall j :: 0 <= j < ninodes && j != i ==> Content(View(), j) == old(Content(View(), j))
    {
      ghost var fs := State();
      hide Inv, NoBits, FsOk, FirstBits, Content, AllTight;
      RoundUpBuilt(fs, freeblock, own, i);
      var off := inodes[i].size;
      off := (off / BSIZE + 1) * BSIZE;
      inodes := inodes[i := inodes[i].(size := off)];
      assert State() == SetSize(fs, i, off);
    }

    /** Write the bitmap: the image is now what it was built to be. */
    method Balloc()
      requires Valid() && freeblock < BPB
      modifies `disk
      ensures FsOk(State(), own) && State() == old(View())
    {
      var buf := Zeros();
      for i := 0 to freeblock
        invariant buf == FirstBits(i)
      {
        buf := MarkBit(buf, i);
      }
      disk := disk[ninodes / IPB + 3 := buf];
    }
  }

  predicate SameBut(inodes: seq<Inode>, inodes': seq<Inode>, i: nat) {
    |inodes'| == |inodes| && forall j :: 0 <= j < |inodes| && j != i ==> inodes'[j] == inodes[j]
  }

  /** The bitmap block is no indirect block, so slots read the same with the bits or without. */
  lemma SlotRead(fs: Fs, n: nat, own: Owners, i: nat, k: nat)
    requires NoBits(fs) && n <= BPB && Inv(WithBits(fs, n), own, {}) && IsSlot(fs, i, k)
    requires k > NDIRECT ==> Addr(WithBits(fs, n), i, NDIRECT) != 0
    ensures k > NDIRECT ==> fs.inodes[i].addrs[NDIRECT] < |fs.disk|
    ensures var x := fs.inodes[i].addrs;
      Addr(WithBits(fs, n), i, k) == if k <= NDIRECT then x[k] else Word(fs.disk[x[NDIRECT]], k - NDIRECT - 1)
  {
    hide FirstBits, BlockOk;
    var w := WithBits(fs, n);
    assert SlotOk(w, own, i, NDIRECT);
    if k > NDIRECT { assert OwnOk(w, own, fs.inodes[i].addrs[NDIRECT]); }
  }

  lemma SlotThere(fs: Fs, n: nat, own: Owners, i: nat, k: nat)
    requires NoBits(fs) && n <= BPB && Inv(WithBits(fs, n), own, {}) && IsSlot(fs, i, k)
    requires Addr(WithBits(fs, n), i, k) != 0
    ensures SlotResult(WithBits(fs, n), WithBits(fs, n), i, k, Some(Addr(WithBits(fs, n), i, k)))
  {
    GrewNone(WithBits(fs, n), i, {k});
  }

  lemma MissingCount(w: Fs, i: nat, k: nat)
    requires IsSlot(w, i, k) && k < NDIRECT
    ensures |Missing(w, i, Path(k))| == Empty(w, i, k)
  {
    MissingOne(w, i, k);
  }

  lemma FilledThere(w: Fs, v: Fs, i: nat, y: nat, k: nat)
    requires SlotResult(w, v, i, NDIRECT, Some(y)) && NDIRECT < k < NSLOTS && IsSlot(w, i, k)
    ensures IsSlot(v, i, k) && Addr(v, i, NDIRECT) != 0 && Empty(v, i, k) == Empty(w, i, k)
  {
    assert SlotGrew(w, v, i, {NDIRECT}, i, k);
  }

  /** Writing data does not touch the bitmap. */
  lemma PatchBits(fs: Fs, n: nat, b: nat, at: nat, d: seq<byte>)
    requires NoBits(fs) && n <= BPB && MetaEnd(fs) <= b < |fs.disk| && at + |d| <= BSIZE
    ensures NoBits(Patched(fs, b, at, d)) && |Patched(fs, b, at, d).disk| == |fs.disk|
    ensures Patched(WithBits(fs, n), b, at, d) == WithBits(Patched(fs, b, at, d), n)
  {
    hide FirstBits;
    var p := Patched(fs, b, at, d);
    assert Patched(WithBits(fs, n), b, at, d).disk == WithBits(p, n).disk;
  }

  lemma DataBlock(w: Fs, mid: Fs, own: Owners, i: nat, fbn: nat, x: nat)
    requires BmapResult(w, mid, i, fbn, Some(x)) && Inv(mid, own, {})
    ensures MetaEnd(mid) <= x < mid.size && IsSlot(mid, i, 0)
  {
    assert SlotOk(mid, own, i, SlotOf(fbn)) && OwnOk(mid, own, x);
  }

  /** What is still to be allocated fits, if the whole write does. */
  lemma AppendRoom(w0: Fs, n0: nat, fs: Fs, n: nat, own: Owners, i: nat, off: nat, d: seq<byte>, tot: nat)
    requires NoBits(fs) && MetaEnd(fs) <= n <= BPB && n <= fs.size && Progress(w0, WithBits(fs, n), i, off, d, tot)
    requires tot < |d| && off + |d| <= MAXBYTES && n0 <= w0.size == fs.size && |Free(w0)| == w0.size - n0
    requires var m := |Needed(w0, i, off, |d|)|; n0 + m <= BPB && n0 + m <= fs.size
    ensures (off + tot) / BSIZE < MAXFILE
    ensures var m := |Missing(WithBits(fs, n), i, Path((off + tot) / BSIZE))|; n + m <= BPB && n + m <= fs.size
  {
    hide Free, Missing, Written, Kept, FirstBits, Addr;
    PathIn(off, |d|, tot);
    FreeBlocks(fs, n);
    MissingSplit(WithBits(fs, n), i, Slots(off / BSIZE, BlockEnd(off, |d|)), Path((off + tot) / BSIZE));
  }

  lemma AppendDone(w0: Fs, own0: Owners, n0: nat, fs: Fs, n: nat, own: Owners, i: nat, off: nat, d: seq<byte>)
    requires FsOk(w0, own0) && i < |w0.inodes| && off == w0.inodes[i].size && off + |d| <= MAXBYTES
    requires |Free(w0)| == w0.size - n0 && w0.size == fs.size
    requires NoBits(fs) && MetaEnd(fs) <= n <= BPB && n <= fs.size && Inv(WithBits(fs, n), own, {})
    requires Progress(w0, WithBits(fs, n), i, off, d, |d|)
    ensures i < |fs.inodes| && fs.inodes[i].size == off && Built(Grown(fs, i, off + |d|), n, own)
    ensures n == n0 + |Needed(w0, i, off, |d|)|
    ensures var v := WithBits(Grown(fs, i, off + |d|), n);
      && Content(v, i) == Content(w0, i) + d && |v.inodes| == |w0.inodes|
      && forall j :: 0 <= j < |w0.inodes| && j != i ==> Content(v, j) == Content(w0, j)
  {
    hide Inv, Progress, Free, Needed, Content, FirstBits;
    ContentSize(w0, own0, i);
    WriteEnds(w0, own0, WithBits(fs, n), own, i, off, d);
    FreeBlocks(fs, n);
    ProgressEnd(w0, WithBits(fs, n), i, off, d);
    assert Fits(off, d) == d;
    assert Grown(WithBits(fs, n), i, off + |d|) == WithBits(Grown(fs, i, off + |d|), n);
    assert Overwrite(Content(w0, i), off, d) == Content(w0, i) + d;
  }

  lemma BuiltMid(fs: Fs, n: nat, own: Owners, i: nat)
    requires Built(fs, n, own) && i < |fs.inodes|
    ensures NoBits(fs) && fs.ninodes / IPB + 3 < |fs.disk| && IsSlot(fs, i, 0) && Inv(WithBits(fs, n), own, {})
    ensures |Free(WithBits(fs, n))| == fs.size - n
  {
    FreeBlocks(fs, n);
  }

  lemma AppendStart(fs: Fs, n: nat, own: Owners, i: nat, off: nat, d: seq<byte>)
    requires NoBits(fs) && n <= BPB && n <= fs.size && Inv(WithBits(fs, n), own, {}) && i < |fs.inodes|
    ensures Progress(WithBits(fs, n), WithBits(fs, n), i, off, d, 0) && |Free(WithBits(fs, n))| == fs.size - n
    ensures Shape(WithBits(fs, n))
  {
    hide Progress, FirstBits;
    ProgressStart(WithBits(fs, n), i, off, d);
    FreeBlocks(fs, n);
  }

  lemma TypeSet(fs: Fs, n: nat, own: Owners, i: nat, isDir: bool)
    requires Built(fs, n, own) && i < |fs.inodes| && fs.inodes[i] == EMPTY
    ensures var fs' := fs.(inodes := fs.inodes[i := Inode(isDir, 0, EMPTY.addrs)]);
      && Built(fs', n, own)
      && forall j :: 0 <= j < |fs.inodes| ==> Content(WithBits(fs', n), j) == Content(WithBits(fs, n), j)
  {
    var fs' := fs.(inodes := fs.inodes[i := Inode(isDir, 0, EMPTY.addrs)]);
    var (w, w') := (WithBits(fs, n), WithBits(fs', n));
    MetaFrame(w, w', own);
    hide Addr, Inv, WithBits;
    forall j | 0 <= j < |fs.inodes| ensures FileOk(w', j) && Content(w', j) == Content(w, j) {
      assert FileOk(w, j);
      SameFile(w, w', j);
    }
  }

  lemma TypeTight(fs: Fs, n: nat, i: nat, isDir: bool)
    requires NoBits(fs) && n <= BPB && i < |fs.inodes| && fs.inodes[i] == EMPTY && AllTight(WithBits(fs, n))
    ensures AllTight(WithBits(fs.(inodes := fs.inodes[i := Inode(isDir, 0, EMPTY.addrs)]), n))
  {
    hide FirstBits;
    var (w, w') := (WithBits(fs, n), WithBits(fs.(inodes := fs.inodes[i := Inode(isDir, 0, EMPTY.addrs)]), n));
    forall j, bn: nat | 0 <= j < |w'.inodes| && bn * BSIZE >= w'.inodes[j].size ensures !HasBlock(w', j, bn) {
      assert Tight(w, j) && !HasBlock(w, j, bn);
    }
  }

  lemma SameFile(w: Fs, w': Fs, j: nat)
    requires FileOk(w, j) && SameBytes(w, w') && IsSlot(w', j, 0) && w'.inodes[j].size == w.inodes[j].size
    requires forall k :: 0 <= k < NSLOTS ==> Addr(w', j, k) == Addr(w, j, k)
    ensures FileOk(w', j) && Content(w', j) == Content(w, j)
  {
    hide Addr, ByteAt;
    forall o | 0 <= o < MAXBYTES ensures ByteAt(w', j, o) == ByteAt(w, j, o) { assert SameByte(w, w', j, o); }
    forall bn | 0 <= bn && bn * BSIZE < w'.inodes[j].size ensures HasBlock(w', j, bn) { assert HasBlock(w, j, bn); }
  }

  /** Only slots on the way of `n` bytes at `off` of file `i` were filled. */
  ghost predicate Filled(fs: Fs, fs': Fs, i: nat, off: nat, n: nat) {
    forall j, l :: 0 <= j < |fs.inodes| && 0 <= l < NSLOTS ==>
      SlotGrew(fs, fs', i, Slots(off / BSIZE, BlockEnd(off, n)), j, l)
  }

  lemma FilledStart(fs: Fs, i: nat, off: nat, n: nat)
    requires Shape(fs)
    ensures Filled(fs, fs, i, off, n)
  {
    hide Addr;
    forall j, l | 0 <= j < |fs.inodes| && 0 <= l < NSLOTS
      ensures SlotGrew(fs, fs, i, Slots(off / BSIZE, BlockEnd(off, n)), j, l)
    {
      assert IsSlot(fs, j, l);
    }
  }

  lemma FilledStep(w0: Fs, w: Fs, mid: Fs, own: Owners, i: nat, off: nat, d: seq<byte>, tot: nat, m: nat, x: nat)
    requires Filled(w0, w, i, off, |d|) && Inv(mid, own, {}) && |w.inodes| == |w0.inodes| == |mid.inodes|
    requires tot < tot + m <= |d| && off + |d| <= MAXBYTES && (off + tot) % BSIZE + m <= BSIZE
    requires BmapResult(w, mid, i, (off + tot) / BSIZE, Some(x))
    ensures Filled(w0, Patched(mid, x, (off + tot) % BSIZE, d[tot..tot + m]), i, off, |d|)
  {
    hide Inv, Addr, Patched, Missing, Free, SameBytes, SameMeta, Written;
    var (s, path) := (Slots(off / BSIZE, BlockEnd(off, |d|)), Path((off + tot) / BSIZE));
    PathIn(off, |d|, tot);
    StepPatch(w, mid, own, i, off + tot, d[tot..tot + m], Some(x));
    var w' := Patched(mid, x, (off + tot) % BSIZE, d[tot..tot + m]);
    forall j, l | 0 <= j < |w0.inodes| && 0 <= l < NSLOTS ensures SlotGrew(w0, w', i, s, j, l) {
      assert SlotGrew(w0, w, i, s, j, l) && SlotGrew(w, mid, i, path, j, l);
    }
  }

  /** An append fills no slot past the new size. */
  lemma AppendTight(w0: Fs, fs: Fs, n: nat, i: nat, off: nat, d: seq<byte>)
    requires AllTight(w0) && i < |w0.inodes| && off == w0.inodes[i].size && n <= BPB && fs.ninodes / IPB + 3 < |fs.disk|
    requires Progress(w0, WithBits(fs, n), i, off, d, |d|) && Filled(w0, WithBits(fs, n), i, off, |d|)
    ensures i < |fs.inodes| && fs.inodes[i].size == off && fs.inodes[i].isDir == w0.inodes[i].isDir
    ensures AllTight(WithBits(Grown(fs, i, off + |d|), n))
  {
    hide FirstBits, Balance, Kept;
    var (w, w') := (WithBits(fs, n), WithBits(Grown(fs, i, off + |d|), n));
    assert SameMeta(w0, w);
    forall j, bn: nat | 0 <= j < |w'.inodes| && bn * BSIZE >= w'.inodes[j].size ensures !HasBlock(w', j, bn) {
      assert Tight(w0, j) && !HasBlock(w0, j, bn);
      if SlotOf(bn) < NSLOTS {
        assert SlotGrew(w0, w, i, Slots(off / BSIZE, BlockEnd(off, |d|)), j, SlotOf(bn));
        PastEnd(off, |d|, bn);
      }
    }
  }

  lemma PastEnd(off: nat, n: nat, bn: nat)
    ensures bn * BSIZE >= off + n ==> SlotOf(bn) !in Slots(off / BSIZE, BlockEnd(off, n))
  {
  }

  function Rounded(size: nat): nat { (size / BSIZE + 1) * BSIZE }

  function NoBytes(n: int): seq<byte> { if n < 0 then [] else seq(n, _ => 0) }

  /** Rounding the size of a directory up to the next block keeps the image in order exactly
      when the directory does not already end on a block boundary. */
  lemma RoundUp(fs: Fs, own: Owners, i: nat)
    requires FsOk(fs, own) && i < |fs.inodes| && Tight(fs, i)
    ensures var fs' := SetSize(fs, i, Rounded(fs.inodes[i].size));
      && (FsOk(fs', own) <==> fs.inodes[i].size % BSIZE != 0)
      && (FileOk(fs', i) <==> fs.inodes[i].size % BSIZE != 0)
  {
    var (size, n) := (fs.inodes[i].size, Rounded(fs.inodes[i].size));
    var bn: nat := size / BSIZE;
    var fs' := SetSize(fs, i, n);
    MetaFrame(fs, fs', own);
    hide Addr, ByteAt, Inv;
    assert FileOk(fs, i);
    forall b: nat ensures HasBlock(fs', i, b) == HasBlock(fs, i, b) { }
    assert FileOk(fs', i) ==> HasBlock(fs', i, bn);
    if size % BSIZE != 0 {
      forall b | 0 <= b && b * BSIZE < n ensures HasBlock(fs', i, b) { assert HasBlock(fs, i, b); }
      forall o | n <= o < MAXBYTES ensures ByteAt(fs', i, o) == 0 { assert SameByte(fs, fs', i, o); }
      forall j | 0 <= j < |fs.inodes| ensures FileOk(fs', j) {
        assert FileOk(fs, j);
        if j != i { SameFile(fs, fs', j); }
      }
    } else {
      assert bn * BSIZE == size && !HasBlock(fs, i, bn);
    }
  }

  lemma RoundUpContent(fs: Fs, own: Owners, i: nat)
    requires FsOk(fs, own) && i < |fs.inodes| && Rounded(fs.inodes[i].size) <= MAXBYTES
    ensures var (n, fs') := (Rounded(fs.inodes[i].size), SetSize(fs, i, Rounded(fs.inodes[i].size)));
      && Content(fs', i) == Content(fs, i) + NoBytes(n - fs.inodes[i].size)
      && forall j :: 0 <= j < |fs.inodes| && j != i ==> Content(fs', j) == Content(fs, j)
  {
    var fs' := SetSize(fs, i, Rounded(fs.inodes[i].size));
    MetaFrame(fs, fs', own);
    hide Addr, ByteAt, Inv;
    forall j, o | 0 <= j < |fs.inodes| && 0 <= o < MAXBYTES ensures ByteAt(fs', j, o) == ByteAt(fs, j, o) {
      assert SameByte(fs, fs', j, o);
    }
    assert FileOk(fs, i);
    forall j | 0 <= j < |fs.inodes| && j != i ensures Content(fs', j) == Content(fs, j) { assert FileOk(fs, j); }
  }

  /** The zeros behind the entries of a rounded directory bind no name. */
  lemma RoundUpNames(c: seq<byte>, n: nat)
    requires DirOk(c) && n % ENTRY == 0
    ensures DirOk(c + NoBytes(n))
    ensures forall key: Name, inum :: Bound(c + NoBytes(n), key, inum) <==> Bound(c, key, inum)
  {
    hide Binds, Inum, Canon, NoBytes;
    var c' := c + NoBytes(n);
    RoundUpEntry(c, n, 0, Canon([]));
    forall e: nat, key: Name
      ensures Binds(c', e, key) <==> Binds(c, e, key)
      ensures Binds(c, e, key) ==> EntryIn(c, e) && EntryIn(c', e) && Inum(c', e) == Inum(c, e)
    {
      RoundUpEntry(c, n, e, key);
    }
  }

  lemma RoundUpEntry(c: seq<byte>, n: nat, e: nat, key: Name)
    requires |c| % ENTRY == 0 && n % ENTRY == 0
    ensures |c + NoBytes(n)| % ENTRY == 0 && (Binds(c + NoBytes(n), e, key) <==> Binds(c, e, key))
    ensures EntryIn(c, e) ==> EntryIn(c + NoBytes(n), e) && Inum(c + NoBytes(n), e) == Inum(c, e)
    ensures Binds(c, e, key) ==> EntryIn(c, e)
  {
    hide Canon;
    var c' := c + NoBytes(n);
    if EntryIn(c, e) { assert NameOf(c', e) == NameOf(c, e); }
  }

  lemma RoundUpBuilt(fs: Fs, n: nat, own: Owners, i: nat)
    requires Built(fs, n, own) && i < |fs.inodes| && AllTight(WithBits(fs, n))
    ensures var (size, fs') := (fs.inodes[i].size, SetSize(fs, i, Rounded(fs.inodes[i].size)));
      && fs'.ninodes / IPB + 3 < |fs'.disk|
      && (Built(fs', n, own) && AllTight(WithBits(fs', n)) <==> size % BSIZE != 0)
      && (size % BSIZE != 0 ==>
            && Content(WithBits(fs', n), i) == Content(WithBits(fs, n), i) + NoBytes(Rounded(size) - size)
            && forall j :: 0 <= j < |fs.inodes| && j != i ==>
                  Content(WithBits(fs', n), j) == Content(WithBits(fs, n), j))
  {
    hide FirstBits, Content, FsOk, Inv;
    var (w, size, fs') := (WithBits(fs, n), fs.inodes[i].size, SetSize(fs, i, Rounded(fs.inodes[i].size)));
    assert SetSize(w, i, Rounded(size)) == WithBits(fs', n);
    RoundUp(w, own, i);
    if size % BSIZE != 0 {
      ContentSize(w, own, i);
      RoundUpContent(w, own, i);
      forall j, bn: nat | 0 <= j < |fs.inodes| && bn * BSIZE >= fs'.inodes[j].size
        ensures !HasBlock(WithBits(fs', n), j, bn)
      {
        assert Tight(w, j) && !HasBlock(w, j, bn);
      }
    }
  }

  /** An image whose last block went to a file: balloc gives out the bit behind the last block. */
  method FullImage(sb: Block) returns (d: FileSys.Disk, r: Option<nat>)
    ensures d.size == 5 && 5 % BPB != 0 && r == Some(5)
  {
    hide Content, Built, AllTight, FsOk, Marked, WithBits, Mark, Free;
    var img := FillImage(sb);
    FullBits(img);
    img.Balloc();
    d := new FileSys.Disk(Fs(img.size, img.ninodes, img.disk, img.inodes), img.own);
    r := d.Balloc();
  }

  /** The smallest image that can hold a file, with a file of one byte. */
  method FillImage(sb: Block) returns (img: Image)
    ensures fresh(img) && img.Valid() && img.freeblock == img.size == 5
  {
    img := new Image(5, 2, sb);
    hide Content, Built, AllTight, Needed;
    var i := img.Ialloc(false);
    FirstRoom(img, i);
    img.Iappend(i, [1]);
  }

  /** The first byte of a file takes one block. */
  lemma FirstRoom(img: Image, i: nat)
    requires img.Valid() && i < img.ninodes && img.inodes[i].size == 0
    ensures IsSlot(img.View(), i, 0) && |Needed(img.View(), i, 0, 1)| == 1
  {
    hide FirstBits, Content;
    var w := img.View();
    assert Tight(w, i) && FileOk(w, i);
    assert !HasBlock(w, i, 0) && SlotOf(0) == 0;
    hide Addr;
    assert 0 in Path(0) && Through(0, BlockEnd(0, 1), 0);
    forall k ensures k in Needed(w, i, 0, 1) <==> k == 0 { }
    assert Needed(w, i, 0, 1) == {0};
  }

  /** When every block is given out, the first clear bit is the one behind the last block. */
  lemma FullBits(img: Image)
    requires img.Valid() && img.freeblock == img.size < BPB
    ensures var w := img.View();
      && Shape(w) && w.size < Bits(w.size) && !Marked(w, w.size) && forall c :: 0 <= c < w.size ==> Marked(w, c)
  {
    var (fs, w) := (img.State(), img.View());
    forall c | 0 <= c < w.size ensures Marked(w, c) { WithBitsMarked(fs, img.freeblock, c); }
    FirstBitsAre(fs.size, fs.size);
    assert fs.size / BPB == 0 && fs.size % BPB == fs.size;
    hide FirstBits;
  }

  /** What add_dir writes for a root directory with `k` entries in all. */
  function Listing(root: nat, k: nat): seq<byte>
    requires root < 200 && k <= 32
  {
    if k == 0 then [] else Listing(root, k - 1) + ListingEntry(root, k - 1)
  }

  function ListingEntry(root: nat, k: nat): seq<byte>
    requires root < 200 && k < 32
  {
    Entry(ListingName(k), if k < 2 then root else root + k - 1)
  }

  /** ".", "..", and one-letter names. */
  function ListingName(k: nat): Name
    requires k < 32
  {
    Canon(if k == 0 then [46] else if k == 1 then [46, 46] else [95 + k])
  }

  /** A directory whose entries fill its last block, as mkfs builds it in an image of its own
      dimensions: rounding its size leaves a hole. */
  method RoundUpHole(sb: Block) returns (img: Image, root: nat)
    ensures fresh(img) && img.Valid() && img.size == 1024 && img.ninodes == 200
    ensures 1 <= root < img.freeinode <= img.ninodes && root < 200 && img.inodes[root].isDir
    ensures Content(img.View(), root) == Listing(root, 32) && img.inodes[root].size == BSIZE
    ensures !FileOk(SetSize(img.View(), root, Rounded(BSIZE)), root)
  {
    hide Content, Built, AllTight;
    img, root := StartListing(sb);
    for k := 0 to 32
      invariant fresh(img) && root == 1 && Listed(img, root, k)
    {
      ListEntry(img, root, k);
    }
    HoleAtEnd(img, root);
  }

  /** The image holds the first `k` entries of the listing. */
  ghost predicate Listed(img: Image, root: nat, k: nat)
    reads img
  {
    && img.Valid() && img.size == 1024 && img.ninodes == 200 && 1 <= root < 200 && k <= 32
    && img.freeinode == (if k < 2 then root + 1 else root + k - 1) <= 200 && img.freeblock <= 29 + k
    && img.inodes[root].isDir && img.inodes[root].size == ENTRY * k && Content(img.View(), root) == Listing(root, k)
  }

  /** A new image with an empty root directory. */
  method StartListing(sb: Block) returns (img: Image, root: nat)
    ensures fresh(img) && root == 1 && Listed(img, root, 0)
  {
    img := new Image(1024, 200, sb);
    hide Content, Built, AllTight;
    root := img.Ialloc(true);
  }

  /** The next entry; from the third one on, with a file of its own. */
  method ListEntry(img: Image, root: nat, k: nat)
    requires Listed(img, root, k) && k < 32 && root + k < 200
    modifies img
    ensures Listed(img, root, k + 1)
  {
    hide Content, Built, AllTight, Needed;
    var inum := root;
    if k >= 2 { inum := img.Ialloc(false); }
    ListRoom(img, root, k);
    img.Iappend(root, Entry(ListingName(k), inum));
  }

  lemma ListRoom(img: Image, root: nat, k: nat)
    requires img.Valid() && root < img.freeinode <= img.ninodes && k < 32
    ensures IsSlot(img.View(), root, 0) && |Needed(img.View(), root, ENTRY * k, ENTRY)| <= 1
  {
    hide FirstBits, Content, AllTight;
    FewNeeded(img.View(), root, ENTRY * k, ENTRY);
  }

  lemma HoleAtEnd(img: Image, root: nat)
    requires Listed(img, root, 32)
    ensures !FileOk(SetSize(img.View(), root, Rounded(BSIZE)), root)
  {
    hide FileOk, FsOk, Content, FirstBits, Tight;
    RoundUp(img.View(), img.own, root);
  }

  /** An append within the first block of a file takes at most that block. */
  lemma FewNeeded(fs: Fs, i: nat, off: nat, n: nat)
    requires IsSlot(fs, i, 0) && 0 < n && off + n <= BSIZE
    ensures |Needed(fs, i, off, n)| <= 1
  {
    hide Addr;
    forall k | k in Needed(fs, i, off, n) ensures k == 0 { }
    OneOf(Needed(fs, i, off, n));
  }

  lemma OneOf(s: set<nat>)
    requires forall k :: k in s ==> k == 0
    ensures |s| <= 1
  {
    assert s <= {0};
    if s != {} { assert s == {0}; }
  }
}
