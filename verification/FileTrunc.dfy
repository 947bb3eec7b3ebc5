/** The progress of itrunc: the blocks of a file go back to the free blocks, one at a time. */
module FileTrunc {
  import opened Blocks
  import opened FsCore
  import opened Files

  /** The slots of inode `i` below `x` are empty and their blocks free; nothing else changed. */
  ghost predicate Cut(fs0: Fs, own0: Owners, fs: Fs, own: Owners, i: nat, x: nat) {
    && Inv(fs, own, {}) && SameMeta(fs0, fs) && i < |fs0.inodes| && |fs0.disk| == |fs.disk|
    && (forall b :: b in own <==> b in own0 && !(own0[b].i == i && own0[b].k < x))
    && (forall b :: b in own ==> own[b] == own0[b] && b < |fs.disk| && fs.disk[b] == fs0.disk[b])
  }

  lemma CutStart(fs: Fs, own: Owners, i: nat)
    requires Inv(fs, own, {}) && i < |fs.inodes|
    ensures Cut(fs, own, fs, own, i, 0)
  {
    forall b | b in own ensures b < |fs.disk| { assert OwnOk(fs, own, b); }
  }

  lemma CutAddr(fs0: Fs, own0: Owners, fs: Fs, own: Owners, i: nat, x: nat, j: nat, l: nat)
    requires Inv(fs0, own0, {}) && Cut(fs0, own0, fs, own, i, x) && IsSlot(fs0, j, l)
    ensures IsSlot(fs, j, l) && Addr(fs, j, l) == if j == i && l < x then 0 else Addr(fs0, j, l)
  {
    hide Addr, BlockOk;
    assert SlotOk(fs0, own0, j, l) && SlotOk(fs, own, j, l);
    var (a, a0) := (Addr(fs, j, l), Addr(fs0, j, l));
    if a != 0 { assert OwnOk(fs0, own0, a); }
    if a0 != 0 && a0 in own { assert OwnOk(fs, own, a0); }
  }

  /** Freeing the block of the direct slot `x` (if any) and emptying the slot. */
  lemma CutDirect(fs0: Fs, own0: Owners, fs: Fs, own: Owners, i: nat, x: nat)
    requires Inv(fs0, own0, {}) && Cut(fs0, own0, fs, own, i, x) && x < NDIRECT && IsSlot(fs, i, x)
    ensures var b := Addr(fs, i, x);
      if b == 0 then Cut(fs0, own0, fs, own, i, x + 1)
      else (
        && MetaEnd(fs) <= b < fs.size && Marked(fs, b) && Shape(Link(fs, i, x, 0))
        && Cut(fs0, own0, Clear(Link(fs, i, x, 0), b), own - {b}, i, x + 1))
  {
    hide BlockOk;
    var b := Addr(fs, i, x);
    assert SlotOk(fs, own, i, x);
    forall c | c in own ensures own[c] == Slot(i, x) ==> c == b && b != 0 { assert OwnOk(fs, own, c); }
    if b != 0 { CutOne(fs0, own0, fs, own, i, x); }
  }

  lemma CutOne(fs0: Fs, own0: Owners, fs: Fs, own: Owners, i: nat, x: nat)
    requires Cut(fs0, own0, fs, own, i, x) && x < NDIRECT && IsSlot(fs, i, x) && Addr(fs, i, x) != 0
    requires Addr(fs, i, x) in own && own[Addr(fs, i, x)] == Slot(i, x)
    requires forall c :: c in own && own[c] == Slot(i, x) ==> c == Addr(fs, i, x)
    ensures var b := Addr(fs, i, x);
      && MetaEnd(fs) <= b < fs.size && Marked(fs, b) && Shape(Link(fs, i, x, 0))
      && Cut(fs0, own0, Clear(Link(fs, i, x, 0), b), own - {b}, i, x + 1)
  {
    hide SlotOk, Addr, SameMeta;
    var b := Addr(fs, i, x);
    var (u, drop) := (Link(fs, i, x, 0), Dropped(own, i, x));
    UnlinkInv(fs, own, {}, i, x);
    assert OwnOk(fs, own, b) && BlockOk(fs, own, {}, b);
    assert drop == {b} && {} + drop == {b} && {b} - {b} == {};
    ClearInv(u, own - {b}, {b}, b);
    forall c | c in own - {b} ensures MetaEnd(fs) <= c < fs.size { assert OwnOk(fs, own, c); }
    MetaKept(fs0, fs, i, x, b);
  }

  lemma MetaKept(fs0: Fs, fs: Fs, i: nat, x: nat, b: nat)
    requires SameMeta(fs0, fs) && IsSlot(fs, i, x) && x < NDIRECT && Shape(Link(fs, i, x, 0)) && b < fs.size
    ensures SameMeta(fs0, Clear(Link(fs, i, x, 0), b)) && |Clear(Link(fs, i, x, 0), b).disk| == |fs.disk|
  {
  }

  /** Freeing a block does not look at the inodes. */
  lemma ClearFrame(v: Fs, inodes: seq<Inode>, b: nat)
    requires Shape(v) && Shape(v.(inodes := inodes)) && b < v.size
    ensures var u := v.(inodes := inodes);
      Marked(u, b) == Marked(v, b) && MetaEnd(u) == MetaEnd(v) && Clear(u, b) == Clear(v, b).(inodes := inodes)
    ensures Clear(v, b).inodes == v.inodes
  {
  }

  lemma DirectAt(fs0: Fs, own0: Owners, fs: Fs, own: Owners, i: nat, x: nat)
    requires Cut(fs0, own0, fs, own, i, x) && i < |fs.inodes| && x < NDIRECT
    ensures Shape(fs) && IsSlot(fs, i, x) && Addr(fs, i, x) == fs.inodes[i].addrs[x]
  {
  }

  /** Where the indirect block is, and what its entries are. */
  lemma IndirectAt(fs0: Fs, own0: Owners, fs: Fs, own: Owners, i: nat, x: nat)
    requires Cut(fs0, own0, fs, own, i, x) && i < |fs.inodes|
    ensures Inv(fs, own, {}) && Shape(fs) && IsSlot(fs, i, NDIRECT)
    ensures Addr(fs, i, NDIRECT) == fs.inodes[i].addrs[NDIRECT]
    ensures var d := Addr(fs, i, NDIRECT);
      d != 0 ==> d < |fs.disk| && forall j :: 0 <= j < NINDIRECT ==> Addr(fs, i, NDIRECT + 1 + j) == Word(fs.disk[d], j)
  {
    hide BlockOk;
    assert SlotOk(fs, own, i, NDIRECT);
    var d := Addr(fs, i, NDIRECT);
    if d != 0 { assert OwnOk(fs, own, d); }
  }

  /** The blocks that lead from the indirect slot and are not yet freed, up to entry `j`. */
  ghost function Entries(own: Owners, i: nat, j: nat): set<nat> {
    set b | b in own && own[b].i == i && (own[b].k == NDIRECT || own[b].k > NDIRECT + j)
  }

  /** The image in the middle of freeing the indirect entries, as if the slot were empty
      already: the blocks of the entries still to come are spare. */
  ghost predicate CutIndirect(fs: Fs, own: Owners, v: Fs, i: nat, j: nat) {
    && IsSlot(fs, i, 0) && v.inodes == Link(fs, i, NDIRECT, 0).inodes
    && Inv(v, own - Entries(own, i, 0), Entries(own, i, j))
    && v.size == fs.size && v.ninodes == fs.ninodes
    && forall b :: b in own - Entries(own, i, 0) ==> b < fs.size == |fs.disk| && v.disk[b] == fs.disk[b]
  }

  lemma IndirectStart(fs: Fs, own: Owners, i: nat)
    requires Inv(fs, own, {}) && IsSlot(fs, i, 0)
    ensures CutIndirect(fs, own, Link(fs, i, NDIRECT, 0), i, 0)
  {
    UnlinkInv(fs, own, {}, i, NDIRECT);
    assert Dropped(own, i, NDIRECT) == Entries(own, i, 0);
    assert {} + Entries(own, i, 0) == Entries(own, i, 0);
    forall b | b in own ensures b < fs.size { assert OwnOk(fs, own, b); }
  }

  lemma IndirectStep(fs: Fs, own: Owners, v: Fs, i: nat, j: nat)
    requires Inv(fs, own, {}) && CutIndirect(fs, own, v, i, j) && j < NINDIRECT && Addr(fs, i, NDIRECT) != 0
    ensures var w := Addr(fs, i, NDIRECT + 1 + j);
      if w == 0 then CutIndirect(fs, own, v, i, j + 1)
      else MetaEnd(v) <= w < v.size && Shape(v) && Marked(v, w) && CutIndirect(fs, own, Clear(v, w), i, j + 1)
  {
    hide Addr, BlockOk;
    var w := Addr(fs, i, NDIRECT + 1 + j);
    assert SlotOk(fs, own, i, NDIRECT + 1 + j);
    forall c | c in own && own[c] == Slot(i, NDIRECT + 1 + j) ensures c == w { assert OwnOk(fs, own, c); }
    if w == 0 {
      forall c | c in own ensures own[c] != Slot(i, NDIRECT + 1 + j) { assert OwnOk(fs, own, c); }
      assert Entries(own, i, j + 1) == Entries(own, i, j);
    } else {
      assert Entries(own, i, j + 1) == Entries(own, i, j) - {w};
      ClearInv(v, own - Entries(own, i, 0), Entries(own, i, j), w);
      forall b | b in own - Entries(own, i, 0)
        ensures b != w && b >= MetaEnd(v)
      {
        assert OwnOk(v, own - Entries(own, i, 0), b);
      }
    }
  }

  /** The indirect block itself comes last. */
  lemma IndirectEnd(fs0: Fs, own0: Owners, fs: Fs, own: Owners, v: Fs, i: nat)
    requires Inv(fs0, own0, {}) && Cut(fs0, own0, fs, own, i, NDIRECT)
    requires CutIndirect(fs, own, v, i, NINDIRECT) && Addr(fs, i, NDIRECT) != 0
    ensures var d := Addr(fs, i, NDIRECT);
      && MetaEnd(v) <= d < v.size && Shape(v) && Marked(v, d) && v.inodes == Link(fs, i, NDIRECT, 0).inodes
      && Cut(fs0, own0, Clear(v, d), own - Entries(own, i, 0), i, NSLOTS)
  {
    hide Addr, BlockOk;
    var d := Addr(fs, i, NDIRECT);
    assert SlotOk(fs, own, i, NDIRECT);
    forall c | c in own
      ensures own[c].k < NSLOTS && (own[c] == Slot(i, NDIRECT) ==> c == d)
    {
      assert OwnOk(fs, own, c);
    }
    assert Entries(own, i, NINDIRECT) == {d};
    var rest := own - Entries(own, i, 0);
    ClearInv(v, rest, {d}, d);
    assert {d} - {d} == {};
    forall b | b in rest ensures b >= MetaEnd(v) { assert OwnOk(v, rest, b); }
    EntriesLast(fs0, own0, fs, own, i);
  }

  lemma EntriesLast(fs0: Fs, own0: Owners, fs: Fs, own: Owners, i: nat)
    requires Inv(fs0, own0, {}) && Cut(fs0, own0, fs, own, i, NDIRECT)
    ensures forall b :: b in own - Entries(own, i, 0) <==> b in own0 && !(own0[b].i == i && own0[b].k < NSLOTS)
  {
    hide Addr, BlockOk;
    forall b ensures b in own - Entries(own, i, 0) <==> b in own0 && !(own0[b].i == i && own0[b].k < NSLOTS) {
      if b in own0 { assert OwnOk(fs0, own0, b); }
    }
  }

  /** A file with no indirect block is empty once its direct slots are. */
  lemma NoIndirect(fs0: Fs, own0: Owners, fs: Fs, own: Owners, i: nat)
    requires Inv(fs0, own0, {}) && Cut(fs0, own0, fs, own, i, NDIRECT) && IsSlot(fs, i, NDIRECT)
    requires Addr(fs, i, NDIRECT) == 0
    ensures Cut(fs0, own0, fs, own, i, NSLOTS)
  {
    hide BlockOk;
    forall b | b in own ensures own[b].i != i || own[b].k < NDIRECT { assert OwnOk(fs, own, b); }
    assert Entries(own, i, 0) == {};
    EntriesLast(fs0, own0, fs, own, i);
  }

  /** The blocks of file `i`. */
  ghost function BlocksOf(fs: Fs, i: nat): set<nat>
    requires IsSlot(fs, i, 0)
  {
    set k | 0 <= k < NSLOTS && Addr(fs, i, k) != 0 :: Addr(fs, i, k)
  }

  function SetSize(fs: Fs, i: nat, n: nat): Fs
    requires i < |fs.inodes|
  {
    fs.(inodes := fs.inodes[i := fs.inodes[i].(size := n)])
  }

  /** What itrunc promises: the file is empty, the others are as they were, and exactly its
      blocks became free. */
  ghost predicate Truncated(fs0: Fs, fs: Fs, own: Owners, i: nat) {
    && IsSlot(fs0, i, 0) && FsOk(fs, own) && |fs.inodes| == |fs0.inodes| && Content(fs, i) == [] && IsSlot(fs, i, 0)
    && BlocksOf(fs, i) == {} && Free(fs) == Free(fs0) + BlocksOf(fs0, i)
    && forall j :: 0 <= j < |fs0.inodes| && j != i ==> Content(fs, j) == Content(fs0, j)
  }

  lemma CutBlocks(fs0: Fs, own0: Owners, fs: Fs, own: Owners, i: nat)
    requires Inv(fs0, own0, {}) && Cut(fs0, own0, fs, own, i, NSLOTS) && IsSlot(fs0, i, 0)
    ensures Free(fs) == Free(fs0) + BlocksOf(fs0, i)
  {
    hide Addr, BlockOk, Free;
    FreeIs(fs0, own0, {});
    FreeIs(fs, own, {});
    forall b ensures b in BlocksOf(fs0, i) <==> b in own0 && own0[b].i == i {
      if b in own0 && own0[b].i == i {
        assert OwnOk(fs0, own0, b);
        assert Addr(fs0, i, own0[b].k) == b;
      }
      if b in BlocksOf(fs0, i) {
        var k :| 0 <= k < NSLOTS && Addr(fs0, i, k) != 0 && b == Addr(fs0, i, k);
        assert SlotOk(fs0, own0, i, k);
      }
    }
    forall b | b in own0 ensures MetaEnd(fs) <= b < fs.size && own0[b].k < NSLOTS { assert OwnOk(fs0, own0, b); }
  }

  lemma TruncDone(fs0: Fs, own0: Owners, fs: Fs, own: Owners, i: nat)
    requires FsOk(fs0, own0) && Cut(fs0, own0, fs, own, i, NSLOTS)
    ensures Truncated(fs0, SetSize(fs, i, 0), own, i)
  {
    var fs' := SetSize(fs, i, 0);
    MetaFrame(fs, fs', own);
    CutBlocks(fs0, own0, fs, own, i);
    forall j | 0 <= j < |fs0.inodes| ensures FileOk(fs', j) && (j != i ==> Content(fs', j) == Content(fs0, j)) {
      hide Free;
      TruncFile(fs0, own0, fs, own, i, j);
    }
    forall k | 0 <= k < NSLOTS ensures Addr(fs', i, k) == 0 { CutAddr(fs0, own0, fs, own, i, NSLOTS, i, k); }
  }

  lemma TruncFile(fs0: Fs, own0: Owners, fs: Fs, own: Owners, i: nat, j: nat)
    requires FsOk(fs0, own0) && Cut(fs0, own0, fs, own, i, NSLOTS) && j < |fs0.inodes|
    requires forall k :: 0 <= k < NSLOTS ==> IsSlot(fs, j, k) && Addr(SetSize(fs, i, 0), j, k) == Addr(fs, j, k)
    ensures FileOk(SetSize(fs, i, 0), j) && (j != i ==> Content(SetSize(fs, i, 0), j) == Content(fs0, j))
  {
    hide Addr, BlockOk;
    var fs' := SetSize(fs, i, 0);
    assert FileOk(fs0, j);
    forall k | 0 <= k < NSLOTS ensures Addr(fs', j, k) == if j == i then 0 else Addr(fs0, j, k) {
      CutAddr(fs0, own0, fs, own, i, NSLOTS, j, k);
    }
    if j != i {
      forall o | 0 <= o < MAXBYTES ensures ByteAt(fs', j, o) == ByteAt(fs0, j, o) {
        var a := Addr(fs0, j, SlotOf(o / BSIZE));
        assert SlotOk(fs0, own0, j, SlotOf(o / BSIZE));
        assert a != 0 ==> a in own;
      }
      forall bn | 0 <= bn && bn * BSIZE < fs0.inodes[j].size
        ensures HasBlock(fs', j, bn)
      {
        assert HasBlock(fs0, j, bn);
      }
    }
  }
}
