/** Blocks, bitmap and inode block maps of kernel/fs.c: every block of the image is metadata,
    in exactly one slot of one file, or free. */
module FsCore {
  import opened Blocks

  const NDIRECT: nat := 12
  const MAXFILE: nat := 140      // NDIRECT + NINDIRECT
  const IPB: nat := 8            // inodes per block
  const NSLOTS: nat := 141       // direct blocks, the indirect block, its entries

  datatype Inode = Inode(isDir: bool, size: nat, addrs: seq<nat>)

  /** The image: superblock fields, blocks and inodes. */
  datatype Fs = Fs(size: nat, ninodes: nat, disk: seq<Block>, inodes: seq<Inode>)

  /** BBLOCK: the block that holds the bit of block `b`. */
  function MapBlock(fs: Fs, b: nat): nat { b / BPB + fs.ninodes / IPB + 3 }

  /** The first block after the superblock, the inodes and the bitmap. */
  function MetaEnd(fs: Fs): nat { fs.ninodes / IPB + 3 + fs.size / BPB + 1 }

  predicate Shape(fs: Fs) {
    && |fs.disk| == fs.size && MetaEnd(fs) <= fs.size < WORD
    && forall i :: 0 <= i < |fs.inodes| ==> |fs.inodes[i].addrs| == NDIRECT + 1
  }

  predicate Marked(fs: Fs, b: nat) {
    var m := MapBlock(fs, b);
    m < |fs.disk| && TestBit(fs.disk[m], b % BPB)
  }

  predicate IsSlot(fs: Fs, i: nat, k: nat) { i < |fs.inodes| && k < NSLOTS && |fs.inodes[i].addrs| == NDIRECT + 1 }

  /** Slot `k` of inode `i`: a direct block, the indirect block (k == NDIRECT), or an entry
      of the indirect block. */
  function Addr(fs: Fs, i: nat, k: nat): nat
    requires IsSlot(fs, i, k)
  {
    var a := fs.inodes[i].addrs;
    if k <= NDIRECT then a[k]
    else if 0 < a[NDIRECT] < |fs.disk| then Word(fs.disk[a[NDIRECT]], k - NDIRECT - 1)
    else 0
  }

  datatype Slot = Slot(i: nat, k: nat)

  /** Which slot holds which block. */
  type Owners = map<nat, Slot>

  predicate SlotOk(fs: Fs, own: Owners, i: nat, k: nat) {
    IsSlot(fs, i, k) && (Addr(fs, i, k) != 0 ==> Addr(fs, i, k) in own && own[Addr(fs, i, k)] == Slot(i, k))
  }

  predicate OwnOk(fs: Fs, own: Owners, b: nat) {
    && b in own && IsSlot(fs, own[b].i, own[b].k) && Addr(fs, own[b].i, own[b].k) == b
    && MetaEnd(fs) <= b < fs.size
  }

  predicate BlockOk(fs: Fs, own: Owners, spare: set<nat>, b: nat) {
    && b < |fs.disk|
    && (Marked(fs, b) <==> b < MetaEnd(fs) || b in own || b in spare)
    && (!Marked(fs, b) ==> fs.disk[b] == Zeros())
  }

  /** The non-zero addresses in inodes and indirect blocks are exactly the owned blocks, each in
      one slot.  A block is marked in the bitmap exactly when it is metadata, owned, or `spare`:
      being allocated or freed, with no slot.  An unmarked block is all zero. */
  ghost predicate Inv(fs: Fs, own: Owners, spare: set<nat>) {
    && Shape(fs)
    && (forall i, k :: 0 <= i < |fs.inodes| && 0 <= k < NSLOTS ==> SlotOk(fs, own, i, k))
    && (forall b :: b in own ==> OwnOk(fs, own, b))
    && (forall b :: 0 <= b < fs.size ==> BlockOk(fs, own, spare, b))
    && (forall b :: b in spare ==> MetaEnd(fs) <= b < fs.size && b !in own)
  }

  /** No block is in two slots. */
  lemma OneSlot(fs: Fs, own: Owners, spare: set<nat>, i: nat, k: nat, j: nat, l: nat)
    requires Inv(fs, own, spare) && IsSlot(fs, i, k) && IsSlot(fs, j, l)
    requires Addr(fs, i, k) != 0 && Addr(fs, i, k) == Addr(fs, j, l)
    ensures i == j && k == l
  {
    assert SlotOk(fs, own, i, k) && SlotOk(fs, own, j, l);
  }

  lemma SlotIn(fs: Fs, own: Owners, spare: set<nat>, i: nat)
    requires Inv(fs, own, spare) && i < |fs.inodes|
    ensures Shape(fs) && IsSlot(fs, i, 0)
  {
  }

  // Marking and clearing.

  function SetBlock(fs: Fs, b: nat, x: Block): Fs
    requires b < |fs.disk|
  {
    fs.(disk := fs.disk[b := x])
  }

  lemma MapBlockIs(fs: Fs, b: nat)
    requires Shape(fs) && b < fs.size
    ensures MapBlock(fs, b) < MetaEnd(fs)
  {
  }

  /** balloc, once a clear bit is found; the bit may lie past the last block. */
  function Mark(fs: Fs, b: nat): Fs
    requires MapBlock(fs, b) < |fs.disk|
  {
    SetBlock(fs, MapBlock(fs, b), MarkBit(fs.disk[MapBlock(fs, b)], b % BPB))
  }

  /** bfree: zero the block and clear its bit. */
  function Clear(fs: Fs, b: nat): Fs
    requires Shape(fs) && b < fs.size
  {
    MapBlockIs(fs, b);
    var z := SetBlock(fs, b, Zeros());
    SetBlock(z, MapBlock(fs, b), ClearBit(z.disk[MapBlock(fs, b)], b % BPB))
  }

  lemma MarkIs(fs: Fs, b: nat, c: nat)
    requires Shape(fs) && MapBlock(fs, b) < fs.size && c < fs.size
    ensures Marked(Mark(fs, b), c) == (c == b || Marked(fs, c))
  {
    MapBlockIs(fs, c);
    BitOps(fs.disk[MapBlock(fs, b)], b % BPB, c % BPB);
  }

  lemma ClearIs(fs: Fs, b: nat, c: nat)
    requires Shape(fs) && MetaEnd(fs) <= b < fs.size && c < fs.size
    ensures Marked(Clear(fs, b), c) == (c != b && Marked(fs, c))
  {
    MapBlockIs(fs, b);
    MapBlockIs(fs, c);
    BitOps(fs.disk[MapBlock(fs, b)], b % BPB, c % BPB);
  }

  /** A change that keeps the inodes and every block a slot depends on keeps all slots. */
  lemma SlotsFrame(fs: Fs, own: Owners, spare: set<nat>, fs': Fs)
    requires Inv(fs, own, spare) && Shape(fs') && fs'.size == fs.size && fs'.inodes == fs.inodes
    requires fs'.ninodes == fs.ninodes
    requires forall b :: b in own && own[b].k == NDIRECT ==> fs'.disk[b] == fs.disk[b]
    ensures forall i, k :: 0 <= i < |fs.inodes| && 0 <= k < NSLOTS ==> Addr(fs', i, k) == Addr(fs, i, k)
    ensures forall i, k :: 0 <= i < |fs.inodes| && 0 <= k < NSLOTS ==> SlotOk(fs', own, i, k)
    ensures forall b :: b in own ==> OwnOk(fs', own, b)
  {
    hide BlockOk;
    forall i, k | 0 <= i < |fs.inodes| && 0 <= k < NSLOTS
      ensures Addr(fs', i, k) == Addr(fs, i, k) && SlotOk(fs', own, i, k)
    {
      assert SlotOk(fs, own, i, NDIRECT) && SlotOk(fs, own, i, k);
    }
    forall b | b in own ensures OwnOk(fs', own, b) { assert OwnOk(fs, own, b); }
  }

  lemma MarkInv(fs: Fs, own: Owners, spare: set<nat>, b: nat)
    requires Inv(fs, own, spare) && MapBlock(fs, b) < MetaEnd(fs) && !Marked(fs, b)
    ensures b < fs.size ==>
              Inv(Mark(fs, b), own, spare + {b}) && b !in own && b !in spare && Mark(fs, b).disk[b] == Zeros()
    ensures b >= fs.size ==> Inv(Mark(fs, b), own, spare)
    ensures forall i, k :: 0 <= i < |fs.inodes| && 0 <= k < NSLOTS ==> Addr(Mark(fs, b), i, k) == Addr(fs, i, k)
    ensures forall c :: MetaEnd(fs) <= c < fs.size ==> Mark(fs, b).disk[c] == fs.disk[c]
  {
    var fs' := Mark(fs, b);
    var spare' := if b < fs.size then spare + {b} else spare;
    assert b < fs.size ==> BlockOk(fs, own, spare, b);
    forall c | c in own ensures fs'.disk[c] == fs.disk[c] { assert OwnOk(fs, own, c); }
    SlotsFrame(fs, own, spare, fs');
    forall c | 0 <= c < fs.size ensures BlockOk(fs', own, spare', c) {
      hide SlotOk, OwnOk;
      MarkIs(fs, b, c);
      assert BlockOk(fs, own, spare, c);
    }
  }

  lemma ClearInv(fs: Fs, own: Owners, spare: set<nat>, b: nat)
    requires Inv(fs, own, spare) && b in spare
    ensures Marked(fs, b)
    ensures Inv(Clear(fs, b), own, spare - {b}) && !Marked(Clear(fs, b), b)
    ensures forall i, k :: 0 <= i < |fs.inodes| && 0 <= k < NSLOTS ==> Addr(Clear(fs, b), i, k) == Addr(fs, i, k)
    ensures forall c :: MetaEnd(fs) <= c < fs.size && c != b ==> Clear(fs, b).disk[c] == fs.disk[c]
  {
    var fs' := Clear(fs, b);
    MapBlockIs(fs, b);
    assert BlockOk(fs, own, spare, b);
    forall c | c in own ensures fs'.disk[c] == fs.disk[c] { assert OwnOk(fs, own, c); }
    SlotsFrame(fs, own, spare, fs');
    forall c | 0 <= c < fs.size ensures BlockOk(fs', own, spare - {b}, c) {
      hide SlotOk, OwnOk;
      ClearIs(fs, b, c);
      assert BlockOk(fs, own, spare, c);
    }
    ClearIs(fs, b, b);
  }

  // Filling and emptying slots.

  /** Slot `k` of inode `i` gets the address `b`. */
  function Link(fs: Fs, i: nat, k: nat, b: nat): Fs
    requires IsSlot(fs, i, k) && b < WORD
    requires k > NDIRECT ==> fs.inodes[i].addrs[NDIRECT] < |fs.disk|
  {
    var ip := fs.inodes[i];
    if k <= NDIRECT then fs.(inodes := fs.inodes[i := ip.(addrs := ip.addrs[k := b])])
    else var d := ip.addrs[NDIRECT]; SetBlock(fs, d, PutWord(fs.disk[d], k - NDIRECT - 1, b))
  }

  /** Linking changes that slot and no other, if a new indirect block is all zero. */
  lemma LinkIs(fs: Fs, own: Owners, spare: set<nat>, i: nat, k: nat, b: nat, j: nat, l: nat)
    requires Inv(fs, own, spare) && IsSlot(fs, i, k) && IsSlot(fs, j, l) && b in spare
    requires Addr(fs, i, k) == 0
    requires k == NDIRECT ==> fs.disk[b] == Zeros()
    requires k > NDIRECT ==> Addr(fs, i, NDIRECT) != 0
    ensures var d := fs.inodes[i].addrs[NDIRECT]; k > NDIRECT ==> MetaEnd(fs) <= d < fs.size && d in own
    ensures IsSlot(Link(fs, i, k, b), j, l)
    ensures Addr(Link(fs, i, k, b), j, l) == if i == j && k == l then b else Addr(fs, j, l)
  {
    hide BlockOk;
    var fs' := Link(fs, i, k, b);
    assert SlotOk(fs, own, i, NDIRECT) && SlotOk(fs, own, j, NDIRECT);
    var d := fs.inodes[i].addrs[NDIRECT];
    if k > NDIRECT {
      assert OwnOk(fs, own, d);
      if l > NDIRECT {
        if i == j {
          WordOps(fs.disk[d], k - NDIRECT - 1, b, l - NDIRECT - 1);
        } else {
          assert fs'.inodes[j] == fs.inodes[j] && fs.inodes[j].addrs[NDIRECT] != d;
        }
      }
    } else if l > NDIRECT && i == j && k == NDIRECT {
      WordZero(l - NDIRECT - 1);
    }
  }

  lemma LinkInv(fs: Fs, own: Owners, spare: set<nat>, i: nat, k: nat, b: nat)
    requires Inv(fs, own, spare) && IsSlot(fs, i, k) && b in spare
    requires Addr(fs, i, k) == 0
    requires k == NDIRECT ==> fs.disk[b] == Zeros()
    requires k > NDIRECT ==> Addr(fs, i, NDIRECT) != 0
    ensures var d := fs.inodes[i].addrs[NDIRECT]; k > NDIRECT ==> MetaEnd(fs) <= d < fs.size && d in own
    ensures Inv(Link(fs, i, k, b), own[b := Slot(i, k)], spare - {b})
    ensures forall j, l :: 0 <= j < |fs.inodes| && 0 <= l < NSLOTS ==>
      Addr(Link(fs, i, k, b), j, l) == if i == j && k == l then b else Addr(fs, j, l)
  {
    hide BlockOk, OwnOk, Addr;
    LinkIs(fs, own, spare, i, k, b, i, k);
    var (fs', own') := (Link(fs, i, k, b), own[b := Slot(i, k)]);
    forall j, l | 0 <= j < |fs.inodes| && 0 <= l < NSLOTS
      ensures Addr(fs', j, l) == if i == j && k == l then b else Addr(fs, j, l)
      ensures SlotOk(fs', own', j, l)
    {
      LinkIs(fs, own, spare, i, k, b, j, l);
      assert SlotOk(fs, own, j, l);
    }
    forall c | c in own' ensures OwnOk(fs', own', c) { LinkOwn(fs, own, spare, i, k, b, c); }
    forall c | 0 <= c < fs.size ensures BlockOk(fs', own', spare - {b}, c) { LinkBlock(fs, own, spare, i, k, b, c); }
  }

  lemma LinkOwn(fs: Fs, own: Owners, spare: set<nat>, i: nat, k: nat, b: nat, c: nat)
    requires Inv(fs, own, spare) && IsSlot(fs, i, k) && b in spare && Addr(fs, i, k) == 0
    requires k == NDIRECT ==> fs.disk[b] == Zeros()
    requires k > NDIRECT ==> Addr(fs, i, NDIRECT) != 0
    requires k > NDIRECT ==> fs.inodes[i].addrs[NDIRECT] < |fs.disk|
    requires c == b || c in own
    ensures OwnOk(Link(fs, i, k, b), own[b := Slot(i, k)], c)
  {
    hide BlockOk, Addr;
    if c == b {
      LinkIs(fs, own, spare, i, k, b, i, k);
    } else {
      assert OwnOk(fs, own, c);
      LinkIs(fs, own, spare, i, k, b, own[c].i, own[c].k);
    }
  }

  lemma LinkBlock(fs: Fs, own: Owners, spare: set<nat>, i: nat, k: nat, b: nat, c: nat)
    requires Inv(fs, own, spare) && IsSlot(fs, i, k) && b in spare && c < fs.size
    requires var d := fs.inodes[i].addrs[NDIRECT]; k > NDIRECT ==> MetaEnd(fs) <= d < fs.size && d in own
    ensures BlockOk(Link(fs, i, k, b), own[b := Slot(i, k)], spare - {b}, c)
  {
    hide SlotOk, OwnOk;
    assert BlockOk(fs, own, spare, c);
    MapBlockIs(fs, c);
  }

  /** Writing a block that holds file data keeps every slot. */
  lemma StoreInv(fs: Fs, own: Owners, spare: set<nat>, b: nat, x: Block)
    requires Inv(fs, own, spare) && b in own && own[b].k != NDIRECT
    ensures b < |fs.disk| && Inv(SetBlock(fs, b, x), own, spare)
    ensures forall i, k :: 0 <= i < |fs.inodes| && 0 <= k < NSLOTS ==> Addr(SetBlock(fs, b, x), i, k) == Addr(fs, i, k)
  {
    assert OwnOk(fs, own, b);
    var fs' := SetBlock(fs, b, x);
    SlotsFrame(fs, own, spare, fs');
    forall c | 0 <= c < fs.size ensures BlockOk(fs', own, spare, c) {
      hide SlotOk, OwnOk;
      assert BlockOk(fs, own, spare, c);
      MapBlockIs(fs, c);
    }
  }

  /** The blocks that lose their slot when address `k` of inode `i` is set to zero. */
  ghost function Dropped(own: Owners, i: nat, k: nat): set<nat> {
    set b | b in own && own[b].i == i && (own[b].k == k || (k == NDIRECT && own[b].k > NDIRECT))
  }

  /** Setting an address of an inode to zero leaves the blocks it led to without a slot. */
  lemma UnlinkInv(fs: Fs, own: Owners, spare: set<nat>, i: nat, k: nat)
    requires Inv(fs, own, spare) && IsSlot(fs, i, k) && k <= NDIRECT
    ensures var drop := Dropped(own, i, k); Inv(Link(fs, i, k, 0), own - drop, spare + drop)
    ensures forall j, l :: 0 <= j < |fs.inodes| && 0 <= l < NSLOTS ==>
      Addr(Link(fs, i, k, 0), j, l) == if i == j && (k == l || (k == NDIRECT && l > NDIRECT)) then 0 else Addr(fs, j, l)
  {
    var drop := Dropped(own, i, k);
    var (fs', own') := (Link(fs, i, k, 0), own - drop);
    forall j, l | 0 <= j < |fs.inodes| && 0 <= l < NSLOTS
      ensures Addr(fs', j, l) == if i == j && (k == l || (k == NDIRECT && l > NDIRECT)) then 0 else Addr(fs, j, l)
    {
      hide BlockOk;
      assert fs'.disk == fs.disk;
    }
    hide Addr;
    forall j, l | 0 <= j < |fs.inodes| && 0 <= l < NSLOTS ensures SlotOk(fs', own', j, l) {
      hide BlockOk, OwnOk;
      assert SlotOk(fs, own, j, l);
    }
    forall c | c in own' ensures OwnOk(fs', own', c) { hide BlockOk; assert OwnOk(fs, own, c); }
    forall c | 0 <= c < fs.size ensures BlockOk(fs', own', spare + drop, c) {
      hide SlotOk, OwnOk;
      assert BlockOk(fs, own, spare, c);
    }
    forall c | c in drop ensures MetaEnd(fs) <= c < fs.size { assert OwnOk(fs, own, c); }
  }
}
