/** kernel/bio.c: the cache of disk blocks and its least-recently-used ring. */
module BufferCache {
  import opened Blocks
  import opened BufferRing

  const NODEV: nat := 0xFFFF_FFFF      // b->dev = -1

  datatype Buf = Buf(dev: nat, sector: nat, busy: bool, valid: bool, dirty: bool, data: Block)

  type Disk = map<(nat, nat), Block>

  function DiskAt(disk: Disk, dev: nat, sector: nat): Block {
    if (dev, sector) in disk then disk[(dev, sector)] else Zeros()
  }

  predicate Holds(b: Buf, dev: nat, sector: nat) { b.dev == dev && b.sector == sector }

  /** A buffer nobody holds is clean and, once valid, equal to its block on disk. */
  predicate BufOk(disk: Disk, b: Buf) {
    && (b.valid ==> b.dev != NODEV)
    && (!b.busy ==> !b.dirty && (b.valid ==> b.data == DiskAt(disk, b.dev, b.sector)))
  }

  /** No two buffers hold the same block. */
  predicate Distinct(bufs: seq<Buf>, b: nat, c: nat) {
    b < |bufs| && c < |bufs| && (b != c && bufs[b].dev != NODEV ==> !Holds(bufs[c], bufs[b].dev, bufs[b].sector))
  }

  ghost predicate BufsOk(bufs: seq<Buf>, disk: Disk) {
    && (forall b :: 0 < b < |bufs| ==> BufOk(disk, bufs[b]))
    && (forall b, c :: 0 < b < |bufs| && 0 < c < |bufs| ==> Distinct(bufs, b, c))
  }

  /** Every buffer is in the ring, most recently released first, those never released (stamp 0)
      at the end. */
  ghost predicate OrderOk(cyc: seq<nat>, stamp: seq<nat>, clock: nat) {
    && |cyc| > 0 && (forall i :: 0 <= i < |cyc| ==> cyc[i] < |stamp|)
    && (forall b :: 0 < b < |stamp| ==> b in cyc && stamp[b] <= clock)
    && (forall i, j :: 0 < i < j < |cyc| ==> stamp[cyc[i]] > stamp[cyc[j]] || stamp[cyc[i]] == stamp[cyc[j]] == 0)
  }

  datatype Result = Got(b: nat) | Wait(b: nat) | NoBuffers

  class Cache {
    var next: seq<nat>
    var prev: seq<nat>
    var bufs: seq<Buf>
    var disk: Disk
    ghost var cyc: seq<nat>
    ghost var stamp: seq<nat>
    ghost var clock: nat

    ghost predicate Valid()
      reads this
    {
      && Ring(next, prev, cyc) && |bufs| == |next| == |stamp|
      && BufsOk(bufs, disk) && OrderOk(cyc, stamp, clock)
    }

    /** binit: `n` empty buffers. */
    constructor (n: nat, disk: Disk)
      ensures Valid() && |bufs| == n + 1 && this.disk == disk
      ensures forall b :: 0 < b <= n ==> !bufs[b].busy && !bufs[b].valid && stamp[b] == 0
    {
      next, prev := seq(n + 1, _ => 0), seq(n + 1, _ => 0);
      bufs := seq(n + 1, _ => Buf(NODEV, 0, false, false, false, Zeros()));
      this.disk := disk;
      cyc, stamp, clock := [0], seq(n + 1, _ => 0), 0;
      new;
      assert Joined(next, prev, 0, 0);
      for b := 1 to n + 1
        invariant Ring(next, prev, cyc) && |next| == n + 1 && forall c :: c in cyc <==> 0 <= c < b
        invariant bufs == seq(n + 1, _ => Buf(NODEV, 0, false, false, false, Zeros())) && this.disk == disk
        invariant stamp == seq(n + 1, _ => 0) && clock == 0
      {
        PushedRing(next, prev, cyc, b);
        PushedMembers(cyc, b);
        next, prev := Pushed(next, prev, b).0, Pushed(next, prev, b).1;
        cyc := [0, b] + cyc[1..];
      }
      assert forall i :: 0 <= i < |cyc| ==> cyc[i] in cyc;
    }

    /** The buffer that holds the block, from the front of the ring; 0 if there is none. */
    method Find(dev: nat, sector: nat) returns (b: nat)
      requires Valid()
      ensures b < |bufs|
      ensures b > 0 ==> Holds(bufs[b], dev, sector)
      ensures b == 0 ==> forall c :: 0 < c < |bufs| ==> !Holds(bufs[c], dev, sector)
    {
      ghost var n := |cyc|;
      ghost var k: nat := Following(n, 0);
      assert Joined(next, prev, cyc[0], cyc[Following(n, 0)]);
      b := next[0];
      while b != 0
        invariant b < |bufs| && k < n && b == cyc[k] && (b == 0 <==> k == 0)
        invariant forall i :: 0 < i < (if k == 0 then n else k) ==> !Holds(bufs[cyc[i]], dev, sector)
        decreases if k == 0 then 0 else n - k
      {
        if Holds(bufs[b], dev, sector) { return; }
        assert Joined(next, prev, cyc[k], cyc[Following(n, k)]);
        b := next[b];
        k := Following(n, k);
      }
      NoneHolds(cyc, stamp, clock, bufs, dev, sector);
    }

    /** The unlocked buffer released longest ago, from the back of the ring; 0 if all are locked. */
    method Oldest() returns (b: nat)
      requires Valid()
      ensures b < |bufs|
      ensures b > 0 ==> !bufs[b].busy && forall c :: 0 < c < |bufs| && !bufs[c].busy ==> stamp[b] <= stamp[c]
      ensures b == 0 ==> forall c :: 0 < c < |bufs| ==> bufs[c].busy
    {
      ghost var n := |cyc|;
      assert Joined(next, prev, cyc[n - 1], cyc[Following(n, n - 1)]);
      b := prev[0];
      ghost var k := n - 1;
      while b != 0
        invariant 0 <= k < n && b == cyc[k] && b < |bufs| && forall i :: k < i < n ==> bufs[cyc[i]].busy
        decreases k
      {
        if !bufs[b].busy {
          OldestIs(cyc, stamp, clock, bufs, k);
          return;
        }
        assert Joined(next, prev, cyc[k - 1], cyc[Following(n, k - 1)]);
        b := prev[b];
        k := k - 1;
      }
      AllBusy(cyc, stamp, clock, bufs);
    }

    /** The buffer that holds the block, locked; or the one of the unlocked buffers that was
        released longest ago, taken over for it. */
    method Bget(dev: nat, sector: nat) returns (r: Result)
      requires Valid() && dev != NODEV
      modifies `bufs
      ensures Valid()
      ensures r.NoBuffers? <==> forall b :: 0 < b < |bufs| ==> old(bufs)[b].busy && !Holds(old(bufs)[b], dev, sector)
      ensures r.Wait? ==> 0 < r.b < |bufs| && old(bufs)[r.b].busy && Holds(bufs[r.b], dev, sector)
      ensures !r.Got? ==> bufs == old(bufs)
      ensures r.Got? ==> 0 < r.b < |old(bufs)| && !old(bufs)[r.b].busy
      ensures r.Got? && Holds(old(bufs)[r.b], dev, sector) ==> bufs == old(bufs)[r.b := old(bufs)[r.b].(busy := true)]
      ensures r.Got? && !Holds(old(bufs)[r.b], dev, sector) ==>
        && bufs == old(bufs)[r.b := Buf(dev, sector, true, false, false, old(bufs)[r.b].data)]
        && (forall b :: 0 < b < |bufs| ==> !Holds(old(bufs)[b], dev, sector))
        && (forall b :: 0 < b < |bufs| && !old(bufs)[b].busy ==> stamp[r.b] <= stamp[b])
    {
      hide Ring, OrderOk;
      var b := Find(dev, sector);
      if b != 0 {
        if bufs[b].busy { return Wait(b); }
        assert BufOk(disk, bufs[b]);
        LockInv(bufs, disk, b, bufs[b].(busy := true));
        bufs := bufs[b := bufs[b].(busy := true)];
        return Got(b);
      }
      b := Oldest();
      if b == 0 { return NoBuffers; }
      LockInv(bufs, disk, b, Buf(dev, sector, true, false, false, bufs[b].data));
      bufs := bufs[b := Buf(dev, sector, true, false, false, bufs[b].data)];
      r := Got(b);
    }

    /** iderw, once the disk has answered: write a dirty buffer, or read an invalid one. */
    method Iderw(b: nat)
      requires Valid() && 0 < b < |bufs| && bufs[b].busy && bufs[b].dev != NODEV && (bufs[b].valid ==> bufs[b].dirty)
      modifies `bufs, `disk
      ensures Valid() && |bufs| == |old(bufs)|
      ensures var x := old(bufs)[b]; var y := if x.dirty then x.data else DiskAt(old(disk), x.dev, x.sector);
        && bufs == old(bufs)[b := x.(valid := true, dirty := false, data := y)]
        && disk == if x.dirty then old(disk)[(x.dev, x.sector) := x.data] else old(disk)
    {
      hide Ring, OrderOk;
      var x := bufs[b];
      var d := if x.dirty then disk[(x.dev, x.sector) := x.data] else disk;
      var y := if x.dirty then x.data else DiskAt(disk, x.dev, x.sector);
      SyncInv(bufs, disk, b, d, y);
      disk := d;
      bufs := bufs[b := x.(valid := true, dirty := false, data := y)];
    }

    /** A locked buffer with what the disk holds; nothing on the disk changes. */
    method Bread(dev: nat, sector: nat) returns (r: Result)
      requires Valid() && dev != NODEV
      modifies `bufs, `disk
      ensures Valid() && disk == old(disk) && |bufs| == |old(bufs)|
      ensures r.NoBuffers? <==> forall b :: 0 < b < |bufs| ==> old(bufs)[b].busy && !Holds(old(bufs)[b], dev, sector)
      ensures r.Wait? ==> 0 < r.b < |bufs| && old(bufs)[r.b].busy && Holds(bufs[r.b], dev, sector) && bufs == old(bufs)
      ensures r.Got? ==>
                && 0 < r.b < |bufs| && !old(bufs)[r.b].busy
                && bufs == old(bufs)[r.b := Buf(dev, sector, true, true, false, DiskAt(disk, dev, sector))]
    {
      hide Ring, OrderOk;
      assert forall b :: 0 < b < |bufs| ==> BufOk(disk, bufs[b]);
      r := Bget(dev, sector);
      if r.Got? && !bufs[r.b].valid { Iderw(r.b); }
    }

    /** Write a locked buffer through to the disk. */
    method Bwrite(b: nat)
      requires Valid() && 0 < b < |bufs| && bufs[b].busy && bufs[b].dev != NODEV
      modifies `bufs, `disk
      ensures Valid()
      ensures var x := old(bufs)[b];
        bufs == old(bufs)[b := x.(valid := true, dirty := false)] && disk == old(disk)[(x.dev, x.sector) := x.data]
    {
      hide Ring, OrderOk;
      LockInv(bufs, disk, b, bufs[b].(dirty := true));
      bufs := bufs[b := bufs[b].(dirty := true)];
      Iderw(b);
    }

    /** The holder of a locked buffer changes its data. */
    method Fill(b: nat, data: Block)
      requires Valid() && 0 < b < |bufs| && bufs[b].busy
      modifies `bufs
      ensures Valid() && bufs == old(bufs)[b := old(bufs)[b].(data := data)]
    {
      hide Ring, OrderOk;
      assert BufOk(disk, bufs[b]);
      LockInv(bufs, disk, b, bufs[b].(data := data));
      bufs := bufs[b := bufs[b].(data := data)];
    }

    /** Unlock a buffer whose changes were written, and move it to the front of the ring. */
    method Brelse(b: nat)
      requires Valid() && 0 < b < |bufs| && bufs[b].busy
      requires !bufs[b].dirty && (bufs[b].valid ==> bufs[b].data == DiskAt(disk, bufs[b].dev, bufs[b].sector))
      modifies this
      ensures Valid() && disk == old(disk) && bufs == old(bufs)[b := old(bufs)[b].(busy := false)]
      ensures clock == old(clock) + 1 && stamp == old(stamp)[b := clock]
      ensures |cyc| == |old(cyc)| && |cyc| > 1 && cyc[1] == b
    {
      hide Ring, OrderOk, BufsOk, Pushed, Unlinked;
      ghost var k := Position(next, prev, cyc, stamp, clock, b);
      FrontRing(next, prev, cyc, k);
      FrontOrder(next, prev, cyc, stamp, clock, k);
      UnlockInv(bufs, disk, b);
      var (n1, p1) := Unlinked(next, prev, b);
      next, prev := Pushed(n1, p1, b).0, Pushed(n1, p1, b).1;
      bufs := bufs[b := bufs[b].(busy := false)];
      clock := clock + 1;
      stamp := stamp[b := clock];
      cyc := Front(cyc, k);
    }
  }

  lemma PushedMembers(cyc: seq<nat>, b: nat)
    requires cyc != [] && cyc[0] == 0
    ensures forall c :: c in [0, b] + cyc[1..] <==> c == b || c in cyc
  {
    assert cyc == [0] + cyc[1..];
  }

  lemma SyncInv(bufs: seq<Buf>, disk: Disk, b: nat, disk': Disk, data: Block)
    requires BufsOk(bufs, disk) && 0 < b < |bufs| && bufs[b].busy && bufs[b].dev != NODEV
    requires disk' == disk || disk' == disk[(bufs[b].dev, bufs[b].sector) := bufs[b].data]
    ensures BufsOk(bufs[b := bufs[b].(valid := true, dirty := false, data := data)], disk')
  {
    var bufs' := bufs[b := bufs[b].(valid := true, dirty := false, data := data)];
    forall c | 0 < c < |bufs'| ensures BufOk(disk', bufs'[c]) { assert BufOk(disk, bufs[c]) && Distinct(bufs, b, c); }
    forall c, d | 0 < c < |bufs'| && 0 < d < |bufs'| ensures Distinct(bufs', c, d) { assert Distinct(bufs, c, d); }
  }

  lemma UnlockInv(bufs: seq<Buf>, disk: Disk, b: nat)
    requires BufsOk(bufs, disk) && 0 < b < |bufs| && !bufs[b].dirty
    requires bufs[b].valid ==> bufs[b].data == DiskAt(disk, bufs[b].dev, bufs[b].sector)
    ensures BufsOk(bufs[b := bufs[b].(busy := false)], disk)
  {
    var bufs' := bufs[b := bufs[b].(busy := false)];
    forall c | 0 < c < |bufs'| ensures BufOk(disk, bufs'[c]) { assert BufOk(disk, bufs[c]); }
    forall c, d | 0 < c < |bufs'| && 0 < d < |bufs'| ensures Distinct(bufs', c, d) { assert Distinct(bufs, c, d); }
  }

  lemma Position(next: seq<nat>, prev: seq<nat>, cyc: seq<nat>, stamp: seq<nat>, clock: nat, b: nat) returns (k: nat)
    requires Ring(next, prev, cyc) && OrderOk(cyc, stamp, clock) && 0 < b < |stamp|
    ensures 0 < k < |cyc| && cyc[k] == b
  {
    assert b in cyc;
    k :| 0 <= k < |cyc| && cyc[k] == b;
  }

  lemma FrontOrder(next: seq<nat>, prev: seq<nat>, cyc: seq<nat>, stamp: seq<nat>, clock: nat, k: nat)
    requires Ring(next, prev, cyc) && OrderOk(cyc, stamp, clock) && 0 < k < |cyc|
    ensures cyc[k] < |stamp| && |Front(cyc, k)| > 1 && Front(cyc, k)[1] == cyc[k]
    ensures OrderOk(Front(cyc, k), stamp[cyc[k] := clock + 1], clock + 1)
  {
    hide Ring;
    var b := cyc[k];
    var (cyc', stamp') := (Front(cyc, k), stamp[b := clock + 1]);
    forall c | 0 < c < |stamp'| ensures c in cyc' && stamp'[c] <= clock + 1 {
      assert c in cyc && stamp[c] <= clock;
      FrontMember(cyc, k, c);
    }
    forall i, j | 0 < i < j < |cyc'|
      ensures stamp'[cyc'[i]] > stamp'[cyc'[j]] || stamp'[cyc'[i]] == stamp'[cyc'[j]] == 0
    {
      FrontPair(next, prev, cyc, stamp, clock, k, i, j);
    }
  }

  lemma FrontMember(cyc: seq<nat>, k: nat, c: nat)
    requires 0 < k < |cyc| && c in cyc
    ensures c in Front(cyc, k)
  {
    var i :| 0 <= i < |cyc| && cyc[i] == c;
    assert Front(cyc, k)[if i == 0 then 0 else if i == k then 1 else if i < k then i + 1 else i] == c;
  }

  lemma FrontPair(next: seq<nat>, prev: seq<nat>, cyc: seq<nat>, stamp: seq<nat>, clock: nat, k: nat, i: nat, j: nat)
    requires Ring(next, prev, cyc) && OrderOk(cyc, stamp, clock) && 0 < k < |cyc| && 0 < i < j < |cyc|
    requires cyc[k] < |stamp|
    ensures var (f, s) := (Front(cyc, k), stamp[cyc[k] := clock + 1]);
      f[i] < |s| && f[j] < |s| && (s[f[i]] > s[f[j]] || s[f[i]] == s[f[j]] == 0)
  {
    var (x, y) := (Source(k, i), Source(k, j));
    assert 0 < y < |cyc| && y != k && cyc[y] in cyc && stamp[cyc[y]] <= clock;
    if i > 1 { assert 0 < x < y && x != k; }
  }

  /** Locking a buffer, for the block it holds or for one that no other buffer holds. */
  lemma LockInv(bufs: seq<Buf>, disk: Disk, b: nat, x: Buf)
    requires BufsOk(bufs, disk) && 0 < b < |bufs| && x.busy && (x.valid ==> x.dev != NODEV)
    requires Holds(bufs[b], x.dev, x.sector) || forall c :: 0 < c < |bufs| ==> !Holds(bufs[c], x.dev, x.sector)
    ensures BufsOk(bufs[b := x], disk)
  {
    var bufs' := bufs[b := x];
    forall c | 0 < c < |bufs'| ensures BufOk(disk, bufs'[c]) { assert c != b ==> BufOk(disk, bufs[c]); }
    forall c, d | 0 < c < |bufs'| && 0 < d < |bufs'|
      ensures Distinct(bufs', c, d)
    {
      assert Distinct(bufs, c, d) && Distinct(bufs, d, c);
    }
  }

  lemma NoneHolds(cyc: seq<nat>, stamp: seq<nat>, clock: nat, bufs: seq<Buf>, dev: nat, sector: nat)
    requires OrderOk(cyc, stamp, clock) && |bufs| == |stamp| && cyc[0] == 0
    requires forall i :: 0 < i < |cyc| ==> !Holds(bufs[cyc[i]], dev, sector)
    ensures forall b :: 0 < b < |bufs| ==> !Holds(bufs[b], dev, sector)
  {
    forall b | 0 < b < |bufs| ensures !Holds(bufs[b], dev, sector) {
      assert b in cyc;
      var i :| 0 <= i < |cyc| && cyc[i] == b;
    }
  }

  lemma AllBusy(cyc: seq<nat>, stamp: seq<nat>, clock: nat, bufs: seq<Buf>)
    requires OrderOk(cyc, stamp, clock) && |bufs| == |stamp| && cyc[0] == 0
    requires forall i :: 0 < i < |cyc| ==> bufs[cyc[i]].busy
    ensures forall b :: 0 < b < |bufs| ==> bufs[b].busy
  {
    forall b | 0 < b < |bufs| ensures bufs[b].busy {
      assert b in cyc;
      var i :| 0 <= i < |cyc| && cyc[i] == b;
    }
  }

  /** The last unlocked buffer of the ring is the one released longest ago, or never released. */
  lemma OldestIs(cyc: seq<nat>, stamp: seq<nat>, clock: nat, bufs: seq<Buf>, k: nat)
    requires OrderOk(cyc, stamp, clock) && |bufs| == |stamp| && cyc[0] == 0 && 0 < k < |cyc|
    requires forall i :: k < i < |cyc| ==> bufs[cyc[i]].busy
    ensures forall b :: 0 < b < |bufs| && !bufs[b].busy ==> stamp[cyc[k]] <= stamp[b]
  {
    forall b | 0 < b < |bufs| && !bufs[b].busy ensures stamp[cyc[k]] <= stamp[b] {
      assert b in cyc;
      var i :| 0 <= i < |cyc| && cyc[i] == b;
    }
  }
}
