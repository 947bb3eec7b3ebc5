/** user/umalloc.c: the circular, address-sorted, coalescing free list.  Addresses count header
    units; 0 is the null pointer. */
module Heap {
  import opened Options

  datatype Header = Header(next: nat, size: nat)

  /** The headers in memory, by address. */
  type Mem = map<nat, Header>

  function Following(n: nat, k: nat): nat { if k + 1 < n then k + 1 else 0 }

  predicate Within(m: Mem, a: nat, u: nat) { a in m && a <= u < a + m[a].size }

  predicate Apart(m: Mem, a: nat, b: nat) {
    a in m && b in m && (a + m[a].size <= b || b + m[b].size <= a)
  }

  predicate LinkOk(m: Mem, fl: seq<nat>, k: nat) {
    k < |fl| && fl[k] in m && m[fl[k]].next == fl[Following(|fl|, k)] && (m[fl[k]].size == 0 <==> k == 0)
  }

  predicate SpaceOk(m: Mem, fl: seq<nat>, j: nat, k: nat) {
    j < |fl| && k < |fl| && fl[j] in m && (j < k ==> fl[j] + m[fl[j]].size < fl[k])
  }

  /** One cycle through the header `base`, in address order; no two free blocks overlap or touch. */
  ghost predicate RingOk(m: Mem, fl: seq<nat>) {
    && |fl| > 0 && fl[0] > 0
    && (forall k :: 0 <= k < |fl| ==> LinkOk(m, fl, k))
    && (forall j, k :: 0 <= j < |fl| && 0 <= k < |fl| ==> SpaceOk(m, fl, j, k))
  }

  /** Live blocks are disjoint from each other and from the free ones. */
  ghost predicate LiveOk(m: Mem, fl: seq<nat>, live: set<nat>) {
    && |fl| > 0
    && (forall a :: a in live ==> a in m && m[a].size > 0 && a > fl[0])
    && (forall a, b :: a in live && b in live && a != b ==> Apart(m, a, b))
    && (forall a, k :: a in live && 0 <= k < |fl| ==> Apart(m, a, fl[k]))
  }

  ghost predicate InFree(m: Mem, fl: seq<nat>, u: nat) { exists k :: 0 <= k < |fl| && Within(m, fl[k], u) }

  ghost predicate InLive(m: Mem, live: set<nat>, u: nat) { exists a :: a in live && Within(m, a, u) }

  /** The free and the live units together are the units obtained from sbrk. */
  ghost predicate ArenaOk(m: Mem, fl: seq<nat>, live: set<nat>, arena: set<nat>) {
    forall u :: u in arena <==> InFree(m, fl, u) || InLive(m, live, u)
  }

  ghost predicate Inv(m: Mem, fl: seq<nat>, live: set<nat>, arena: set<nat>) {
    RingOk(m, fl) && LiveOk(m, fl, live) && ArenaOk(m, fl, live, arena)
  }

  // free.

  /** The last free block before `bp`. */
  ghost predicate Before(fl: seq<nat>, t: nat, bp: nat) {
    t < |fl| && fl[t] < bp && (t + 1 < |fl| ==> bp < fl[t + 1])
  }

  /** Give the block at `bp` back after the free block at `p`, merging it with what it touches. */
  function Release(m: Mem, p: nat, bp: nat): Mem
    requires p in m && bp in m && m[p].next in m
  {
    var q := m[p].next;
    var m1 := if bp + m[bp].size == q then m[bp := Header(m[q].next, m[bp].size + m[q].size)]
              else m[bp := Header(q, m[bp].size)];
    if p + m1[p].size == bp then m1[p := Header(m1[bp].next, m1[p].size + m1[bp].size)]
    else m1[p := Header(bp, m1[p].size)]
  }

  ghost predicate TouchRight(m: Mem, fl: seq<nat>, t: nat, bp: nat) {
    bp in m && t + 1 < |fl| && bp + m[bp].size == fl[t + 1]
  }

  ghost predicate TouchLeft(m: Mem, fl: seq<nat>, t: nat, bp: nat) {
    t < |fl| && fl[t] in m && fl[t] + m[fl[t]].size == bp
  }

  ghost function Released(m: Mem, fl: seq<nat>, t: nat, bp: nat): seq<nat>
    requires t < |fl|
  {
    fl[..t + 1] + (if TouchLeft(m, fl, t, bp) then [] else [bp])
      + (if TouchRight(m, fl, t, bp) then fl[t + 2..] else fl[t + 1..])
  }

  /** The free list after the release: entry `k`, and where it was before. */
  lemma ReleasedIs(m: Mem, fl: seq<nat>, t: nat, bp: nat, k: nat)
    requires RingOk(m, fl) && Before(fl, t, bp) && bp in m && k < |Released(m, fl, t, bp)|
    ensures var fl' := Released(m, fl, t, bp);
      var skip := (if TouchRight(m, fl, t, bp) then 1 else 0) - (if TouchLeft(m, fl, t, bp) then 0 else 1);
      && (k <= t ==> fl'[k] == fl[k])
      && (k == t + 1 && !TouchLeft(m, fl, t, bp) ==> fl'[k] == bp)
      && (k > t + 1 || (k == t + 1 && TouchLeft(m, fl, t, bp)) ==> t < k + skip < |fl| && fl'[k] == fl[k + skip])
      && |fl'| == |fl| - skip
  {
  }

  /** Sizes after the release. */
  lemma ReleaseSizes(m: Mem, fl: seq<nat>, t: nat, bp: nat, a: nat)
    requires RingOk(m, fl) && Before(fl, t, bp) && bp in m && m[bp].size > 0 && a in m
    ensures fl[t] in m && m[fl[t]].next in m
    ensures var (m', l, r) := (Release(m, fl[t], bp), TouchLeft(m, fl, t, bp), TouchRight(m, fl, t, bp));
      && (r ==> fl[t + 1] in m) && a in m' && (a != bp && a != fl[t] ==> m'[a] == m[a])
      && var size := m[bp].size + (if r then m[fl[t + 1]].size else 0);
        && m'[bp].size == size && m'[fl[t]].size == m[fl[t]].size + (if l then size else 0)
  {
    assert LinkOk(m, fl, t) && LinkOk(m, fl, Following(|fl|, t)) && SpaceOk(m, fl, 0, t);
  }

  lemma ReleaseRing(m: Mem, fl: seq<nat>, t: nat, bp: nat)
    requires RingOk(m, fl) && Before(fl, t, bp) && bp in m && m[bp].size > 0
    requires forall k :: 0 <= k < |fl| ==> Apart(m, bp, fl[k])
    ensures fl[t] in m && m[fl[t]].next in m && RingOk(Release(m, fl[t], bp), Released(m, fl, t, bp))
  {
    ReleaseSizes(m, fl, t, bp, bp);
    var (m', fl') := (Release(m, fl[t], bp), Released(m, fl, t, bp));
    forall k | 0 <= k < |fl'| ensures LinkOk(m', fl', k) { ReleaseLink(m, fl, t, bp, k); }
    forall j, k | 0 <= j < |fl'| && 0 <= k < |fl'| ensures SpaceOk(m', fl', j, k) { ReleaseSpace(m, fl, t, bp, j, k); }
  }

  lemma ReleaseLink(m: Mem, fl: seq<nat>, t: nat, bp: nat, k: nat)
    requires RingOk(m, fl) && Before(fl, t, bp) && bp in m && m[bp].size > 0 && k < |Released(m, fl, t, bp)|
    requires fl[t] in m && m[fl[t]].next in m && bp !in fl
    ensures LinkOk(Release(m, fl[t], bp), Released(m, fl, t, bp), k)
  {
    var (m', fl') := (Release(m, fl[t], bp), Released(m, fl, t, bp));
    ReleasedIs(m, fl, t, bp, k);
    ReleasedIs(m, fl, t, bp, Following(|fl'|, k));
    assert LinkOk(m, fl, t) && SpaceOk(m, fl, 0, t);
    assert t + 1 < |fl| ==> LinkOk(m, fl, t + 1);
    var skip := |fl| - |fl'|;
    if k < t {
      assert LinkOk(m, fl, k) && SpaceOk(m, fl, k, t);
      ReleaseSizes(m, fl, t, bp, fl[k]);
    } else if k == t || (k == t + 1 && !TouchLeft(m, fl, t, bp)) {
      ReleaseSizes(m, fl, t, bp, bp);
    } else {
      assert LinkOk(m, fl, k + skip) && SpaceOk(m, fl, t, k + skip) && SpaceOk(m, fl, 0, k + skip);
      ReleaseSizes(m, fl, t, bp, fl[k + skip]);
    }
  }

  lemma ReleaseSpace(m: Mem, fl: seq<nat>, t: nat, bp: nat, j: nat, k: nat)
    requires RingOk(m, fl) && Before(fl, t, bp) && bp in m && m[bp].size > 0
    requires fl[t] in m && m[fl[t]].next in m && bp !in fl
    requires forall k :: 0 <= k < |fl| ==> Apart(m, bp, fl[k])
    requires j < |Released(m, fl, t, bp)| && k < |Released(m, fl, t, bp)|
    ensures SpaceOk(Release(m, fl[t], bp), Released(m, fl, t, bp), j, k)
  {
    var (m', fl') := (Release(m, fl[t], bp), Released(m, fl, t, bp));
    ReleasedIs(m, fl, t, bp, j);
    ReleasedIs(m, fl, t, bp, k);
    var skip := |fl| - |fl'|;
    assert LinkOk(m, fl, t) && SpaceOk(m, fl, t, t + 1) == (t + 1 < |fl|) && Apart(m, bp, fl[t]);
    if t + 1 < |fl| {
      assert Apart(m, bp, fl[t + 1]) && LinkOk(m, fl, t + 1);
      if k + skip < |fl| && k + skip >= 0 { assert SpaceOk(m, fl, t + 1, k + skip); }
    }
    ReleaseSizes(m, fl, t, bp, fl'[j]);
    if j < k {
      if k <= t { assert SpaceOk(m, fl, j, k) && SpaceOk(m, fl, j, t); }
      else if j > t + 1 || (j == t + 1 && TouchLeft(m, fl, t, bp)) { assert SpaceOk(m, fl, j + skip, k + skip); }
      else if j < t { assert SpaceOk(m, fl, j, t); if 0 <= k + skip < |fl| { assert SpaceOk(m, fl, j, k + skip); } }
    }
  }

  lemma ReleaseApart(m: Mem, fl: seq<nat>, live: set<nat>, t: nat, bp: nat, a: nat, k: nat)
    requires RingOk(m, fl) && LiveOk(m, fl, live) && Before(fl, t, bp) && bp in live && a in live && a != bp
    requires fl[t] in m && m[fl[t]].next in m && k < |Released(m, fl, t, bp)|
    ensures var m' := Release(m, fl[t], bp); a in m' && m'[a] == m[a] && Apart(m', a, Released(m, fl, t, bp)[k])
  {
    ReleasedIs(m, fl, t, bp, k);
    ReleaseSizes(m, fl, t, bp, a);
    assert Apart(m, a, bp) && Apart(m, a, fl[t]) && LinkOk(m, fl, t);
    assert t + 1 < |fl| ==> Apart(m, a, fl[t + 1]) && LinkOk(m, fl, t + 1);
    var skip := |fl| - |Released(m, fl, t, bp)|;
    if k < t {
      assert LinkOk(m, fl, k) && SpaceOk(m, fl, k, t) && Apart(m, a, fl[k]);
      ReleaseSizes(m, fl, t, bp, fl[k]);
    } else if k > t + 1 || (k == t + 1 && TouchLeft(m, fl, t, bp)) {
      assert LinkOk(m, fl, k + skip) && SpaceOk(m, fl, t, k + skip) && Apart(m, a, fl[k + skip]);
      assert SpaceOk(m, fl, t + 1, k + skip);
      ReleaseSizes(m, fl, t, bp, fl[k + skip]);
    }
  }

  /** The released block, and nothing else, became free. */
  lemma ReleaseUnits(m: Mem, fl: seq<nat>, t: nat, bp: nat, u: nat)
    requires RingOk(m, fl) && Before(fl, t, bp) && bp in m && m[bp].size > 0 && bp !in fl
    requires fl[t] in m && m[fl[t]].next in m
    ensures InFree(Release(m, fl[t], bp), Released(m, fl, t, bp), u) <==> InFree(m, fl, u) || Within(m, bp, u)
  {
    var (m', fl') := (Release(m, fl[t], bp), Released(m, fl, t, bp));
    var skip := |fl| - |fl'|;
    var (l, r) := (TouchLeft(m, fl, t, bp), TouchRight(m, fl, t, bp));
    ReleaseSizes(m, fl, t, bp, bp);
    ReleasedIs(m, fl, t, bp, t);
    if !l { ReleasedIs(m, fl, t, bp, t + 1); }
    if Within(m, bp, u) || Within(m, fl[t], u) || (r && Within(m, fl[t + 1], u)) {
      assert Within(m', fl'[t], u) || (!l && Within(m', fl'[t + 1], u));
    }
    if k :| 0 <= k < |fl| && Within(m, fl[k], u) {
      if k < t {
        KeptEntry(m, fl, t, bp, k);
        assert Within(m', fl'[k], u);
      } else if k > t + 1 || (k == t + 1 && !r) {
        KeptEntry(m, fl, t, bp, k);
        ReleasedIs(m, fl, t, bp, k - skip);
        assert Within(m', fl'[k - skip], u);
      }
    }
    if k :| 0 <= k < |fl'| && Within(m', fl'[k], u) {
      ReleasedIs(m, fl, t, bp, k);
      if k < t {
        KeptEntry(m, fl, t, bp, k);
        assert Within(m, fl[k], u);
      } else if k > t + 1 || (k == t + 1 && l) {
        KeptEntry(m, fl, t, bp, k + skip);
        assert Within(m, fl[k + skip], u);
      } else {
        assert Within(m, bp, u) || Within(m, fl[t], u) || (r && Within(m, fl[t + 1], u));
      }
    }
  }

  lemma KeptEntry(m: Mem, fl: seq<nat>, t: nat, bp: nat, k: nat)
    requires RingOk(m, fl) && Before(fl, t, bp) && bp in m && m[bp].size > 0 && bp !in fl && k < |fl| && k != t
    requires fl[t] in m && m[fl[t]].next in m
    ensures fl[k] in m && fl[k] in Release(m, fl[t], bp) && Release(m, fl[t], bp)[fl[k]] == m[fl[k]]
  {
    assert LinkOk(m, fl, k) && SpaceOk(m, fl, k, t) && SpaceOk(m, fl, t, k);
    ReleaseSizes(m, fl, t, bp, fl[k]);
  }

  /** free: the heap stays in order, and the block's units go from live to free. */
  lemma ReleaseInv(m: Mem, fl: seq<nat>, live: set<nat>, arena: set<nat>, t: nat, bp: nat)
    requires Inv(m, fl, live, arena) && Before(fl, t, bp) && bp in live
    ensures fl[t] in m && m[fl[t]].next in m && Inv(Release(m, fl[t], bp), Released(m, fl, t, bp), live - {bp}, arena)
    ensures forall u ::
              InFree(Release(m, fl[t], bp), Released(m, fl, t, bp), u) <==> InFree(m, fl, u) || Within(m, bp, u)
    ensures fl[t] in Released(m, fl, t, bp) && fl[t] > 0 && Released(m, fl, t, bp)[0] == fl[0]
    ensures forall a :: a in live - {bp} ==> a in Release(m, fl[t], bp) && Release(m, fl[t], bp)[a] == m[a]
  {
    forall k | 0 <= k < |fl| ensures Apart(m, bp, fl[k]) && fl[k] != bp { assert LinkOk(m, fl, k); }
    ReleaseRing(m, fl, t, bp);
    var (m', fl') := (Release(m, fl[t], bp), Released(m, fl, t, bp));
    assert fl'[t] == fl[t] && fl'[0] == fl[0] && SpaceOk(m, fl, 0, t);
    forall a, k | a in live - {bp} && 0 <= k < |fl'| ensures a in m' && m'[a] == m[a] && Apart(m', a, fl'[k]) {
      ReleaseApart(m, fl, live, t, bp, a, k);
    }
    forall a | a in live - {bp} ensures a in m' && m'[a] == m[a] { ReleaseApart(m, fl, live, t, bp, a, 0); }
    forall u ensures InFree(m', fl', u) <==> InFree(m, fl, u) || Within(m, bp, u) { ReleaseUnits(m, fl, t, bp, u); }
    forall u ensures InLive(m, live, u) <==> InLive(m', live - {bp}, u) || Within(m, bp, u) {
      if a :| a in live && Within(m, a, u) && a != bp { assert Within(m', a, u); }
      if a :| a in live - {bp} && Within(m', a, u) { assert Within(m, a, u); }
    }
  }

  // malloc.

  /** `prev` skips the block at `p`. */
  function Skip(m: Mem, prev: nat, p: nat): Mem
    requires prev in m && p in m
  {
    m[prev := Header(m[p].next, m[prev].size)]
  }

  /** The block at `p` keeps all but its last `n` units, which get a header of their own. */
  function Split(m: Mem, p: nat, n: nat, junk: nat): Mem
    requires p in m && n <= m[p].size
  {
    m[p := Header(m[p].next, m[p].size - n)][p + (m[p].size - n) := Header(junk, n)]
  }

  lemma ExactLink(m: Mem, fl: seq<nat>, k: nat, j: nat)
    requires RingOk(m, fl) && 0 < k < |fl| && j < |fl| - 1
    requires fl[k] in m && fl[k - 1] in m
    ensures var (m', fl') := (Skip(m, fl[k - 1], fl[k]), fl[..k] + fl[k + 1..]);
      LinkOk(m', fl', j) && fl'[j] in m && m'[fl'[j]].size == m[fl'[j]].size && fl'[j] != fl[k]
  {
    var i := if j < k then j else j + 1;
    assert LinkOk(m, fl, i) && LinkOk(m, fl, k) && LinkOk(m, fl, k - 1);
    assert i < k ==> SpaceOk(m, fl, i, k);
    assert i > k ==> SpaceOk(m, fl, k, i) && SpaceOk(m, fl, k - 1, i);
    assert i < k - 1 ==> SpaceOk(m, fl, i, k - 1);
    var fl' := fl[..k] + fl[k + 1..];
    assert fl'[j] == fl[i];
    assert fl'[Following(|fl'|, j)] == if i == k - 1 then fl[Following(|fl|, k)] else fl[Following(|fl|, i)];
  }

  lemma ExactRing(m: Mem, fl: seq<nat>, k: nat)
    requires RingOk(m, fl) && 0 < k < |fl|
    ensures fl[k] in m && fl[k - 1] in m
    ensures var (m', fl') := (Skip(m, fl[k - 1], fl[k]), fl[..k] + fl[k + 1..]);
      && RingOk(m', fl') && m'[fl[k]] == m[fl[k]] && fl'[0] == fl[0] < fl[k]
      && forall j :: 0 <= j < |fl'| ==>
            fl'[j] in m && fl'[j] in m' && m'[fl'[j]].size == m[fl'[j]].size && fl'[j] != fl[k]
  {
    assert LinkOk(m, fl, k) && LinkOk(m, fl, k - 1) && SpaceOk(m, fl, k - 1, k) && SpaceOk(m, fl, 0, k);
    var (m', fl') := (Skip(m, fl[k - 1], fl[k]), fl[..k] + fl[k + 1..]);
    forall j | 0 <= j < |fl'|
      ensures LinkOk(m', fl', j) && fl'[j] in m && m'[fl'[j]].size == m[fl'[j]].size && fl'[j] != fl[k]
    {
      ExactLink(m, fl, k, j);
    }
    forall i, j | 0 <= i < |fl'| && 0 <= j < |fl'| ensures SpaceOk(m', fl', i, j) { ExactSpace(m, fl, k, i, j); }
    hide LinkOk, SpaceOk;
  }

  lemma ExactSpace(m: Mem, fl: seq<nat>, k: nat, i: nat, j: nat)
    requires RingOk(m, fl) && 0 < k < |fl| && i < |fl| - 1 && j < |fl| - 1
    requires fl[k] in m && fl[k - 1] in m
    ensures SpaceOk(Skip(m, fl[k - 1], fl[k]), fl[..k] + fl[k + 1..], i, j)
  {
    ExactLink(m, fl, k, i);
    assert SpaceOk(m, fl, if i < k then i else i + 1, if j < k then j else j + 1);
  }

  /** Hand out the whole of free block `k`. */
  lemma ExactInv(m: Mem, fl: seq<nat>, live: set<nat>, arena: set<nat>, k: nat)
    requires Inv(m, fl, live, arena) && 0 < k < |fl|
    ensures fl[k] in m && fl[k - 1] in m && fl[k] !in live
    ensures var m' := Skip(m, fl[k - 1], fl[k]);
      && Inv(m', fl[..k] + fl[k + 1..], live + {fl[k]}, arena) && m'[fl[k]] == m[fl[k]]
      && forall a :: a in live ==> a in m' && m'[a] == m[a]
  {
    ExactRing(m, fl, k);
    var (p, fl') := (fl[k], fl[..k] + fl[k + 1..]);
    var m' := Skip(m, fl[k - 1], p);
    forall a | a in live ensures a in m' && m'[a] == m[a] && Apart(m', a, p) && a != p {
      assert Apart(m, a, fl[k - 1]) && Apart(m, a, p) && LinkOk(m, fl, k - 1) && LinkOk(m, fl, k);
    }
    assert m[p].size > 0 by { assert LinkOk(m, fl, k); }
    forall a, j | a in live + {p} && 0 <= j < |fl'| ensures Apart(m', a, fl'[j]) {
      var i := if j < k then j else j + 1;
      assert SpaceOk(m, fl, i, k) && SpaceOk(m, fl, k, i);
      if a in live { assert Apart(m, a, fl[i]); }
    }
    hide RingOk, Skip;
    forall u
      ensures u in arena <==> InFree(m', fl', u) || InLive(m', live + {p}, u)
    {
      ExactUnits(m, fl, live, m', fl', k, u);
    }
  }

  lemma ExactUnits(m: Mem, fl: seq<nat>, live: set<nat>, m': Mem, fl': seq<nat>, k: nat, u: nat)
    requires RingOk(m, fl) && 0 < k < |fl| && fl' == fl[..k] + fl[k + 1..] && fl[k] in m && fl[k] in m'
    requires m'[fl[k]] == m[fl[k]]
    requires forall a :: a in live ==> a in m && a in m' && m'[a] == m[a]
    requires forall j :: 0 <= j < |fl'| ==> fl'[j] in m && fl'[j] in m' && m'[fl'[j]].size == m[fl'[j]].size
    ensures InFree(m, fl, u) || InLive(m, live, u) <==> InFree(m', fl', u) || InLive(m', live + {fl[k]}, u)
  {
    if i :| 0 <= i < |fl| && Within(m, fl[i], u) {
      if i == k { assert Within(m', fl[k], u); } else { assert Within(m', fl'[if i < k then i else i - 1], u); }
    }
    if a :| a in live && Within(m, a, u) { assert Within(m', a, u); }
    if j :| 0 <= j < |fl'| && Within(m', fl'[j], u) { assert Within(m, fl[if j < k then j else j + 1], u); }
    if a :| a in live + {fl[k]} && Within(m', a, u) { assert Within(m, a, u); }
  }

  lemma SplitRing(m: Mem, fl: seq<nat>, k: nat, n: nat, junk: nat)
    requires RingOk(m, fl) && k < |fl| && fl[k] in m && 0 < n < m[fl[k]].size
    ensures var (m', b) := (Split(m, fl[k], n, junk), fl[k] + m[fl[k]].size - n);
      && RingOk(m', fl) && b !in fl && fl[0] < b
      && forall j :: 0 <= j < |fl| && j != k ==>
            fl[j] in m && fl[j] in m' && m'[fl[j]] == m[fl[j]] && (fl[j] + m[fl[j]].size <= fl[k] || b + n <= fl[j])
  {
    assert LinkOk(m, fl, k);
    var (m', b) := (Split(m, fl[k], n, junk), fl[k] + m[fl[k]].size - n);
    forall j | 0 <= j < |fl|
      ensures fl[j] in m && fl[j] != b && (j != k ==> m'[fl[j]] == m[fl[j]]) && LinkOk(m', fl, j)
    {
      assert LinkOk(m, fl, j) && SpaceOk(m, fl, j, k) && SpaceOk(m, fl, k, j);
    }
    forall i, j | 0 <= i < |fl| && 0 <= j < |fl| ensures SpaceOk(m', fl, i, j) { assert SpaceOk(m, fl, i, j); }
    forall j | 0 <= j < |fl| && j != k ensures fl[j] + m[fl[j]].size <= fl[k] || b + n <= fl[j] {
      assert SpaceOk(m, fl, j, k) && SpaceOk(m, fl, k, j);
    }
    assert SpaceOk(m, fl, 0, k);
  }

  /** Hand out the last `n` units of free block `k`. */
  lemma SplitInv(m: Mem, fl: seq<nat>, live: set<nat>, arena: set<nat>, k: nat, n: nat, junk: nat)
    requires Inv(m, fl, live, arena) && k < |fl| && fl[k] in m && 0 < n < m[fl[k]].size
    ensures var (m', b) := (Split(m, fl[k], n, junk), fl[k] + m[fl[k]].size - n);
      b !in live && Inv(m', fl, live + {b}, arena) && forall a :: a in live ==> a in m' && m'[a] == m[a]
  {
    SplitRing(m, fl, k, n, junk);
    var (m', p, b) := (Split(m, fl[k], n, junk), fl[k], fl[k] + m[fl[k]].size - n);
    forall a | a in live
      ensures a in m && a != b && a != p && m'[a] == m[a] && Apart(m', a, b)
    {
      assert Apart(m, a, p);
    }
    assert forall j :: 0 <= j < |fl| ==> fl[j] in m';
    hide RingOk;
    forall a, j | a in live + {b} && 0 <= j < |fl| ensures Apart(m', a, fl[j]) {
      if a in live { assert Apart(m, a, fl[j]); }
    }
    forall u
      ensures u in arena <==> InFree(m', fl, u) || InLive(m', live + {b}, u)
    {
      SplitUnits(m, fl, live, m', k, b, u);
    }
  }

  lemma SplitUnits(m: Mem, fl: seq<nat>, live: set<nat>, m': Mem, k: nat, b: nat, u: nat)
    requires RingOk(m, fl) && k < |fl| && fl[k] in m && b in m' && fl[k] in m' && b == fl[k] + m'[fl[k]].size
    requires m[fl[k]].size == m'[fl[k]].size + m'[b].size
    requires forall a :: a in live ==> a in m && a in m' && m'[a] == m[a] && a != b
    requires forall j :: 0 <= j < |fl| && j != k ==> fl[j] in m && fl[j] in m' && m'[fl[j]] == m[fl[j]]
    ensures InFree(m, fl, u) || InLive(m, live, u) <==> InFree(m', fl, u) || InLive(m', live + {b}, u)
  {
    if i :| 0 <= i < |fl| && Within(m, fl[i], u) { assert Within(m', fl[i], u) || Within(m', b, u); }
    if a :| a in live && Within(m, a, u) { assert Within(m', a, u); }
    if j :| 0 <= j < |fl| && Within(m', fl[j], u) { assert Within(m, fl[j], u); }
    if a :| a in live + {b} && Within(m', a, u) { assert Within(m, if a == b then fl[k] else a, u); }
  }

  // Going round the ring.

  /** Steps from position `k` to position `t` in a cycle of `n`. */
  function Steps(n: nat, k: nat, t: nat): nat
    requires k < n && t < n
  {
    if k <= t then t - k else n - k + t
  }

  lemma StepsNext(n: nat, k: nat, t: nat)
    requires k < n && t < n && k != t
    ensures Steps(n, Following(n, k), t) == Steps(n, k, t) - 1
    ensures forall j :: 0 <= j < n && Steps(n, j, t) == Steps(n, k, t) ==> j == k
  {
  }

  /** The `n` units from `hp` on. */
  function Core(hp: nat, n: nat): set<nat> { set u: nat | hp <= u < hp + n && InCore(hp, n, u) }

  predicate InCore(hp: nat, n: nat, u: nat) { hp <= u < hp + n }

  predicate Above(arena: set<nat>, hp: nat) { forall u :: u in arena ==> u < hp }

  lemma BelowCore(m: Mem, fl: seq<nat>, live: set<nat>, arena: set<nat>, hp: nat)
    requires Inv(m, fl, live, arena) && hp > fl[0] && Above(arena, hp)
    ensures forall k :: 0 <= k < |fl| ==> fl[k] in m && fl[k] + m[fl[k]].size <= hp && fl[k] < hp
    ensures forall a :: a in live ==> a in m && a + m[a].size <= hp && a < hp
  {
    forall k | 0 <= k < |fl| ensures fl[k] in m && fl[k] + m[fl[k]].size <= hp && fl[k] < hp {
      assert LinkOk(m, fl, k);
      if k > 0 {
        assert Within(m, fl[k], fl[k] + m[fl[k]].size - 1);
        assert InFree(m, fl, fl[k] + m[fl[k]].size - 1);
      }
    }
    forall a | a in live ensures a in m && a + m[a].size <= hp && a < hp {
      assert Within(m, a, a + m[a].size - 1);
      assert InLive(m, live, a + m[a].size - 1);
    }
  }

  /** Fresh memory above everything else is a live block until it is given to free. */
  lemma CoreInv(m: Mem, fl: seq<nat>, live: set<nat>, arena: set<nat>, hp: nat, n: nat, junk: nat)
    requires Inv(m, fl, live, arena) && n > 0 && hp > fl[0] && Above(arena, hp)
    ensures var m' := m[hp := Header(junk, n)];
      && Inv(m', fl, live + {hp}, arena + Core(hp, n)) && hp !in fl && hp !in live
      && Before(fl, |fl| - 1, hp) && (forall a :: a in live ==> a in m' && m'[a] == m[a])
      && forall u: nat :: InFree(m', fl, u) <==> InFree(m, fl, u)
  {
    BelowCore(m, fl, live, arena, hp);
    var m' := m[hp := Header(junk, n)];
    CoreRing(m, fl, hp, n, junk);
    CoreUnits(m, fl, live, m', hp, n);
    CoreLive(m, fl, live, m', hp, n);
    hide InFree, InLive, LinkOk, SpaceOk, Apart, Core;
  }

  lemma CoreRing(m: Mem, fl: seq<nat>, hp: nat, n: nat, junk: nat)
    requires RingOk(m, fl) && forall k :: 0 <= k < |fl| ==> fl[k] < hp
    ensures RingOk(m[hp := Header(junk, n)], fl)
  {
    var m' := m[hp := Header(junk, n)];
    forall k | 0 <= k < |fl| ensures LinkOk(m', fl, k) && m'[fl[k]] == m[fl[k]] { assert LinkOk(m, fl, k); }
    forall j, k | 0 <= j < |fl| && 0 <= k < |fl| ensures SpaceOk(m', fl, j, k) { assert SpaceOk(m, fl, j, k); }
  }

  lemma CoreLive(m: Mem, fl: seq<nat>, live: set<nat>, m': Mem, hp: nat, n: nat)
    requires LiveOk(m, fl, live) && hp in m' && m'[hp].size == n > 0
    requires forall k :: 0 <= k < |fl| ==>
               fl[k] in m && fl[k] in m' && m'[fl[k]] == m[fl[k]] && fl[k] + m[fl[k]].size <= hp && fl[k] < hp
    requires forall a :: a in live ==> a in m && a in m' && m'[a] == m[a] && a + m[a].size <= hp && a < hp
    ensures LiveOk(m', fl, live + {hp})
  {
    forall a, k | a in live + {hp} && 0 <= k < |fl| ensures Apart(m', a, fl[k]) {
      if a in live { assert Apart(m, a, fl[k]); }
    }
    forall a, b | a in live + {hp} && b in live + {hp} && a != b ensures Apart(m', a, b) {
      if a in live && b in live { assert Apart(m, a, b); }
    }
  }

  lemma CoreUnits(m: Mem, fl: seq<nat>, live: set<nat>, m': Mem, hp: nat, n: nat)
    requires forall k :: 0 <= k < |fl| ==> fl[k] in m && fl[k] in m' && m'[fl[k]] == m[fl[k]]
    requires forall a :: a in live ==> a in m && a in m' && m'[a] == m[a] && a != hp
    requires hp in m' && m'[hp].size == n
    ensures forall u: nat :: InFree(m', fl, u) <==> InFree(m, fl, u)
    ensures forall u: nat :: InLive(m', live + {hp}, u) <==> InLive(m, live, u) || u in Core(hp, n)
  {
    forall u: nat ensures InFree(m', fl, u) <==> InFree(m, fl, u) {
      if k :| 0 <= k < |fl| && Within(m, fl[k], u) { assert Within(m', fl[k], u); }
      if k :| 0 <= k < |fl| && Within(m', fl[k], u) { assert Within(m, fl[k], u); }
    }
    forall u: nat ensures InLive(m', live + {hp}, u) <==> InLive(m, live, u) || u in Core(hp, n) {
      if a :| a in live && Within(m, a, u) { assert Within(m', a, u); }
      if a :| a in live + {hp} && Within(m', a, u) && a != hp { assert Within(m, a, u); }
      if u in Core(hp, n) { assert Within(m', hp, u); }
    }
  }

  /** The 32-bit unit count of malloc: header plus payload, rounded up. */
  function Units(nbytes: nat): nat { (nbytes + 7) % 0x1_0000_0000 / 8 + 1 }

  /** The rounding has room for the request exactly when the 32-bit sum does not wrap. */
  lemma UnitsEnough(nbytes: nat)
    requires nbytes < 0x1_0000_0000
    ensures 8 * (Units(nbytes) - 1) >= nbytes <==> nbytes + 7 < 0x1_0000_0000
  {
    if nbytes + 7 >= 0x1_0000_0000 { assert (nbytes + 7) % 0x1_0000_0000 == nbytes + 7 - 0x1_0000_0000; }
  }

  class Allocator {
    const base: nat
    var mem: Mem
    var freep: nat
    ghost var fl: seq<nat>
    ghost var live: set<nat>
    ghost var arena: set<nat>

    ghost predicate Valid()
      reads this
    {
      && base > 0
      && if freep == 0 then base in mem && live == {} && arena == {}
         else Inv(mem, fl, live, arena) && fl[0] == base && freep in fl
    }

    constructor (base: nat)
      requires base > 0
      ensures Valid() && live == {} && arena == {} && this.base == base
    {
      this.base := base;
      mem, freep := map[base := Header(0, 0)], 0;
      fl, live, arena := [], {}, {};
    }

    /** The last free block before `bp`, looked for from freep on. */
    method Search(bp: nat) returns (p: nat, ghost t: nat)
      requires Valid() && freep != 0 && bp > base && bp !in fl
      ensures Before(fl, t, bp) && p == fl[t]
    {
      ghost var n := |fl|;
      LastBefore(mem, fl, bp, n);
      ghost var last: nat :| Before(fl, last, bp);
      ghost var k: nat :| k < n && fl[k] == freep;
      p := freep;
      assert LinkOk(mem, fl, k);
      while !(bp > p && bp < mem[p].next)
        invariant k < n && p == fl[k] && LinkOk(mem, fl, k)
        decreases Steps(n, k, last)
      {
        ghost var q := Following(n, k);
        assert LinkOk(mem, fl, q) && SpaceOk(mem, fl, k, q) && SpaceOk(mem, fl, q, k);
        if p >= mem[p].next && (bp > p || bp < mem[p].next) { break; }
        FarFrom(mem, fl, bp, last, k);
        StepsNext(n, k, last);
        p := mem[p].next;
        k := q;
      }
      t := k;
    }

    /** Link the block at `bp` after the one at `p`, merging what touches. */
    method Coalesce(p: nat, bp: nat)
      requires p in mem && bp in mem && mem[p].next in mem
      modifies `mem
      ensures mem == Release(old(mem), p, bp)
    {
      var q := mem[p].next;
      if bp + mem[bp].size == q {
        mem := mem[bp := Header(mem[q].next, mem[bp].size + mem[q].size)];
      } else {
        mem := mem[bp := Header(q, mem[bp].size)];
      }
      if p + mem[p].size == bp {
        mem := mem[p := Header(mem[bp].next, mem[p].size + mem[bp].size)];
      } else {
        mem := mem[p := Header(bp, mem[p].size)];
      }
    }

    /** Give back the block whose payload starts at `ap`: free and freewlock, which differ in who
        holds the lock. */
    method Free(ap: nat)
      requires Valid() && ap > 0 && ap - 1 in live
      modifies this
      ensures Valid() && freep != 0 && live == old(live) - {ap - 1} && arena == old(arena)
      ensures forall u: nat :: InFree(mem, fl, u) <==> InFree(old(mem), old(fl), u) || Within(old(mem), ap - 1, u)
      ensures forall a :: a in live ==> a in mem && mem[a] == old(mem)[a]
      ensures Room(mem, freep, old(mem)[ap - 1].size)
    {
      var bp := ap - 1;
      LiveFacts(mem, fl, live, bp);
      ghost var t;
      var p;
      p, t := Search(bp);
      ReleaseInv(mem, fl, live, arena, t, bp);
      ReleaseRoom(mem, fl, t, bp);
      hide Inv, InFree, Release, Released, Before, Room;
      ghost var m := mem;
      Coalesce(p, bp);
      freep := p;
      fl := Released(m, fl, t, bp);
      live := live - {bp};
    }

    /** Ask sbrk for at least `nu` units and free them.  `grant` is what sbrk answers: an address
        above everything handed out before, or None. */
    method Morecore(nu: nat, grant: Option<nat>) returns (ok: bool)
      requires Valid() && freep != 0 && nu > 0 && (grant.Some? ==> grant.value > base && Above(arena, grant.value))
      modifies this
      ensures Valid() && freep != 0 && live == old(live) && ok == grant.Some?
      ensures !ok ==> mem == old(mem) && fl == old(fl) && freep == old(freep) && arena == old(arena)
      ensures ok ==> arena == old(arena) + Core(grant.value, AtLeast(nu)) && Room(mem, freep, nu)
      ensures forall a :: a in live ==> a in mem && mem[a] == old(mem)[a]
    {
      LiveIn(mem, fl, live);
      if grant.None? { return false; }
      var hp := grant.value;
      var junk := if hp in mem then mem[hp].next else 0;
      CoreInv(mem, fl, live, arena, hp, AtLeast(nu), junk);
      hide Inv, Core, InFree, Before;
      mem := mem[hp := Header(junk, AtLeast(nu))];
      live := live + {hp};
      arena := arena + Core(hp, AtLeast(nu));
      Free(hp + 1);
      assert live == old(live);
      ok := true;
    }

    /** Unlink the free block at `p`, whose predecessor is `prevp`. */
    method TakeAll(prevp: nat, p: nat, ghost k: nat)
      requires Valid() && freep != 0 && 0 < k < |fl| && fl[k] == p && fl[k - 1] == prevp
      modifies this
      ensures Valid() && freep != 0 && arena == old(arena) && p !in old(live) && live == old(live) + {p}
      ensures p in mem && p in old(mem) && mem[p] == old(mem)[p]
      ensures forall a :: a in old(live) ==> a in mem && mem[a] == old(mem)[a]
    {
      ghost var m := mem;
      LinksIn(mem, fl, k);
      ExactInv(mem, fl, live, arena, k);
      LiveIn(mem, fl, live);
      hide Inv;
      mem := mem[prevp := Header(mem[p].next, mem[prevp].size)];
      assert mem == Skip(m, prevp, p);
      hide Skip;
      fl := fl[..k] + fl[k + 1..];
      assert fl[k - 1] == prevp && fl[0] == base;
      freep := prevp;
      live := live + {p};
    }

    /** Cut the last `n` units off the free block at `p`. */
    method TakePart(prevp: nat, p: nat, n: nat, ghost k: nat) returns (bp: nat)
      requires Valid() && freep != 0 && 0 < k < |fl| && fl[k] == p && fl[k - 1] == prevp && p in mem
      requires 0 < n < mem[p].size
      modifies this
      ensures Valid() && freep != 0 && arena == old(arena) && bp !in old(live) && live == old(live) + {bp}
      ensures bp in mem && mem[bp].size == n
      ensures forall a :: a in old(live) ==> a in mem && mem[a] == old(mem)[a]
    {
      ghost var m := mem;
      LinksIn(mem, fl, k);
      var rest := mem[p].size - n;
      bp := p + rest;
      var junk := if bp in mem then mem[bp].next else 0;
      SplitInv(mem, fl, live, arena, k, n, junk);
      hide Inv;
      mem := mem[p := Header(mem[p].next, rest)];
      mem := mem[bp := Header(junk, n)];
      assert mem == Split(m, p, n, junk);
      hide Split;
      freep := prevp;
      live := live + {bp};
    }

    method Take(prevp: nat, p: nat, n: nat, ghost k: nat) returns (bp: nat)
      requires Valid() && freep != 0 && 0 < k < |fl| && fl[k] == p && fl[k - 1] == prevp && p in mem
      requires 0 < n <= mem[p].size
      modifies this
      ensures Valid() && freep != 0 && arena == old(arena) && bp !in old(live) && live == old(live) + {bp}
      ensures bp in mem && mem[bp].size == n
      ensures forall a :: a in old(live) ==> a in mem && mem[a] == old(mem)[a]
    {
      hide RingOk, LiveOk, ArenaOk;
      if mem[p].size == n {
        TakeAll(prevp, p, k);
        bp := p;
      } else {
        bp := TakePart(prevp, p, n, k);
      }
    }

    /** The first call makes a ring of the empty header `base`. */
    method Init()
      requires Valid()
      modifies this
      ensures Valid() && freep != 0 && live == old(live) && arena == old(arena)
      ensures old(freep) != 0 ==> mem == old(mem) && fl == old(fl) && freep == old(freep)
      ensures old(freep) == 0 ==> fl == [base] && base in mem && mem[base].size == 0
    {
      if freep == 0 {
        mem := mem[base := Header(base, 0)];
        freep := base;
        fl := [base];
        assert LinkOk(mem, fl, 0) && SpaceOk(mem, fl, 0, 0);
      }
    }

    /** A block with room for `nbytes` bytes: the first fit from freep on, or, if no free block
        fits, one cut from fresh memory.  The result is the address of its payload. */
    method Malloc(nbytes: nat, grant: Option<nat>) returns (r: Option<nat>)
      requires Valid() && nbytes <= 0x7FFF_FFE8 && (grant.Some? ==> grant.value > base && Above(arena, grant.value))
      modifies this
      ensures Valid()
      ensures r.None? <==> grant.None? && !HasFit(old(mem), old(freep), old(fl), Units(nbytes))
      ensures r.None? ==> live == old(live) && arena == old(arena)
      ensures r.Some? ==> r.value > 0 && r.value - 1 !in old(live) && live == old(live) + {r.value - 1}
      ensures r.Some? ==>
                && r.value - 1 in mem && mem[r.value - 1].size == Units(nbytes)
                && 8 * (mem[r.value - 1].size - 1) >= nbytes
      ensures r.Some? ==> (arena == old(arena) +
        if HasFit(old(mem), old(freep), old(fl), Units(nbytes)) then {} else Core(grant.value, AtLeast(Units(nbytes))))
      ensures forall a :: a in old(live) ==> a in old(mem) && a in mem && mem[a] == old(mem)[a]
    {
      hide RingOk, LiveOk, ArenaOk, HasFit, Hunt, At, Room, Core, Above;
      var nunits := (nbytes + 7) / 8 + 1;
      assert nunits == Units(nbytes);
      Init();
      FitsAfterInit(old(mem), old(freep), old(fl), mem, freep, fl, nunits);
      LiveIn(mem, fl, live);
      ghost var fits := HasFit(mem, freep, fl, nunits);
      ghost var grown := false;
      ghost var f: nat := IndexOf(fl, freep);
      ghost var k: nat := Following(|fl|, f);
      var prevp := freep;
      HuntStart(mem, fl, f, nunits);
      var p := mem[prevp].next;
      while true
        invariant Valid() && freep != 0 && live == old(live)
        invariant f < |fl| && fl[f] == freep && Hunt(mem, fl, f, k, nunits, grown)
        invariant k < |fl| && p == fl[k] && p in mem && At(mem, fl, k, prevp)
        invariant !grown ==> HasFit(mem, freep, fl, nunits) == fits && arena == old(arena)
        invariant grown ==> !fits && grant.Some? && arena == old(arena) + Core(grant.value, AtLeast(nunits))
        invariant forall a :: a in old(live) ==> a in old(mem) && a in mem && mem[a] == old(mem)[a]
        decreases !grown, Steps(|fl|, k, f)
      {
        if mem[p].size >= nunits {
          Predecessor(mem, fl, k, prevp, nunits);
          FitHere(mem, freep, fl, k, nunits);
          p := Take(prevp, p, nunits, k);
          return Some(p + 1);
        }
        if p == freep {
          HuntEnd(mem, fl, f, k, nunits, grown);
          var ok := Morecore(nunits, grant);
          if !ok { return None; }
          p := freep;
          f, grown := IndexOf(fl, freep), true;
          k := f;
          HuntGrown(mem, fl, f, nunits);
        } else {
          HuntStep(mem, fl, f, k, nunits, grown);
        }
        prevp, p, k := p, mem[p].next, Following(|fl|, k);
      }
    }
  }

  function AtLeast(nu: nat): nat { if nu < 4096 then 4096 else nu }

  lemma LiveIn(m: Mem, fl: seq<nat>, live: set<nat>)
    requires LiveOk(m, fl, live)
    ensures forall a :: a in live ==> a in m
  {
  }

  lemma LinksIn(m: Mem, fl: seq<nat>, k: nat)
    requires RingOk(m, fl) && 0 < k < |fl|
    ensures fl[k] in m && fl[k - 1] in m && fl[k - 1] > 0 && fl[k - 1] in fl
  {
    assert LinkOk(m, fl, k) && LinkOk(m, fl, k - 1) && SpaceOk(m, fl, 0, k - 1);
  }

  lemma LiveFacts(m: Mem, fl: seq<nat>, live: set<nat>, bp: nat)
    requires RingOk(m, fl) && LiveOk(m, fl, live) && bp in live
    ensures bp !in fl && bp in m && m[bp].size > 0 && bp > fl[0]
  {
    forall k | 0 <= k < |fl| ensures fl[k] != bp { assert Apart(m, bp, fl[k]) && LinkOk(m, fl, k); }
  }

  lemma LastBefore(m: Mem, fl: seq<nat>, bp: nat, n: nat)
    requires RingOk(m, fl) && fl[0] < bp && bp !in fl && 0 < n <= |fl|
    requires n < |fl| ==> bp < fl[n]
    ensures exists t :: Before(fl, t, bp)
  {
    if fl[n - 1] < bp { assert Before(fl, n - 1, bp); } else { LastBefore(m, fl, bp, n - 1); }
  }

  /** The search stops nowhere but at the last free block before `bp`. */
  lemma FarFrom(m: Mem, fl: seq<nat>, bp: nat, t: nat, k: nat)
    requires RingOk(m, fl) && Before(fl, t, bp) && k < |fl| && fl[0] < bp && fl[k] in m
    requires !(bp > fl[k] && bp < m[fl[k]].next)
    requires !(fl[k] >= m[fl[k]].next && (bp > fl[k] || bp < m[fl[k]].next))
    ensures k != t
  {
    assert LinkOk(m, fl, k) && SpaceOk(m, fl, k, Following(|fl|, k)) && SpaceOk(m, fl, 0, k);
  }

  /** The block at `f`, or the one after it, has at least `n` units. */
  ghost predicate Room(m: Mem, f: nat, n: nat) {
    f in m && (m[f].size >= n || (m[f].next in m && m[m[f].next].size >= n))
  }

  lemma ReleaseRoom(m: Mem, fl: seq<nat>, t: nat, bp: nat)
    requires RingOk(m, fl) && Before(fl, t, bp) && bp in m && m[bp].size > 0 && fl[t] in m && m[fl[t]].next in m
    ensures Room(Release(m, fl[t], bp), fl[t], m[bp].size)
  {
    ReleaseSizes(m, fl, t, bp, bp);
  }

  // The hunt for a fit.

  /** Some free block has at least `n` units. */
  ghost predicate HasFit(m: Mem, freep: nat, fl: seq<nat>, n: nat) {
    freep != 0 && exists k :: 0 <= k < |fl| && fl[k] in m && m[fl[k]].size >= n
  }

  ghost function IndexOf(fl: seq<nat>, a: nat): (k: nat)
    requires a in fl
    ensures k < |fl| && fl[k] == a
  {
    if fl[0] == a then 0 else 1 + IndexOf(fl[1..], a)
  }

  lemma FitsAfterInit(m0: Mem, freep0: nat, fl0: seq<nat>, m: Mem, freep: nat, fl: seq<nat>, n: nat)
    requires n > 0 && freep != 0
    requires if freep0 != 0 then m == m0 && fl == fl0 else |fl| == 1 && fl[0] in m && m[fl[0]].size == 0
    ensures HasFit(m, freep, fl, n) == HasFit(m0, freep0, fl0, n)
  {
  }

  /** `prevp` is the entry before position `k`. */
  ghost predicate At(m: Mem, fl: seq<nat>, k: nat, prevp: nat) {
    exists j :: 0 <= j < |fl| && k == Following(|fl|, j) && fl[j] == prevp
  }

  /** Before the heap has grown, the blocks passed since freep are too small; afterwards, the block
      to look at next or the one at freep is large enough. */
  ghost predicate Hunt(m: Mem, fl: seq<nat>, f: nat, k: nat, n: nat, grown: bool) {
    && f < |fl| && k < |fl|
    && (forall j :: 0 <= j < |fl| ==> fl[j] in m)
    && (!grown ==> forall j :: 0 <= j < |fl| && Steps(|fl|, j, f) > Steps(|fl|, k, f) ==> m[fl[j]].size < n)
    && (grown ==> m[fl[k]].size >= n || m[fl[f]].size >= n)
  }

  lemma HuntStart(m: Mem, fl: seq<nat>, f: nat, n: nat)
    requires RingOk(m, fl) && f < |fl|
    ensures fl[f] in m && m[fl[f]].next in m && m[fl[f]].next == fl[Following(|fl|, f)]
    ensures Hunt(m, fl, f, Following(|fl|, f), n, false) && At(m, fl, Following(|fl|, f), fl[f])
  {
    assert LinkOk(m, fl, f) && LinkOk(m, fl, Following(|fl|, f));
    forall j | 0 <= j < |fl| ensures fl[j] in m { assert LinkOk(m, fl, j); }
  }

  lemma HuntStep(m: Mem, fl: seq<nat>, f: nat, k: nat, n: nat, grown: bool)
    requires RingOk(m, fl) && Hunt(m, fl, f, k, n, grown) && m[fl[k]].size < n && fl[k] != fl[f]
    ensures m[fl[k]].next == fl[Following(|fl|, k)] && fl[Following(|fl|, k)] in m
    ensures At(m, fl, Following(|fl|, k), fl[k])
    ensures Hunt(m, fl, f, Following(|fl|, k), n, grown) && Steps(|fl|, Following(|fl|, k), f) < Steps(|fl|, k, f)
  {
    assert LinkOk(m, fl, k);
    StepsNext(|fl|, k, f);
  }

  /** Back at freep without a fit, nothing fits; this happens only before the heap has grown. */
  lemma HuntEnd(m: Mem, fl: seq<nat>, f: nat, k: nat, n: nat, grown: bool)
    requires RingOk(m, fl) && Hunt(m, fl, f, k, n, grown) && m[fl[k]].size < n && fl[k] == fl[f]
    ensures !grown && forall freep :: !HasFit(m, freep, fl, n)
  {
    assert SpaceOk(m, fl, k, f) && SpaceOk(m, fl, f, k);
    forall j | 0 <= j < |fl| ensures m[fl[j]].size < n {
      if j != f { assert Steps(|fl|, j, f) > 0; }
    }
  }

  lemma HuntGrown(m: Mem, fl: seq<nat>, f: nat, n: nat)
    requires RingOk(m, fl) && f < |fl| && Room(m, fl[f], n)
    ensures m[fl[f]].next == fl[Following(|fl|, f)] && fl[Following(|fl|, f)] in m
    ensures At(m, fl, Following(|fl|, f), fl[f])
    ensures Hunt(m, fl, f, Following(|fl|, f), n, true)
  {
    HuntStart(m, fl, f, n);
  }

  /** A block that fits is not `base`, so its predecessor is the entry before it. */
  lemma Predecessor(m: Mem, fl: seq<nat>, k: nat, prevp: nat, n: nat)
    requires RingOk(m, fl) && k < |fl| && At(m, fl, k, prevp) && fl[k] in m && m[fl[k]].size >= n > 0
    ensures 0 < k && fl[k - 1] == prevp
  {
    assert LinkOk(m, fl, k);
  }

  lemma FitHere(m: Mem, freep: nat, fl: seq<nat>, k: nat, n: nat)
    requires k < |fl| && fl[k] in m && m[fl[k]].size >= n && freep != 0
    ensures HasFit(m, freep, fl, n)
  {
  }
}
