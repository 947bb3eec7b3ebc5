/** kernel/vm.c and kernel/kalloc.c: who owns which physical page.  Pages and virtual pages are
    counted in units of 4096 bytes. */
module PagePool {
  const USERPAGES: nat := 160         // USERTOP / PGSIZE
  const PHYSPAGES: nat := 4096        // PHYSTOP / PGSIZE
  const DEVPAGES: nat := 0xFE000      // first page of the device mappings
  const ALLPAGES: nat := 0x100000

  datatype Pte = Pte(frame: nat, user: bool)

  /** A page directory: its page-table pages by directory index, its entries by virtual page. */
  datatype Dir = Dir(tables: map<nat, nat>, ptes: map<nat, Pte>)

  datatype Owner = Root | TableOf(root: nat, x: nat) | FrameOf(root: nat, v: nat)

  predicate IsKernel(v: nat) { USERPAGES <= v < PHYSPAGES || DEVPAGES <= v < ALLPAGES }

  predicate IsUser(v: nat) { v < USERPAGES }

  /** The directory indices that setupkvm fills. */
  const KTABLES: set<nat> := {0, 1, 2, 3, 1016, 1017, 1018, 1019, 1020, 1021, 1022, 1023}

  /** Entries lie in tables that exist; kernel pages map to themselves; user entries are below USERTOP. */
  predicate DirOk(dir: Dir) {
    && (forall x :: x in dir.tables ==> x in KTABLES)
    && (forall v :: v in dir.ptes ==>
          v / 1024 in dir.tables && if dir.ptes[v].user then IsUser(v) else IsKernel(v) && dir.ptes[v].frame == v)
  }

  /** What setupkvm leaves, plus user entries. */
  ghost predicate Complete(dir: Dir) {
    && (forall x :: x in KTABLES ==> x in dir.tables)
    && forall v: nat :: IsKernel(v) ==> v in dir.ptes && !dir.ptes[v].user
  }

  predicate NoRepeats(s: seq<nat>) { forall i, j :: 0 <= i < j < |s| ==> s[i] != s[j] }

  predicate DirOwns(own: map<nat, Owner>, d: nat, dir: Dir) {
    && d in own && own[d] == Root
    && (forall x :: x in dir.tables ==> dir.tables[x] in own && own[dir.tables[x]] == TableOf(d, x))
    && (forall v :: v in dir.ptes && dir.ptes[v].user ==>
          dir.ptes[v].frame in own && own[dir.ptes[v].frame] == FrameOf(d, v))
  }

  predicate PageOwned(dirs: map<nat, Dir>, own: map<nat, Owner>, p: nat) {
    p in own && match own[p]
      case Root => p in dirs
      case TableOf(d, x) => d in dirs && x in dirs[d].tables && dirs[d].tables[x] == p
      case FrameOf(d, v) => d in dirs && v in dirs[d].ptes && dirs[d].ptes[v] == Pte(p, true)
  }

  /** The free list has no repeats, and the pool is the free pages and the owned ones. */
  ghost predicate PoolOk(free: seq<nat>, own: map<nat, Owner>, pool: set<nat>) {
    && NoRepeats(free)
    && (forall p :: p in pool <==> p in free || p in own)
    && (forall p :: p in own ==> p !in free)
  }

  predicate PagesOk(dirs: map<nat, Dir>, own: map<nat, Owner>) { forall p :: p in own ==> PageOwned(dirs, own, p) }

  predicate DirsOk(dirs: map<nat, Dir>, own: map<nat, Owner>) {
    forall d :: d in dirs ==> DirOk(dirs[d]) && DirOwns(own, d, dirs[d])
  }

  /** Every page of the pool is on the free list once, or has one owner: it is a page directory,
      one page table of one directory, or the frame of one user page. */
  ghost predicate Inv(free: seq<nat>, dirs: map<nat, Dir>, own: map<nat, Owner>, pool: set<nat>) {
    PoolOk(free, own, pool) && PagesOk(dirs, own) && DirsOk(dirs, own)
  }

  /** No frame is mapped twice, in one address space or in two. */
  lemma OneFrame(free: seq<nat>, dirs: map<nat, Dir>, own: map<nat, Owner>, pool: set<nat>, d: nat, v: nat, e: nat,
          w: nat)
    requires Inv(free, dirs, own, pool) && d in dirs && e in dirs && v in dirs[d].ptes && w in dirs[e].ptes
    requires dirs[d].ptes[v].user && dirs[e].ptes[w].user && dirs[d].ptes[v].frame == dirs[e].ptes[w].frame
    ensures d == e && v == w
  {
    assert DirOwns(own, d, dirs[d]) && DirOwns(own, e, dirs[e]);
  }

  function Elems(s: seq<nat>): set<nat> { set p | p in s }

  // kalloc and kfree.

  lemma Popped(free: seq<nat>)
    requires NoRepeats(free) && free != []
    ensures NoRepeats(free[1..]) && free[0] !in free[1..] && forall p :: p in free <==> p == free[0] || p in free[1..]
  {
    assert free == [free[0]] + free[1..];
  }

  /** The first free page gets an owner. */
  lemma Taken(free: seq<nat>, own: map<nat, Owner>, pool: set<nat>, o: Owner)
    requires PoolOk(free, own, pool) && free != []
    ensures free[0] !in own && free[0] in pool && PoolOk(free[1..], own[free[0] := o], pool)
  {
    Popped(free);
  }

  /** An owned page becomes free. */
  lemma Given(free: seq<nat>, own: map<nat, Owner>, pool: set<nat>, p: nat)
    requires PoolOk(free, own, pool) && p in own
    ensures p !in free && p in pool && PoolOk([p] + free, own - {p}, pool)
  {
  }

  predicate Belongs(o: Owner, p: nat, d: nat) {
    match o
    case Root => p == d
    case TableOf(c, _) => c == d
    case FrameOf(c, _) => c == d
  }

  /** `own'` differs from `own` at most at page `p`. */
  predicate SameBut(own: map<nat, Owner>, own': map<nat, Owner>, p: nat) {
    && (forall q :: q in own && q != p ==> q in own' && own'[q] == own[q])
    && (forall q :: q in own' && q != p ==> q in own)
  }

  /** A change to directory `d` and to the owner of page `p` leaves the other directories alone. */
  lemma OthersKept(dirs: map<nat, Dir>, own: map<nat, Owner>, d: nat, dir: Dir, own': map<nat, Owner>, p: nat)
    requires DirsOk(dirs, own) && d in dirs && SameBut(own, own', p) && (p in own ==> Belongs(own[p], p, d))
    requires DirOk(dir) && DirOwns(own', d, dir)
    ensures DirsOk(dirs[d := dir], own')
  {
    forall c | c in dirs && c != d
      ensures DirOwns(own', c, dirs[c])
    {
      assert DirOk(dirs[c]) && DirOwns(own, c, dirs[c]);
    }
  }

  /** The same for pages: those of the other directories keep their owners. */
  lemma PagesKept(dirs: map<nat, Dir>, own: map<nat, Owner>, d: nat, dir: Dir, own': map<nat, Owner>, p: nat)
    requires PagesOk(dirs, own) && d in dirs && SameBut(own, own', p)
    requires forall q :: q in own' && (q == p || Belongs(own'[q], q, d)) ==> PageOwned(dirs[d := dir], own', q)
    ensures PagesOk(dirs[d := dir], own')
  {
    forall q | q in own' && q != p && !Belongs(own'[q], q, d)
      ensures PageOwned(dirs[d := dir], own', q)
    {
      assert PageOwned(dirs, own, q);
    }
  }

  lemma AddFrame(dir: Dir, own: map<nat, Owner>, d: nat, v: nat, p: nat)
    requires DirOk(dir) && DirOwns(own, d, dir) && IsUser(v) && v !in dir.ptes && 0 in dir.tables && p !in own
    ensures var dir' := dir.(ptes := dir.ptes[v := Pte(p, true)]);
      DirOk(dir') && DirOwns(own[p := FrameOf(d, v)], d, dir')
  {
  }

  /** A page from the free list becomes a user frame. */
  lemma FrameInv(free: seq<nat>, dirs: map<nat, Dir>, own: map<nat, Owner>, pool: set<nat>, d: nat, v: nat)
    requires Inv(free, dirs, own, pool) && free != [] && d in dirs && IsUser(v) && v !in dirs[d].ptes
    requires 0 in dirs[d].tables
    ensures var (p, dir) := (free[0], dirs[d]);
      Inv(free[1..], dirs[d := dir.(ptes := dir.ptes[v := Pte(p, true)])], own[p := FrameOf(d, v)], pool)
  {
    hide PoolOk, PagesOk, DirsOk;
    Taken(free, own, pool, FrameOf(d, v));
    FrameDirs(dirs, own, d, v, free[0]);
    FramePages(dirs, own, d, v, free[0]);
  }

  lemma FrameDirs(dirs: map<nat, Dir>, own: map<nat, Owner>, d: nat, v: nat, p: nat)
    requires DirsOk(dirs, own) && d in dirs && IsUser(v) && v !in dirs[d].ptes && 0 in dirs[d].tables && p !in own
    ensures DirsOk(dirs[d := dirs[d].(ptes := dirs[d].ptes[v := Pte(p, true)])], own[p := FrameOf(d, v)])
  {
    hide DirOk, DirOwns;
    AddFrame(dirs[d], own, d, v, p);
    OthersKept(dirs, own, d, dirs[d].(ptes := dirs[d].ptes[v := Pte(p, true)]), own[p := FrameOf(d, v)], p);
  }

  lemma FramePages(dirs: map<nat, Dir>, own: map<nat, Owner>, d: nat, v: nat, p: nat)
    requires PagesOk(dirs, own) && d in dirs && v !in dirs[d].ptes && p !in own
    ensures PagesOk(dirs[d := dirs[d].(ptes := dirs[d].ptes[v := Pte(p, true)])], own[p := FrameOf(d, v)])
  {
    var (dir', own') := (dirs[d].(ptes := dirs[d].ptes[v := Pte(p, true)]), own[p := FrameOf(d, v)]);
    forall q | q in own' ensures PageOwned(dirs[d := dir'], own', q) { assert q in own ==> PageOwned(dirs, own, q); }
  }

  /** A page from the free list becomes a page table. */
  lemma TableInv(free: seq<nat>, dirs: map<nat, Dir>, own: map<nat, Owner>, pool: set<nat>, d: nat, x: nat)
    requires Inv(free, dirs, own, pool) && free != [] && d in dirs && x in KTABLES && x !in dirs[d].tables
    ensures var (p, dir) := (free[0], dirs[d]);
      Inv(free[1..], dirs[d := dir.(tables := dir.tables[x := p])], own[p := TableOf(d, x)], pool)
  {
    hide PoolOk, PagesOk, DirsOk;
    Taken(free, own, pool, TableOf(d, x));
    TableDirs(dirs, own, d, x, free[0]);
    TablePages(dirs, own, d, x, free[0]);
  }

  lemma TableDirs(dirs: map<nat, Dir>, own: map<nat, Owner>, d: nat, x: nat, p: nat)
    requires DirsOk(dirs, own) && d in dirs && x in KTABLES && x !in dirs[d].tables && p !in own
    ensures DirsOk(dirs[d := dirs[d].(tables := dirs[d].tables[x := p])], own[p := TableOf(d, x)])
  {
    var (dir, own') := (dirs[d], own[p := TableOf(d, x)]);
    assert DirOk(dir) && DirOwns(own, d, dir);
    OthersKept(dirs, own, d, dir.(tables := dir.tables[x := p]), own', p);
  }

  lemma TablePages(dirs: map<nat, Dir>, own: map<nat, Owner>, d: nat, x: nat, p: nat)
    requires PagesOk(dirs, own) && d in dirs && x !in dirs[d].tables && p !in own
    ensures PagesOk(dirs[d := dirs[d].(tables := dirs[d].tables[x := p])], own[p := TableOf(d, x)])
  {
    var (dir', own') := (dirs[d].(tables := dirs[d].tables[x := p]), own[p := TableOf(d, x)]);
    forall q | q in own' ensures PageOwned(dirs[d := dir'], own', q) { assert q in own ==> PageOwned(dirs, own, q); }
  }

  /** A page from the free list becomes an empty directory. */
  lemma RootInv(free: seq<nat>, dirs: map<nat, Dir>, own: map<nat, Owner>, pool: set<nat>)
    requires Inv(free, dirs, own, pool) && free != []
    ensures free[0] !in dirs && Inv(free[1..], dirs[free[0] := Dir(map[], map[])], own[free[0] := Root], pool)
  {
    hide PoolOk;
    Taken(free, own, pool, Root);
    var p := free[0];
    assert p in dirs ==> DirOwns(own, p, dirs[p]);
    var (dirs', own') := (dirs[p := Dir(map[], map[])], own[p := Root]);
    forall q | q in own' ensures PageOwned(dirs', own', q) { assert q in own ==> PageOwned(dirs, own, q); }
    forall c | c in dirs'
      ensures DirOk(dirs'[c]) && DirOwns(own', c, dirs'[c])
    {
      assert c in dirs ==> DirOk(dirs[c]) && DirOwns(own, c, dirs[c]);
    }
  }

  /** An entry that maps a kernel page to itself takes no page. */
  lemma KernelInv(free: seq<nat>, dirs: map<nat, Dir>, own: map<nat, Owner>, pool: set<nat>, d: nat, v: nat)
    requires Inv(free, dirs, own, pool) && d in dirs && IsKernel(v) && v !in dirs[d].ptes && v / 1024 in dirs[d].tables
    ensures var dir := dirs[d]; Inv(free, dirs[d := dir.(ptes := dir.ptes[v := Pte(v, false)])], own, pool)
  {
    hide PoolOk;
    var dir := dirs[d];
    var dir' := dir.(ptes := dir.ptes[v := Pte(v, false)]);
    assert DirOk(dir) && DirOwns(own, d, dir);
    OthersKept(dirs, own, d, dir', own, d);
    forall q | q in own && Belongs(own[q], q, d)
      ensures PageOwned(dirs[d := dir'], own, q)
    {
      assert PageOwned(dirs, own, q);
    }
    PagesKept(dirs, own, d, dir', own, d);
  }

  /** A user frame goes back to the free list. */
  lemma UnmapInv(free: seq<nat>, dirs: map<nat, Dir>, own: map<nat, Owner>, pool: set<nat>, d: nat, v: nat)
    requires Inv(free, dirs, own, pool) && d in dirs && v in dirs[d].ptes && dirs[d].ptes[v].user
    ensures var (p, dir) := (dirs[d].ptes[v].frame, dirs[d]);
      p in own && p !in free && p in pool && Inv([p] + free, dirs[d := dir.(ptes := dir.ptes - {v})], own - {p}, pool)
  {
    hide PoolOk, PagesOk, DirsOk;
    UnmapDirs(dirs, own, d, v);
    Given(free, own, pool, dirs[d].ptes[v].frame);
    UnmapPages(dirs, own, d, v);
  }

  lemma UnmapDirs(dirs: map<nat, Dir>, own: map<nat, Owner>, d: nat, v: nat)
    requires DirsOk(dirs, own) && d in dirs && v in dirs[d].ptes && dirs[d].ptes[v].user
    ensures var (p, dir) := (dirs[d].ptes[v].frame, dirs[d]);
      p in own && own[p] == FrameOf(d, v) && DirsOk(dirs[d := dir.(ptes := dir.ptes - {v})], own - {p})
  {
    var (p, dir) := (dirs[d].ptes[v].frame, dirs[d]);
    assert DirOk(dir) && DirOwns(own, d, dir);
    OthersKept(dirs, own, d, dir.(ptes := dir.ptes - {v}), own - {p}, p);
  }

  lemma UnmapPages(dirs: map<nat, Dir>, own: map<nat, Owner>, d: nat, v: nat)
    requires PagesOk(dirs, own) && d in dirs && v in dirs[d].ptes
    requires var p := dirs[d].ptes[v].frame; p in own && own[p] == FrameOf(d, v)
    ensures var (p, dir) := (dirs[d].ptes[v].frame, dirs[d]);
      PagesOk(dirs[d := dir.(ptes := dir.ptes - {v})], own - {p})
  {
    var (p, dir) := (dirs[d].ptes[v].frame, dirs[d]);
    var (dirs', own') := (dirs[d := dir.(ptes := dir.ptes - {v})], own - {p});
    forall q | q in own' ensures PageOwned(dirs', own', q) { assert PageOwned(dirs, own, q); }
  }

  // Taking a directory apart.

  /** Kernel entries own nothing. */
  lemma DropInv(free: seq<nat>, dirs: map<nat, Dir>, own: map<nat, Owner>, pool: set<nat>, d: nat)
    requires Inv(free, dirs, own, pool) && d in dirs && forall v :: v in dirs[d].ptes ==> !dirs[d].ptes[v].user
    ensures Inv(free, dirs[d := Dir(dirs[d].tables, map[])], own, pool)
  {
    hide PoolOk;
    var (dir, dir') := (dirs[d], Dir(dirs[d].tables, map[]));
    assert DirOk(dir) && DirOwns(own, d, dir);
    OthersKept(dirs, own, d, dir', own, d);
    forall q | q in own && Belongs(own[q], q, d)
      ensures PageOwned(dirs[d := dir'], own, q)
    {
      assert PageOwned(dirs, own, q);
    }
    PagesKept(dirs, own, d, dir', own, d);
  }

  lemma FreeTableInv(free: seq<nat>, dirs: map<nat, Dir>, own: map<nat, Owner>, pool: set<nat>, d: nat, x: nat)
    requires Inv(free, dirs, own, pool) && d in dirs && dirs[d].ptes == map[] && x in dirs[d].tables
    ensures var p := dirs[d].tables[x];
      p in own && Inv([p] + free, dirs[d := Dir(dirs[d].tables - {x}, map[])], own - {p}, pool)
  {
    hide PoolOk, PagesOk, DirsOk;
    FreeTableDirs(dirs, own, d, x);
    Given(free, own, pool, dirs[d].tables[x]);
    FreeTablePages(dirs, own, d, x);
  }

  lemma FreeTableDirs(dirs: map<nat, Dir>, own: map<nat, Owner>, d: nat, x: nat)
    requires DirsOk(dirs, own) && d in dirs && dirs[d].ptes == map[] && x in dirs[d].tables
    ensures var p := dirs[d].tables[x];
      p in own && own[p] == TableOf(d, x) && DirsOk(dirs[d := Dir(dirs[d].tables - {x}, map[])], own - {p})
  {
    var (p, dir) := (dirs[d].tables[x], dirs[d]);
    assert DirOk(dir) && DirOwns(own, d, dir);
    OthersKept(dirs, own, d, Dir(dir.tables - {x}, map[]), own - {p}, p);
  }

  lemma FreeTablePages(dirs: map<nat, Dir>, own: map<nat, Owner>, d: nat, x: nat)
    requires PagesOk(dirs, own) && d in dirs && dirs[d].ptes == map[] && x in dirs[d].tables
    requires var p := dirs[d].tables[x]; p in own && own[p] == TableOf(d, x)
    ensures var p := dirs[d].tables[x]; PagesOk(dirs[d := Dir(dirs[d].tables - {x}, map[])], own - {p})
  {
    var p := dirs[d].tables[x];
    var (dirs', own') := (dirs[d := Dir(dirs[d].tables - {x}, map[])], own - {p});
    forall q | q in own' ensures PageOwned(dirs', own', q) { assert PageOwned(dirs, own, q); }
  }

  lemma FreeRootInv(free: seq<nat>, dirs: map<nat, Dir>, own: map<nat, Owner>, pool: set<nat>, d: nat)
    requires Inv(free, dirs, own, pool) && d in dirs && dirs[d] == Dir(map[], map[])
    ensures d in own && Inv([d] + free, dirs - {d}, own - {d}, pool)
  {
    hide PoolOk;
    assert DirOwns(own, d, dirs[d]);
    Given(free, own, pool, d);
    var (dirs', own') := (dirs - {d}, own - {d});
    FreeRootPages(dirs, own, d);
    forall c | c in dirs'
      ensures DirOk(dirs'[c]) && DirOwns(own', c, dirs'[c])
    {
      assert DirOk(dirs[c]) && DirOwns(own, c, dirs[c]);
    }
  }

  lemma FreeRootPages(dirs: map<nat, Dir>, own: map<nat, Owner>, d: nat)
    requires PagesOk(dirs, own) && d in dirs && dirs[d] == Dir(map[], map[])
    ensures PagesOk(dirs - {d}, own - {d})
  {
    forall q | q in own - {d} ensures PageOwned(dirs - {d}, own - {d}, q) { assert PageOwned(dirs, own, q); }
  }

  /** The pages of a directory: its root, its page tables and its user frames. */
  ghost function PagesOf(d: nat, dir: Dir): set<nat> {
    {d} + (set x | x in dir.tables :: dir.tables[x]) + (set v | v in dir.ptes && dir.ptes[v].user :: dir.ptes[v].frame)
  }

  lemma OwnerOf(free: seq<nat>, dirs: map<nat, Dir>, own: map<nat, Owner>, pool: set<nat>, d: nat, p: nat)
    requires Inv(free, dirs, own, pool) && d in dirs
    ensures p in PagesOf(d, dirs[d]) <==> p in own && Belongs(own[p], p, d)
  {
    var dir := dirs[d];
    assert DirOwns(own, d, dir);
    if p in own {
      assert PageOwned(dirs, own, p);
      match own[p]
      case Root =>
      case TableOf(c, x) => assert c == d ==> dir.tables[x] == p;
      case FrameOf(c, v) => assert c == d ==> dir.ptes[v].frame == p;
    }
  }

  /** Removing a directory frees exactly its pages. */
  lemma FreedPages(free: seq<nat>, free': seq<nat>, dirs: map<nat, Dir>, own: map<nat, Owner>,
          own': map<nat, Owner>, pool: set<nat>, d: nat)
    requires Inv(free, dirs, own, pool) && d in dirs && Inv(free', dirs - {d}, own', pool)
    ensures Elems(free') == Elems(free) + PagesOf(d, dirs[d]) && forall p :: p in own' ==> p in own
  {
    forall p ensures p in own' <==> p in own && p !in PagesOf(d, dirs[d]) {
      OwnerOf(free, dirs, own, pool, d, p);
      if p in own' {
        assert PageOwned(dirs - {d}, own', p);
        var c := match own'[p] case Root => p case TableOf(c, _) => c case FrameOf(c, _) => c;
        assert DirOwns(own, c, dirs[c]);
      }
      if p in own && !Belongs(own[p], p, d) {
        assert PageOwned(dirs, own, p);
        var c := match own[p] case Root => p case TableOf(c, _) => c case FrameOf(c, _) => c;
        assert c in dirs - {d} && DirOwns(own', c, dirs[c]);
      }
    }
    forall p ensures p in Elems(free') <==> p in Elems(free) || p in PagesOf(d, dirs[d]) {
      OwnerOf(free, dirs, own, pool, d, p);
    }
  }
}
