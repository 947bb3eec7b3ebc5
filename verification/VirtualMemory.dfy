/** kernel/vm.c: building, growing, copying and freeing address spaces. */
module VirtualMemory {
  import opened PagePool
  import opened Options

  const PGSIZE: nat := 4096
  const USERTOP: nat := 0xA0000

  /** What a page holds; memset and memmove make it ZERO or a copy. */
  type Data = nat
  const ZERO: Data := 0
  const JUNK: Data := 1

  /** PGROUNDUP, in pages. */
  function Pages(sz: nat): nat { (sz + PGSIZE - 1) / PGSIZE }

  /** Page `v` is among them exactly when it holds one of the first `sz` bytes. */
  lemma PagesCover(sz: nat, v: nat)
    ensures v < Pages(sz) <==> v * PGSIZE < sz
  {
  }

  class Vm {
    var free: seq<nat>
    var dirs: map<nat, Dir>
    var content: map<nat, Data>
    ghost var own: map<nat, Owner>
    ghost const pool: set<nat>

    ghost predicate Valid()
      reads this
    {
      Inv(free, dirs, own, pool) && pool <= content.Keys
    }

    /** kinit: every page from `first` up to PHYSTOP is freed once. */
    constructor (first: nat)
      ensures Valid() && dirs == map[] && forall p: nat :: p in free <==> first <= p < PHYSPAGES
      ensures |free| == if first < PHYSPAGES then PHYSPAGES - first else 0
    {
      var (list: seq<nat>, c: map<nat, Data>) := ([], map[]);
      ghost var all: set<nat> := {};
      for p: nat := first to if first < PHYSPAGES then PHYSPAGES else first
        invariant NoRepeats(list) && forall q: nat :: q in list <==> first <= q < p
        invariant all == Elems(list) && all <= c.Keys && |list| == p - first
      {
        c := c[p := JUNK];
        list := [p] + list;
        all := all + {p};
      }
      free, dirs, content := list, map[], c;
      own, pool := map[], all;
    }

    /** walkpgdir with create set: make sure that the page table for page `v` exists. */
    method Walk(d: nat, v: nat) returns (ok: bool)
      requires Valid() && d in dirs && v / 1024 in KTABLES
      modifies `free, `dirs, `own
      ensures Valid() && d in dirs && dirs == old(dirs)[d := dirs[d]] && Walked(old(dirs)[d], dirs[d])
      ensures |free| + |dirs[d].tables| == |old(free)| + |old(dirs)[d].tables|
      ensures ok <==> v / 1024 in dirs[d].tables
      ensures !ok ==> free == []
      ensures v / 1024 in old(dirs)[d].tables ==> dirs == old(dirs) && free == old(free) && own == old(own)
    {
      hide Inv;
      var (x, dir) := (v / 1024, dirs[d]);
      if x in dir.tables { return true; }
      if free == [] { return false; }
      TableInv(free, dirs, own, pool, d, x);
      var p := free[0];
      free := free[1..];
      dirs := dirs[d := dir.(tables := dir.tables[x := p])];
      own := own[p := TableOf(d, x)];
      ok := true;
    }

    /** mappages for the kernel pages from `lo` up to `hi`, each to itself. */
    method MapKernel(d: nat, lo: nat, hi: nat) returns (ok: bool)
      requires Valid() && d in dirs && lo <= hi && forall v: nat :: lo <= v < hi ==> IsKernel(v) && v !in dirs[d].ptes
      modifies `free, `dirs, `own
      ensures Valid() && d in dirs && dirs == old(dirs)[d := dirs[d]]
      ensures |free| + |dirs[d].tables| == |old(free)| + |old(dirs)[d].tables|
      ensures ok ==> Ranged(old(dirs)[d], dirs[d], lo, hi)
      ensures !ok ==> free == [] && exists x :: x in KTABLES && x !in dirs[d].tables
    {
      hide Inv, Ranged, Walked;
      ghost var dir := dirs[d];
      RangedStart(dir, lo);
      var a := lo;
      while a < hi
        invariant lo <= a <= hi && Valid() && d in dirs && dirs == old(dirs)[d := dirs[d]]
        invariant Ranged(dir, dirs[d], lo, a)
        invariant |free| + |dirs[d].tables| == |old(free)| + |old(dirs)[d].tables|
      {
        KernelTable(a);
        ghost var was := dirs[d];
        var b := Walk(d, a);
        if !b { return false; }
        RangedStep(dir, was, dirs[d], lo, a);
        KernelInv(free, dirs, own, pool, d, a);
        dirs := dirs[d := dirs[d].(ptes := dirs[d].ptes[a := Pte(a, false)])];
        a := a + 1;
      }
      ok := true;
    }

    /** The four ranges of kmap; `data` is where the kernel's data starts. */
    method MapAll(d: nat, data: nat) returns (ok: bool)
      requires Valid() && d in dirs && dirs[d] == Dir(map[], map[]) && 256 <= data <= PHYSPAGES
      modifies `free, `dirs, `own
      ensures Valid() && d in dirs && dirs == old(dirs)[d := dirs[d]] && |free| + |dirs[d].tables| == |old(free)|
      ensures ok ==> KernelOnly(dirs[d])
      ensures !ok ==> free == [] && exists x :: x in KTABLES && x !in dirs[d].tables
    {
      hide Inv, Ranged, KernelOnly;
      ghost var e := dirs[d];
      ok := MapKernel(d, USERPAGES, 256);
      if !ok { return; }
      ghost var d1 := dirs[d];
      NotYet(e, d1, USERPAGES, 256, 256, data);
      ok := MapKernel(d, 256, data);
      if !ok { return; }
      ghost var d2 := dirs[d];
      RangedJoin(e, d1, d2, USERPAGES, 256, data);
      NotYet(e, d2, USERPAGES, data, data, PHYSPAGES);
      ok := MapKernel(d, data, PHYSPAGES);
      if !ok { return; }
      ghost var d3 := dirs[d];
      RangedJoin(e, d2, d3, USERPAGES, data, PHYSPAGES);
      NotYet(e, d3, USERPAGES, PHYSPAGES, DEVPAGES, ALLPAGES);
      ok := MapKernel(d, DEVPAGES, ALLPAGES);
      if ok { AllMapped(e, d3, dirs[d]); }
    }

    /** A directory with the kernel entries.  It takes thirteen pages; with fewer it fails, and
        keeps those it took. */
    method Setupkvm(data: nat) returns (r: Option<nat>)
      requires Valid() && 256 <= data <= PHYSPAGES
      modifies `free, `dirs, `own
      ensures Valid() && (r.Some? <==> |old(free)| >= 13)
      ensures r.Some? ==> r.value !in old(dirs) && r.value in dirs && dirs == old(dirs)[r.value := dirs[r.value]]
      ensures r.Some? ==> KernelOnly(dirs[r.value]) && |free| == |old(free)| - 13
      ensures r.None? ==> free == [] && (old(free) == [] ==> dirs == old(dirs))
      ensures r.None? && old(free) != [] ==> old(free)[0] !in old(dirs) && dirs.Keys == old(dirs).Keys + {old(free)[0]}
    {
      hide Inv;
      if free == [] { return None; }
      RootInv(free, dirs, own, pool);
      var d := free[0];
      free := free[1..];
      dirs := dirs[d := Dir(map[], map[])];
      own := own[d := Root];
      var ok := MapAll(d, data);
      TableCount(free, dirs, own, pool, d);
      r := if ok then Some(d) else None;
    }

    /** kalloc, memset and mappages for one user page.  The page table is there and the entry is
        free, so mappages has nothing to fail on. */
    method MapUser(d: nat, v: nat, data: Data)
      requires Valid() && d in dirs && IsUser(v) && v !in dirs[d].ptes && 0 in dirs[d].tables && free != []
      modifies `free, `dirs, `own, `content
      ensures Valid() && free == old(free)[1..] && own == old(own)[old(free)[0] := FrameOf(d, v)]
      ensures old(free)[0] !in old(own)
      ensures dirs == old(dirs)[d := old(dirs)[d].(ptes := old(dirs)[d].ptes[v := Pte(old(free)[0], true)])]
      ensures content == old(content)[old(free)[0] := data]
    {
      HeadFree(free, dirs, own, pool);
      hide Inv;
      FrameInv(free, dirs, own, pool, d, v);
      assert v / 1024 in dirs[d].tables && v !in dirs[d].ptes;
      var p := free[0];
      free := free[1..];
      content := content[p := data];
      dirs := dirs[d := dirs[d].(ptes := dirs[d].ptes[v := Pte(p, true)])];
      own := own[p := FrameOf(d, v)];
    }

    /** Free the user pages from `newsz` up to `oldsz` that are there. */
    method Deallocuvm(d: nat, oldsz: nat, newsz: nat)
      requires Valid() && d in dirs && oldsz <= USERTOP
      modifies `free, `dirs, `own, `content
      ensures Valid() && d in dirs && dirs == old(dirs)[d := dirs[d]]
      ensures Trimmed(old(dirs)[d], dirs[d], Pages(newsz), Pages(oldsz))
      ensures own.Keys <= old(own).Keys
      ensures forall p :: p in own ==> p in content && p in old(content) && content[p] == old(content)[p]
    {
      hide Inv, Trimmed;
      ghost var dir := dirs[d];
      var a := Pages(newsz);
      TrimmedStart(dir, a);
      OwnIn(free, dirs, own, pool);
      while a < Pages(oldsz)
        invariant Pages(newsz) <= a && Valid() && d in dirs && dirs == old(dirs)[d := dirs[d]]
        invariant own.Keys <= old(own).Keys
        invariant Trimmed(dir, dirs[d], Pages(newsz), a) && (a <= Pages(oldsz) || a == Pages(newsz))
        invariant forall p :: p in own ==> p in content && p in old(content) && content[p] == old(content)[p]
      {
        TrimmedStep(dir, dirs[d], Pages(newsz), a);
        BelowTop(free, dirs, own, pool, d);
        if a / 1024 in dirs[d].tables && a in dirs[d].ptes {
          UnmapInv(free, dirs, own, pool, d, a);
          var p := dirs[d].ptes[a].frame;
          content := content[p := JUNK];
          free := [p] + free;
          dirs := dirs[d := dirs[d].(ptes := dirs[d].ptes - {a})];
          own := own - {p};
        }
        a := a + 1;
      }
      TrimmedMore(dir, dirs[d], Pages(newsz), a, Pages(oldsz));
    }

    /** Grow a process from `oldsz` to `newsz` bytes.  If memory runs out on the way, everything is
        as before. */
    method Allocuvm(d: nat, oldsz: nat, newsz: nat) returns (r: Option<nat>)
      requires Valid() && d in dirs && 0 in dirs[d].tables
      requires oldsz <= newsz <= USERTOP ==> forall v: nat :: Pages(oldsz) <= v < Pages(newsz) ==> v !in dirs[d].ptes
      modifies `free, `dirs, `own, `content
      ensures Valid() && d in dirs && dirs == old(dirs)[d := dirs[d]]
      ensures r.None? <==> newsz > USERTOP || Pages(newsz) - Pages(oldsz) > |old(free)|
      ensures r.None? ==> dirs == old(dirs) && Elems(free) == Elems(old(free)) && |free| == |old(free)|
      ensures r.Some? ==>
                var top := if newsz < oldsz then oldsz else newsz;
                r.value == top && Grown(old(dirs)[d], dirs[d], Pages(oldsz), Pages(top))
      ensures r.Some? ==> forall v: nat :: Pages(oldsz) <= v < Pages(newsz) ==>
                dirs[d].ptes[v].frame in content && content[dirs[d].ptes[v].frame] == ZERO
      ensures forall p :: p in old(own) ==> p in old(content) && p in content && content[p] == old(content)[p]
    {
      hide Inv, Grown, Trimmed;
      ghost var (dir, lo) := (dirs[d], Pages(oldsz));
      OwnIn(free, dirs, own, pool);
      GrownStart(dir, lo);
      if newsz > USERTOP { return None; }
      if newsz < oldsz { return Some(oldsz); }
      var a := Pages(oldsz);
      while a < Pages(newsz)
        invariant lo <= a <= Pages(newsz) && Valid() && d in dirs && dirs == old(dirs)[d := dirs[d]]
        invariant Grown(dir, dirs[d], lo, a) && |free| == |old(free)| - (a - lo)
        invariant old(own).Keys <= own.Keys
        invariant forall p :: p in old(own) ==> p in old(content) && p in content && content[p] == old(content)[p]
        invariant Zeroed(dirs[d], own, content, d, lo, a)
      {
        if free == [] {
          Deallocuvm(d, newsz, oldsz);
          GrownTrimmed(dir, old(dirs), dirs, d, lo, a, Pages(newsz));
          FreeDetermined(old(free), free, dirs, old(own), own, pool);
          return None;
        }
        GrownStep(dir, dirs[d], own, content, d, lo, a, free[0], ZERO);
        MapUser(d, a, ZERO);
        a := a + 1;
      }
      r := Some(newsz);
    }

    /** Free the user pages, the page tables and the directory: each page once. */
    method Freevm(d: nat)
      requires Valid() && d in dirs
      modifies `free, `dirs, `own, `content
      ensures Valid() && dirs == old(dirs) - {d} && Elems(free) == Elems(old(free)) + PagesOf(d, old(dirs)[d])
      ensures own.Keys <= old(own).Keys
      ensures forall p :: p in own ==> p in content && p in old(content) && content[p] == old(content)[p]
    {
      hide Inv, Trimmed;
      Deallocuvm(d, USERTOP, 0);
      NoUser(old(dirs)[d], free, dirs, own, pool, d);
      DropInv(free, dirs, own, pool, d);
      ghost var (ds, tables) := (dirs, dirs[d].tables);
      RestAll(tables);
      for i := 0 to 1024
        invariant dirs == ds && pool <= content.Keys && own.Keys <= old(own).Keys
        invariant Inv(free, dirs[d := Dir(Rest(tables, i), map[])], own, pool)
        invariant forall p :: p in own ==> p in content && p in old(content) && content[p] == old(content)[p]
      {
        RestNext(tables, i);
        if i in dirs[d].tables {
          var p := dirs[d].tables[i];
          FreeTableInv(free, dirs[d := Dir(Rest(tables, i), map[])], own, pool, d, i);
          FreeOne(dirs, d, Rest(tables, i), i);
          content := content[p := JUNK];
          free := [p] + free;
          own := own - {p};
        }
      }
      RestNone(free, dirs, own, pool, d, tables);
      FreeRootInv(free, dirs[d := Dir(map[], map[])], own, pool, d);
      assert dirs[d := Dir(map[], map[])] - {d} == dirs - {d} == old(dirs) - {d};
      content := content[d := JUNK];
      free := [d] + free;
      own := own - {d};
      dirs := dirs - {d};
      FreedPages(old(free), free, old(dirs), old(own), own, pool, d);
    }

    /** A copy of the first `sz` bytes of an address space. */
    method Copyuvm(d: nat, sz: nat, data: nat) returns (r: Option<nat>)
      requires Valid() && d in dirs && sz <= USERTOP && 256 <= data <= PHYSPAGES
      requires forall v: nat :: v < Pages(sz) ==> v in dirs[d].ptes
      modifies `free, `dirs, `own, `content
      ensures Valid() && (r.Some? <==> |old(free)| >= 13 + Pages(sz))
      ensures r.None? && |old(free)| >= 13 ==>
                dirs == old(dirs) && Elems(free) == Elems(old(free)) && |free| == |old(free)|
      ensures r.Some? ==>
                && r.value !in old(dirs) && r.value in dirs && dirs == old(dirs)[r.value := dirs[r.value]]
                && Complete(dirs[r.value])
      ensures r.Some? ==>
                && Copied(old(dirs)[d], old(content), dirs[r.value], content, Pages(sz))
                && |free| == |old(free)| - 13 - Pages(sz)
      ensures forall p :: p in old(own) ==> p in old(content) && p in content && content[p] == old(content)[p]
    {
      hide Inv, Copied, Grown, KernelOnly, Complete;
      ghost var (dir, c0) := (dirs[d], content);
      OwnIn(free, dirs, own, pool);
      BelowTop(free, dirs, own, pool, d);
      FramesOwned(free, dirs, own, pool, d);
      r := Setupkvm(data);
      if r.None? { return; }
      var e := r.value;
      ghost var (k, f1, ds1) := (dirs[e], free, dirs);
      KernelStart(dir, c0, k);
      KeepsOwn(old(free), free, old(dirs), dirs, old(own), own, pool, e);
      var i := 0;
      while i < Pages(sz)
        invariant 0 <= i <= Pages(sz) && Valid() && e in dirs && dirs == old(dirs)[e := dirs[e]] && e !in old(dirs)
        invariant Grown(k, dirs[e], 0, i) && Copied(dir, c0, dirs[e], content, i) && |free| == |old(free)| - 13 - i
        invariant old(own).Keys <= own.Keys
        invariant forall p :: p in old(own) ==> p in old(content) && p in content && content[p] == old(content)[p]
        invariant forall v: nat :: v < i ==> v in dirs[e].ptes && dirs[e].ptes[v].frame in own
      {
        if free == [] {
          ghost var x := dirs[e];
          Freevm(e);
          Restored(old(dirs), dirs, e, x, old(free), free, old(own), own, pool);
          return None;
        }
        assert i in dir.ptes && dir.ptes[i].frame in old(own);
        HeadFree(free, dirs, own, pool);
        CopyStep(k, dir, c0, dirs[e], own, content, i, free[0]);
        MapUser(e, i, content[dirs[d].ptes[i].frame]);
        i := i + 1;
      }
      CopyDone(k, dirs[e], Pages(sz));
    }
  }

  /** With one to twelve free pages setupkvm fails and keeps them all. */
  method SetupShort(first: nat) returns (vm: Vm, r: Option<nat>, before: nat)
    requires PHYSPAGES - 12 <= first < PHYSPAGES
    ensures vm.Valid() && 1 <= before <= 12 && r == None && vm.free == []
    ensures before == PHYSPAGES - first
  {
    vm := new Vm(first);
    before := |vm.free|;
    r := vm.Setupkvm(256);
  }

  /** Page tables were added. */
  predicate Walked(dir: Dir, dir': Dir) {
    dir'.ptes == dir.ptes && forall x :: x in dir.tables ==> x in dir'.tables && dir'.tables[x] == dir.tables[x]
  }

  /** The kernel entries from `lo` up to `a` were added, and page tables for them. */
  ghost predicate Ranged(dir: Dir, dir': Dir, lo: nat, a: nat) {
    && (forall x :: x in dir.tables ==> x in dir'.tables && dir'.tables[x] == dir.tables[x])
    && (forall v: nat :: v in dir'.ptes <==> v in dir.ptes || lo <= v < a)
    && (forall v: nat :: v in dir'.ptes ==> dir'.ptes[v] == if v in dir.ptes then dir.ptes[v] else Pte(v, false))
    && (forall v: nat :: lo <= v < a ==> v / 1024 in dir'.tables)
  }

  lemma RangedStart(dir: Dir, lo: nat)
    ensures Ranged(dir, dir, lo, lo)
  {
  }

  lemma RangedStep(dir: Dir, was: Dir, now: Dir, lo: nat, a: nat)
    requires Ranged(dir, was, lo, a) && Walked(was, now) && a / 1024 in now.tables && lo <= a && a !in dir.ptes
    ensures a !in now.ptes && Ranged(dir, now.(ptes := now.ptes[a := Pte(a, false)]), lo, a + 1)
  {
  }

  lemma HeadFree(free: seq<nat>, dirs: map<nat, Dir>, own: map<nat, Owner>, pool: set<nat>)
    requires Inv(free, dirs, own, pool) && free != []
    ensures free[0] !in own && free[0] in pool
  {
  }

  lemma OwnIn(free: seq<nat>, dirs: map<nat, Dir>, own: map<nat, Owner>, pool: set<nat>)
    requires Inv(free, dirs, own, pool)
    ensures own.Keys <= pool
  {
  }

  /** The entries below USERTOP are user entries. */
  predicate UserBelow(dir: Dir) {
    forall v :: v in dir.ptes && IsUser(v) ==> dir.ptes[v].user && v / 1024 in dir.tables
  }

  lemma BelowTop(free: seq<nat>, dirs: map<nat, Dir>, own: map<nat, Owner>, pool: set<nat>, d: nat)
    requires Inv(free, dirs, own, pool) && d in dirs
    ensures UserBelow(dirs[d])
  {
  }

  /** The entries from `lo` up to `a` are gone and nothing else. */
  ghost predicate Trimmed(dir: Dir, dir': Dir, lo: nat, a: nat) {
    && dir'.tables == dir.tables
    && (forall v: nat :: v in dir'.ptes <==> v in dir.ptes && !(lo <= v < a))
    && (forall v: nat :: v in dir'.ptes ==> dir'.ptes[v] == dir.ptes[v])
  }

  lemma TrimmedStart(dir: Dir, lo: nat)
    ensures Trimmed(dir, dir, lo, lo)
  {
  }

  lemma TrimmedStep(dir: Dir, dir': Dir, lo: nat, a: nat)
    requires Trimmed(dir, dir', lo, a) && lo <= a
    ensures Trimmed(dir, dir'.(ptes := dir'.ptes - {a}), lo, a + 1)
    ensures a !in dir'.ptes ==> Trimmed(dir, dir', lo, a + 1)
  {
  }

  lemma TrimmedMore(dir: Dir, dir': Dir, lo: nat, a: nat, hi: nat)
    requires Trimmed(dir, dir', lo, a) && a >= hi && (a <= hi || a == lo)
    ensures Trimmed(dir, dir', lo, hi)
  {
  }

  /** User entries from `lo` up to `a` were added and nothing else. */
  ghost predicate Grown(dir: Dir, dir': Dir, lo: nat, a: nat) {
    && dir'.tables == dir.tables
    && (forall v: nat :: v in dir'.ptes <==> v in dir.ptes || lo <= v < a)
    && (forall v: nat :: v in dir'.ptes ==> if lo <= v < a then dir'.ptes[v].user else dir'.ptes[v] == dir.ptes[v])
  }

  /** The frames of the pages from `lo` up to `a` are owned and hold zeros. */
  predicate Zeroed(dir: Dir, own: map<nat, Owner>, content: map<nat, Data>, d: nat, lo: nat, a: nat) {
    forall v :: lo <= v < a ==>
      && v in dir.ptes && dir.ptes[v].frame in own && dir.ptes[v].frame in content
      && content[dir.ptes[v].frame] == ZERO
  }

  lemma GrownStart(dir: Dir, lo: nat)
    ensures Grown(dir, dir, lo, lo)
  {
  }

  lemma GrownStep(dir: Dir, dir': Dir, own: map<nat, Owner>, content: map<nat, Data>, d: nat, lo: nat, a: nat,
          p: nat, data: Data)
    requires Grown(dir, dir', lo, a) && lo <= a && a !in dir.ptes
    ensures a !in dir'.ptes && Grown(dir, dir'.(ptes := dir'.ptes[a := Pte(p, true)]), lo, a + 1)
    ensures dir'.tables == dir.tables
    ensures Zeroed(dir', own, content, d, lo, a) && p !in own && data == ZERO ==>
      Zeroed(dir'.(ptes := dir'.ptes[a := Pte(p, true)]), own[p := FrameOf(d, a)], content[p := data], d, lo, a + 1)
  {
  }

  lemma GrownTrimmed(dir: Dir, dirs0: map<nat, Dir>, dirs: map<nat, Dir>, d: nat, lo: nat, a: nat, hi: nat)
    requires d in dirs0 && dirs0[d] == dir && d in dirs && dirs == dirs0[d := dirs[d]] && lo <= a <= hi
    requires exists mid :: Grown(dir, mid, lo, a) && Trimmed(mid, dirs[d], lo, hi)
    requires forall v: nat :: lo <= v < hi ==> v !in dir.ptes
    ensures dirs == dirs0
  {
    var mid :| Grown(dir, mid, lo, a) && Trimmed(mid, dirs[d], lo, hi);
    assert dirs[d].ptes == dir.ptes;
  }

  /** Which pages are free follows from the directories. */
  lemma FreeDetermined(free: seq<nat>, free': seq<nat>, dirs: map<nat, Dir>, own: map<nat, Owner>,
          own': map<nat, Owner>, pool: set<nat>)
    requires Inv(free, dirs, own, pool) && Inv(free', dirs, own', pool)
    ensures Elems(free') == Elems(free) && |free'| == |free| && own'.Keys == own.Keys
  {
    forall p ensures p in own <==> p in own' {
      if p in own { SameOwner(free, free', dirs, own, own', pool, p); }
      if p in own' { SameOwner(free', free, dirs, own', own, pool, p); }
    }
    ElemsSize(free);
    ElemsSize(free');
  }

  lemma SameOwner(free: seq<nat>, free': seq<nat>, dirs: map<nat, Dir>, own: map<nat, Owner>,
          own': map<nat, Owner>, pool: set<nat>, p: nat)
    requires Inv(free, dirs, own, pool) && Inv(free', dirs, own', pool) && p in own
    ensures p in own'
  {
    assert PageOwned(dirs, own, p);
    match own[p]
    case Root => assert DirOwns(own', p, dirs[p]);
    case TableOf(d, x) => assert DirOwns(own', d, dirs[d]);
    case FrameOf(d, v) => assert DirOwns(own', d, dirs[d]);
  }

  lemma {:induction false} ElemsSize(s: seq<nat>)
    requires NoRepeats(s)
    ensures |Elems(s)| == |s|
  {
    if s != [] {
      Popped(s);
      ElemsSize(s[1..]);
      assert Elems(s) == Elems(s[1..]) + {s[0]};
    } else {
      assert Elems(s) == {};
    }
  }

  /** The tables from index `i` on. */
  function Rest(tables: map<nat, nat>, i: nat): map<nat, nat> { map x | x in tables && x >= i :: tables[x] }

  lemma RestAll(tables: map<nat, nat>)
    ensures Rest(tables, 0) == tables
  {
  }

  lemma RestNext(tables: map<nat, nat>, i: nat)
    ensures Rest(tables, i + 1) == Rest(tables, i) - {i} && (i !in tables ==> Rest(tables, i + 1) == Rest(tables, i))
    ensures i in tables ==> i in Rest(tables, i) && Rest(tables, i)[i] == tables[i]
  {
  }

  lemma RestNone(free: seq<nat>, dirs: map<nat, Dir>, own: map<nat, Owner>, pool: set<nat>, d: nat,
          tables: map<nat, nat>)
    requires Inv(free, dirs[d := Dir(Rest(tables, 1024), map[])], own, pool)
    ensures Rest(tables, 1024) == map[]
  {
    assert DirOk(dirs[d := Dir(Rest(tables, 1024), map[])][d]);
    assert forall x :: x in Rest(tables, 1024) ==> x in KTABLES;
  }

  lemma FreeOne(dirs: map<nat, Dir>, d: nat, rest: map<nat, nat>, i: nat)
    ensures dirs[d := Dir(rest, map[])][d := Dir(rest - {i}, map[])] == dirs[d := Dir(rest - {i}, map[])]
  {
  }

  lemma NoUser(dir: Dir, free: seq<nat>, dirs: map<nat, Dir>, own: map<nat, Owner>, pool: set<nat>, d: nat)
    requires Inv(free, dirs, own, pool) && d in dirs && Trimmed(dir, dirs[d], Pages(0), Pages(USERTOP))
    ensures forall v :: v in dirs[d].ptes ==> !dirs[d].ptes[v].user
  {
    assert Pages(0) == 0 && Pages(USERTOP) == USERPAGES && DirOk(dirs[d]);
  }

  /** The first `n` pages of `dir'` hold what those of `dir` held. */
  ghost predicate Copied(dir: Dir, c: map<nat, Data>, dir': Dir, c': map<nat, Data>, n: nat) {
    forall v: nat :: v < n ==>
      && v in dir.ptes && v in dir'.ptes && dir'.ptes[v].user
      && dir.ptes[v].frame in c && dir'.ptes[v].frame in c' && c'[dir'.ptes[v].frame] == c[dir.ptes[v].frame]
  }

  lemma FramesOwned(free: seq<nat>, dirs: map<nat, Dir>, own: map<nat, Owner>, pool: set<nat>, d: nat)
    requires Inv(free, dirs, own, pool) && d in dirs
    ensures forall v :: v in dirs[d].ptes && dirs[d].ptes[v].user ==> dirs[d].ptes[v].frame in own
  {
    assert DirOwns(own, d, dirs[d]);
  }

  lemma KernelStart(dir: Dir, c: map<nat, Data>, k: Dir)
    requires KernelOnly(k)
    ensures Grown(k, k, 0, 0) && Copied(dir, c, k, c, 0) && 0 in k.tables
    ensures forall v: nat :: IsUser(v) ==> v !in k.ptes || !k.ptes[v].user
  {
  }

  /** Pages owned before a new directory was made are owned after. */
  lemma KeepsOwn(free: seq<nat>, free': seq<nat>, dirs: map<nat, Dir>, dirs': map<nat, Dir>, own: map<nat, Owner>,
          own': map<nat, Owner>, pool: set<nat>, e: nat)
    requires Inv(free, dirs, own, pool) && Inv(free', dirs', own', pool) && e !in dirs && e in dirs'
    requires dirs' == dirs[e := dirs'[e]]
    ensures own.Keys <= own'.Keys && forall v :: v in dirs'[e].ptes && IsUser(v) ==> dirs'[e].ptes[v].user
  {
    forall p | p in own ensures p in own' {
      assert PageOwned(dirs, own, p);
      var c := match own[p] case Root => p case TableOf(c, _) => c case FrameOf(c, _) => c;
      assert DirOwns(own', c, dirs'[c]);
    }
    assert DirOk(dirs'[e]);
  }

  lemma CopyStep(k: Dir, dir: Dir, c0: map<nat, Data>, dir': Dir, own: map<nat, Owner>, c: map<nat, Data>, i: nat,
          p: nat)
    requires Grown(k, dir', 0, i) && Copied(dir, c0, dir', c, i) && i !in k.ptes && i in dir.ptes && p !in own
    requires dir.ptes[i].frame in c0 && forall v: nat :: v < i ==> v in dir'.ptes && dir'.ptes[v].frame in own
    ensures i !in dir'.ptes && dir'.tables == k.tables
    ensures var (d2, c2) := (dir'.(ptes := dir'.ptes[i := Pte(p, true)]), c[p := c0[dir.ptes[i].frame]]);
      Grown(k, d2, 0, i + 1) && Copied(dir, c0, d2, c2, i + 1)
  {
  }

  lemma CopyDone(k: Dir, dir: Dir, n: nat)
    requires KernelOnly(k) && Grown(k, dir, 0, n) && n <= USERPAGES
    ensures Complete(dir)
  {
  }

  /** Freeing the directory that was just made leaves the directories, and so the free pages, as
      they were. */
  lemma Restored(dirs0: map<nat, Dir>, dirs: map<nat, Dir>, e: nat, x: Dir, free0: seq<nat>, free: seq<nat>,
          own0: map<nat, Owner>, own: map<nat, Owner>, pool: set<nat>)
    requires e !in dirs0 && dirs == dirs0[e := x] - {e} && Inv(free0, dirs0, own0, pool) && Inv(free, dirs, own, pool)
    ensures dirs == dirs0 && Elems(free) == Elems(free0) && |free| == |free0| && own.Keys == own0.Keys
  {
    assert dirs == dirs0;
    FreeDetermined(free0, free, dirs0, own0, own, pool);
  }

  lemma RangedJoin(dir: Dir, mid: Dir, dir': Dir, lo: nat, a: nat, hi: nat)
    requires Ranged(dir, mid, lo, a) && Ranged(mid, dir', a, hi) && lo <= a <= hi
    ensures Ranged(dir, dir', lo, hi)
  {
    forall v: nat | lo <= v < hi ensures v / 1024 in dir'.tables { if v < a { assert v / 1024 in mid.tables; } }
  }

  lemma NotYet(dir: Dir, dir': Dir, lo: nat, a: nat, b: nat, c: nat)
    requires Ranged(dir, dir', lo, a) && a <= b && dir.ptes == map[]
    ensures forall v: nat :: b <= v < c ==> v !in dir'.ptes
  {
  }

  /** All kernel entries and their tables, and nothing else. */
  ghost predicate KernelOnly(dir: Dir) {
    Complete(dir) && forall v :: v in dir.ptes ==> !dir.ptes[v].user
  }

  lemma AllMapped(dir: Dir, mid: Dir, dir': Dir)
    requires dir == Dir(map[], map[]) && Ranged(dir, mid, USERPAGES, PHYSPAGES) && Ranged(mid, dir', DEVPAGES, ALLPAGES)
    ensures KernelOnly(dir')
  {
    forall x | x in KTABLES ensures x in dir'.tables {
      var v := if x == 0 then USERPAGES else 1024 * x;
      assert v / 1024 == x;
      if x < 4 { assert x in mid.tables; }
    }
  }

  lemma TableCount(free: seq<nat>, dirs: map<nat, Dir>, own: map<nat, Owner>, pool: set<nat>, d: nat)
    requires Inv(free, dirs, own, pool) && d in dirs
    ensures (forall x :: x in KTABLES ==> x in dirs[d].tables) ==> |dirs[d].tables| == 12
    ensures (exists x :: x in KTABLES && x !in dirs[d].tables) ==> |dirs[d].tables| < 12
  {
    var keys := dirs[d].tables.Keys;
    assert DirOk(dirs[d]) && keys <= KTABLES;
    CountTables();
    if x :| x in KTABLES && x !in keys { SubsetSize(keys, KTABLES - {x}); } else { assert keys == KTABLES; }
  }

  lemma CountTables()
    ensures |KTABLES| == 12
  {
  }

  lemma {:induction false} SubsetSize(a: set<nat>, b: set<nat>)
    requires a <= b
    ensures |a| <= |b|
  {
    if x :| x in a { SubsetSize(a - {x}, b - {x}); } else { assert a == {}; }
  }

  lemma KernelTable(v: nat)
    requires IsKernel(v)
    ensures v / 1024 in KTABLES
  {
  }
}
