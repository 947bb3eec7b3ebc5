/** Directory entries (include/fs.h) and the fixed-width names of kernel/string.c: the contents of
    a directory as a finite map. */
module DirEntries {
  import opened Blocks
  import opened FileBytes

  const DIRSIZ: nat := 14
  const ENTRY: nat := 16

  type Name = s: seq<byte> | |s| == DIRSIZ witness seq(DIRSIZ, _ => 0)

  // Names.

  /** The bytes before the first NUL, at most `n`. */
  function Head(s: seq<byte>, n: nat): (h: seq<byte>)
    ensures |h| <= n && |h| <= |s| && forall k :: 0 <= k < |h| ==> h[k] == s[k] && h[k] != 0
    ensures |h| == n || |h| == |s| || s[|h|] == 0
  {
    if n == 0 || s == [] || s[0] == 0 then [] else [s[0]] + Head(s[1..], n - 1)
  }

  /** A name as it is kept in a directory: cut to DIRSIZ bytes and filled up with NUL. */
  function Canon(s: seq<byte>): Name {
    var h := Head(s, DIRSIZ);
    seq(DIRSIZ, k requires 0 <= k < DIRSIZ => if k < |h| then h[k] else 0)
  }

  function CharAt(s: seq<byte>, k: nat): byte { if k < |s| then s[k] else 0 }

  lemma CanonAt(s: seq<byte>, k: nat)
    requires k < DIRSIZ
    ensures (forall j :: 0 <= j < k ==> CharAt(s, j) != 0) ==> Canon(s)[k] == CharAt(s, k)
    ensures (exists j :: 0 <= j < k && CharAt(s, j) == 0) ==> Canon(s)[k] == 0
  {
    var h := Head(s, DIRSIZ);
    assert |h| < DIRSIZ ==> CharAt(s, |h|) == 0;
    if j :| 0 <= j < k && CharAt(s, j) == 0 { assert |h| <= j; }
  }

  /** strncmp over DIRSIZ bytes: zero exactly for names kept alike. */
  method Strncmp(p: seq<byte>, q: seq<byte>) returns (r: int)
    ensures r == 0 <==> Canon(p) == Canon(q)
  {
    var k := 0;
    while k < DIRSIZ && CharAt(p, k) != 0 && CharAt(p, k) == CharAt(q, k)
      invariant 0 <= k <= DIRSIZ
      invariant forall j :: 0 <= j < k ==> CharAt(p, j) == CharAt(q, j) && CharAt(p, j) != 0
    {
      k := k + 1;
    }
    NamesAgree(p, q, k);
    if k == DIRSIZ { return 0; }
    r := CharAt(p, k) - CharAt(q, k);
  }

  lemma NamesAgree(p: seq<byte>, q: seq<byte>, k: nat)
    requires k <= DIRSIZ && forall j :: 0 <= j < k ==> CharAt(p, j) == CharAt(q, j) && CharAt(p, j) != 0
    requires k == DIRSIZ || CharAt(p, k) == 0 || CharAt(p, k) != CharAt(q, k)
    ensures Canon(p) == Canon(q) <==> k == DIRSIZ || CharAt(p, k) == CharAt(q, k)
  {
    forall i | 0 <= i < DIRSIZ && (k == DIRSIZ || CharAt(p, k) == CharAt(q, k)) ensures Canon(p)[i] == Canon(q)[i] {
      CanonAt(p, i);
      CanonAt(q, i);
    }
    if k < DIRSIZ {
      CanonAt(p, k);
      CanonAt(q, k);
    }
  }

  /** strncpy into a field of DIRSIZ bytes. */
  method Strncpy(t: seq<byte>) returns (s: Name)
    ensures s == Canon(t)
  {
    var buf: seq<byte> := [];
    while |buf| < DIRSIZ && CharAt(t, |buf|) != 0
      invariant |buf| <= DIRSIZ && buf <= Canon(t) && forall j :: 0 <= j < |buf| ==> CharAt(t, j) != 0
    {
      CanonAt(t, |buf|);
      buf := buf + [CharAt(t, |buf|)];
    }
    ghost var n := |buf|;
    while |buf| < DIRSIZ
      invariant n <= |buf| <= DIRSIZ && buf <= Canon(t) && (n < DIRSIZ ==> CharAt(t, n) == 0)
      invariant forall j :: 0 <= j < n ==> CharAt(t, j) != 0
    {
      CanonAt(t, |buf|);
      buf := buf + [0];
    }
    s := buf;
  }

  // Entries: two bytes of inode number, then the name.

  predicate EntryIn(c: seq<byte>, e: nat) { ENTRY * e + ENTRY <= |c| }

  function Inum(c: seq<byte>, e: nat): nat
    requires EntryIn(c, e)
  {
    var (lo: int, hi: int) := (c[ENTRY * e], c[ENTRY * e + 1]);
    lo + 0x100 * hi
  }

  function NameOf(c: seq<byte>, e: nat): Name
    requires EntryIn(c, e)
  {
    c[ENTRY * e + 2..ENTRY * e + ENTRY]
  }

  /** Entry `e` is in use for the name `key`. */
  predicate Binds(c: seq<byte>, e: nat, key: Name) { EntryIn(c, e) && Inum(c, e) != 0 && Canon(NameOf(c, e)) == key }

  /** Whole entries, and no name in two of them. */
  ghost predicate DirOk(c: seq<byte>) {
    |c| % ENTRY == 0 && forall e, f, key :: Binds(c, e, key) && Binds(c, f, key) ==> e == f
  }

  /** The directory as a map: what a name is bound to. */
  ghost predicate Bound(c: seq<byte>, key: Name, inum: nat) { exists e: nat :: Binds(c, e, key) && Inum(c, e) == inum }

  /** The bytes of a new entry. */
  function Entry(key: Name, inum: nat): seq<byte>
    requires inum < 0x1_0000
  {
    [inum % 0x100, inum / 0x100] + key
  }

  lemma CanonTwice(s: seq<byte>)
    ensures Canon(Canon(s)) == Canon(s)
  {
    var (h, c) := (Head(s, DIRSIZ), Canon(s));
    var g := Head(c, DIRSIZ);
    assert forall k :: 0 <= k < |h| ==> c[k] == h[k] && c[k] != 0;
    assert |h| < DIRSIZ ==> c[|h|] == 0;
    assert |g| == |h|;
  }

  /** Writing an entry over a free one, or after the last, changes that entry only. */
  lemma EntryWritten(c: seq<byte>, e: nat, d: seq<byte>, f: nat)
    requires |c| % ENTRY == 0 && ENTRY * e <= |c| && |d| == ENTRY
    ensures var c' := Overwrite(c, ENTRY * e, d);
      && |c'| == (if ENTRY * e == |c| then |c| + ENTRY else |c|)
      && (EntryIn(c', f) <==> EntryIn(c, f) || f == e)
      && (f != e && EntryIn(c, f) ==> Inum(c', f) == Inum(c, f) && NameOf(c', f) == NameOf(c, f))
      && Inum(c', e) == d[0] as int + 0x100 * d[1] as int && NameOf(c', e) == d[2..]
  {
    var c' := Overwrite(c, ENTRY * e, d);
    if f != e && EntryIn(c, f) {
      assert c'[ENTRY * f..ENTRY * f + ENTRY] == c[ENTRY * f..ENTRY * f + ENTRY];
    }
    assert c'[ENTRY * e..ENTRY * e + ENTRY] == d;
  }

  /** An entry that can be taken: one not in use, or the place after the last. */
  predicate Vacant(c: seq<byte>, e: nat) { ENTRY * e == |c| || (EntryIn(c, e) && Inum(c, e) == 0) }

  /** A new entry adds its binding and changes no other. */
  lemma EntryAdded(c: seq<byte>, e: nat, name: seq<byte>, inum: nat)
    requires DirOk(c) && Vacant(c, e) && 0 < inum < 0x1_0000 && forall f: nat :: !Binds(c, f, Canon(name))
    ensures var (key, c') := (Canon(name), Overwrite(c, ENTRY * e, Entry(Canon(name), inum)));
      DirOk(c') && forall k: Name, n: nat :: Bound(c', k, n) <==> (k == key && n == inum) || Bound(c, k, n)
  {
    var key := Canon(name);
    var (d, c') := (Entry(key, inum), Overwrite(c, ENTRY * e, Entry(key, inum)));
    CanonTwice(name);
    forall f: nat, k: Name ensures Binds(c', f, k) <==> if f == e then k == key else Binds(c, f, k) {
      EntryWritten(c, e, d, f);
      assert d[2..] == key;
    }
    EntryWritten(c, e, d, e);
    forall k: Name, n: nat ensures Bound(c', k, n) <==> (k == key && n == inum) || Bound(c, k, n) {
      if f: nat :| Binds(c', f, k) && Inum(c', f) == n {
        EntryWritten(c, e, d, f);
        if f != e { assert Binds(c, f, k) && Inum(c, f) == n; }
      }
      if f: nat :| Binds(c, f, k) && Inum(c, f) == n {
        EntryWritten(c, e, d, f);
        assert Binds(c', f, k) && Inum(c', f) == n;
      }
      if k == key && n == inum { assert Binds(c', e, k) && Inum(c', e) == n; }
    }
  }
}
