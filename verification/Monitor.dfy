/** The specification of the library: FIFO mutexes with direct hand-off and condition
    variables, every operation taking effect in one step. */
module Monitor {
  import opened Options
  import opened Handshake

  datatype FifoLock = FifoLock(owner: Option<Pid>, q: seq<Pid>)

  datatype Status =
    | Running                     // outside the library, or its call has taken effect
    | Locking(m: nat)             // called mutex_lock, not yet admitted
    | Queued(m: nat)              // blocked in the queue of mutex m
    | Unlocking(m: nat)           // called mutex_unlock
    | Entering(c: nat, m: nat)    // called cv_wait, not yet in the queue of c
    | Leaving(c: nat, m: nat)     // put into the queue of c, still owns m
    | Waiting(c: nat, m: nat)     // blocked in the queue of c, m given up
    | Signalling(c: nat, all: bool)

  datatype State = State(status: map<Pid, Status>, locks: map<nat, FifoLock>, conds: map<nat, seq<Pid>>) {
    function Set(t: Pid, x: Status): State { this.(status := status[t := x]) }
    function SetLock(m: nat, k: FifoLock): State { this.(locks := locks[m := k]) }
    function SetCond(c: nat, q: seq<Pid>): State { this.(conds := conds[c := q]) }
    predicate Has(t: Pid) { t in status }
  }

  /** The mutex passes to the longest waiting thread, which thereby returns from mutex_lock. */
  function HandOff(a: State, m: nat): State
    requires m in a.locks
  {
    var k := a.locks[m];
    if k.q == [] then a.SetLock(m, FifoLock(None, []))
    else a.SetLock(m, FifoLock(Some(k.q[0]), k.q[1..])).Set(k.q[0], Running)
  }

  /** A signalled thread goes on to lock its mutex again once it has released it. */
  function Wake(a: State, p: Pid): State
    requires a.Has(p)
  {
    if a.status[p].Waiting? then a.Set(p, Locking(a.status[p].m)) else a
  }

  predicate Enabled(a: State, t: Pid) {
    && a.Has(t)
    && match a.status[t]
       case Locking(m) => m in a.locks
       case Unlocking(m) => m in a.locks
       case Entering(c, m) => c in a.conds
       case Leaving(c, m) => c in a.conds && m in a.locks
       case Signalling(c, all) => c in a.conds && (a.conds[c] != [] ==> a.Has(a.conds[c][0]))
       case _ => false
  }

  function Step(a: State, t: Pid): State
    requires Enabled(a, t)
  {
    match a.status[t]
    case Locking(m) =>
      var k := a.locks[m];
      if k.owner.None? then a.SetLock(m, k.(owner := Some(t))).Set(t, Running)
      else a.SetLock(m, k.(q := k.q + [t])).Set(t, Queued(m))
    case Unlocking(m) => HandOff(a, m).Set(t, Running)
    case Entering(c, m) => a.SetCond(c, a.conds[c] + [t]).Set(t, Leaving(c, m))
    case Leaving(c, m) => HandOff(a, m).Set(t, if t in a.conds[c] then Waiting(c, m) else Locking(m))
    case Signalling(c, all) =>
      var q := a.conds[c];
      if q == [] then a.Set(t, Running)
      else Wake(a.SetCond(c, q[1..]), q[0]).Set(t, if all then Signalling(c, all) else Running)
  }

  /** A status names existing objects, and a blocked thread is in the queue it names. */
  predicate StatusOk(a: State, t: Pid) {
    a.Has(t) &&
    match a.status[t]
    case Running => true
    case Locking(m) => m in a.locks
    case Queued(m) => m in a.locks && t in a.locks[m].q
    case Unlocking(m) => m in a.locks && a.locks[m].owner == Some(t)
    case Entering(c, m) => c in a.conds && m in a.locks && a.locks[m].owner == Some(t)
    case Leaving(c, m) => c in a.conds && m in a.locks && a.locks[m].owner == Some(t)
    case Waiting(c, m) => c in a.conds && m in a.locks && t in a.conds[c]
    case Signalling(c, _) => c in a.conds
  }

  predicate LockOk(a: State, m: nat) {
    m in a.locks && NoDup(a.locks[m].q)
    && (a.locks[m].q != [] ==> a.locks[m].owner.Some?)
    && (forall i :: 0 <= i < |a.locks[m].q| ==> a.Has(a.locks[m].q[i]) && a.status[a.locks[m].q[i]] == Queued(m))
  }

  predicate OnCond(x: Status, c: nat) {
    (x.Leaving? || x.Waiting?) && x.c == c
  }

  predicate CondOk(a: State, c: nat) {
    c in a.conds && NoDup(a.conds[c])
    && (forall i :: 0 <= i < |a.conds[c]| ==> a.Has(a.conds[c][i]) && OnCond(a.status[a.conds[c][i]], c))
  }

  predicate Inv(a: State) {
    && (forall t :: t in a.status ==> StatusOk(a, t))
    && (forall m :: m in a.locks ==> LockOk(a, m))
    && (forall c :: c in a.conds ==> CondOk(a, c))
  }

  lemma HandOffInv(a: State, t: Pid, m: nat, x: Status)
    requires Inv(a) && a.Has(t) && m in a.locks && a.locks[m].owner == Some(t)
    requires a.status[t].Unlocking? || a.status[t].Leaving?
    requires x == if a.status[t].Unlocking? then Running
                  else if t in a.conds[a.status[t].c] then Waiting(a.status[t].c, a.status[t].m) else Locking(m)
    requires a.status[t].m == m
    ensures Inv(HandOff(a, m).Set(t, x))
  {
    var b := HandOff(a, m).Set(t, x);
    assert StatusOk(a, t) && LockOk(a, m);
    if a.locks[m].q != [] { DequeueMembers(a.locks[m].q); }
    forall u | u in b.status ensures StatusOk(b, u) { assert StatusOk(a, u); }
    forall n | n in b.locks ensures LockOk(b, n) { assert LockOk(a, n); }
    forall c | c in b.conds ensures CondOk(b, c) { assert CondOk(a, c); }
  }

  lemma StepInv(a: State, t: Pid)
    requires Inv(a) && Enabled(a, t)
    ensures Inv(Step(a, t))
  {
    var (b, x) := (Step(a, t), a.status[t]);
    assert StatusOk(a, t);
    if x.Locking? || x.Entering? {
      forall u | u in b.status ensures StatusOk(b, u) { assert StatusOk(a, u); }
      forall n | n in b.locks ensures LockOk(b, n) { assert LockOk(a, n); }
      forall c | c in b.conds ensures CondOk(b, c) { assert CondOk(a, c); }
    } else if x.Unlocking? {
      HandOffInv(a, t, x.m, Running);
    } else if x.Leaving? {
      HandOffInv(a, t, x.m, if t in a.conds[x.c] then Waiting(x.c, x.m) else Locking(x.m));
    } else {
      SignalInv(a, t, x.c);
    }
  }

  lemma SignalInv(a: State, t: Pid, c: nat)
    requires Inv(a) && Enabled(a, t) && a.status[t].Signalling? && a.status[t].c == c
    ensures Inv(Step(a, t))
  {
    var b := Step(a, t);
    assert StatusOk(a, t) && CondOk(a, c);
    if a.conds[c] != [] { DequeueMembers(a.conds[c]); }
    forall u | u in b.status ensures StatusOk(b, u) { assert StatusOk(a, u); }
    forall n | n in b.locks ensures LockOk(b, n) { assert LockOk(a, n); }
    forall d | d in b.conds ensures CondOk(b, d) { assert CondOk(a, d); }
  }

  /** What a step of `t` does to another thread: nothing, or it hands the mutex over to it,
      or it wakes it from a condition variable. */
  predicate OtherMove(a: State, t: Pid, b: State, u: Pid) {
    && a.Has(u) && b.Has(u) && a.Has(t)
    && var (x, y) := (a.status[u], b.status[u]);
       || y == x
       || (x.Queued? && y == Running && x.m in b.locks && b.locks[x.m].owner == Some(u))
       || (x.Waiting? && y == Locking(x.m) && a.status[t].Signalling? && a.status[t].c == x.c)
  }

  /** What a step of `t` does to the queue of a condition variable. */
  predicate CondMove(a: State, t: Pid, b: State, c: nat) {
    && a.Has(t) && c in a.conds && c in b.conds
    && var x := a.status[t];
       if x.Entering? && x.c == c then b.conds[c] == a.conds[c] + [t]
       else if x.Signalling? && x.c == c && a.conds[c] != [] then b.conds[c] == a.conds[c][1..]
       else b.conds[c] == a.conds[c]
  }

  /** What a step of `t` does to the owner of a mutex. */
  predicate OwnerMove(a: State, t: Pid, b: State, m: nat) {
    && a.Has(t) && b.Has(t) && m in a.locks && m in b.locks
    && var (o, o') := (a.locks[m].owner, b.locks[m].owner);
       || o' == o
       || (o.None? && o' == Some(t) && a.status[t] == Locking(m) && b.status[t] == Running)
       || (o == Some(t) && (a.status[t].Unlocking? || a.status[t].Leaving?) && a.status[t].m == m
           && (|| o'.None?
               || (&& a.Has(o'.value) && a.status[o'.value] == Queued(m)
                   && b.Has(o'.value) && b.status[o'.value] == Running)))
  }

  /** What a step of `t` does to its own status. */
  predicate OwnMove(a: State, t: Pid, b: State) {
    && a.Has(t) && b.Has(t)
    && match a.status[t]
       case Locking(m) =>
         m in a.locks && m in b.locks
         && (if a.locks[m].owner.None? then b.status[t] == Running && b.locks[m].owner == Some(t)
             else b.status[t] == Queued(m))
       case Unlocking(m) => b.status[t] == Running && m in b.locks && b.locks[m].owner != Some(t)
       case Entering(c, m) => b.status[t] == Leaving(c, m)
       case Leaving(c, m) =>
         c in a.conds && m in b.locks && b.locks[m].owner != Some(t)
         && b.status[t] == if t in a.conds[c] then Waiting(c, m) else Locking(m)
       case Signalling(c, all) => b.status[t] == Running || (all && b.status[t] == a.status[t])
       case _ => false
  }

  lemma StepMoves(a: State, t: Pid, u: Pid)
    requires Inv(a) && Enabled(a, t) && a.Has(u)
    ensures OwnMove(a, t, Step(a, t))
    ensures u != t ==> OtherMove(a, t, Step(a, t), u)
  {
    assert StatusOk(a, t) && StatusOk(a, u);
    var x := a.status[t];
    if x.Unlocking? || x.Leaving? { assert LockOk(a, x.m); }
    if x.Signalling? { assert CondOk(a, x.c); }
  }

  lemma StepObjects(a: State, t: Pid)
    requires Inv(a) && Enabled(a, t)
    ensures Step(a, t).status.Keys == a.status.Keys
    ensures Step(a, t).locks.Keys == a.locks.Keys && Step(a, t).conds.Keys == a.conds.Keys
    ensures forall m :: m in a.locks ==> OwnerMove(a, t, Step(a, t), m)
    ensures forall c :: c in a.conds ==> CondMove(a, t, Step(a, t), c)
  {
    assert StatusOk(a, t);
    var x := a.status[t];
    if x.Unlocking? || x.Leaving? { assert LockOk(a, x.m); }
    if x.Signalling? { assert CondOk(a, x.c); }
  }
}
