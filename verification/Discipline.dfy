/** The way clients are meant to use a mutex with condition variables: lock, wait in a loop,
    signal while holding the mutex, unlock. What this module proves about the library
    steps holds for every client whose calls follow it. */
module Discipline {
  import opened Options
  import opened Handshake
  import opened SyncLib
  import opened Refinement
  import opened Monitor

  /** Where a client is with respect to its mutex `m`. */
  datatype View =
    | Out                    // owns nothing, or is unlocking
    | Acquired(m: nat)       // has called mutex_lock(m)
    | Inside(m: nat)         // is in the critical section
    | Waited(c: nat, m: nat) // has called cv_wait(c, m)
    | Told(c: nat, m: nat)   // has called cv_signal(c) in the critical section of m

  /** Which library statuses go with which view. */
  predicate Shape(x: Status, v: View) {
    match v
    case Out => x.Running? || x.Unlocking?
    case Acquired(m) => x.Running? || x == Locking(m) || x == Queued(m)
    case Inside(m) => x.Running?
    case Waited(c, m) =>
      x.Running? || x == Locking(m) || x == Queued(m) || x == Entering(c, m) || x == Leaving(c, m) || x == Waiting(c, m)
    case Told(c, m) => x.Running? || x == Signalling(c, false)
  }

  /** The mutex a thread owns. */
  function OwnsOf(x: Status, v: View): Option<nat> {
    match v
    case Out => if x.Unlocking? then Some(x.m) else None
    case Acquired(m) => if x.Running? then Some(m) else None
    case Inside(m) => Some(m)
    case Waited(c, m) => if x.Running? || x.Entering? || x.Leaving? then Some(m) else None
    case Told(c, m) => Some(m)
  }

  type Views = map<Pid, View>

  predicate ThreadOk(a: State, vs: Views, t: Pid) {
    && a.Has(t) && t in vs && Shape(a.status[t], vs[t])
    && var m := OwnsOf(a.status[t], vs[t]);
       m.Some? ==> m.value in a.locks && a.locks[m.value].owner == Some(t)
  }

  predicate OwnerOk(a: State, vs: Views, m: nat) {
    m in a.locks &&
    var o := a.locks[m].owner;
    o.Some? ==> a.Has(o.value) && o.value in vs && OwnsOf(a.status[o.value], vs[o.value]) == Some(m)
  }

  predicate Inv(a: State, vs: Views) {
    && Monitor.Inv(a)
    && a.status.Keys == vs.Keys
    && (forall t :: t in vs ==> ThreadOk(a, vs, t))
    && (forall m :: m in a.locks ==> OwnerOk(a, vs, m))
  }

  /** A client that keeps running keeps what it owns. */
  predicate StepAllowed(v: View, v': View) {
    v' == v || (!v.Out? && v' == Inside(v.m))
  }

  /** The calls a client may make, and the view it has afterwards. */
  predicate CallAllowed(v: View, op: Op, v': View) {
    match op
    case Lock(m) => v.Out? && v' == Acquired(m)
    case Unlock(m) => !v.Out? && v.m == m && v' == Out
    case Wait(c, m) => !v.Out? && v.m == m && v' == Waited(c, m)
    case Signal(c) => !v.Out? && v' == Told(c, v.m)
    case Broadcast(c) => false
  }

  lemma ClientStep(a: State, vs: Views, t: Pid, v: View)
    requires Inv(a, vs) && t in vs && a.status[t].Running? && StepAllowed(vs[t], v)
    ensures Inv(a, vs[t := v])
  {
    var vs' := vs[t := v];
    assert ThreadOk(a, vs, t);
    forall u | u in vs' ensures ThreadOk(a, vs', u) { assert ThreadOk(a, vs, u); }
    forall m | m in a.locks ensures OwnerOk(a, vs', m) { assert OwnerOk(a, vs, m); }
  }

  lemma ClientCall(a: State, vs: Views, t: Pid, op: Op, v: View)
    requires Inv(a, vs) && t in vs && a.status[t].Running? && CallAllowed(vs[t], op, v)
    requires match op
             case Lock(m) => m in a.locks
             case Wait(c, m) => c in a.conds
             case Signal(c) => c in a.conds
             case _ => true
    ensures Inv(a.Set(t, EntryStatus(op)), vs[t := v])
  {
    var (b, vs') := (a.Set(t, EntryStatus(op)), vs[t := v]);
    assert ThreadOk(a, vs, t);
    forall u | u in b.status ensures StatusOk(b, u) { assert StatusOk(a, u); }
    forall n | n in b.locks ensures LockOk(b, n) { assert LockOk(a, n); }
    forall c | c in b.conds ensures CondOk(b, c) { assert CondOk(a, c); }
    forall u | u in vs' ensures ThreadOk(b, vs', u) { assert ThreadOk(a, vs, u); }
    forall m | m in b.locks ensures OwnerOk(b, vs', m) { assert OwnerOk(a, vs, m); }
  }

  lemma StepThread(a: State, vs: Views, t: Pid, u: Pid, b: State)
    requires ThreadOk(a, vs, t) && ThreadOk(a, vs, u) && b.locks.Keys == a.locks.Keys
    requires u == t ==> OwnMove(a, t, b)
    requires u != t ==> OtherMove(a, t, b, u)
    requires forall m :: m in a.locks ==> OwnerMove(a, t, b, m)
    ensures ThreadOk(b, vs, u)
  {
  }

  lemma StepOwner(a: State, vs: Views, t: Pid, m: nat, b: State)
    requires OwnerOk(a, vs, m) && ThreadOk(a, vs, t) && OwnMove(a, t, b) && OwnerMove(a, t, b, m)
    requires a.status.Keys == vs.Keys
    requires forall u :: u in vs ==> ThreadOk(a, vs, u)
    requires forall u :: u in vs && u != t ==> OtherMove(a, t, b, u)
    ensures OwnerOk(b, vs, m)
  {
  }

  /** The library keeps the discipline. */
  lemma LibraryStep(a: State, vs: Views, t: Pid)
    requires Inv(a, vs) && Monitor.Enabled(a, t)
    ensures Inv(Monitor.Step(a, t), vs)
  {
    var b := Monitor.Step(a, t);
    Monitor.StepInv(a, t);
    StepObjects(a, t);
    forall u | u in vs ensures OwnMove(a, t, b) && (u != t ==> OtherMove(a, t, b, u)) { StepMoves(a, t, u); }
    hide Monitor.Step, OwnMove, OtherMove, OwnerMove, CondMove, Monitor.Inv, ThreadOk, OwnerOk;
    forall u | u in vs ensures ThreadOk(b, vs, u) { StepThread(a, vs, t, u, b); }
    forall m | m in b.locks ensures OwnerOk(b, vs, m) { StepOwner(a, vs, t, m, b); }
  }

  /** A wake-up of condition variable `c` under way in the library: a waiter that is off the
      queue and back in its loop test or on the way to it, or a signal not yet delivered. */
  predicate Awake(a: State, vs: Views, t: Pid, c: nat) {
    && a.Has(t) && t in vs
    && match vs[t]
       case Waited(d, _) =>
         d == c && var x := a.status[t];
         x.Running? || x.Locking? || x.Queued? || (x.Leaving? && c in a.conds && t !in a.conds[c])
       case Told(d, _) => d == c && a.status[t].Signalling?
       case _ => false
  }

  function Pool(a: State, vs: Views, c: nat): set<Pid> {
    set t | t in vs && Awake(a, vs, t, c)
  }

  lemma AwakeStep(a: State, vs: Views, t: Pid, u: Pid, c: nat, b: State)
    requires ThreadOk(a, vs, t) && ThreadOk(a, vs, u) && CondMove(a, t, b, c) && OwnMove(a, t, b)
    requires u != t ==> OtherMove(a, t, b, u)
    requires a.status[t].Signalling? ==> a.status[t].c != c
    ensures Awake(b, vs, u, c) <==> Awake(a, vs, u, c)
  {
  }

  lemma AwakeSignal(a: State, vs: Views, t: Pid, u: Pid, c: nat)
    requires Monitor.Inv(a) && Monitor.Enabled(a, t) && ThreadOk(a, vs, t) && ThreadOk(a, vs, u)
    requires a.status[t] == Signalling(c, false) && a.conds[c] != []
    ensures var (b, p) := (Monitor.Step(a, t), a.conds[c][0]);
            && p != t && (u == p ==> WaitsFor(vs[u], c))
            && Awake(a, vs, u, c) == (if u == t then true else if u == p then false else Awake(b, vs, u, c))
            && (u == t ==> !Awake(b, vs, u, c))
            && (u == p ==> Awake(b, vs, u, c))
  {
    assert StatusOk(a, u) && StatusOk(a, t) && CondOk(a, c);
    DequeueMembers(a.conds[c]);
  }

  predicate WaitsFor(v: View, c: nat) { v.Waited? && v.c == c }

  /** A library step moves wake-ups only by delivering a signal: the signaller's passes to the
      waiter it takes off the queue. */
  lemma PoolStep(a: State, vs: Views, t: Pid, c: nat)
    requires Inv(a, vs) && Monitor.Enabled(a, t) && c in a.conds
    ensures var b := Monitor.Step(a, t);
            && CondMove(a, t, b, c)
            && if a.status[t].Signalling? && a.status[t].c == c then
                 if a.conds[c] == [] then b.conds[c] == []
                 else a.conds[c][0] in vs && t in Pool(a, vs, c) && a.conds[c][0] !in Pool(a, vs, c)
                      && WaitsFor(vs[a.conds[c][0]], c) && Pool(b, vs, c) == Pool(a, vs, c) - {t} + {a.conds[c][0]}
               else Pool(b, vs, c) == Pool(a, vs, c)
  {
    var b := Monitor.Step(a, t);
    StepObjects(a, t);
    forall u | u in vs ensures OwnMove(a, t, b) && (u != t ==> OtherMove(a, t, b, u)) { StepMoves(a, t, u); }
    if a.status[t].Signalling? && a.status[t].c == c {
      assert ThreadOk(a, vs, t);
      if a.conds[c] != [] {
        var p := a.conds[c][0];
        assert CondOk(a, c) && ThreadOk(a, vs, p);
        forall u | u in vs
          ensures Awake(a, vs, u, c) == (if u == t then true else if u == p then false else Awake(b, vs, u, c))
          ensures (u == t ==> !Awake(b, vs, u, c)) && (u == p ==> Awake(b, vs, u, c))
        {
          assert ThreadOk(a, vs, u);
          AwakeSignal(a, vs, t, u, c);
        }
      }
    } else {
      forall u | u in vs ensures Awake(b, vs, u, c) <==> Awake(a, vs, u, c) {
        assert ThreadOk(a, vs, u) && ThreadOk(a, vs, t);
        AwakeStep(a, vs, t, u, c, b);
      }
    }
  }

  /** If no thread owns a mutex, no thread queues for one. */
  lemma NobodyQueued(a: State, vs: Views, t: Pid)
    requires Inv(a, vs) && t in vs
    requires forall u :: u in vs ==> OwnsOf(a.status[u], vs[u]).None?
    ensures !a.status[t].Queued?
  {
    forall m | m in a.locks ensures a.locks[m].q == [] { assert LockOk(a, m) && OwnerOk(a, vs, m); }
    assert StatusOk(a, t);
  }

  /** Two sets of threads that agree but for `t` differ in size by `t`. */
  lemma SwapSize(x: set<Pid>, y: set<Pid>, t: Pid)
    requires forall u :: u != t ==> (u in x <==> u in y)
    ensures |y| == |x| - (if t in x then 1 else 0) + (if t in y then 1 else 0)
  {
    var rest := x - {t};
    assert forall u :: u in rest <==> u in y && u != t;
    assert rest == y - {t};
    assert x == if t in x then rest + {t} else rest;
    assert y == if t in y then rest + {t} else rest;
  }
}
