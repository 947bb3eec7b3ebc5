/** The library refines its specification: every step of SyncLib is a step of Monitor by
    the same thread or changes nothing Monitor can see. */
module Refinement {
  import opened Options
  import opened Handshake
  import opened SyncLib
  import Monitor

  /** A thread in cv_wait that has given up the mutex. */
  function OutsideMutex(s: Lib, t: Pid, c: nat, m: nat): Monitor.Status {
    if s.HasCond(c) && t in s.Queue(Clock(c)) then Monitor.Waiting(c, m) else Monitor.Locking(m)
  }

  function InMutexQueue(s: Lib, t: Pid, m: nat): Monitor.Status {
    if s.HasMutex(m) && t in s.Queue(Guard(m)) then Monitor.Queued(m) else Monitor.Running
  }

  function BeforeUnlock(m: nat, r: Ret): Monitor.Status {
    if r.ToCaller? then Monitor.Unlocking(m) else Monitor.Leaving(r.c, m)
  }

  function AfterUnlock(s: Lib, t: Pid, m: nat, r: Ret): Monitor.Status {
    if r.ToCaller? then Monitor.Running else OutsideMutex(s, t, r.c, m)
  }

  function StatusOf(s: Lib, t: Pid): Monitor.Status
    requires s.Known(t)
  {
    match s.PcOf(t)
    case Idle => Monitor.Running
    case LockSpin(m) => Monitor.Locking(m)
    case LockTest(m) => Monitor.Locking(m)
    case LockTake(m) => Monitor.Locking(m)
    case LockTaken(m) => Monitor.Running
    case LockEnq(m) => Monitor.Locking(m)
    case LockSetPark(m) => Monitor.Queued(m)
    case LockRelease(m) => Monitor.Queued(m)
    case LockPark(m) => InMutexQueue(s, t, m)
    case LockParked(m) => InMutexQueue(s, t, m)
    case UnlockSpin(m, r) => BeforeUnlock(m, r)
    case UnlockTest(m, r) => BeforeUnlock(m, r)
    case UnlockClear(m, r) => BeforeUnlock(m, r)
    case UnlockDeq(m, r) => BeforeUnlock(m, r)
    case UnlockUnpark(m, _, r) => AfterUnlock(s, t, m, r)
    case UnlockRelease(m, r) => AfterUnlock(s, t, m, r)
    case WaitSpin(c, m) => Monitor.Entering(c, m)
    case WaitEnq(c, m) => Monitor.Entering(c, m)
    case WaitSetPark(c, m) => Monitor.Leaving(c, m)
    case WaitRelease(c, m) => Monitor.Leaving(c, m)
    case WaitPark(c, m) => OutsideMutex(s, t, c, m)
    case WaitParked(c, m) => OutsideMutex(s, t, c, m)
    case SigSpin(c, all) => Monitor.Signalling(c, all)
    case SigTest(c, all) => Monitor.Signalling(c, all)
    case SigDeq(c, all) => Monitor.Signalling(c, all)
    case SigUnpark(c, _, all) => if all then Monitor.Signalling(c, all) else Monitor.Running
    case SigRelease(c, all) => Monitor.Running
  }

  predicate StatusMatch(s: Lib, status: map<Pid, Monitor.Status>) {
    && status.Keys == s.core.threads.Keys
    && (forall t :: t in s.core.threads ==> status[t] == StatusOf(s, t))
  }

  predicate LocksMatch(s: Lib, locks: map<nat, Monitor.FifoLock>) {
    && locks.Keys == s.mutexes.Keys
    && (forall m :: m in s.mutexes ==>
          s.HasMutex(m) && locks[m] == Monitor.FifoLock(s.mutexes[m].owner, s.Queue(Guard(m))))
  }

  predicate CondsMatch(s: Lib, conds: map<nat, seq<Pid>>) {
    && (forall c :: c in conds ==> s.HasCond(c) && conds[c] == s.Queue(Clock(c)))
    && (forall id :: id in s.core.queues && id.Clock? ==> id.c in conds)
  }

  /** The refinement relation: `a` is what Monitor sees of `s`. */
  predicate Matches(s: Lib, a: Monitor.State) {
    StatusMatch(s, a.status) && LocksMatch(s, a.locks) && CondsMatch(s, a.conds)
  }

  /** The step at which an operation takes effect: the flag test-and-set or queue_add of
      mutex_lock, the flag reset or queue_remove of mutex_unlock, the queue_add of cv_wait,
      and the queue_remove or empty test of cv_signal and cv_broadcast. */
  predicate TakesEffect(s: Lib, t: Pid) {
    Enabled(s, t) &&
    match s.PcOf(t)
    case LockTake(_) => true
    case LockEnq(_) => true
    case UnlockClear(_, _) => true
    case UnlockDeq(_, _) => true
    case WaitEnq(_, _) => true
    case SigTest(c, _) => s.Queue(Clock(c)) == []
    case SigDeq(_, _) => true
    case _ => false
  }

  predicate SameObjects(s: Lib, s': Lib) {
    && s'.core.threads.Keys == s.core.threads.Keys
    && s'.core.queues.Keys == s.core.queues.Keys
    && s'.mutexes.Keys == s.mutexes.Keys
  }

  /** What a step did: to the queues apart from `id`, to the owners apart from `m`, to the
      statuses apart from those of `t` and `p`. */
  predicate OnlyQueue(s: Lib, s': Lib, id: Option<Id>)
  {
    SameObjects(s, s') &&
    forall i :: i in s.core.queues && id != Some(i) ==> s'.Queue(i) == s.Queue(i)
  }

  predicate OnlyOwner(s: Lib, s': Lib, m: Option<nat>)
  {
    SameObjects(s, s') &&
    forall n :: n in s.mutexes && m != Some(n) ==> s'.mutexes[n].owner == s.mutexes[n].owner
  }

  ghost predicate OnlyStatus(s: Lib, s': Lib, t: Pid, p: Pid)
  {
    SameObjects(s, s') &&
    forall u :: s.Known(u) && u != t && u != p ==> StatusOf(s', u) == StatusOf(s, u)
  }

  lemma StatusUpdate(s: Lib, s': Lib, status: map<Pid, Monitor.Status>, t: Pid, p: Pid)
    requires SameObjects(s, s') && OnlyStatus(s, s', t, p) && StatusMatch(s, status) && s.Known(t) && s.Known(p)
    ensures StatusMatch(s', status[p := StatusOf(s', p)][t := StatusOf(s', t)])
  {
    hide StatusOf;
  }

  lemma LocksUpdate(s: Lib, s': Lib, locks: map<nat, Monitor.FifoLock>, m: nat)
    requires SameObjects(s, s') && s.HasMutex(m) && LocksMatch(s, locks)
    requires OnlyQueue(s, s', Some(Guard(m))) && OnlyOwner(s, s', Some(m))
    ensures LocksMatch(s', locks[m := Monitor.FifoLock(s'.mutexes[m].owner, s'.Queue(Guard(m)))])
  {
  }

  lemma LocksSame(s: Lib, s': Lib, locks: map<nat, Monitor.FifoLock>)
    requires SameObjects(s, s') && LocksMatch(s, locks) && OnlyOwner(s, s', None)
    requires forall m :: Guard(m) in s.core.queues ==> s'.Queue(Guard(m)) == s.Queue(Guard(m))
    ensures LocksMatch(s', locks)
  {
  }

  lemma CondsUpdate(s: Lib, s': Lib, conds: map<nat, seq<Pid>>, c: nat)
    requires SameObjects(s, s') && s.HasCond(c) && CondsMatch(s, conds) && OnlyQueue(s, s', Some(Clock(c)))
    ensures CondsMatch(s', conds[c := s'.Queue(Clock(c))])
  {
  }

  lemma CondsSame(s: Lib, s': Lib, conds: map<nat, seq<Pid>>)
    requires SameObjects(s, s') && CondsMatch(s, conds)
    requires forall c :: s.HasCond(c) ==> s'.Queue(Clock(c)) == s.Queue(Clock(c))
    ensures CondsMatch(s', conds)
  {
  }

  /** A thread that does not step keeps its status unless it is taken off a queue. */
  lemma OtherStatus(s: Lib, t: Pid, s': Lib, u: Pid)
    requires s.Known(t) && s.Known(u) && u != t && Frame(s, t, s')
    requires forall id :: id in s.core.queues ==> (u in s'.Queue(id) <==> u in s.Queue(id))
    ensures StatusOf(s', u) == StatusOf(s, u)
  {
  }

  /** Steps that Monitor does not see. */
  predicate Quiet(s: Lib, t: Pid, s': Lib) {
    && s.Known(t) && SameObjects(s, s') && StatusOf(s', t) == StatusOf(s, t)
    && OnlyQueue(s, s', None) && OnlyOwner(s, s', None)
  }

  lemma QuietMatches(s: Lib, t: Pid, s': Lib, a: Monitor.State)
    requires s.Known(t) && Frame(s, t, s') && Quiet(s, t, s') && Matches(s, a)
    ensures Matches(s', a)
  {
    hide StatusOf;
    forall u | s.Known(u) ensures StatusOf(s', u) == StatusOf(s, u) {
      if u != t { OtherStatus(s, t, s', u); }
    }
    LocksSame(s, s', a.locks);
    CondsSame(s, s', a.conds);
  }

  lemma LockQuiet(s: Lib, t: Pid)
    requires Ready(s, t) && FlagsOk(s.core, t) && InLock(s.PcOf(t)) && !TakesEffect(s, t)
    ensures Quiet(s, t, LockStep(s, t))
  {
  }

  lemma UnlockQuiet(s: Lib, t: Pid)
    requires Ready(s, t) && InUnlock(s.PcOf(t)) && !TakesEffect(s, t)
    ensures Quiet(s, t, UnlockStep(s, t))
  {
  }

  lemma WaitQuiet(s: Lib, t: Pid)
    requires Ready(s, t) && FlagsOk(s.core, t) && InWait(s.PcOf(t)) && !TakesEffect(s, t)
    ensures Quiet(s, t, WaitStep(s, t))
  {
  }

  lemma SignalQuiet(s: Lib, t: Pid)
    requires Ready(s, t) && InSignal(s.PcOf(t)) && !TakesEffect(s, t)
    ensures Quiet(s, t, SignalStep(s, t))
  {
  }

  /** A step that appends its own thread to a queue, or takes nobody off any queue, leaves
      the status of the others alone. */
  lemma OthersKeep(s: Lib, t: Pid, s': Lib)
    requires s.Known(t) && Frame(s, t, s')
    requires forall id :: id in s.core.queues ==> s'.Queue(id) == s.Queue(id) || s'.Queue(id) == s.Queue(id) + [t]
    ensures OnlyStatus(s, s', t, t)
  {
    hide StatusOf;
    forall u | s.Known(u) && u != t ensures StatusOf(s', u) == StatusOf(s, u) { OtherStatus(s, t, s', u); }
  }

  /** Likewise for a step that takes the first process off queue `id`. */
  lemma OthersKeepDequeue(s: Lib, t: Pid, s': Lib, id: Id)
    requires s.Known(t) && Frame(s, t, s') && id in s.core.queues && s.Queue(id) != []
    requires OnlyQueue(s, s', Some(id)) && s'.Queue(id) == s.Queue(id)[1..] && NoDup(s.Queue(id))
    ensures OnlyStatus(s, s', t, s.Queue(id)[0])
  {
    hide StatusOf;
    DequeueMembers(s.Queue(id));
    forall u | s.Known(u) && u != t && u != s.Queue(id)[0] ensures StatusOf(s', u) == StatusOf(s, u) {
      OtherStatus(s, t, s', u);
    }
  }

  lemma LockEffect(s: Lib, t: Pid, a: Monitor.State)
    requires Matches(s, a) && Ready(s, t) && InLock(s.PcOf(t)) && TakesEffect(s, t)
    requires PcFacts(s, t) && MutexOk(s, s.PcOf(t).m)
    ensures Monitor.Enabled(a, t) && Matches(LockStep(s, t), Monitor.Step(a, t))
  {
    var (s', m) := (LockStep(s, t), s.PcOf(t).m);
    LockFrame(s, t);
    OthersKeep(s, t, s');
    LockOutcome(s, t);
    LockMatches(s, t, s', a, m);
  }

  lemma LockOutcome(s: Lib, t: Pid)
    requires Ready(s, t) && InLock(s.PcOf(t)) && TakesEffect(s, t) && PcFacts(s, t) && MutexOk(s, s.PcOf(t).m)
    ensures Locked(s, t, LockStep(s, t), s.PcOf(t).m)
  {
  }

  /** mutex_lock(m) takes effect: the caller owns the mutex or joins its queue. */
  predicate Locked(s: Lib, t: Pid, s': Lib, m: nat) {
    && s.Known(t) && s.HasMutex(m)
    && OnlyQueue(s, s', Some(Guard(m))) && OnlyOwner(s, s', Some(m))
    && StatusOf(s, t) == Monitor.Locking(m)
    && if s.mutexes[m].owner.None? then
         StatusOf(s', t) == Monitor.Running && s'.mutexes[m].owner == Some(t) && s'.Queue(Guard(m)) == s.Queue(Guard(m))
       else
         StatusOf(s', t) == Monitor.Queued(m) && s'.mutexes[m].owner == s.mutexes[m].owner
         && s'.Queue(Guard(m)) == s.Queue(Guard(m)) + [t]
  }

  lemma LockMatches(s: Lib, t: Pid, s': Lib, a: Monitor.State, m: nat)
    requires Matches(s, a) && Locked(s, t, s', m) && OnlyStatus(s, s', t, t)
    ensures Monitor.Enabled(a, t) && Matches(s', Monitor.Step(a, t))
  {
    hide StatusOf;
    StatusUpdate(s, s', a.status, t, t);
    LocksUpdate(s, s', a.locks, m);
    CondsSame(s, s', a.conds);
  }

  /** The status of a thread that has just given up a mutex. */
  function Released(s: Lib, t: Pid, x: Monitor.Status): Monitor.Status {
    if x.Leaving? then OutsideMutex(s, t, x.c, x.m) else Monitor.Running
  }

  /** mutex_unlock(m) takes effect: the mutex is free or belongs to the first in its queue. */
  predicate Unlocked(s: Lib, t: Pid, s': Lib, m: nat, p: Pid) {
    && s.Known(t) && s.Known(p) && s.HasMutex(m)
    && OnlyQueue(s, s', Some(Guard(m))) && OnlyOwner(s, s', Some(m))
    && (StatusOf(s, t) == Monitor.Unlocking(m)
        || (StatusOf(s, t).Leaving? && StatusOf(s, t).m == m && s.HasCond(StatusOf(s, t).c)))
    && StatusOf(s', t) == Released(s, t, StatusOf(s, t))
    && if s.Queue(Guard(m)) == [] then
         p == t && s'.mutexes[m].owner.None? && s'.Queue(Guard(m)) == []
       else
         && p == s.Queue(Guard(m))[0] && p != t && StatusOf(s', p) == Monitor.Running
         && s'.mutexes[m].owner == Some(p) && s'.Queue(Guard(m)) == s.Queue(Guard(m))[1..]
  }

  lemma UnlockMatches(s: Lib, t: Pid, s': Lib, a: Monitor.State, m: nat, p: Pid)
    requires Matches(s, a) && Unlocked(s, t, s', m, p) && OnlyStatus(s, s', t, p)
    ensures Monitor.Enabled(a, t) && Matches(s', Monitor.Step(a, t))
  {
    hide StatusOf;
    StatusUpdate(s, s', a.status, t, p);
    LocksUpdate(s, s', a.locks, m);
    CondsSame(s, s', a.conds);
  }

  lemma UnlockOutcome(s: Lib, t: Pid, p: Pid)
    requires Ready(s, t) && InUnlock(s.PcOf(t)) && TakesEffect(s, t) && PcFacts(s, t) && HolderOk(s.core, t)
    requires QueueOk(s.core, Guard(s.PcOf(t).m)) && ThreadOk(s.core, p)
    requires p == if s.PcOf(t).UnlockClear? then t else s.Queue(Guard(s.PcOf(t).m))[0]
    ensures Unlocked(s, t, UnlockStep(s, t), s.PcOf(t).m, p)
  {
    hide Unlocked, UnlockStep, PcFacts, HolderOk, QueueOk, ThreadOk;
    if s.PcOf(t).UnlockClear? { ClearOutcome(s, t); } else { DeqOutcome(s, t, p); }
  }

  lemma ClearOutcome(s: Lib, t: Pid)
    requires Ready(s, t) && s.PcOf(t).UnlockClear? && PcFacts(s, t) && HolderOk(s.core, t)
    ensures Unlocked(s, t, UnlockStep(s, t), s.PcOf(t).m, t)
  {
  }

  lemma DeqOutcome(s: Lib, t: Pid, p: Pid)
    requires Ready(s, t) && s.PcOf(t).UnlockDeq? && PcFacts(s, t) && HolderOk(s.core, t)
    requires QueueOk(s.core, Guard(s.PcOf(t).m)) && ThreadOk(s.core, p) && s.Queue(Guard(s.PcOf(t).m)) != []
    requires p == s.Queue(Guard(s.PcOf(t).m))[0]
    ensures Unlocked(s, t, UnlockStep(s, t), s.PcOf(t).m, p)
  {
    DequeueMembers(s.Queue(Guard(s.PcOf(t).m)));
  }

  lemma UnlockEffect(s: Lib, t: Pid, a: Monitor.State)
    requires Matches(s, a) && SyncLib.Inv(s) && Ready(s, t) && InUnlock(s.PcOf(t)) && TakesEffect(s, t)
    ensures Monitor.Enabled(a, t) && Matches(UnlockStep(s, t), Monitor.Step(a, t))
  {
    var (s', m) := (UnlockStep(s, t), s.PcOf(t).m);
    assert PcFacts(s, t) && MutexOk(s, m) && ThreadOk(s.core, t) && QueueOk(s.core, Guard(m));
    UnlockFrame(s, t);
    var p := if s.PcOf(t).UnlockClear? then t else s.Queue(Guard(m))[0];
    assert ThreadOk(s.core, p);
    hide SyncLib.Inv, Handshake.Inv, StatusOf;
    UnlockOutcome(s, t, p);
    if s.PcOf(t).UnlockClear? { OthersKeep(s, t, s'); } else { OthersKeepDequeue(s, t, s', Guard(m)); }
    UnlockMatches(s, t, s', a, m, p);
  }

  /** cv_wait(c, m) takes effect: the caller is in the queue of the condition variable. */
  predicate Entered(s: Lib, t: Pid, s': Lib, c: nat, m: nat) {
    && s.Known(t) && s.HasCond(c)
    && OnlyQueue(s, s', Some(Clock(c))) && OnlyOwner(s, s', None)
    && StatusOf(s, t) == Monitor.Entering(c, m) && StatusOf(s', t) == Monitor.Leaving(c, m)
    && s'.Queue(Clock(c)) == s.Queue(Clock(c)) + [t]
  }

  lemma WaitMatches(s: Lib, t: Pid, s': Lib, a: Monitor.State, c: nat, m: nat)
    requires Matches(s, a) && Entered(s, t, s', c, m) && OnlyStatus(s, s', t, t)
    ensures Monitor.Enabled(a, t) && Matches(s', Monitor.Step(a, t))
  {
    hide StatusOf;
    StatusUpdate(s, s', a.status, t, t);
    LocksSame(s, s', a.locks);
    CondsUpdate(s, s', a.conds, c);
  }

  lemma WaitEffect(s: Lib, t: Pid, a: Monitor.State)
    requires Matches(s, a) && Ready(s, t) && InWait(s.PcOf(t)) && TakesEffect(s, t)
    ensures Monitor.Enabled(a, t) && Matches(WaitStep(s, t), Monitor.Step(a, t))
  {
    hide Matches;
    var (s', c, m) := (WaitStep(s, t), s.PcOf(t).c, s.PcOf(t).m);
    WaitFrame(s, t);
    OthersKeep(s, t, s');
    WaitMatches(s, t, s', a, c, m);
  }

  /** The status of a thread taken off the queue of a condition variable. */
  function Woken(x: Monitor.Status): Monitor.Status {
    if x.Waiting? then Monitor.Locking(x.m) else x
  }

  /** cv_signal(c), or one round of cv_broadcast(c), takes effect. */
  predicate Signalled(s: Lib, t: Pid, s': Lib, c: nat, p: Pid) {
    && s.Known(t) && s.Known(p) && s.HasCond(c)
    && OnlyQueue(s, s', Some(Clock(c))) && OnlyOwner(s, s', None)
    && StatusOf(s, t).Signalling? && StatusOf(s, t).c == c
    && if s.Queue(Clock(c)) == [] then
         p == t && StatusOf(s', t) == Monitor.Running && s'.Queue(Clock(c)) == []
       else
         && p == s.Queue(Clock(c))[0] && p != t && StatusOf(s', p) == Woken(StatusOf(s, p))
         && StatusOf(s', t) == (if StatusOf(s, t).all then StatusOf(s, t) else Monitor.Running)
         && s'.Queue(Clock(c)) == s.Queue(Clock(c))[1..]
  }

  lemma SignalMatches(s: Lib, t: Pid, s': Lib, a: Monitor.State, c: nat, p: Pid)
    requires Matches(s, a) && Signalled(s, t, s', c, p) && OnlyStatus(s, s', t, p)
    ensures Monitor.Enabled(a, t) && Matches(s', Monitor.Step(a, t))
  {
    hide StatusOf;
    StatusUpdate(s, s', a.status, t, p);
    LocksSame(s, s', a.locks);
    CondsUpdate(s, s', a.conds, c);
  }

  lemma SignalOutcome(s: Lib, t: Pid, p: Pid)
    requires Ready(s, t) && InSignal(s.PcOf(t)) && TakesEffect(s, t) && PcFacts(s, t) && HolderOk(s.core, t)
    requires QueueOk(s.core, Clock(s.PcOf(t).c)) && ThreadOk(s.core, p)
    requires p == if s.PcOf(t).SigTest? then t else s.Queue(Clock(s.PcOf(t).c))[0]
    ensures Signalled(s, t, SignalStep(s, t), s.PcOf(t).c, p)
  {
    hide Signalled, SignalStep, PcFacts, HolderOk, QueueOk, ThreadOk;
    if s.PcOf(t).SigTest? { TestOutcome(s, t); } else { SigDeqOutcome(s, t, p); }
  }

  lemma TestOutcome(s: Lib, t: Pid)
    requires Ready(s, t) && s.PcOf(t).SigTest? && TakesEffect(s, t) && PcFacts(s, t) && HolderOk(s.core, t)
    ensures Signalled(s, t, SignalStep(s, t), s.PcOf(t).c, t)
  {
  }

  lemma SigDeqOutcome(s: Lib, t: Pid, p: Pid)
    requires Ready(s, t) && s.PcOf(t).SigDeq? && PcFacts(s, t) && HolderOk(s.core, t)
    requires QueueOk(s.core, Clock(s.PcOf(t).c)) && ThreadOk(s.core, p) && s.Queue(Clock(s.PcOf(t).c)) != []
    requires p == s.Queue(Clock(s.PcOf(t).c))[0]
    ensures Signalled(s, t, SignalStep(s, t), s.PcOf(t).c, p)
  {
    DequeueMembers(s.Queue(Clock(s.PcOf(t).c)));
  }

  lemma SignalEffect(s: Lib, t: Pid, a: Monitor.State)
    requires Matches(s, a) && SyncLib.Inv(s) && Ready(s, t) && InSignal(s.PcOf(t)) && TakesEffect(s, t)
    ensures Monitor.Enabled(a, t) && Matches(SignalStep(s, t), Monitor.Step(a, t))
  {
    var (s', c) := (SignalStep(s, t), s.PcOf(t).c);
    assert PcFacts(s, t) && ThreadOk(s.core, t) && QueueOk(s.core, Clock(c));
    SignalFrame(s, t);
    var p := if s.PcOf(t).SigTest? then t else s.Queue(Clock(c))[0];
    assert ThreadOk(s.core, p);
    hide SyncLib.Inv, Handshake.Inv, StatusOf;
    SignalOutcome(s, t, p);
    if s.PcOf(t).SigTest? { OthersKeep(s, t, s'); } else { OthersKeepDequeue(s, t, s', Clock(c)); }
    SignalMatches(s, t, s', a, c, p);
  }

  /** Every step of the library is a step of its specification, taken by the same thread,
      or one that the specification does not see. */
  lemma StepRefines(s: Lib, t: Pid, a: Monitor.State)
    requires SyncLib.Inv(s) && Matches(s, a) && Ready(s, t)
    ensures TakesEffect(s, t) ==> Monitor.Enabled(a, t) && Matches(Step(s, t), Monitor.Step(a, t))
    ensures !TakesEffect(s, t) ==> Matches(Step(s, t), a)
  {
    assert PcFacts(s, t) && ThreadOk(s.core, t);
    StepFrame(s, t);
    hide Matches;
    if TakesEffect(s, t) {
      if InLock(s.PcOf(t)) { LockEffect(s, t, a); }
      else if InUnlock(s.PcOf(t)) { UnlockEffect(s, t, a); }
      else if InWait(s.PcOf(t)) { WaitEffect(s, t, a); }
      else { SignalEffect(s, t, a); }
    } else {
      if InLock(s.PcOf(t)) { LockQuiet(s, t); }
      else if InUnlock(s.PcOf(t)) { UnlockQuiet(s, t); }
      else if InWait(s.PcOf(t)) { WaitQuiet(s, t); }
      else { SignalQuiet(s, t); }
      QuietMatches(s, t, Step(s, t), a);
    }
  }

  /** The status in which an operation starts. */
  function EntryStatus(op: Op): Monitor.Status {
    match op
    case Lock(m) => Monitor.Locking(m)
    case Unlock(m) => Monitor.Unlocking(m)
    case Wait(c, m) => Monitor.Entering(c, m)
    case Signal(c) => Monitor.Signalling(c, false)
    case Broadcast(c) => Monitor.Signalling(c, true)
  }

  lemma CallOutcome(s: Lib, t: Pid, op: Op)
    requires CallOk(s, t, op)
    ensures StatusOf(s, t) == Monitor.Running && StatusOf(Call(s, t, op), t) == EntryStatus(op)
    ensures OnlyQueue(s, Call(s, t, op), None) && OnlyOwner(s, Call(s, t, op), None)
  {
  }

  lemma CallRefines(s: Lib, t: Pid, op: Op, a: Monitor.State)
    requires Matches(s, a) && CallOk(s, t, op)
    ensures a.Has(t) && a.status[t].Running?
    ensures Matches(Call(s, t, op), a.Set(t, EntryStatus(op)))
  {
    hide StatusOf, EntryStatus;
    var s' := Call(s, t, op);
    CallFrame(s, t, op);
    CallOutcome(s, t, op);
    OthersKeep(s, t, s');
    StatusUpdate(s, s', a.status, t, t);
    LocksSame(s, s', a.locks);
    CondsSame(s, s', a.conds);
  }

  /** If no thread can move inside the library, every thread is outside it or blocked in a
      queue of the specification. */
  lemma StuckRefines(s: Lib, t: Pid, a: Monitor.State)
    requires SyncLib.Inv(s) && Matches(s, a) && s.Known(t) && (forall u :: s.Known(u) ==> !Enabled(s, u))
    ensures s.PcOf(t).Idle? || a.status[t].Queued? || a.status[t].Waiting?
  {
    Stuck(s, t);
  }

  /** What Monitor sees of the state after the init functions. */
  function Initial(s: Lib): Monitor.State {
    Monitor.State(
      map t | t in s.core.threads :: Monitor.Running,
      map m | m in s.mutexes :: Monitor.FifoLock(None, []),
      map id | id in s.core.queues && id.Clock? :: id.c := [])
  }

  lemma InitRefines(s: Lib)
    requires Init(s)
    ensures Matches(s, Initial(s)) && Monitor.Inv(Initial(s))
  {
  }
}
