/** The blocking synchronisation library (user/mutex.c, user/condvar.c) as a step
    system over any number of threads, mutexes and condition variables. */
module SyncLib {
  import opened Options
  import opened ParkFlags
  import opened Handshake

  /** `flag` is the word of struct mutex. `owner`, `arrived` and `granted` are history:
      who holds the mutex, in which order threads passed the guard inside mutex_lock,
      and in which order they were given the mutex. */
  datatype Mutex = Mutex(flag: bool, owner: Option<Pid>, arrived: seq<Pid>, granted: seq<Pid>)

  datatype Lib = Lib(core: Core, mutexes: map<nat, Mutex>) {
    predicate Known(t: Pid) { t in core.threads }

    function PcOf(t: Pid): Pc
      requires Known(t)
    {
      core.threads[t].pc
    }

    function Queue(id: Id): seq<Pid>
      requires id in core.queues
    {
      core.queues[id].q
    }

    predicate HasMutex(m: nat) { m in mutexes && Guard(m) in core.queues }

    predicate HasCond(c: nat) { Clock(c) in core.queues }

    function With(c: Core): Lib { this.(core := c) }

    function SetMutex(m: nat, w: Mutex): Lib { this.(mutexes := mutexes[m := w]) }
  }

  /** The calls a client can make. */
  datatype Op = Lock(m: nat) | Unlock(m: nat) | Wait(c: nat, m: nat) | Signal(c: nat) | Broadcast(c: nat)

  /** Clients name objects that exist, and only the owner of a mutex unlocks it or
      passes it to cv_wait. */
  predicate CallOk(s: Lib, t: Pid, op: Op) {
    && s.Known(t) && s.PcOf(t).Idle?
    && match op
       case Lock(m) => s.HasMutex(m)
       case Unlock(m) => s.HasMutex(m) && s.mutexes[m].owner == Some(t)
       case Wait(c, m) => s.HasCond(c) && s.HasMutex(m) && s.mutexes[m].owner == Some(t)
       case Signal(c) => s.HasCond(c)
       case Broadcast(c) => s.HasCond(c)
  }

  function EntryPc(op: Op): Pc {
    match op
    case Lock(m) => LockSpin(m)
    case Unlock(m) => UnlockSpin(m, ToCaller)
    case Wait(c, m) => WaitSpin(c, m)
    case Signal(c) => SigSpin(c, false)
    case Broadcast(c) => SigSpin(c, true)
  }

  function Call(s: Lib, t: Pid, op: Op): Lib
    requires CallOk(s, t, op)
  {
    s.With(s.core.SetPc(t, EntryPc(op)))
  }

  /** The objects a program counter names exist. */
  predicate PcKnown(s: Lib, pc: Pc) {
    match pc
    case Idle => true
    case LockSpin(m) => s.HasMutex(m)
    case LockTest(m) => s.HasMutex(m)
    case LockTake(m) => s.HasMutex(m)
    case LockTaken(m) => s.HasMutex(m)
    case LockEnq(m) => s.HasMutex(m)
    case LockSetPark(m) => s.HasMutex(m)
    case LockRelease(m) => s.HasMutex(m)
    case LockPark(m) => s.HasMutex(m)
    case LockParked(m) => s.HasMutex(m)
    case UnlockSpin(m, r) => s.HasMutex(m) && RetKnown(s, r)
    case UnlockTest(m, r) => s.HasMutex(m) && RetKnown(s, r)
    case UnlockClear(m, r) => s.HasMutex(m) && RetKnown(s, r)
    case UnlockDeq(m, r) => s.HasMutex(m) && RetKnown(s, r)
    case UnlockUnpark(m, _, r) => s.HasMutex(m) && RetKnown(s, r)
    case UnlockRelease(m, r) => s.HasMutex(m) && RetKnown(s, r)
    case WaitSpin(c, m) => s.HasCond(c) && s.HasMutex(m)
    case WaitEnq(c, m) => s.HasCond(c) && s.HasMutex(m)
    case WaitSetPark(c, m) => s.HasCond(c) && s.HasMutex(m)
    case WaitRelease(c, m) => s.HasCond(c) && s.HasMutex(m)
    case WaitPark(c, m) => s.HasCond(c) && s.HasMutex(m)
    case WaitParked(c, m) => s.HasCond(c) && s.HasMutex(m)
    case SigSpin(c, _) => s.HasCond(c)
    case SigTest(c, _) => s.HasCond(c)
    case SigDeq(c, _) => s.HasCond(c)
    case SigUnpark(c, _, _) => s.HasCond(c)
    case SigRelease(c, _) => s.HasCond(c)
  }

  predicate RetKnown(s: Lib, r: Ret) {
    r.ToPark? ==> s.HasCond(r.c)
  }

  /** A spinning thread: its xchg returns 1 as long as another thread holds the word. */
  function SpinsOn(pc: Pc): Option<Id> {
    match pc
    case LockSpin(m) => Some(Guard(m))
    case UnlockSpin(m, _) => Some(Guard(m))
    case WaitSpin(c, _) => Some(Clock(c))
    case SigSpin(c, _) => Some(Clock(c))
    case _ => None
  }

  /** The thread can take a step that changes the state: it is inside the library, does
      not spin on a taken lock and is not asleep. */
  predicate Enabled(s: Lib, t: Pid) {
    && s.Known(t)
    && var pc := s.PcOf(t);
       && !pc.Idle? && PcKnown(s, pc)
       && (SpinsOn(pc).Some? ==> s.core.queues[SpinsOn(pc).value].holder.None?)
       && (pc.LockParked? || pc.WaitParked? ==> !s.core.threads[t].park.asleep)
  }

  /** What the step needs from the memory it touches: queue_remove is called on a
      non-empty queue and unpark() names a process that is in the table. */
  predicate Safe(s: Lib, t: Pid) {
    s.Known(t) && PcKnown(s, s.PcOf(t)) &&
    match s.PcOf(t)
    case UnlockDeq(m, _) => s.Queue(Guard(m)) != []
    case UnlockUnpark(_, p, _) => s.Known(p)
    case SigDeq(c, _) => s.Queue(Clock(c)) != []
    case SigUnpark(_, p, _) => s.Known(p)
    case _ => true
  }

  predicate Ready(s: Lib, t: Pid) {
    Enabled(s, t) && Safe(s, t)
  }

  predicate InLock(pc: Pc) {
    pc.LockSpin? || pc.LockTest? || pc.LockTake? || pc.LockTaken? || pc.LockEnq? || pc.LockSetPark?
    || pc.LockRelease? || pc.LockPark? || pc.LockParked?
  }

  predicate InUnlock(pc: Pc) {
    pc.UnlockSpin? || pc.UnlockTest? || pc.UnlockClear? || pc.UnlockDeq? || pc.UnlockUnpark? || pc.UnlockRelease?
  }

  predicate InWait(pc: Pc) {
    pc.WaitSpin? || pc.WaitEnq? || pc.WaitSetPark? || pc.WaitRelease? || pc.WaitPark? || pc.WaitParked?
  }

  predicate InSignal(pc: Pc) {
    pc.SigSpin? || pc.SigTest? || pc.SigDeq? || pc.SigUnpark? || pc.SigRelease?
  }

  /** A step of mutex_lock. */
  function LockStep(s: Lib, t: Pid): Lib
    requires Ready(s, t) && InLock(s.PcOf(t))
  {
    var h := s.core;
    match s.PcOf(t)
    case LockSpin(m) =>
      var w := s.mutexes[m];
      s.With(h.Acquire(t, Guard(m), LockTest(m))).SetMutex(m, w.(arrived := w.arrived + [t]))
    case LockTest(m) =>
      s.With(h.SetPc(t, if s.mutexes[m].flag then LockEnq(m) else LockTake(m)))
    case LockTake(m) =>
      var w := s.mutexes[m];
      s.With(h.SetPc(t, LockTaken(m)))
       .SetMutex(m, w.(flag := true, owner := Some(t), granted := w.granted + [t]))
    case LockTaken(m) => s.With(h.Release(t, Guard(m), Idle))
    case LockEnq(m) => s.With(h.Enqueue(t, Guard(m), LockSetPark(m)))
    case LockSetPark(m) => s.With(h.CallSetPark(t, LockRelease(m)))
    case LockRelease(m) => s.With(h.Release(t, Guard(m), LockPark(m)))
    case LockPark(m) => s.With(h.CallPark(t, LockParked(m), Idle))
    case LockParked(m) => s.With(h.SetPc(t, Idle))
  }

  /** A step of mutex_unlock. */
  function UnlockStep(s: Lib, t: Pid): Lib
    requires Ready(s, t) && InUnlock(s.PcOf(t))
  {
    var h := s.core;
    match s.PcOf(t)
    case UnlockSpin(m, r) => s.With(h.Acquire(t, Guard(m), UnlockTest(m, r)))
    case UnlockTest(m, r) =>
      s.With(h.SetPc(t, if s.Queue(Guard(m)) == [] then UnlockClear(m, r) else UnlockDeq(m, r)))
    case UnlockClear(m, r) =>
      s.With(h.SetPc(t, UnlockRelease(m, r)))
       .SetMutex(m, s.mutexes[m].(flag := false, owner := None))
    case UnlockDeq(m, r) =>
      var p := s.Queue(Guard(m))[0];
      var w := s.mutexes[m];
      s.With(h.Dequeue(t, Guard(m), UnlockUnpark(m, p, r)))
       .SetMutex(m, w.(owner := Some(p), granted := w.granted + [p]))
    case UnlockUnpark(m, p, r) => s.With(h.CallUnpark(t, p, UnlockRelease(m, r)))
    case UnlockRelease(m, r) =>
      s.With(h.Release(t, Guard(m), if r.ToCaller? then Idle else WaitPark(r.c, m)))
  }

  /** A step of cv_wait outside the mutex calls it makes. */
  function WaitStep(s: Lib, t: Pid): Lib
    requires Ready(s, t) && InWait(s.PcOf(t))
  {
    var h := s.core;
    match s.PcOf(t)
    case WaitSpin(c, m) => s.With(h.Acquire(t, Clock(c), WaitEnq(c, m)))
    case WaitEnq(c, m) => s.With(h.Enqueue(t, Clock(c), WaitSetPark(c, m)))
    case WaitSetPark(c, m) => s.With(h.CallSetPark(t, WaitRelease(c, m)))
    case WaitRelease(c, m) => s.With(h.Release(t, Clock(c), UnlockSpin(m, ToPark(c))))
    case WaitPark(c, m) => s.With(h.CallPark(t, WaitParked(c, m), LockSpin(m)))
    case WaitParked(c, m) => s.With(h.SetPc(t, LockSpin(m)))
  }

  /** A step of cv_signal or cv_broadcast. */
  function SignalStep(s: Lib, t: Pid): Lib
    requires Ready(s, t) && InSignal(s.PcOf(t))
  {
    var h := s.core;
    match s.PcOf(t)
    case SigSpin(c, all) => s.With(h.Acquire(t, Clock(c), SigTest(c, all)))
    case SigTest(c, all) =>
      s.With(h.SetPc(t, if s.Queue(Clock(c)) == [] then SigRelease(c, all) else SigDeq(c, all)))
    case SigDeq(c, all) =>
      s.With(h.Dequeue(t, Clock(c), SigUnpark(c, s.Queue(Clock(c))[0], all)))
    case SigUnpark(c, p, all) =>
      s.With(h.CallUnpark(t, p, if all then SigTest(c, all) else SigRelease(c, all)))
    case SigRelease(c, all) => s.With(h.Release(t, Clock(c), Idle))
  }

  /** One atomic step of thread `t`: one xchg, one queue operation, one access to the
      mutex flag or one system call. */
  function Step(s: Lib, t: Pid): Lib
    requires Ready(s, t)
  {
    var pc := s.PcOf(t);
    if InLock(pc) then LockStep(s, t)
    else if InUnlock(pc) then UnlockStep(s, t)
    else if InWait(pc) then WaitStep(s, t)
    else SignalStep(s, t)
  }

  /** The mutex whose ownership thread `t` relies on until it gives it up. */
  function NeedsOwner(pc: Pc): Option<nat> {
    match pc
    case LockTaken(m) => Some(m)
    case UnlockSpin(m, _) => Some(m)
    case UnlockTest(m, _) => Some(m)
    case UnlockClear(m, _) => Some(m)
    case UnlockDeq(m, _) => Some(m)
    case WaitSpin(_, m) => Some(m)
    case WaitEnq(_, m) => Some(m)
    case WaitSetPark(_, m) => Some(m)
    case WaitRelease(_, m) => Some(m)
    case _ => None
  }

  /** What a thread has learnt under a spinlock, and which mutex it owns. */
  predicate PcFacts(s: Lib, t: Pid) {
    s.Known(t) && PcKnown(s, s.PcOf(t)) &&
    var pc := s.PcOf(t);
    && (NeedsOwner(pc).Some? ==> s.mutexes[NeedsOwner(pc).value].owner == Some(t))
    && match pc
       case LockTake(m) => !s.mutexes[m].flag
       case LockEnq(m) => s.mutexes[m].flag
       case LockPark(m) => t in s.Queue(Guard(m)) || s.mutexes[m].owner == Some(t)
       case LockParked(m) => t in s.Queue(Guard(m)) || s.mutexes[m].owner == Some(t)
       case UnlockClear(m, _) => s.Queue(Guard(m)) == []
       case UnlockDeq(m, _) => s.Queue(Guard(m)) != []
       case SigDeq(c, _) => s.Queue(Clock(c)) != []
       case _ => true
  }

  /** The thread that has passed the guard in mutex_lock and is neither granted nor queued. */
  function Arriving(s: Lib, m: nat): seq<Pid>
    requires s.HasMutex(m)
  {
    var holder := s.core.queues[Guard(m)].holder;
    if holder.Some? && s.Known(holder.value)
       && s.PcOf(holder.value) in {LockTest(m), LockTake(m), LockEnq(m)}
    then [holder.value] else []
  }

  /** The mutex is a FIFO lock: arrivals are grants followed by the queue. */
  predicate MutexOk(s: Lib, m: nat) {
    s.HasMutex(m) &&
    var w := s.mutexes[m];
    && w.flag == w.owner.Some?
    && (s.Queue(Guard(m)) != [] ==> w.flag)
    && w.arrived == w.granted + s.Queue(Guard(m)) + Arriving(s, m)
    && (w.owner.Some? ==> w.granted != [] && w.granted[|w.granted| - 1] == w.owner.value)
  }

  ghost predicate Inv(s: Lib) {
    && Handshake.Inv(s.core)
    && (forall m :: m in s.mutexes ==> MutexOk(s, m))
    && (forall t :: s.Known(t) ==> PcFacts(s, t))
  }

  /** Every object is free and every thread outside the library: the state after the
      init functions. */
  ghost predicate Init(s: Lib) {
    && (forall t :: s.Known(t) ==> s.core.threads[t] == Thread(Idle, CLEAR))
    && (forall id :: id in s.core.queues ==> s.core.queues[id] == PidQueue(None, []))
    && (forall m :: m in s.mutexes ==> Guard(m) in s.core.queues && s.mutexes[m] == Mutex(false, None, [], []))
  }

  lemma InitInv(s: Lib)
    requires Init(s)
    ensures Inv(s)
  {
  }

  /** queue_remove never sees an empty queue, and unpark() never names a process outside
      the table and never takes its "not parked or ready" branch. */
  lemma InvSafe(s: Lib, t: Pid)
    requires Inv(s) && Enabled(s, t)
    ensures Safe(s, t)
    ensures forall id, p :: TargetOf(s.PcOf(t)) == Target(id, p) ==>
              s.Known(p) && p != t && !UnparkRefused(s.core.threads[p].park)
  {
    assert ThreadOk(s.core, t);
    var g := TargetOf(s.PcOf(t));
    if g.Target? {
      assert ThreadOk(s.core, g.pid);
      assert Pending(s.core, g.id, g.pid);
    }
  }

  /** What a step of `t` can change: of the other threads only park flags, and of the
      queues and mutexes only those under a spinlock that `t` holds. */
  predicate Frame(s: Lib, t: Pid, s': Lib)
    requires s.Known(t)
  {
    && s'.core.threads.Keys == s.core.threads.Keys
    && s'.core.queues.Keys == s.core.queues.Keys
    && s'.mutexes.Keys == s.mutexes.Keys
    && (forall u :: u in s.core.threads && u != t ==> s'.PcOf(u) == s.PcOf(u))
    && (forall id :: id in s.core.queues && Holds(s.PcOf(t)) != Some(id) ==> s'.Queue(id) == s.Queue(id))
    && (forall m :: m in s.mutexes && Holds(s.PcOf(t)) != Some(Guard(m)) ==>
          s'.mutexes[m].flag == s.mutexes[m].flag && s'.mutexes[m].owner == s.mutexes[m].owner)
    && (forall m :: m in s.mutexes && s.HasMutex(m) && Holds(s.PcOf(t)) == Some(Guard(m)) ==> GuardFrame(s, t, m, s'))
  }

  /** The order in which the mutex is or will be granted to those admitted so far. */
  function Schedule(s: Lib, m: nat): seq<Pid>
    requires s.HasMutex(m)
  {
    s.mutexes[m].granted + s.Queue(Guard(m))
  }

  predicate LogsGrow(s: Lib, m: nat, s': Lib)
    requires s.HasMutex(m)
  {
    && s'.HasMutex(m)
    && s.mutexes[m].arrived <= s'.mutexes[m].arrived
    && s.mutexes[m].granted <= s'.mutexes[m].granted
    && Schedule(s, m) <= Schedule(s', m)
  }

  /** How a thread may change the mutex whose guard it holds. */
  predicate GuardFrame(s: Lib, t: Pid, m: nat, s': Lib)
    requires s.Known(t) && s.HasMutex(m) && s'.HasMutex(m)
  {
    var (w, w') := (s.mutexes[m], s'.mutexes[m]);
    var (q, q') := (s.Queue(Guard(m)), s'.Queue(Guard(m)));
    || (w' == w && q' == q)
    || (w' == w && q' == q + [t])
    || (q' == q && w.owner == None && w'.owner == Some(t))
    || (q' == q == [] && w.owner == Some(t) && w'.owner == None)
    || (q != [] && q' == q[1..] && w.owner == Some(t) && w'.owner == Some(q[0]))
  }

  lemma LockFrame(s: Lib, t: Pid)
    requires Ready(s, t) && InLock(s.PcOf(t))
    requires PcFacts(s, t) && MutexOk(s, s.PcOf(t).m)
    ensures Frame(s, t, LockStep(s, t))
  {
  }

  lemma UnlockFrame(s: Lib, t: Pid)
    requires Ready(s, t) && InUnlock(s.PcOf(t))
    requires PcFacts(s, t) && MutexOk(s, s.PcOf(t).m)
    ensures Frame(s, t, UnlockStep(s, t))
  {
  }

  lemma WaitFrame(s: Lib, t: Pid)
    requires Ready(s, t) && InWait(s.PcOf(t))
    ensures Frame(s, t, WaitStep(s, t))
  {
  }

  lemma SignalFrame(s: Lib, t: Pid)
    requires Ready(s, t) && InSignal(s.PcOf(t))
    ensures Frame(s, t, SignalStep(s, t))
  {
  }

  /** The facts of the threads that do not step survive any step within the frame. */
  lemma FrameFacts(s: Lib, t: Pid, s': Lib, u: Pid)
    requires s.Known(t) && s.Known(u) && u != t && Frame(s, t, s')
    requires HolderOk(s.core, t) && HolderOk(s.core, u) && PcFacts(s, u)
    ensures PcFacts(s', u)
  {
  }

  lemma LockFacts(s: Lib, t: Pid)
    requires Ready(s, t) && InLock(s.PcOf(t)) && FlagsOk(s.core, t) && PcFacts(s, t)
    ensures PcFacts(LockStep(s, t), t)
  {
  }

  lemma UnlockFacts(s: Lib, t: Pid)
    requires Ready(s, t) && InUnlock(s.PcOf(t)) && PcFacts(s, t)
    ensures PcFacts(UnlockStep(s, t), t)
  {
  }

  lemma WaitFacts(s: Lib, t: Pid)
    requires Ready(s, t) && InWait(s.PcOf(t)) && PcFacts(s, t)
    ensures PcFacts(WaitStep(s, t), t)
  {
  }

  lemma SignalFacts(s: Lib, t: Pid)
    requires Ready(s, t) && InSignal(s.PcOf(t)) && PcFacts(s, t)
    ensures PcFacts(SignalStep(s, t), t)
  {
  }

  /** A mutex whose guard is neither held nor taken by the stepping thread is untouched. */
  lemma OtherMutex(s: Lib, t: Pid, s': Lib, m: nat)
    requires s.Known(t) && s'.Known(t) && s.HasMutex(m) && s'.HasMutex(m) && MutexOk(s, m) && QueueOk(s.core, Guard(m))
    requires s'.core.threads.Keys == s.core.threads.Keys
    requires forall u :: u in s.core.threads && u != t ==> s'.PcOf(u) == s.PcOf(u)
    requires Holds(s.PcOf(t)) != Some(Guard(m))
    requires s'.core.queues[Guard(m)] == s.core.queues[Guard(m)] && s'.mutexes[m] == s.mutexes[m]
    ensures MutexOk(s', m)
  {
  }

  lemma LockMutex(s: Lib, t: Pid, m: nat)
    requires Ready(s, t) && InLock(s.PcOf(t)) && PcFacts(s, t)
    requires HolderOk(s.core, t) && MutexOk(s, m) && QueueOk(s.core, Guard(m))
    ensures LogsGrow(s, m, LockStep(s, t)) && MutexOk(LockStep(s, t), m)
  {
    var s' := LockStep(s, t);
    if s.PcOf(t).m != m {
      OtherMutex(s, t, s', m);
    } else if s.PcOf(t).LockPark? || s.PcOf(t).LockParked? {
      OtherMutex(s, t, s', m);
    }
  }

  lemma UnlockMutex(s: Lib, t: Pid, m: nat)
    requires Ready(s, t) && InUnlock(s.PcOf(t)) && PcFacts(s, t)
    requires HolderOk(s.core, t) && MutexOk(s, m) && QueueOk(s.core, Guard(m))
    ensures LogsGrow(s, m, UnlockStep(s, t)) && MutexOk(UnlockStep(s, t), m)
  {
    var s' := UnlockStep(s, t);
    if s.PcOf(t).m != m {
      OtherMutex(s, t, s', m);
    } else if s.PcOf(t).UnlockDeq? {
      HandOffMutex(s, t, m);
    }
  }

  lemma HandOffMutex(s: Lib, t: Pid, m: nat)
    requires Ready(s, t) && s.PcOf(t).UnlockDeq? && s.PcOf(t).m == m && PcFacts(s, t)
    requires HolderOk(s.core, t) && MutexOk(s, m)
    ensures LogsGrow(s, m, UnlockStep(s, t)) && MutexOk(UnlockStep(s, t), m)
  {
    var (s', q, g) := (UnlockStep(s, t), s.Queue(Guard(m)), s.mutexes[m].granted);
    assert Arriving(s, m) == [] && Arriving(s', m) == [];
    assert Schedule(s', m) == g + [q[0]] + q[1..] == Schedule(s, m);
  }

  lemma WaitMutex(s: Lib, t: Pid, m: nat)
    requires Ready(s, t) && InWait(s.PcOf(t)) && MutexOk(s, m) && QueueOk(s.core, Guard(m))
    ensures LogsGrow(s, m, WaitStep(s, t)) && MutexOk(WaitStep(s, t), m)
  {
    OtherMutex(s, t, WaitStep(s, t), m);
  }

  lemma SignalMutex(s: Lib, t: Pid, m: nat)
    requires Ready(s, t) && InSignal(s.PcOf(t)) && MutexOk(s, m) && QueueOk(s.core, Guard(m))
    ensures LogsGrow(s, m, SignalStep(s, t)) && MutexOk(SignalStep(s, t), m)
  {
    OtherMutex(s, t, SignalStep(s, t), m);
  }

  lemma LockHandshake(s: Lib, t: Pid)
    requires Handshake.Inv(s.core) && Ready(s, t) && InLock(s.PcOf(t))
    ensures Handshake.Inv(LockStep(s, t).core)
  {
    hide Handshake.Inv;
    var h := s.core;
    match s.PcOf(t)
    case LockSpin(m) => AcquireInv(h, t, Guard(m), LockTest(m));
    case LockTest(m) => NeutralInv(h, t, if s.mutexes[m].flag then LockEnq(m) else LockTake(m));
    case LockTake(m) => NeutralInv(h, t, LockTaken(m));
    case LockTaken(m) => ReleaseInv(h, t, Guard(m), Idle);
    case LockEnq(m) => EnqueueInv(h, t, Guard(m), LockSetPark(m));
    case LockSetPark(m) => SetParkInv(h, t, LockRelease(m));
    case LockRelease(m) => ReleaseInv(h, t, Guard(m), LockPark(m));
    case LockPark(m) => ParkInv(h, t, LockParked(m), Idle);
    case LockParked(m) => ReturnInv(h, t, Idle);
  }

  lemma UnlockHandshake(s: Lib, t: Pid)
    requires Handshake.Inv(s.core) && Ready(s, t) && InUnlock(s.PcOf(t))
    ensures Handshake.Inv(UnlockStep(s, t).core)
  {
    hide Handshake.Inv;
    var h := s.core;
    match s.PcOf(t)
    case UnlockSpin(m, r) => AcquireInv(h, t, Guard(m), UnlockTest(m, r));
    case UnlockTest(m, r) => NeutralInv(h, t, if s.Queue(Guard(m)) == [] then UnlockClear(m, r) else UnlockDeq(m, r));
    case UnlockClear(m, r) => NeutralInv(h, t, UnlockRelease(m, r));
    case UnlockDeq(m, r) => DequeueInv(h, t, Guard(m), UnlockUnpark(m, s.Queue(Guard(m))[0], r));
    case UnlockUnpark(m, p, r) => UnparkInv(h, t, p, UnlockRelease(m, r));
    case UnlockRelease(m, r) => ReleaseInv(h, t, Guard(m), if r.ToCaller? then Idle else WaitPark(r.c, m));
  }

  lemma WaitHandshake(s: Lib, t: Pid)
    requires Handshake.Inv(s.core) && Ready(s, t) && InWait(s.PcOf(t))
    ensures Handshake.Inv(WaitStep(s, t).core)
  {
    hide Handshake.Inv;
    var h := s.core;
    match s.PcOf(t)
    case WaitSpin(c, m) => AcquireInv(h, t, Clock(c), WaitEnq(c, m));
    case WaitEnq(c, m) => EnqueueInv(h, t, Clock(c), WaitSetPark(c, m));
    case WaitSetPark(c, m) => SetParkInv(h, t, WaitRelease(c, m));
    case WaitRelease(c, m) => ReleaseInv(h, t, Clock(c), UnlockSpin(m, ToPark(c)));
    case WaitPark(c, m) => ParkInv(h, t, WaitParked(c, m), LockSpin(m));
    case WaitParked(c, m) => ReturnInv(h, t, LockSpin(m));
  }

  lemma SignalHandshake(s: Lib, t: Pid)
    requires Handshake.Inv(s.core) && Ready(s, t) && InSignal(s.PcOf(t))
    ensures Handshake.Inv(SignalStep(s, t).core)
  {
    hide Handshake.Inv;
    var h := s.core;
    match s.PcOf(t)
    case SigSpin(c, all) => AcquireInv(h, t, Clock(c), SigTest(c, all));
    case SigTest(c, all) => NeutralInv(h, t, if s.Queue(Clock(c)) == [] then SigRelease(c, all) else SigDeq(c, all));
    case SigDeq(c, all) => DequeueInv(h, t, Clock(c), SigUnpark(c, s.Queue(Clock(c))[0], all));
    case SigUnpark(c, p, all) => UnparkInv(h, t, p, if all then SigTest(c, all) else SigRelease(c, all));
    case SigRelease(c, all) => ReleaseInv(h, t, Clock(c), Idle);
  }

  lemma StepMutex(s: Lib, t: Pid, m: nat)
    requires Inv(s) && Ready(s, t) && m in s.mutexes
    ensures LogsGrow(s, m, Step(s, t)) && MutexOk(Step(s, t), m)
  {
    assert PcFacts(s, t) && ThreadOk(s.core, t) && MutexOk(s, m) && QueueOk(s.core, Guard(m));
    if InLock(s.PcOf(t)) { LockMutex(s, t, m); }
    else if InUnlock(s.PcOf(t)) { UnlockMutex(s, t, m); }
    else if InWait(s.PcOf(t)) { WaitMutex(s, t, m); }
    else { SignalMutex(s, t, m); }
  }

  lemma StepFrame(s: Lib, t: Pid)
    requires Inv(s) && Ready(s, t)
    ensures Frame(s, t, Step(s, t))
    ensures PcFacts(Step(s, t), t)
  {
    assert PcFacts(s, t) && ThreadOk(s.core, t);
    if InLock(s.PcOf(t)) { LockFrame(s, t); LockFacts(s, t); }
    else if InUnlock(s.PcOf(t)) { UnlockFrame(s, t); UnlockFacts(s, t); }
    else if InWait(s.PcOf(t)) { WaitFrame(s, t); WaitFacts(s, t); }
    else { SignalFrame(s, t); SignalFacts(s, t); }
  }

  lemma StepHandshake(s: Lib, t: Pid)
    requires Handshake.Inv(s.core) && Ready(s, t)
    ensures Handshake.Inv(Step(s, t).core)
  {
    if InLock(s.PcOf(t)) { LockHandshake(s, t); }
    else if InUnlock(s.PcOf(t)) { UnlockHandshake(s, t); }
    else if InWait(s.PcOf(t)) { WaitHandshake(s, t); }
    else { SignalHandshake(s, t); }
  }

  /** Every step of every thread keeps the invariant. */
  lemma StepInv(s: Lib, t: Pid)
    requires Inv(s) && Ready(s, t)
    ensures Inv(Step(s, t))
  {
    var s' := Step(s, t);
    StepHandshake(s, t);
    StepFrame(s, t);
    forall m | m in s'.mutexes ensures MutexOk(s', m) { StepMutex(s, t, m); }
    forall u | s'.Known(u) ensures PcFacts(s', u) {
      if u != t {
        assert PcFacts(s, u) && ThreadOk(s.core, t) && ThreadOk(s.core, u);
        FrameFacts(s, t, s', u);
      }
    }
  }

  lemma CallFrame(s: Lib, t: Pid, op: Op)
    requires CallOk(s, t, op)
    ensures Frame(s, t, Call(s, t, op))
    ensures PcFacts(Call(s, t, op), t)
  {
  }

  lemma CallInv(s: Lib, t: Pid, op: Op)
    requires Inv(s) && CallOk(s, t, op)
    ensures Inv(Call(s, t, op))
  {
    var s' := Call(s, t, op);
    NeutralInv(s.core, t, EntryPc(op));
    CallFrame(s, t, op);
    forall m | m in s'.mutexes ensures MutexOk(s', m) {
      assert MutexOk(s, m) && QueueOk(s.core, Guard(m));
      OtherMutex(s, t, s', m);
    }
    forall u | s'.Known(u) ensures PcFacts(s', u) {
      if u != t {
        assert PcFacts(s, u) && ThreadOk(s.core, t) && ThreadOk(s.core, u);
        FrameFacts(s, t, s', u);
      }
    }
  }

  /** What a thread does next in a run: a call from its client code, or its next step. */
  datatype Event = Enter(t: Pid, op: Op) | Advance(t: Pid)

  predicate EventOk(s: Lib, v: Event) {
    match v
    case Enter(t, op) => CallOk(s, t, op)
    case Advance(t) => Ready(s, t)
  }

  function Apply(s: Lib, v: Event): Lib
    requires EventOk(s, v)
  {
    match v
    case Enter(t, op) => Call(s, t, op)
    case Advance(t) => Step(s, t)
  }

  /** `run` is a trace of the library: any interleaving of any threads and clients. */
  predicate IsTrace(s: Lib, run: seq<Event>)
    decreases |run|
  {
    run == [] || (EventOk(s, run[0]) && IsTrace(Apply(s, run[0]), run[1..]))
  }

  function EndOf(s: Lib, run: seq<Event>): Lib
    requires IsTrace(s, run)
    decreases |run|
  {
    if run == [] then s else EndOf(Apply(s, run[0]), run[1..])
  }

  lemma EventInv(s: Lib, v: Event)
    requires Inv(s) && EventOk(s, v)
    ensures Inv(Apply(s, v))
    ensures forall m :: s.HasMutex(m) ==> LogsGrow(s, m, Apply(s, v))
  {
    match v
    case Enter(t, op) => CallInv(s, t, op);
    case Advance(t) =>
      StepInv(s, t);
      forall m | s.HasMutex(m) ensures LogsGrow(s, m, Step(s, t)) { StepMutex(s, t, m); }
  }

  /** Every run keeps the invariant. No run lets a thread overtake another: the schedule
      of a mutex (the grants made, then the queue) only ever grows at its end, and the
      grants made are at every moment a prefix of the arrivals through the guard. */
  lemma {:induction false} TraceInv(s: Lib, run: seq<Event>)
    requires Inv(s) && IsTrace(s, run)
    ensures Inv(EndOf(s, run))
    ensures forall m :: s.HasMutex(m) ==> LogsGrow(s, m, EndOf(s, run))
    ensures forall m :: s.HasMutex(m) ==>
              EndOf(s, run).HasMutex(m) && Schedule(EndOf(s, run), m) <= EndOf(s, run).mutexes[m].arrived
    decreases |run|
  {
    hide Inv;
    if run == [] {
      forall m | s.HasMutex(m) ensures Schedule(s, m) <= s.mutexes[m].arrived { ScheduleArrived(s, m); }
    } else {
      EventInv(s, run[0]);
      TraceInv(Apply(s, run[0]), run[1..]);
      forall m | s.HasMutex(m) ensures LogsGrow(s, m, EndOf(s, run)) {
        assert LogsGrow(s, m, Apply(s, run[0]));
      }
    }
  }

  lemma ScheduleArrived(s: Lib, m: nat)
    requires Inv(s) && s.HasMutex(m)
    ensures Schedule(s, m) <= s.mutexes[m].arrived
  {
    assert MutexOk(s, m);
  }

  /** No lost unpark: while the spinlock of its queue is free, a thread between queue_add
      and the return of park() is in that queue exactly once with its park announced or
      done, or it is out of the queue with an unpark pending, or it is awake again. It is
      in no other queue. */
  lemma NoLostUnpark(s: Lib, t: Pid, id: Id)
    requires Inv(s) && s.Known(t) && WaitsOn(s.PcOf(t), id)
    ensures id in s.core.queues
    ensures s.core.queues[id].holder.None? ==>
              var f := s.core.threads[t].park;
              if t in s.Queue(id) then (f.setPark && !f.immediateUnpark) != (f.asleep && f.isParked)
              else if StageOf(s.PcOf(t)).Armed? then f.immediateUnpark
              else !f.asleep && !f.isParked
    ensures multiset(s.Queue(id))[t] <= 1
    ensures forall id' :: id' in s.core.queues && id' != id ==> t !in s.Queue(id')
  {
    assert ThreadOk(s.core, t);
    assert QueueOk(s.core, id);
    AtMostOnce(s.Queue(id), t);
    forall id' | id' in s.core.queues && id' != id ensures t !in s.Queue(id') {
      assert QueueOk(s.core, id');
    }
  }

  lemma AtMostOnce(q: seq<Pid>, t: Pid)
    requires NoDup(q)
    ensures multiset(q)[t] <= 1
  {
    if q != [] {
      assert q == [q[0]] + q[1..];
      AtMostOnce(q[1..], t);
    }
  }

  /** If no thread inside the library can move, all spinlocks are free and every thread is
      outside the library or really asleep in the queue it waits on. */
  lemma Stuck(s: Lib, t: Pid)
    requires Inv(s) && s.Known(t) && (forall u :: s.Known(u) ==> !Enabled(s, u))
    ensures forall id :: id in s.core.queues ==> s.core.queues[id].holder.None?
    ensures match s.PcOf(t)
            case Idle => true
            case LockParked(m) => s.HasMutex(m) && t in s.Queue(Guard(m))
            case WaitParked(c, m) => s.HasCond(c) && t in s.Queue(Clock(c))
            case _ => false
  {
    forall id | id in s.core.queues ensures s.core.queues[id].holder.None? {
      assert QueueOk(s.core, id);
      var holder := s.core.queues[id].holder;
      if holder.Some? {
        assert PcFacts(s, holder.value);
        assert Enabled(s, holder.value);
      }
    }
    assert ThreadOk(s.core, t) && PcFacts(s, t) && !Enabled(s, t);
  }
}
