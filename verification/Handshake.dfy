/** The park handshake: spinlock, pid queue and kernel park flags, seen from the
    program counters of the library (user/mutex.c, user/condvar.c). The invariant of
    this module is what makes "release the spinlock, then park" safe. */
module Handshake {
  import opened Options
  import opened ParkFlags

  type Pid = int

  /** A spinlock together with the pid queue it protects: the guard of mutex `m`
      protects the queue of `m`, the clock of condition variable `c` that of `c`. */
  datatype Id = Guard(m: nat) | Clock(c: nat)

  /** Where mutex_unlock returns to: its caller, or the park() of cv_wait on `c`. */
  datatype Ret = ToCaller | ToPark(c: nat)

  /** One constructor for each point at which a thread can be preempted in the
      library; the thread is about to execute the named action. */
  datatype Pc =
    | Idle
      // mutex_lock(m)
    | LockSpin(m: nat)
    | LockTest(m: nat)
    | LockTake(m: nat)
    | LockTaken(m: nat)
    | LockEnq(m: nat)
    | LockSetPark(m: nat)
    | LockRelease(m: nat)
    | LockPark(m: nat)
    | LockParked(m: nat)
      // mutex_unlock(m)
    | UnlockSpin(m: nat, ret: Ret)
    | UnlockTest(m: nat, ret: Ret)
    | UnlockClear(m: nat, ret: Ret)
    | UnlockDeq(m: nat, ret: Ret)
    | UnlockUnpark(m: nat, pid: Pid, ret: Ret)
    | UnlockRelease(m: nat, ret: Ret)
      // cv_wait(c, m); its mutex_unlock and mutex_lock use the program counters above
    | WaitSpin(c: nat, m: nat)
    | WaitEnq(c: nat, m: nat)
    | WaitSetPark(c: nat, m: nat)
    | WaitRelease(c: nat, m: nat)
    | WaitPark(c: nat, m: nat)
    | WaitParked(c: nat, m: nat)
      // cv_signal(c) and, when `all` is set, cv_broadcast(c)
    | SigSpin(c: nat, all: bool)
    | SigTest(c: nat, all: bool)
    | SigDeq(c: nat, all: bool)
    | SigUnpark(c: nat, pid: Pid, all: bool)
    | SigRelease(c: nat, all: bool)

  /** The spinlock a thread holds. */
  function Holds(pc: Pc): Option<Id> {
    match pc
    case LockTest(m) => Some(Guard(m))
    case LockTake(m) => Some(Guard(m))
    case LockTaken(m) => Some(Guard(m))
    case LockEnq(m) => Some(Guard(m))
    case LockSetPark(m) => Some(Guard(m))
    case LockRelease(m) => Some(Guard(m))
    case UnlockTest(m, _) => Some(Guard(m))
    case UnlockClear(m, _) => Some(Guard(m))
    case UnlockDeq(m, _) => Some(Guard(m))
    case UnlockUnpark(m, _, _) => Some(Guard(m))
    case UnlockRelease(m, _) => Some(Guard(m))
    case WaitEnq(c, _) => Some(Clock(c))
    case WaitSetPark(c, _) => Some(Clock(c))
    case WaitRelease(c, _) => Some(Clock(c))
    case SigTest(c, _) => Some(Clock(c))
    case SigDeq(c, _) => Some(Clock(c))
    case SigUnpark(c, _, _) => Some(Clock(c))
    case SigRelease(c, _) => Some(Clock(c))
    case _ => None
  }

  /** How far a thread is between queue_add on a queue and the return of its park(). */
  datatype Stage = NotWaiting | Enqueued(id: Id) | Armed(id: Id) | Slept(id: Id)

  function RetStage(ret: Ret): Stage {
    match ret
    case ToCaller => NotWaiting
    case ToPark(c) => Armed(Clock(c))
  }

  function StageOf(pc: Pc): Stage {
    match pc
    case LockSetPark(m) => Enqueued(Guard(m))
    case LockRelease(m) => Armed(Guard(m))
    case LockPark(m) => Armed(Guard(m))
    case LockParked(m) => Slept(Guard(m))
    case UnlockSpin(_, ret) => RetStage(ret)
    case UnlockTest(_, ret) => RetStage(ret)
    case UnlockClear(_, ret) => RetStage(ret)
    case UnlockDeq(_, ret) => RetStage(ret)
    case UnlockUnpark(_, _, ret) => RetStage(ret)
    case UnlockRelease(_, ret) => RetStage(ret)
    case WaitSetPark(c, _) => Enqueued(Clock(c))
    case WaitRelease(c, _) => Armed(Clock(c))
    case WaitPark(c, _) => Armed(Clock(c))
    case WaitParked(c, _) => Slept(Clock(c))
    case _ => NotWaiting
  }

  /** The process a thread has taken off queue `id` and not yet passed to unpark(). */
  datatype Target = NoTarget | Target(id: Id, pid: Pid)

  function TargetOf(pc: Pc): Target {
    match pc
    case UnlockUnpark(m, p, _) => Target(Guard(m), p)
    case SigUnpark(c, p, _) => Target(Clock(c), p)
    case _ => NoTarget
  }

  predicate WaitsOn(pc: Pc, id: Id) {
    !StageOf(pc).NotWaiting? && StageOf(pc).id == id
  }

  datatype Thread = Thread(pc: Pc, park: Flags)

  /** `holder` is the spinlock word with its history: the word is 1 exactly when
      `holder` is a thread. */
  datatype PidQueue = PidQueue(holder: Option<Pid>, q: seq<Pid>)

  datatype Core = Core(threads: map<Pid, Thread>, queues: map<Id, PidQueue>) {
    function SetThread(t: Pid, th: Thread): Core {
      this.(threads := threads[t := th])
    }

    function SetPc(t: Pid, pc: Pc): Core
      requires t in threads
    {
      SetThread(t, threads[t].(pc := pc))
    }

    function SetQueue(id: Id, k: PidQueue): Core {
      this.(queues := queues[id := k])
    }

    /** The xchg of spin_lock that finds the word 0. */
    function Acquire(t: Pid, id: Id, pc: Pc): Core
      requires t in threads && id in queues
    {
      SetPc(t, pc).SetQueue(id, queues[id].(holder := Some(t)))
    }

    /** spin_unlock. */
    function Release(t: Pid, id: Id, pc: Pc): Core
      requires t in threads && id in queues
    {
      SetPc(t, pc).SetQueue(id, queues[id].(holder := None))
    }

    /** queue_add of the caller's own pid. */
    function Enqueue(t: Pid, id: Id, pc: Pc): Core
      requires t in threads && id in queues
    {
      SetPc(t, pc).SetQueue(id, queues[id].(q := queues[id].q + [t]))
    }

    /** queue_remove on a queue that was found non-empty. */
    function Dequeue(t: Pid, id: Id, pc: Pc): Core
      requires t in threads && id in queues && queues[id].q != []
    {
      SetPc(t, pc).SetQueue(id, queues[id].(q := queues[id].q[1..]))
    }

    /** The setpark() system call. */
    function CallSetPark(t: Pid, pc: Pc): Core
      requires t in threads
    {
      SetThread(t, Thread(pc, SetPark(threads[t].park)))
    }

    /** The park() system call: `slept` is where the caller sleeps, `awake` where it
        continues when an unpark was already pending. */
    function CallPark(t: Pid, slept: Pc, awake: Pc): Core
      requires t in threads
    {
      var f := Park(threads[t].park);
      SetThread(t, Thread(if f.asleep then slept else awake, f))
    }

    /** The unpark(p) system call made by `t`. */
    function CallUnpark(t: Pid, p: Pid, pc: Pc): Core
      requires t in threads && p in threads
    {
      SetThread(p, threads[p].(park := Unpark(threads[p].park))).SetPc(t, pc)
    }
  }

  predicate NoDup(q: seq<Pid>) {
    forall i, j :: 0 <= i < j < |q| ==> q[i] != q[j]
  }

  /** Some thread has dequeued `t` from `id` and is about to call unpark(t). */
  predicate Pending(h: Core, id: Id, t: Pid) {
    && id in h.queues
    && h.queues[id].holder.Some?
    && h.queues[id].holder.value in h.threads
    && TargetOf(h.threads[h.queues[id].holder.value].pc) == Target(id, t)
  }

  /** No lost unpark: what the kernel flags say about the queue and the other way round. */
  predicate FlagsOk(h: Core, t: Pid) {
    t in h.threads &&
    var f := h.threads[t].park;
    match StageOf(h.threads[t].pc)
    case NotWaiting => f == CLEAR
    case Enqueued(id) =>
      f == CLEAR && Holds(h.threads[t].pc) == Some(id) && id in h.queues && t in h.queues[id].q
    case Armed(id) =>
      && id in h.queues
      && !f.asleep && !f.isParked && f.setPark
      && (f.immediateUnpark <==> t !in h.queues[id].q && !Pending(h, id, t))
      && (Holds(h.threads[t].pc) == Some(id) ==> t in h.queues[id].q)
    case Slept(id) =>
      && id in h.queues
      && !f.setPark && !f.immediateUnpark && f.asleep == f.isParked
      && (f.asleep <==> t in h.queues[id].q || Pending(h, id, t))
  }

  /** A dequeued process is really one that announced its park on that queue. */
  predicate TargetOk(h: Core, t: Pid) {
    t in h.threads &&
    match TargetOf(h.threads[t].pc)
    case NoTarget => true
    case Target(id, p) =>
      && p in h.threads && id in h.queues
      && (StageOf(h.threads[p].pc) == Armed(id) || StageOf(h.threads[p].pc) == Slept(id))
      && Holds(h.threads[p].pc) != Some(id)
      && p !in h.queues[id].q
  }

  predicate HolderOk(h: Core, t: Pid) {
    t in h.threads &&
    var held := Holds(h.threads[t].pc);
    held.Some? ==> held.value in h.queues && h.queues[held.value].holder == Some(t)
  }

  predicate QueueOk(h: Core, id: Id) {
    id in h.queues &&
    var k := h.queues[id];
    && (k.holder.Some? ==> k.holder.value in h.threads
                           && Holds(h.threads[k.holder.value].pc) == Some(id))
    && NoDup(k.q)
    && (forall i :: 0 <= i < |k.q| ==> k.q[i] in h.threads && WaitsOn(h.threads[k.q[i]].pc, id))
  }

  predicate ThreadOk(h: Core, t: Pid) {
    HolderOk(h, t) && FlagsOk(h, t) && TargetOk(h, t)
  }

  predicate Inv(h: Core) {
    && (forall t :: t in h.threads ==> ThreadOk(h, t))
    && (forall id :: id in h.queues ==> QueueOk(h, id))
  }

  /** No two threads hold the same spinlock. */
  lemma MutualExclusion(h: Core, t: Pid, u: Pid)
    requires Inv(h) && t in h.threads && u in h.threads
    requires Holds(h.threads[t].pc).Some? && Holds(h.threads[t].pc) == Holds(h.threads[u].pc)
    ensures t == u
  {
    assert ThreadOk(h, t) && ThreadOk(h, u);
  }

  lemma AcquireInv(h: Core, t: Pid, id: Id, pc: Pc)
    requires Inv(h) && t in h.threads && id in h.queues && h.queues[id].holder.None?
    requires Holds(h.threads[t].pc).None? && Holds(pc) == Some(id)
    requires StageOf(pc) == StageOf(h.threads[t].pc) && !WaitsOn(pc, id)
    requires TargetOf(pc).NoTarget?
    ensures Inv(h.Acquire(t, id, pc))
  {
    var h' := h.Acquire(t, id, pc);
    forall u | u in h'.threads ensures ThreadOk(h', u) {
      assert ThreadOk(h, u);
      AcquireThread(h, t, id, pc, u);
    }
    forall i | i in h'.queues ensures QueueOk(h', i) { assert QueueOk(h, i); }
  }

  lemma AcquireThread(h: Core, t: Pid, id: Id, pc: Pc, u: Pid)
    requires ThreadOk(h, t) && ThreadOk(h, u) && id in h.queues && h.queues[id].holder.None?
    requires Holds(h.threads[t].pc).None? && Holds(pc) == Some(id)
    requires StageOf(pc) == StageOf(h.threads[t].pc) && !WaitsOn(pc, id)
    requires TargetOf(pc).NoTarget?
    ensures ThreadOk(h.Acquire(t, id, pc), u)
  {
  }

  lemma NeutralInv(h: Core, t: Pid, pc: Pc)
    requires Inv(h) && t in h.threads
    requires Holds(pc) == Holds(h.threads[t].pc)
    requires StageOf(pc) == StageOf(h.threads[t].pc)
    requires TargetOf(pc) == TargetOf(h.threads[t].pc)
    ensures Inv(h.SetPc(t, pc))
  {
    var h' := h.SetPc(t, pc);
    forall u | u in h'.threads ensures ThreadOk(h', u) { assert ThreadOk(h, u); }
    forall i | i in h'.queues ensures QueueOk(h', i) { assert QueueOk(h, i); }
  }

  lemma ReleaseInv(h: Core, t: Pid, id: Id, pc: Pc)
    requires Inv(h) && t in h.threads && id in h.queues
    requires Holds(h.threads[t].pc) == Some(id) && Holds(pc).None?
    requires StageOf(pc) == StageOf(h.threads[t].pc) && !StageOf(pc).Enqueued?
    requires TargetOf(pc).NoTarget? && TargetOf(h.threads[t].pc).NoTarget?
    ensures Inv(h.Release(t, id, pc))
  {
    var h' := h.Release(t, id, pc);
    forall u | u in h'.threads ensures ThreadOk(h', u) { assert ThreadOk(h, u) && ThreadOk(h, t); }
    forall i | i in h'.queues ensures QueueOk(h', i) { assert QueueOk(h, i) && ThreadOk(h, t); }
  }

  lemma EnqueueInv(h: Core, t: Pid, id: Id, pc: Pc)
    requires Inv(h) && t in h.threads && id in h.queues
    requires Holds(h.threads[t].pc) == Some(id) && Holds(pc) == Some(id)
    requires StageOf(h.threads[t].pc).NotWaiting? && StageOf(pc) == Enqueued(id)
    requires TargetOf(pc).NoTarget? && TargetOf(h.threads[t].pc).NoTarget?
    ensures Inv(h.Enqueue(t, id, pc))
  {
    var h' := h.Enqueue(t, id, pc);
    assert QueueOk(h, id) && ThreadOk(h, t);
    assert t !in h.queues[id].q;
    forall u | u in h'.threads ensures ThreadOk(h', u) { assert ThreadOk(h, u); }
    forall i | i in h'.queues ensures QueueOk(h', i) { assert QueueOk(h, i); }
  }

  lemma DequeueInv(h: Core, t: Pid, id: Id, pc: Pc)
    requires Inv(h) && t in h.threads && id in h.queues && h.queues[id].q != []
    requires Holds(h.threads[t].pc) == Some(id) && Holds(pc) == Some(id)
    requires StageOf(pc) == StageOf(h.threads[t].pc) && !WaitsOn(pc, id)
    requires TargetOf(h.threads[t].pc).NoTarget? && TargetOf(pc) == Target(id, h.queues[id].q[0])
    ensures Inv(h.Dequeue(t, id, pc))
  {
    var h' := h.Dequeue(t, id, pc);
    assert QueueOk(h, id) && ThreadOk(h, t) && ThreadOk(h, h.queues[id].q[0]);
    DequeueMembers(h.queues[id].q);
    forall u | u in h'.threads ensures ThreadOk(h', u) {
      assert ThreadOk(h, u);
      DequeueThread(h, t, id, pc, u);
    }
    forall i | i in h'.queues ensures QueueOk(h', i) { assert QueueOk(h, i); }
  }

  lemma DequeueThread(h: Core, t: Pid, id: Id, pc: Pc, u: Pid)
    requires ThreadOk(h, t) && ThreadOk(h, u) && id in h.queues && h.queues[id].q != [] && NoDup(h.queues[id].q)
    requires Holds(h.threads[t].pc) == Some(id) && Holds(pc) == Some(id)
    requires StageOf(pc) == StageOf(h.threads[t].pc) && !WaitsOn(pc, id)
    requires TargetOf(h.threads[t].pc).NoTarget? && TargetOf(pc) == Target(id, h.queues[id].q[0])
    requires ThreadOk(h, h.queues[id].q[0]) && WaitsOn(h.threads[h.queues[id].q[0]].pc, id)
    ensures ThreadOk(h.Dequeue(t, id, pc), u)
  {
    DequeueMembers(h.queues[id].q);
  }

  lemma DequeueMembers(q: seq<Pid>)
    requires NoDup(q) && q != []
    ensures NoDup(q[1..]) && q[0] !in q[1..]
    ensures forall x :: x != q[0] ==> (x in q[1..] <==> x in q)
  {
    assert q == [q[0]] + q[1..];
  }

  lemma SetParkInv(h: Core, t: Pid, pc: Pc)
    requires Inv(h) && t in h.threads
    requires StageOf(h.threads[t].pc).Enqueued? && StageOf(pc) == Armed(StageOf(h.threads[t].pc).id)
    requires Holds(pc) == Holds(h.threads[t].pc)
    requires TargetOf(pc).NoTarget? && TargetOf(h.threads[t].pc).NoTarget?
    ensures Inv(h.CallSetPark(t, pc))
  {
    var h' := h.CallSetPark(t, pc);
    assert ThreadOk(h, t);
    forall u | u in h'.threads ensures ThreadOk(h', u) { assert ThreadOk(h, u); }
    forall i | i in h'.queues ensures QueueOk(h', i) { assert QueueOk(h, i); }
  }

  lemma ParkInv(h: Core, t: Pid, slept: Pc, awake: Pc)
    requires Inv(h) && t in h.threads
    requires StageOf(h.threads[t].pc).Armed? && Holds(h.threads[t].pc).None?
    requires TargetOf(h.threads[t].pc).NoTarget?
    requires StageOf(slept) == Slept(StageOf(h.threads[t].pc).id) && StageOf(awake).NotWaiting?
    requires Holds(slept).None? && Holds(awake).None? && TargetOf(slept).NoTarget? && TargetOf(awake).NoTarget?
    ensures Inv(h.CallPark(t, slept, awake))
  {
    var h' := h.CallPark(t, slept, awake);
    var id := StageOf(h.threads[t].pc).id;
    assert ThreadOk(h, t);
    forall u | u in h'.threads ensures ThreadOk(h', u) {
      assert ThreadOk(h, u);
      if TargetOf(h.threads[u].pc) == Target(id, t) {
        assert Pending(h, id, t);
      }
    }
    forall i | i in h'.queues ensures QueueOk(h', i) { assert QueueOk(h, i); }
  }

  lemma UnparkInv(h: Core, t: Pid, p: Pid, pc: Pc)
    requires Inv(h) && t in h.threads && p in h.threads
    requires TargetOf(h.threads[t].pc).Target? && TargetOf(h.threads[t].pc).pid == p
    requires TargetOf(pc).NoTarget?
    requires Holds(pc) == Holds(h.threads[t].pc)
    requires StageOf(pc) == StageOf(h.threads[t].pc)
    ensures Inv(h.CallUnpark(t, p, pc))
  {
    var h' := h.CallUnpark(t, p, pc);
    assert ThreadOk(h, t) && ThreadOk(h, p);
    assert Pending(h, TargetOf(h.threads[t].pc).id, p);
    forall u | u in h'.threads ensures ThreadOk(h', u) {
      assert ThreadOk(h, u);
      UnparkThread(h, t, p, pc, u);
    }
    forall i | i in h'.queues ensures QueueOk(h', i) { assert QueueOk(h, i); }
  }

  lemma UnparkThread(h: Core, t: Pid, p: Pid, pc: Pc, u: Pid)
    requires ThreadOk(h, t) && ThreadOk(h, p) && ThreadOk(h, u)
    requires TargetOf(h.threads[t].pc).Target? && TargetOf(h.threads[t].pc).pid == p
    requires TargetOf(pc).NoTarget?
    requires Holds(pc) == Holds(h.threads[t].pc)
    requires StageOf(pc) == StageOf(h.threads[t].pc)
    requires Pending(h, TargetOf(h.threads[t].pc).id, p)
    ensures ThreadOk(h.CallUnpark(t, p, pc), u)
  {
    UnparkFlags(h, t, p, pc, u);
    hide FlagsOk;
  }

  lemma UnparkFlags(h: Core, t: Pid, p: Pid, pc: Pc, u: Pid)
    requires ThreadOk(h, t) && ThreadOk(h, p) && ThreadOk(h, u)
    requires TargetOf(h.threads[t].pc).Target? && TargetOf(h.threads[t].pc).pid == p
    requires TargetOf(pc).NoTarget?
    requires Holds(pc) == Holds(h.threads[t].pc)
    requires StageOf(pc) == StageOf(h.threads[t].pc)
    requires Pending(h, TargetOf(h.threads[t].pc).id, p)
    ensures FlagsOk(h.CallUnpark(t, p, pc), u)
  {
  }

  lemma ReturnInv(h: Core, t: Pid, pc: Pc)
    requires Inv(h) && t in h.threads
    requires StageOf(h.threads[t].pc).Slept? && !h.threads[t].park.asleep
    requires StageOf(pc).NotWaiting? && Holds(pc).None? && TargetOf(pc).NoTarget?
    ensures Inv(h.SetPc(t, pc))
  {
    var h' := h.SetPc(t, pc);
    var id := StageOf(h.threads[t].pc).id;
    assert ThreadOk(h, t);
    forall u | u in h'.threads ensures ThreadOk(h', u) {
      assert ThreadOk(h, u);
      assert TargetOf(h.threads[u].pc) == Target(id, t) ==> Pending(h, id, t);
    }
    forall i | i in h'.queues ensures QueueOk(h', i) { assert QueueOk(h, i); }
  }
}
