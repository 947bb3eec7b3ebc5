/** The counting semaphore of user/semaphore.c, and the bounded buffer steps of
    user/part4-sem.c, as client programs of the library. Semaphore `i` uses mutex `i` and
    condition variable `i`. Every thread runs any list of sem_wait and sem_post calls and
    buffer accesses. */
module Semaphores {
  import opened Handshake
  import opened SyncLib
  import opened Refinement
  import opened Clients
  import opened Discipline

  /** Program counters inside sem_wait(i) and sem_post(i). `again` tells a thread that has
      been through cv_wait from one that tests the value for the first time. */
  datatype SemPc =
    | Outside
    | WTest(i: nat, again: bool)   // about to test `value <= 0`
    | WSleep(i: nat)               // about to call cv_wait
    | WTake(i: nat, again: bool)   // about to decrement
    | WDone(i: nat)                // about to unlock
    | PAdd(i: nat)                 // about to increment
    | PSig(i: nat)                 // about to call cv_signal
    | PDone(i: nat)                // about to unlock

  datatype Task = P(i: nat) | V(i: nat) | Store(v: int) | AdvanceHead | Load | AdvanceTail

  datatype Client = Client(at: SemPc, todo: seq<Task>)

  /** The shared ring of user/part4-sem.c with the values put in and taken out so far. */
  datatype Ring = Ring(slots: seq<int>, head: nat, tail: nat, inserted: seq<int>, removed: seq<int>) {
    predicate Ok() { head < |slots| && tail < |slots| }
  }

  /** `posted` and `taken` count the increments and decrements made so far. */
  datatype Data = Data(initial: map<nat, int>, value: map<nat, int>,
                       posted: map<nat, nat>, taken: map<nat, nat>, ring: Ring)
  {
    predicate Has(i: nat) { i in initial && i in value && i in posted && i in taken }
  }

  function RingStep(r: Ring, k: Task): Ring
    requires r.Ok()
  {
    match k
    case Store(v) => r.(slots := r.slots[r.head := v], inserted := r.inserted + [v])
    case AdvanceHead => r.(head := (r.head + 1) % |r.slots|)
    case Load => r.(removed := r.removed + [r.slots[r.tail]])
    case AdvanceTail => r.(tail := (r.tail + 1) % |r.slots|)
    case _ => r
  }

  function Next(t: Pid, c: Client, d: Data): Act<Client, Data> {
    match c.at
    case Outside =>
      if c.todo == [] then Halt
      else
        var rest := c.todo[1..];
        (match c.todo[0]
         case P(i) => Invoke(Lock(i), Client(WTest(i, false), rest))
         case V(i) => Invoke(Lock(i), Client(PAdd(i), rest))
         case k => if d.ring.Ok() then Do(Client(Outside, rest), d.(ring := RingStep(d.ring, k))) else Halt)
    case WTest(i, again) =>
      if !d.Has(i) then Halt
      else Do(c.(at := if d.value[i] <= 0 then WSleep(i) else WTake(i, again)), d)
    case WSleep(i) => Invoke(Wait(i, i), c.(at := WTest(i, true)))
    case WTake(i, again) =>
      if !d.Has(i) then Halt
      else Do(c.(at := WDone(i)), d.(value := d.value[i := d.value[i] - 1], taken := d.taken[i := d.taken[i] + 1]))
    case WDone(i) => Invoke(Unlock(i), c.(at := Outside))
    case PAdd(i) =>
      if !d.Has(i) then Halt
      else Do(c.(at := PSig(i)), d.(value := d.value[i := d.value[i] + 1], posted := d.posted[i := d.posted[i] + 1]))
    case PSig(i) => Invoke(Signal(i), c.(at := PDone(i)))
    case PDone(i) => Invoke(Unlock(i), c.(at := Outside))
  }

  const PROGRAM: Program<Client, Data> := Program((t: Pid, c: Client, d: Data) => Next(t, c, d))

  type Spec = Clients.Spec<Client, Data>

  function ViewOf(at: SemPc): View {
    match at
    case Outside => Out
    case WTest(i, again) => if again then Waited(i, i) else Acquired(i)
    case PAdd(i) => Acquired(i)
    case PDone(i) => Told(i, i)
    case pc => Inside(pc.i)
  }

  function ViewsOf(a: Spec): Views {
    map t | t in a.local :: ViewOf(a.local[t].at)
  }

  predicate TasksOk(d: Data, todo: seq<Task>) {
    forall k :: k in todo && (k.P? || k.V?) ==> d.Has(k.i)
  }

  /** What a thread knows from its last test while it still owns the mutex. */
  predicate Knows(a: Spec, t: Pid) {
    && t in a.local && a.mon.Has(t) && TasksOk(a.data, a.local[t].todo)
    && match a.local[t].at
       case WSleep(i) => a.data.Has(i) && a.data.value[i] <= 0
       case WTest(i, _) => a.data.Has(i) && (a.mon.status[t].Entering? ==> a.data.value[i] <= 0)
       case WTake(i, _) => a.data.Has(i) && a.data.value[i] > 0
       case Outside => true
       case pc => a.data.Has(pc.i)
  }

  /** A wake-up of semaphore `i` under way: one that is under way in the library, a waiter
      about to decrement, or a post between its increment and its signal. */
  predicate Credit(a: Spec, t: Pid, i: nat) {
    t in a.local && (Awake(a.mon, ViewsOf(a), t, i) || a.local[t].at == WTake(i, true) || a.local[t].at == PSig(i))
  }

  function Credits(a: Spec, i: nat): set<Pid> {
    set t | t in a.local && Credit(a, t, i)
  }

  function Min(x: int, y: int): int { if x < y then x else y }

  predicate SemInv(a: Spec, i: nat) {
    && a.data.Has(i) && i in a.mon.locks && i in a.mon.conds
    && a.data.value[i] == a.data.initial[i] + a.data.posted[i] - a.data.taken[i]
    && a.data.value[i] >= Min(0, a.data.initial[i])
    && (a.mon.conds[i] != [] ==> a.data.value[i] <= |Credits(a, i)|)
  }

  predicate Inv(a: Spec) {
    && Discipline.Inv(a.mon, ViewsOf(a))
    && a.data.ring.Ok()
    && (forall t :: t in a.local ==> Knows(a, t))
    && (forall i :: i in a.data.value ==> SemInv(a, i))
  }

  /** What a thread knows survives a step of another one: who changes the value owns the mutex. */
  lemma DoKnows(a: Spec, t: Pid, u: Pid)
    requires Discipline.Inv(a.mon, ViewsOf(a)) && Knows(a, t) && Knows(a, u)
    requires SpecMoves(PROGRAM, a, t) && a.mon.status[t].Running? && Next(t, a.local[t], a.data).Do?
    ensures Knows(SpecMove(PROGRAM, a, t), u)
  {
    assert Discipline.ThreadOk(a.mon, ViewsOf(a), t) && Discipline.ThreadOk(a.mon, ViewsOf(a), u);
  }

  lemma DoSems(a: Spec, t: Pid, i: nat)
    requires SpecMoves(PROGRAM, a, t) && a.mon.status[t].Running? && Next(t, a.local[t], a.data).Do?
    requires Knows(a, t) && SemInv(a, i)
    ensures SemInv(SpecMove(PROGRAM, a, t), i)
  {
    var b := SpecMove(PROGRAM, a, t);
    SwapSize(Credits(a, i), Credits(b, i), t);
  }

  lemma ViewsUpdate(a: Spec, b: Spec, t: Pid, c: Client)
    requires t in a.local && b.local == a.local[t := c]
    ensures ViewsOf(b) == ViewsOf(a)[t := ViewOf(c.at)]
  {
    hide ViewOf;
  }

  /** A step of client code on the value or on the buffer keeps the invariant. */
  lemma DoInv(a: Spec, t: Pid)
    requires Inv(a) && SpecMoves(PROGRAM, a, t) && a.mon.status[t].Running? && Next(t, a.local[t], a.data).Do?
    ensures Inv(SpecMove(PROGRAM, a, t))
  {
    var b := SpecMove(PROGRAM, a, t);
    ViewsUpdate(a, b, t, b.local[t]);
    ClientStep(a.mon, ViewsOf(a), t, ViewOf(b.local[t].at));
    hide Discipline.Inv;
    forall u | u in b.local ensures Knows(b, u) { assert Knows(a, t) && Knows(a, u); DoKnows(a, t, u); }
    forall i | i in b.data.value ensures SemInv(b, i) { assert SemInv(a, i) && Knows(a, t); DoSems(a, t, i); }
  }

  lemma InvokeSems(a: Spec, t: Pid, i: nat)
    requires SpecMoves(PROGRAM, a, t) && a.mon.status[t].Running? && Next(t, a.local[t], a.data).Invoke?
    requires SemInv(a, i)
    ensures SemInv(SpecMove(PROGRAM, a, t), i)
  {
    var b := SpecMove(PROGRAM, a, t);
    SwapSize(Credits(a, i), Credits(b, i), t);
  }

  lemma InvokeAllowed(a: Spec, t: Pid)
    requires Knows(a, t) && Next(t, a.local[t], a.data).Invoke?
    ensures var act := Next(t, a.local[t], a.data);
            && CallAllowed(ViewOf(a.local[t].at), act.op, ViewOf(act.c.at))
            && TasksOk(a.data, act.c.todo)
            && (match act.op
                case Lock(m) => a.data.Has(m)
                case Wait(c, m) => a.data.Has(c)
                case Signal(c) => a.data.Has(c)
                case _ => true)
            && (act.c.at.WTest? && act.op.Wait? ==> a.data.value[act.c.at.i] <= 0)
            && (!act.c.at.Outside? ==> a.data.Has(act.c.at.i) && !act.c.at.WSleep? && !act.c.at.WTake?)
  {
  }

  lemma InvokeDiscipline(a: Spec, t: Pid)
    requires Discipline.Inv(a.mon, ViewsOf(a)) && Knows(a, t)
    requires forall i :: a.data.Has(i) ==> i in a.mon.locks && i in a.mon.conds
    requires SpecMoves(PROGRAM, a, t) && a.mon.status[t].Running? && Next(t, a.local[t], a.data).Invoke?
    ensures Discipline.Inv(SpecMove(PROGRAM, a, t).mon, ViewsOf(SpecMove(PROGRAM, a, t)))
  {
    hide Next, ViewOf, CallAllowed, Discipline.Inv, Knows;
    var act := Next(t, a.local[t], a.data);
    InvokeAllowed(a, t);
    ViewsUpdate(a, SpecMove(PROGRAM, a, t), t, act.c);
    ClientCall(a.mon, ViewsOf(a), t, act.op, ViewOf(act.c.at));
  }

  /** A call of the library keeps the invariant. */
  lemma InvokeInv(a: Spec, t: Pid)
    requires Inv(a) && SpecMoves(PROGRAM, a, t) && a.mon.status[t].Running? && Next(t, a.local[t], a.data).Invoke?
    ensures Inv(SpecMove(PROGRAM, a, t))
  {
    hide Next, ViewOf, CallAllowed, Discipline.Inv;
    var b := SpecMove(PROGRAM, a, t);
    assert Knows(a, t);
    forall i | a.data.Has(i) ensures i in a.mon.locks && i in a.mon.conds { assert SemInv(a, i); }
    InvokeDiscipline(a, t);
    InvokeAllowed(a, t);
    forall u | u in b.local ensures Knows(b, u) { assert Knows(a, u); }
    forall i | i in b.data.value ensures SemInv(b, i) { assert SemInv(a, i); InvokeSems(a, t, i); }
  }

  function Extra(a: Spec, i: nat): set<Pid> {
    set u | u in a.local && (a.local[u].at == WTake(i, true) || a.local[u].at == PSig(i))
  }

  lemma CreditsSplit(a: Spec, i: nat)
    ensures Credits(a, i) == Pool(a.mon, ViewsOf(a), i) + Extra(a, i)
  {
  }

  lemma SwapCard(pool: set<Pid>, extra: set<Pid>, t: Pid, p: Pid)
    requires t in pool && t !in extra && p !in pool && p !in extra
    ensures |(pool - {t} + {p}) + extra| == |pool + extra|
  {
    assert (pool - {t} + {p}) + extra == (pool + extra) - {t} + {p};
  }

  /** A library step passes credits on and loses none while somebody sleeps. */
  lemma StepCredits(a: Spec, t: Pid, i: nat)
    requires Discipline.Inv(a.mon, ViewsOf(a)) && Monitor.Enabled(a.mon, t) && t in a.local && i in a.mon.conds
    ensures var b := a.(mon := Monitor.Step(a.mon, t));
            && i in b.mon.conds && Monitor.CondMove(a.mon, t, b.mon, i)
            && (b.mon.conds[i] != [] ==> |Credits(b, i)| == |Credits(a, i)|)
  {
    var b := a.(mon := Monitor.Step(a.mon, t));
    PoolStep(a.mon, ViewsOf(a), t, i);
    assert Discipline.ThreadOk(a.mon, ViewsOf(a), t);
    CreditsSplit(a, i);
    CreditsSplit(b, i);
    hide Awake, Credit, Credits, Pool, Discipline.Inv, Monitor.Step;
    if a.mon.status[t].Signalling? && a.mon.status[t].c == i && a.mon.conds[i] != [] {
      SwapCard(Pool(a.mon, ViewsOf(a), i), Extra(a, i), t, a.mon.conds[i][0]);
    }
  }

  lemma StepSem(a: Spec, t: Pid, i: nat)
    requires Discipline.Inv(a.mon, ViewsOf(a)) && Monitor.Enabled(a.mon, t) && SemInv(a, i) && Knows(a, t)
    ensures SemInv(a.(mon := Monitor.Step(a.mon, t)), i)
  {
    StepCredits(a, t, i);
    Monitor.StepObjects(a.mon, t);
    assert Discipline.ThreadOk(a.mon, ViewsOf(a), t);
    hide Credits, Discipline.Inv, Monitor.Step;
  }

  /** A step of the library keeps the invariant. */
  lemma StepInv(a: Spec, t: Pid)
    requires Inv(a) && Monitor.Enabled(a.mon, t)
    ensures Inv(a.(mon := Monitor.Step(a.mon, t)))
  {
    var b := a.(mon := Monitor.Step(a.mon, t));
    LibraryStep(a.mon, ViewsOf(a), t);
    assert Monitor.Inv(a.mon) && ViewsOf(b) == ViewsOf(a);
    hide Discipline.Inv, Monitor.Step;
    forall u | u in b.local ensures Knows(b, u) { assert Knows(a, u); Monitor.StepMoves(a.mon, t, u); }
    forall i | i in b.data.value ensures SemInv(b, i) { assert SemInv(a, i) && Knows(a, t); StepSem(a, t, i); }
  }

  lemma MoveInv(a: Spec, t: Pid)
    requires Inv(a) && SpecMoves(PROGRAM, a, t)
    ensures Inv(SpecMove(PROGRAM, a, t))
  {
    hide Inv;
    if !a.mon.status[t].Running? { StepInv(a, t); }
    else if Next(t, a.local[t], a.data).Do? { DoInv(a, t); }
    else { InvokeInv(a, t); }
  }

  type System = Sys<Client, Data>

  /** The state after sem_init of every semaphore, with every thread at the start of any
      list of tasks on these semaphores. */
  ghost predicate Start(s: System) {
    && SyncLib.Init(s.lib)
    && s.local.Keys == s.lib.core.threads.Keys
    && s.data.ring.Ok()
    && s.data.value == s.data.initial
    && (forall i :: i in s.data.value ==>
          s.data.Has(i) && s.data.posted[i] == 0 && s.data.taken[i] == 0 && s.lib.HasMutex(i) && s.lib.HasCond(i))
    && (forall t :: t in s.local ==> s.local[t].at.Outside? && TasksOk(s.data, s.local[t].todo))
  }

  lemma StartSpec(s: System) returns (a: Spec)
    requires Start(s)
    ensures Related(s, a) && Inv(a) && SyncLib.Inv(s.lib)
  {
    hide SyncLib.Inv, Matches, Monitor.Inv;
    InitInv(s.lib);
    InitRefines(s.lib);
    a := Clients.Spec(Initial(s.lib), s.local, s.data);
  }

  /** Every run of every set of threads on the library obeys the semaphore: the value is the
      initial value plus the posts minus the waits that returned, no wait succeeds on a
      value of zero or less, and while a thread sleeps on the semaphore the value is at
      most the number of wake-ups under way. */
  lemma SemaphoreRuns(s: System, run: seq<Pid>) returns (a: Spec)
    requires Start(s) && IsRun(PROGRAM, s, run)
    ensures var s' := After(PROGRAM, s, run);
            && SyncLib.Inv(s'.lib) && Related(s', a) && Inv(a)
            && forall i :: i in s'.data.value ==>
                 && s'.data.Has(i) && s'.lib.HasCond(i)
                 && s'.data.value[i] == s'.data.initial[i] + s'.data.posted[i] - s'.data.taken[i]
                 && s'.data.value[i] >= Min(0, s'.data.initial[i])
                 && (s'.lib.Queue(Clock(i)) != [] ==> s'.data.value[i] <= |Credits(a, i)|)
  {
    var a0 := StartSpec(s);
    forall b: Spec, t | Inv(b) && SpecMoves(PROGRAM, b, t) ensures Inv(SpecMove(PROGRAM, b, t)) { MoveInv(b, t); }
    a := Transfer(PROGRAM, (b: Spec) => Inv(b), s, a0, run);
    forall i | i in a.data.value ensures SemInv(a, i) {}
  }

  /** Nobody can move on the specification: the condition of Clients.StuckSys. */
  predicate Stopped(a: Spec, t: Pid) {
    && t in a.local && a.mon.Has(t)
    && (a.mon.status[t].Queued? || a.mon.status[t].Waiting?
        || (a.mon.status[t].Running?
            && var act := Next(t, a.local[t], a.data);
               act.Halt? || (act.Invoke? && !SpecCallOk(a.mon, t, act.op))))
  }

  /** On a stuck specification a thread owns no mutex and holds no credit. */
  lemma StuckThread(a: Spec, t: Pid)
    requires Discipline.ThreadOk(a.mon, ViewsOf(a), t) && Knows(a, t) && Stopped(a, t)
    requires a.data.ring.Ok() && forall i :: i in a.data.value ==> i in a.mon.locks && i in a.mon.conds
    ensures OwnsOf(a.mon.status[t], ViewOf(a.local[t].at)).None?
    ensures a.mon.status[t].Running? ==> a.local[t] == Client(Outside, [])
    ensures !a.mon.status[t].Queued? ==> forall i :: !Credit(a, t, i)
    ensures a.mon.status[t].Waiting? ==> a.data.Has(a.mon.status[t].c)
  {
  }

  lemma StuckSpec(a: Spec, t: Pid)
    requires Inv(a) && t in a.local && forall u :: u in a.local ==> Stopped(a, u)
    ensures !a.mon.status[t].Queued?
    ensures a.mon.status[t].Running? ==> a.local[t] == Client(Outside, [])
    ensures a.mon.status[t].Waiting? ==>
              a.data.Has(a.mon.status[t].c) && a.data.value[a.mon.status[t].c] <= 0
  {
    var vs := ViewsOf(a);
    assert forall i :: i in a.data.value ==> SemInv(a, i);
    forall u | u in a.local
      ensures OwnsOf(a.mon.status[u], vs[u]).None?
      ensures !a.mon.status[u].Queued? ==> forall i :: !Credit(a, u, i)
    {
      assert Discipline.ThreadOk(a.mon, vs, u) && Knows(a, u);
      StuckThread(a, u);
    }
    forall u | u in a.local ensures !a.mon.status[u].Queued? { NobodyQueued(a.mon, vs, u); }
    assert forall i :: Credits(a, i) == {};
    assert Discipline.ThreadOk(a.mon, vs, t) && Knows(a, t) && Monitor.StatusOk(a.mon, t);
    StuckThread(a, t);
  }

  /** No stranded waiter: when no thread can move any more, every thread has finished its
      tasks or sleeps in the queue of a semaphore whose value is zero or less. */
  lemma NoStrandedWaiter(s: System, run: seq<Pid>, t: Pid)
    requires Start(s) && IsRun(PROGRAM, s, run) && t in s.local
    requires forall u :: !Moves(PROGRAM, After(PROGRAM, s, run), u)
    ensures var s' := After(PROGRAM, s, run);
            && t in s'.local && s'.lib.Known(t)
            && ((s'.lib.PcOf(t).Idle? && s'.local[t] == Client(Outside, []))
                || (s'.lib.PcOf(t).WaitParked? && var i := s'.lib.PcOf(t).c;
                    s'.lib.HasCond(i) && t in s'.lib.Queue(Clock(i)) && s'.data.Has(i) && s'.data.value[i] <= 0))
  {
    hide Inv, SyncLib.Inv;
    var s' := After(PROGRAM, s, run);
    var a := SemaphoreRuns(s, run);
    InitInv(s.lib);
    RunLocals(PROGRAM, s, run);
    forall u | u in a.local ensures Stopped(a, u) { StuckSys(PROGRAM, s', a, u); }
    StuckSpec(a, t);
    StuckLibrary(PROGRAM, s', a, t);
  }
}
