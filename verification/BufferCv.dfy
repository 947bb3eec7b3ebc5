/** The bounded buffer of user/part4-cv.c: one mutex and two condition variables, for any
    number of producers and consumers and any ring size. */
module BufferCv {
  import opened Options
  import opened Handshake
  import opened SyncLib
  import opened Refinement
  import opened Clients
  import opened Discipline
  import opened Arith
  import Semaphores

  type Ring = Semaphores.Ring

  const MTX: nat := 0
  const EMPTY: nat := 0
  const FULL: nat := 1

  /** Producers sleep on `empty`, consumers on `full`; each signals the other side. */
  function CondOf(producer: bool): nat { if producer then EMPTY else FULL }

  datatype BufPc =
    | Outside
    | Test(producer: bool, v: int, again: bool)    // about to test the loop condition
    | Sleep(producer: bool, v: int)                // about to call cv_wait
    | Access(producer: bool, v: int, again: bool)  // about to store or load
    | Bump(producer: bool)                      // about to advance qhead or qtail
    | Notify(producer: bool)                       // about to call cv_signal
    | Leave(producer: bool)                        // about to unlock

  datatype Call = Produce(v: int) | Consume

  datatype Client = Client(at: BufPc, todo: seq<Call>)

  /** The loop conditions: one slot is always left unused to tell full from empty. */
  predicate Blocked(r: Ring, producer: bool)
    requires r.Ok()
  {
    if producer then (r.head + 1) % |r.slots| == r.tail else r.head == r.tail
  }

  function Next(t: Pid, c: Client, r: Ring): Act<Client, Ring> {
    match c.at
    case Outside =>
      if c.todo == [] then Halt
      else
        var at := if c.todo[0].Produce? then Test(true, c.todo[0].v, false) else Test(false, 0, false);
        Invoke(Lock(MTX), Client(at, c.todo[1..]))
    case Test(p, v, again) =>
      if !r.Ok() then Halt else Do(c.(at := if Blocked(r, p) then Sleep(p, v) else Access(p, v, again)), r)
    case Sleep(p, v) => Invoke(Wait(CondOf(p), MTX), c.(at := Test(p, v, true)))
    case Access(p, v, _) =>
      if !r.Ok() then Halt
      else Do(c.(at := Bump(p)), Semaphores.RingStep(r, if p then Semaphores.Store(v) else Semaphores.Load))
    case Bump(p) =>
      if !r.Ok() then Halt
      else Do(c.(at := Notify(p)), Semaphores.RingStep(r, if p then Semaphores.AdvanceHead else Semaphores.AdvanceTail))
    case Notify(p) => Invoke(Signal(CondOf(!p)), c.(at := Leave(p)))
    case Leave(p) => Invoke(Unlock(MTX), c.(at := Outside))
  }

  const PROGRAM: Program<Client, Ring> := Program((t: Pid, c: Client, r: Ring) => Next(t, c, r))

  type Spec = Clients.Spec<Client, Ring>

  function ViewOf(at: BufPc): View {
    match at
    case Outside => Out
    case Test(p, _, again) => if again then Waited(CondOf(p), MTX) else Acquired(MTX)
    case Leave(p) => Told(CondOf(!p), MTX)
    case _ => Inside(MTX)
  }

  function ViewsOf(a: Spec): Views {
    map t | t in a.local :: ViewOf(a.local[t].at)
  }

  /** Items in the ring, and places left: what each side waits for. */
  function Available(r: Ring, producer: bool): int {
    var items := |r.inserted| - |r.removed|;
    if producer then |r.slots| - 1 - items else items
  }

  /** The ring holds the values put in and not taken out; `lag` says that qhead (qtail) has
      yet to be advanced after a store (load). */
  predicate RingOk(r: Ring, headLag: nat, tailLag: nat) {
    && r.Ok()
    && r.head == (|r.inserted| - headLag) % |r.slots|
    && r.tail == (|r.removed| - tailLag) % |r.slots|
    && r.removed <= r.inserted
    && |r.inserted| - |r.removed| < |r.slots|
    && (forall j :: |r.removed| <= j < |r.inserted| ==> r.slots[j % |r.slots|] == r.inserted[j])
  }

  function Lag(a: Spec, producer: bool): nat {
    if MTX in a.mon.locks && a.mon.locks[MTX].owner.Some? && a.mon.locks[MTX].owner.value in a.local
       && a.local[a.mon.locks[MTX].owner.value].at == Bump(producer)
    then 1 else 0
  }

  /** What a thread knows from its last test while it still owns the mutex. */
  predicate Knows(a: Spec, t: Pid) {
    && t in a.local && a.mon.Has(t)
    && match a.local[t].at
       case Sleep(p, _) => Available(a.data, p) == 0
       case Test(p, _, _) => a.mon.status[t].Entering? ==> Available(a.data, p) == 0
       case Access(p, _, _) => Available(a.data, p) > 0
       case _ => true
  }

  /** A wake-up of one side under way: in the library, in a thread of that side about to use
      it, or in a thread of the other side that has not signalled yet. */
  predicate Credit(a: Spec, t: Pid, producer: bool) {
    && t in a.local
    && (Awake(a.mon, ViewsOf(a), t, CondOf(producer)) || Earned(a.local[t].at, producer))
  }

  predicate Earned(at: BufPc, producer: bool) {
    (at.Access? && at.producer == producer && at.again) || at == Bump(!producer) || at == Notify(!producer)
  }

  function Credits(a: Spec, producer: bool): set<Pid> {
    set t | t in a.local && Credit(a, t, producer)
  }

  predicate SideInv(a: Spec, producer: bool) {
    CondOf(producer) in a.mon.conds
    && (a.mon.conds[CondOf(producer)] != [] ==> Available(a.data, producer) <= |Credits(a, producer)|)
  }

  predicate Inv(a: Spec) {
    && Discipline.Inv(a.mon, ViewsOf(a))
    && MTX in a.mon.locks
    && RingOk(a.data, Lag(a, true), Lag(a, false))
    && (forall t :: t in a.local ==> Knows(a, t))
    && SideInv(a, true) && SideInv(a, false)
  }

  /** With both indices up to date, the tests of the source tell full and empty exactly. */
  lemma BlockedExactly(r: Ring, producer: bool)
    requires RingOk(r, 0, 0)
    ensures Blocked(r, producer) <==> Available(r, producer) == 0
  {
    var (i, j, n) := (|r.removed|, |r.inserted|, |r.slots|);
    NextMod(j, n);
    if i < j { ModApart(i, j, n); }
    if j + 1 < i + n {
      ModApart(i, j + 1, n);
    } else {
      DivMod(j + 1, n, i / n + 1, i % n);
    }
  }

  lemma StoreOk(r: Ring, v: int)
    requires RingOk(r, 0, 0) && Available(r, true) > 0
    ensures RingOk(Semaphores.RingStep(r, Semaphores.Store(v)), 1, 0)
  {
    var (r', n) := (Semaphores.RingStep(r, Semaphores.Store(v)), |r.slots|);
    forall j | |r'.removed| <= j < |r'.inserted| ensures r'.slots[j % n] == r'.inserted[j] {
      if j < |r.inserted| { ModApart(j, |r.inserted|, n); }
    }
  }

  lemma LoadOk(r: Ring)
    requires RingOk(r, 0, 0) && Available(r, false) > 0
    ensures RingOk(Semaphores.RingStep(r, Semaphores.Load), 0, 1)
  {
  }

  lemma HeadOk(r: Ring)
    requires RingOk(r, 1, 0)
    ensures RingOk(Semaphores.RingStep(r, Semaphores.AdvanceHead), 0, 0)
  {
    BumpMod(r.head, |r.inserted|, |r.slots|);
  }

  lemma TailOk(r: Ring)
    requires RingOk(r, 0, 1)
    ensures RingOk(Semaphores.RingStep(r, Semaphores.AdvanceTail), 0, 0)
  {
    BumpMod(r.tail, |r.removed|, |r.slots|);
  }

  /** A running thread inside the monitor owns the mutex, and its own program counter says
      whether an index lags. */
  lemma OwnerLag(a: Spec, t: Pid)
    requires Discipline.ThreadOk(a.mon, ViewsOf(a), t) && t in a.local && a.mon.status[t].Running?
    requires !a.local[t].at.Outside?
    ensures MTX in a.mon.locks && a.mon.locks[MTX].owner == Some(t)
    ensures forall p :: Lag(a, p) == if a.local[t].at == Bump(p) then 1 else 0
  {
  }

  lemma DoRing(a: Spec, t: Pid)
    requires Discipline.ThreadOk(a.mon, ViewsOf(a), t) && Knows(a, t) && RingOk(a.data, Lag(a, true), Lag(a, false))
    requires SpecMoves(PROGRAM, a, t) && a.mon.status[t].Running? && Next(t, a.local[t], a.data).Do?
    ensures var b := SpecMove(PROGRAM, a, t);
            && RingOk(b.data, Lag(b, true), Lag(b, false)) && Knows(b, t) && |b.data.slots| == |a.data.slots|
  {
    OwnerLag(a, t);
    match a.local[t].at
    case Test(p, _, _) => BlockedExactly(a.data, p);
    case Access(p, v, _) => if p { StoreOk(a.data, v); } else { LoadOk(a.data); }
    case Bump(p) => if p { HeadOk(a.data); } else { TailOk(a.data); }
  }

  lemma DoSide(a: Spec, t: Pid, p: bool)
    requires SpecMoves(PROGRAM, a, t) && a.mon.status[t].Running? && Next(t, a.local[t], a.data).Do?
    requires Knows(a, t) && Knows(SpecMove(PROGRAM, a, t), t) && SideInv(a, p)
    ensures SideInv(SpecMove(PROGRAM, a, t), p)
  {
    var b := SpecMove(PROGRAM, a, t);
    SwapSize(Credits(a, p), Credits(b, p), t);
  }

  lemma DoKnows(a: Spec, t: Pid, u: Pid)
    requires Discipline.ThreadOk(a.mon, ViewsOf(a), t) && Discipline.ThreadOk(a.mon, ViewsOf(a), u) && Knows(a, u)
    requires u != t
    requires SpecMoves(PROGRAM, a, t) && a.mon.status[t].Running? && Next(t, a.local[t], a.data).Do?
    ensures Knows(SpecMove(PROGRAM, a, t), u)
  {
    OwnerLag(a, t);
  }

  lemma ViewsUpdate(a: Spec, b: Spec, t: Pid, c: Client)
    requires t in a.local && b.local == a.local[t := c]
    ensures ViewsOf(b) == ViewsOf(a)[t := ViewOf(c.at)]
  {
    hide ViewOf;
  }

  lemma DoInv(a: Spec, t: Pid)
    requires Inv(a) && SpecMoves(PROGRAM, a, t) && a.mon.status[t].Running? && Next(t, a.local[t], a.data).Do?
    ensures Inv(SpecMove(PROGRAM, a, t))
  {
    var (b, vs) := (SpecMove(PROGRAM, a, t), ViewsOf(a));
    assert Knows(a, t) && Discipline.ThreadOk(a.mon, vs, t);
    ViewsUpdate(a, b, t, b.local[t]);
    ClientStep(a.mon, vs, t, ViewOf(b.local[t].at));
    DoRing(a, t);
    hide RingOk, Lag;
    forall u | u in b.local ensures Knows(b, u) {
      if u != t { assert Knows(a, u) && Discipline.ThreadOk(a.mon, vs, u); DoKnows(a, t, u); }
    }
    DoSide(a, t, true);
    DoSide(a, t, false);
  }

  lemma InvokeAllowed(a: Spec, t: Pid)
    requires Knows(a, t) && Next(t, a.local[t], a.data).Invoke?
    ensures var act := Next(t, a.local[t], a.data);
            && CallAllowed(ViewOf(a.local[t].at), act.op, ViewOf(act.c.at))
            && (match act.op
                case Lock(m) => m == MTX
                case Unlock(m) => m == MTX
                case Wait(c, m) => m == MTX && (c == EMPTY || c == FULL)
                case Signal(c) => c == EMPTY || c == FULL
                case _ => true)
            && (act.op.Wait? && act.c.at.Test? ==> Available(a.data, act.c.at.producer) == 0)
            && (act.c.at.Outside? || act.c.at.Test? || act.c.at.Leave?) && !a.local[t].at.Bump?
  {
  }

  lemma InvokeSide(a: Spec, t: Pid, p: bool)
    requires SpecMoves(PROGRAM, a, t) && a.mon.status[t].Running? && Next(t, a.local[t], a.data).Invoke?
    requires SideInv(a, p)
    ensures SideInv(SpecMove(PROGRAM, a, t), p)
  {
    var b := SpecMove(PROGRAM, a, t);
    SwapSize(Credits(a, p), Credits(b, p), t);
  }

  lemma InvokeInv(a: Spec, t: Pid)
    requires Inv(a) && SpecMoves(PROGRAM, a, t) && a.mon.status[t].Running? && Next(t, a.local[t], a.data).Invoke?
    ensures Inv(SpecMove(PROGRAM, a, t))
  {
    hide Next, ViewOf, CallAllowed, Discipline.Inv, RingOk;
    var (b, act) := (SpecMove(PROGRAM, a, t), Next(t, a.local[t], a.data));
    assert Knows(a, t);
    InvokeAllowed(a, t);
    ViewsUpdate(a, b, t, act.c);
    ClientCall(a.mon, ViewsOf(a), t, act.op, ViewOf(act.c.at));
    assert Lag(b, true) == Lag(a, true) && Lag(b, false) == Lag(a, false);
    forall u | u in b.local ensures Knows(b, u) { assert Knows(a, u); }
    InvokeSide(a, t, true);
    InvokeSide(a, t, false);
  }

  function Extra(a: Spec, p: bool): set<Pid> {
    set u | u in a.local && Earned(a.local[u].at, p)
  }

  lemma CreditsSplit(a: Spec, p: bool)
    ensures Credits(a, p) == Pool(a.mon, ViewsOf(a), CondOf(p)) + Extra(a, p)
  {
  }

  lemma StepCredits(a: Spec, t: Pid, p: bool)
    requires Discipline.Inv(a.mon, ViewsOf(a)) && Monitor.Enabled(a.mon, t) && t in a.local && CondOf(p) in a.mon.conds
    ensures var (b, c) := (a.(mon := Monitor.Step(a.mon, t)), CondOf(p));
            && c in b.mon.conds && Monitor.CondMove(a.mon, t, b.mon, c)
            && (b.mon.conds[c] != [] ==> |Credits(b, p)| == |Credits(a, p)|)
  {
    var (b, c) := (a.(mon := Monitor.Step(a.mon, t)), CondOf(p));
    PoolStep(a.mon, ViewsOf(a), t, c);
    assert Discipline.ThreadOk(a.mon, ViewsOf(a), t);
    CreditsSplit(a, p);
    CreditsSplit(b, p);
    hide Awake, Credit, Credits, Pool, Discipline.Inv, Monitor.Step;
    if a.mon.status[t].Signalling? && a.mon.status[t].c == c && a.mon.conds[c] != [] {
      Semaphores.SwapCard(Pool(a.mon, ViewsOf(a), c), Extra(a, p), t, a.mon.conds[c][0]);
    }
  }

  lemma StepSide(a: Spec, t: Pid, p: bool)
    requires Discipline.Inv(a.mon, ViewsOf(a)) && Monitor.Enabled(a.mon, t) && SideInv(a, p) && Knows(a, t)
    ensures SideInv(a.(mon := Monitor.Step(a.mon, t)), p)
  {
    StepCredits(a, t, p);
    assert Discipline.ThreadOk(a.mon, ViewsOf(a), t);
    hide Credits, Discipline.Inv, Monitor.Step;
  }

  /** The mutex changes hands only between threads that have no index to advance. */
  lemma StepLag(a: Spec, t: Pid, p: bool)
    requires Discipline.Inv(a.mon, ViewsOf(a)) && Monitor.Enabled(a.mon, t) && MTX in a.mon.locks
    ensures Lag(a.(mon := Monitor.Step(a.mon, t)), p) == Lag(a, p)
  {
    hide Monitor.Step, Monitor.Inv;
    var vs := ViewsOf(a);
    Monitor.StepObjects(a.mon, t);
    assert Discipline.ThreadOk(a.mon, vs, t);
    assert Monitor.OwnerMove(a.mon, t, Monitor.Step(a.mon, t), MTX);
    var o := Monitor.Step(a.mon, t).locks[MTX].owner;
    if o.Some? && o.value in vs { assert Discipline.ThreadOk(a.mon, vs, o.value); }
  }

  lemma StepInv(a: Spec, t: Pid)
    requires Inv(a) && Monitor.Enabled(a.mon, t)
    ensures Inv(a.(mon := Monitor.Step(a.mon, t)))
  {
    var b := a.(mon := Monitor.Step(a.mon, t));
    LibraryStep(a.mon, ViewsOf(a), t);
    assert Monitor.Inv(a.mon) && ViewsOf(b) == ViewsOf(a);
    Monitor.StepObjects(a.mon, t);
    hide Discipline.Inv, Monitor.Step, RingOk, Lag;
    StepLag(a, t, true);
    StepLag(a, t, false);
    forall u | u in b.local ensures Knows(b, u) { assert Knows(a, u); Monitor.StepMoves(a.mon, t, u); }
    assert Knows(a, t);
    StepSide(a, t, true);
    StepSide(a, t, false);
  }

  lemma MoveInv(a: Spec, t: Pid)
    requires Inv(a) && SpecMoves(PROGRAM, a, t)
    ensures Inv(SpecMove(PROGRAM, a, t))
  {
    hide Inv;
    if !a.mon.status[t].Running? { StepInv(a, t); }
    else if Next(t, a.local[t], a.data).Do? { DoInv(a, t); }
    else { InvokeInv(a, t); }
  }

  type System = Sys<Client, Ring>

  /** The state of user/part4-cv.c before its threads start, for a ring of any size. */
  ghost predicate Start(s: System) {
    && SyncLib.Init(s.lib)
    && s.lib.HasMutex(MTX) && s.lib.HasCond(EMPTY) && s.lib.HasCond(FULL)
    && s.local.Keys == s.lib.core.threads.Keys
    && |s.data.slots| > 0 && s.data.head == s.data.tail == 0 && s.data.inserted == s.data.removed == []
    && (forall t :: t in s.local ==> s.local[t].at.Outside?)
  }

  lemma StartSpec(s: System) returns (a: Spec)
    requires Start(s)
    ensures Related(s, a) && Inv(a) && SyncLib.Inv(s.lib)
  {
    hide SyncLib.Inv, Matches, Monitor.Inv;
    InitInv(s.lib);
    InitRefines(s.lib);
    a := Clients.Spec(Initial(s.lib), s.local, s.data);
  }

  lemma RunsInv(s: System, run: seq<Pid>) returns (a: Spec)
    requires Start(s) && IsRun(PROGRAM, s, run)
    ensures SyncLib.Inv(After(PROGRAM, s, run).lib) && Related(After(PROGRAM, s, run), a) && Inv(a)
  {
    hide Inv, Related, SyncLib.Inv;
    var a0 := StartSpec(s);
    forall b: Spec, t | Inv(b) && SpecMoves(PROGRAM, b, t) ensures Inv(SpecMove(PROGRAM, b, t)) { MoveInv(b, t); }
    a := Transfer(PROGRAM, Inv, s, a0, run);
  }

  /** In every run the values taken out are a prefix of the values put in, one slot stays
      free, and no side sleeps beside work without a wake-up under way: while a consumer is
      in the queue of `full` there are at most as many items as wake-ups of consumers, and
      the same for producers and free places. */
  lemma BufferRuns(s: System, run: seq<Pid>) returns (a: Spec)
    requires Start(s) && IsRun(PROGRAM, s, run)
    ensures var s' := After(PROGRAM, s, run);
            && Related(s', a)
            && s'.data.removed <= s'.data.inserted
            && |s'.data.inserted| - |s'.data.removed| < |s'.data.slots|
            && (forall p :: s'.lib.HasCond(CondOf(p)) && (s'.lib.Queue(Clock(CondOf(p))) != [] ==>
                              Available(s'.data, p) <= |Credits(a, p)|))
  {
    hide SyncLib.Inv, Discipline.Inv;
    a := RunsInv(s, run);
    assert forall p :: SideInv(a, p);
  }

  predicate Stopped(a: Spec, t: Pid) {
    && t in a.local && a.mon.Has(t)
    && (a.mon.status[t].Queued? || a.mon.status[t].Waiting?
        || (a.mon.status[t].Running?
            && var act := Next(t, a.local[t], a.data);
               act.Halt? || (act.Invoke? && !SpecCallOk(a.mon, t, act.op))))
  }

  lemma StuckThread(a: Spec, t: Pid)
    requires Discipline.ThreadOk(a.mon, ViewsOf(a), t) && Knows(a, t) && Stopped(a, t)
    requires a.data.Ok() && MTX in a.mon.locks && EMPTY in a.mon.conds && FULL in a.mon.conds
    ensures OwnsOf(a.mon.status[t], ViewOf(a.local[t].at)).None?
    ensures a.mon.status[t].Running? ==> a.local[t] == Client(Outside, [])
    ensures !a.mon.status[t].Queued? ==> forall p :: !Credit(a, t, p)
    ensures a.mon.status[t].Waiting? ==> exists p :: a.mon.status[t].c == CondOf(p)
  {
    if a.mon.status[t].Waiting? { assert a.mon.status[t].c == CondOf(a.local[t].at.producer); }
  }

  lemma StuckSpec(a: Spec, t: Pid)
    requires Inv(a) && t in a.local && forall u :: u in a.local ==> Stopped(a, u)
    ensures !a.mon.status[t].Queued?
    ensures a.mon.status[t].Running? ==> a.local[t] == Client(Outside, [])
    ensures a.mon.status[t].Waiting? ==> exists p :: a.mon.status[t].c == CondOf(p) && Available(a.data, p) == 0
  {
    var vs := ViewsOf(a);
    forall u | u in a.local
      ensures OwnsOf(a.mon.status[u], vs[u]).None?
      ensures !a.mon.status[u].Queued? ==> forall p :: !Credit(a, u, p)
    {
      assert Discipline.ThreadOk(a.mon, vs, u) && Knows(a, u);
      StuckThread(a, u);
    }
    forall u | u in a.local ensures !a.mon.status[u].Queued? { NobodyQueued(a.mon, vs, u); }
    assert forall p :: Credits(a, p) == {};
    assert Discipline.ThreadOk(a.mon, vs, t) && Knows(a, t) && Monitor.StatusOk(a.mon, t);
    StuckThread(a, t);
    if a.mon.status[t].Waiting? {
      var p :| a.mon.status[t].c == CondOf(p);
      assert SideInv(a, p);
    }
  }

  /** A run comes to a halt only when every thread has finished its calls or sleeps for good
      reason: a producer on a full ring, a consumer on an empty one. */
  lemma BufferStops(s: System, run: seq<Pid>, t: Pid)
    requires Start(s) && IsRun(PROGRAM, s, run) && t in s.local
    requires forall u :: !Moves(PROGRAM, After(PROGRAM, s, run), u)
    ensures var s' := After(PROGRAM, s, run);
            && t in s'.local && s'.lib.Known(t)
            && ((s'.lib.PcOf(t).Idle? && s'.local[t] == Client(Outside, []))
                || (s'.lib.PcOf(t).WaitParked? && exists p ::
                    s'.lib.PcOf(t).c == CondOf(p) && s'.lib.HasCond(CondOf(p))
                    && t in s'.lib.Queue(Clock(CondOf(p))) && Available(s'.data, p) == 0))
  {
    hide Inv, SyncLib.Inv;
    var s' := After(PROGRAM, s, run);
    var a := RunsInv(s, run);
    InitInv(s.lib);
    RunLocals(PROGRAM, s, run);
    forall u | u in a.local ensures Stopped(a, u) { StuckSys(PROGRAM, s', a, u); }
    StuckSpec(a, t);
    StuckLibrary(PROGRAM, s', a, t);
  }
}
