/** The bounded buffer of user/part4-sem.c for any number of producers and consumers and any
    capacity: produce and consume are the task lists below, run on the semaphores. */
module BufferSem {
  import opened Handshake
  import opened SyncLib
  import opened Clients
  import opened Semaphores
  import opened Arith
  import Counting

  const EMPTY: nat := 0
  const FULL: nat := 1
  const MUTEX: nat := 2

  function Produce(v: int): seq<Task> {
    [P(EMPTY), P(MUTEX), Store(v), AdvanceHead, V(MUTEX), V(FULL)]
  }

  function Consume(): seq<Task> {
    [P(FULL), P(MUTEX), Load, AdvanceTail, V(MUTEX), V(EMPTY)]
  }

  /** Lists of whole produce and consume calls. */
  predicate Calls(todo: seq<Task>)
    decreases |todo|
  {
    todo == []
    || (|todo| >= 6 && Calls(todo[6..])
        && (todo[..6] == Consume() || (todo[2].Store? && todo[..6] == Produce(todo[2].v))))
  }

  /** Where a thread is: its next task is the one at `at` of a produce or consume call. */
  datatype Place = Nowhere | Place(producer: bool, at: nat)

  function Where(todo: seq<Task>): Place {
    if todo == [] then Nowhere else
    match todo[0]
    case P(i) =>
      if i == EMPTY then Place(true, 0)
      else if i == FULL then Place(false, 0)
      else if i == MUTEX then Place(|todo| > 1 && todo[1].Store?, 1)
      else Nowhere
    case Store(_) => Place(true, 2)
    case Load => Place(false, 2)
    case AdvanceHead => Place(true, 3)
    case AdvanceTail => Place(false, 3)
    case V(i) =>
      if i == MUTEX then Place(|todo| > 1 && todo[1] == V(FULL), 4)
      else if i == FULL then Place(true, 5)
      else if i == EMPTY then Place(false, 5)
      else Nowhere
  }

  /** The rest of a list of produce and consume calls. */
  predicate Plan(todo: seq<Task>)
    decreases |todo|
  {
    todo == []
    || (Plan(todo[1..])
        && var (w, w') := (Where(todo), Where(todo[1..]));
           && w.Place?
           && if w.at < 5 then w' == Place(w.producer, w.at + 1) else w' == Nowhere || (w'.Place? && w'.at == 0))
  }

  lemma {:induction false} CallsPlan(todo: seq<Task>)
    requires Calls(todo)
    ensures Plan(todo) && (Where(todo) == Nowhere || Where(todo).at == 0)
    decreases |todo|
  {
    if todo != [] {
      var (t1, t2, t3) := (todo[1..], todo[2..], todo[3..]);
      var (t4, t5, t6) := (todo[4..], todo[5..], todo[6..]);
      CallsPlan(t6);
      assert todo[..6][0] == todo[0] && todo[..6][1] == todo[1] && todo[..6][2] == todo[2];
      assert todo[..6][3] == todo[3] && todo[..6][4] == todo[4] && todo[..6][5] == todo[5];
      assert t5[1..] == t6 && t4[1..] == t5 && t3[1..] == t4 && t2[1..] == t3 && t1[1..] == t2;
      assert Plan(t5);
      assert Plan(t4);
      assert Plan(t3);
      assert Plan(t2);
      assert Plan(t1);
    }
  }

  // What a thread at a place contributes to the counts below.

  function One(b: bool): nat { if b then 1 else 0 }

  /** Between its wait on MUTEX and its post of MUTEX. */
  function Inside(todo: seq<Task>): nat { One(Where(todo).Place? && 2 <= Where(todo).at <= 4) }

  /** Between its first wait and its last post. */
  function Holding(todo: seq<Task>): nat { One(Where(todo).Place? && 1 <= Where(todo).at) }

  /** Accounts for an item in the buffer that the value of FULL does not show. */
  function Item(todo: seq<Task>): nat {
    One(Where(todo).Place? && if Where(todo).producer then 3 <= Where(todo).at else 1 <= Where(todo).at <= 2)
  }

  /** Has stored but not advanced `qhead`; has loaded but not advanced `qtail`. */
  function Storing(todo: seq<Task>): nat { One(Where(todo) == Place(true, 3)) }
  function Loading(todo: seq<Task>): nat { One(Where(todo) == Place(false, 3)) }

  type Todo = map<Pid, seq<Task>>

  ghost function Sum(m: Todo, ks: set<Pid>, w: seq<Task> -> nat): nat
    requires ks <= m.Keys
  {
    if exists t :: t in ks then var t :| t in ks; w(m[t]) + Sum(m, ks - {t}, w) else 0
  }

  lemma {:induction false} SumPick(m: Todo, ks: set<Pid>, w: seq<Task> -> nat, t: Pid)
    requires ks <= m.Keys && t in ks
    ensures Sum(m, ks, w) == w(m[t]) + Sum(m, ks - {t}, w)
    decreases |ks|
  {
    var u :| u in ks && Sum(m, ks, w) == w(m[u]) + Sum(m, ks - {u}, w);
    if u != t {
      SumPick(m, ks - {u}, w, t);
      SumPick(m, ks - {t}, w, u);
      assert ks - {u} - {t} == ks - {t} - {u};
    }
  }

  lemma {:induction false} SumSame(m: Todo, m': Todo, ks: set<Pid>, w: seq<Task> -> nat)
    requires ks <= m.Keys && ks <= m'.Keys && forall t :: t in ks ==> m'[t] == m[t]
    ensures Sum(m', ks, w) == Sum(m, ks, w)
    decreases |ks|
  {
    if t :| t in ks {
      SumPick(m, ks, w, t);
      SumPick(m', ks, w, t);
      SumSame(m, m', ks - {t}, w);
    }
  }

  lemma {:induction false} SumLe(m: Todo, ks: set<Pid>, v: seq<Task> -> nat, w: seq<Task> -> nat)
    requires ks <= m.Keys && forall x :: v(x) <= w(x)
    ensures Sum(m, ks, v) <= Sum(m, ks, w)
    decreases |ks|
  {
    if t :| t in ks {
      SumPick(m, ks, v, t);
      SumPick(m, ks, w, t);
      SumLe(m, ks - {t}, v, w);
    }
  }

  ghost function Total(m: Todo, w: seq<Task> -> nat): nat { Sum(m, m.Keys, w) }

  /** A thread that moves on changes a total by its own contribution. */
  lemma TotalMove(m: Todo, t: Pid, w: seq<Task> -> nat)
    requires t in m && m[t] != []
    ensures Total(m[t := m[t][1..]], w) == Total(m, w) - w(m[t]) + w(m[t][1..])
    ensures w(m[t]) <= Total(m, w)
  {
    var m' := m[t := m[t][1..]];
    SumPick(m, m.Keys, w, t);
    SumPick(m', m'.Keys, w, t);
    assert m'.Keys == m.Keys;
    SumSame(m, m', m.Keys - {t}, w);
  }

  /** A contribution that is part of another one. */
  lemma TotalLe(m: Todo, t: Pid, v: seq<Task> -> nat, w: seq<Task> -> nat)
    requires t in m && forall x :: v(x) <= w(x)
    ensures Total(m, v) - v(m[t]) <= Total(m, w) - w(m[t])
  {
    SumPick(m, m.Keys, v, t);
    SumPick(m, m.Keys, w, t);
    SumLe(m, m.Keys - {t}, v, w);
  }

  ghost predicate CountsOk(a: Counting.State) {
    && a.data.Has(EMPTY) && a.data.Has(FULL) && a.data.Has(MUTEX)
    && a.data.value[EMPTY] >= 0 && a.data.value[FULL] >= 0 && a.data.value[MUTEX] >= 0
    && (forall t :: t in a.todo ==> Plan(a.todo[t]))
    && a.data.value[MUTEX] + Total(a.todo, Inside) == 1
    && a.data.value[EMPTY] + a.data.value[FULL] + Total(a.todo, Holding) == |a.data.ring.slots|
    && |a.data.ring.inserted| - |a.data.ring.removed| == a.data.value[FULL] + Total(a.todo, Item)
  }

  ghost predicate RingOk(a: Counting.State) {
    var r := a.data.ring;
    && r.Ok()
    && r.head == (|r.inserted| - Total(a.todo, Storing)) % |r.slots|
    && r.tail == (|r.removed| - Total(a.todo, Loading)) % |r.slots|
    && r.removed <= r.inserted
    && (forall j :: |r.removed| <= j < |r.inserted| ==> r.slots[j % |r.slots|] == r.inserted[j])
  }

  ghost predicate Inv(a: Counting.State) { CountsOk(a) && RingOk(a) }

  /** What completing a task does to the contributions of the thread. */
  lemma Contribution(todo: seq<Task>)
    requires Plan(todo) && todo != []
    ensures var (k, next) := (todo[0], todo[1..]);
            && (k.P? || k.V? ==> k.i == EMPTY || k.i == FULL || k.i == MUTEX)
            && var d := if k.P? then 1 else if k.V? then -1 else 0;
               && Inside(next) - Inside(todo) == (if d != 0 && k.i == MUTEX then d else 0)
               && Holding(next) - Holding(todo) == (if d != 0 && k.i != MUTEX then d else 0)
               && Item(next) - Item(todo)
                  == (if k.Store? then 1 else if k.Load? then -1 else if d != 0 && k.i == FULL then d else 0)
               && Storing(next) - Storing(todo) == (if k.Store? then 1 else if k.AdvanceHead? then -1 else 0)
               && Loading(next) - Loading(todo) == (if k.Load? then 1 else if k.AdvanceTail? then -1 else 0)
               && (!k.P? && !k.V? ==> Inside(todo) == 1)
               && (k.AdvanceHead? ==> Storing(todo) == 1) && (k.AdvanceTail? ==> Loading(todo) == 1)
               && (k.Store? || k.Load? ==> Storing(todo) == 0 && Loading(todo) == 0)
  {
  }

  lemma CountsStep(a: Counting.State, t: Pid)
    requires CountsOk(a) && a.data.ring.Ok() && Counting.Enabled(a, t)
    ensures CountsOk(Counting.Step(a, t))
  {
    hide Where, Inside, Holding, Item;
    Contribution(a.todo[t]);
    TotalMove(a.todo, t, Inside);
    TotalMove(a.todo, t, Holding);
    TotalMove(a.todo, t, Item);
  }

  /** Nobody else is between its store or load and the advance of the index. */
  lemma Alone(a: Counting.State, t: Pid)
    requires CountsOk(a) && t in a.todo && Inside(a.todo[t]) == 1
    ensures Total(a.todo, Storing) == Storing(a.todo[t]) && Total(a.todo, Loading) == Loading(a.todo[t])
  {
    TotalLe(a.todo, t, Storing, Inside);
    TotalLe(a.todo, t, Loading, Inside);
    SumPick(a.todo, a.todo.Keys, Inside, t);
    SumPick(a.todo, a.todo.Keys, Storing, t);
    SumPick(a.todo, a.todo.Keys, Loading, t);
  }

  /** There is room for a store and an item for a load: slots neither overrun nor underrun. */
  lemma NoOverrun(a: Counting.State, t: Pid)
    requires CountsOk(a) && t in a.todo && a.todo[t] != []
    ensures 0 <= |a.data.ring.inserted| - |a.data.ring.removed| <= |a.data.ring.slots|
    ensures a.todo[t][0].Store? ==> |a.data.ring.inserted| - |a.data.ring.removed| < |a.data.ring.slots|
    ensures a.todo[t][0].Load? ==> |a.data.ring.inserted| > |a.data.ring.removed|
  {
    TotalLe(a.todo, t, Item, Holding);
    SumPick(a.todo, a.todo.Keys, Item, t);
    assert Plan(a.todo[t]);
  }

  lemma StoreStep(a: Counting.State, t: Pid)
    requires Inv(a) && Counting.Enabled(a, t) && a.todo[t][0].Store?
    ensures RingOk(Counting.Step(a, t))
  {
    var (r, r') := (a.data.ring, Counting.Step(a, t).data.ring);
    var n := |r.slots|;
    hide Where, Inside, Storing, Loading;
    Contribution(a.todo[t]);
    Alone(a, t);
    NoOverrun(a, t);
    TotalMove(a.todo, t, Storing);
    TotalMove(a.todo, t, Loading);
    forall j | |r'.removed| <= j < |r'.inserted| ensures r'.slots[j % n] == r'.inserted[j] {
      if j < |r.inserted| { ModApart(j, |r.inserted|, n); }
    }
  }

  lemma LoadStep(a: Counting.State, t: Pid)
    requires Inv(a) && Counting.Enabled(a, t) && a.todo[t][0].Load?
    ensures RingOk(Counting.Step(a, t))
  {
    hide Where, Inside, Storing, Loading;
    Contribution(a.todo[t]);
    Alone(a, t);
    NoOverrun(a, t);
    TotalMove(a.todo, t, Storing);
    TotalMove(a.todo, t, Loading);
  }

  lemma AdvanceStep(a: Counting.State, t: Pid)
    requires Inv(a) && Counting.Enabled(a, t) && (a.todo[t][0].AdvanceHead? || a.todo[t][0].AdvanceTail?)
    ensures RingOk(Counting.Step(a, t))
  {
    hide Where, Inside, Storing, Loading, CountsOk;
    var (r, k) := (a.data.ring, a.todo[t][0]);
    PlanOf(a, t);
    Contribution(a.todo[t]);
    TotalMove(a.todo, t, Storing);
    TotalMove(a.todo, t, Loading);
    Alone(a, t);
    if k.AdvanceHead? {
      BumpMod(r.head, |r.inserted|, |r.slots|);
    } else {
      BumpMod(r.tail, |r.removed|, |r.slots|);
    }
  }

  lemma PlanOf(a: Counting.State, t: Pid)
    requires CountsOk(a) && t in a.todo
    ensures Plan(a.todo[t])
  {
  }

  lemma SemStep(a: Counting.State, t: Pid)
    requires Inv(a) && Counting.Enabled(a, t) && (a.todo[t][0].P? || a.todo[t][0].V?)
    ensures RingOk(Counting.Step(a, t))
  {
    hide Where, Inside, Storing, Loading, CountsOk;
    PlanOf(a, t);
    Contribution(a.todo[t]);
    TotalMove(a.todo, t, Storing);
    TotalMove(a.todo, t, Loading);
  }

  lemma StepInv(a: Counting.State, t: Pid)
    requires Inv(a) && Counting.Enabled(a, t)
    ensures Inv(Counting.Step(a, t))
  {
    CountsStep(a, t);
    if a.todo[t][0].Store? { StoreStep(a, t); }
    else if a.todo[t][0].Load? { LoadStep(a, t); }
    else if a.todo[t][0].P? || a.todo[t][0].V? { SemStep(a, t); }
    else { AdvanceStep(a, t); }
  }

  /** The state of user/part4-sem.c before its threads start: a buffer of any size, the
      semaphores `empty`, `full` and `mutex`, and threads that make any calls of produce
      and consume. */
  ghost predicate StartBuffer(s: System) {
    && Start(s)
    && s.data.ring.head == s.data.ring.tail == 0 && s.data.ring.inserted == s.data.ring.removed == []
    && EMPTY in s.data.value && FULL in s.data.value && MUTEX in s.data.value
    && s.data.value[EMPTY] == |s.data.ring.slots| && s.data.value[FULL] == 0 && s.data.value[MUTEX] == 1
    && (forall t :: t in s.local ==> Calls(s.local[t].todo))
  }

  lemma {:induction false} SumZero(m: Todo, ks: set<Pid>, w: seq<Task> -> nat)
    requires ks <= m.Keys && forall t :: t in ks ==> w(m[t]) == 0
    ensures Sum(m, ks, w) == 0
    decreases |ks|
  {
    if t :| t in ks {
      SumPick(m, ks, w, t);
      SumZero(m, ks - {t}, w);
    }
  }

  lemma StartInv(s: System)
    requires StartBuffer(s)
    ensures Inv(Counting.State(map t | t in s.local :: s.local[t].todo, s.data))
  {
    var m := map t | t in s.local :: s.local[t].todo;
    forall t | t in m ensures Plan(m[t]) && (Where(m[t]) == Nowhere || Where(m[t]).at == 0) { CallsPlan(m[t]); }
    SumZero(m, m.Keys, Inside);
    SumZero(m, m.Keys, Holding);
    SumZero(m, m.Keys, Item);
    SumZero(m, m.Keys, Storing);
    SumZero(m, m.Keys, Loading);
  }

  lemma BufferInv(s: System, run: seq<Pid>) returns (a: Semaphores.Spec)
    requires StartBuffer(s) && IsRun(PROGRAM, s, run)
    ensures SyncLib.Inv(After(PROGRAM, s, run).lib) && Related(After(PROGRAM, s, run), a)
    ensures Semaphores.Inv(a) && Inv(Counting.Abs(a))
  {
    hide Inv, Semaphores.Inv, SyncLib.Inv, Related;
    StartInv(s);
    forall b: Counting.State, t | Inv(b) && Counting.Enabled(b, t) ensures Inv(Counting.Step(b, t)) { StepInv(b, t); }
    a := Counting.CountingRuns(s, run, Inv);
  }

  /** In every run of any number of producers and consumers on the library, the values taken
      out are a prefix of the values put in, at most as many are outstanding as there are
      slots, and the counts of the semaphores plus the calls in flight make up the capacity. */
  lemma BufferRuns(s: System, run: seq<Pid>) returns (a: Semaphores.Spec)
    requires StartBuffer(s) && IsRun(PROGRAM, s, run)
    ensures var s' := After(PROGRAM, s, run);
            && Related(s', a)
            && s'.data.ring.removed <= s'.data.ring.inserted
            && |s'.data.ring.inserted| - |s'.data.ring.removed| <= |s'.data.ring.slots|
            && EMPTY in s'.data.value && FULL in s'.data.value && MUTEX in s'.data.value
            && s'.data.value[EMPTY] + s'.data.value[FULL] + Total(Counting.Abs(a).todo, Holding) == |s'.data.ring.slots|
            && s'.data.value[MUTEX] + Total(Counting.Abs(a).todo, Inside) == 1
  {
    hide Semaphores.Inv, SyncLib.Inv, StartBuffer;
    a := BufferInv(s, run);
    var m := Counting.Abs(a).todo;
    SumLe(m, m.Keys, Item, Holding);
  }

  predicate Finished(s: System, t: Pid) {
    t in s.local && s.local[t] == Client(Outside, [])
  }

  predicate SleepsOn(s: System, t: Pid, i: nat) {
    && s.lib.Known(t) && s.lib.PcOf(t).WaitParked? && s.lib.PcOf(t).c == i
    && s.lib.HasCond(i) && t in s.lib.Queue(Clock(i))
  }

  /** A stopped thread holds nothing. */
  lemma StoppedHoldsNothing(a: Counting.State)
    requires Inv(a)
    requires forall t :: t in a.todo ==>
               a.todo[t] == [] || (a.todo[t][0].P? && a.data.Has(a.todo[t][0].i) && a.data.value[a.todo[t][0].i] <= 0)
    ensures Total(a.todo, Holding) == 0 && Total(a.todo, Item) == 0 && a.data.value[MUTEX] == 1
    ensures forall t :: t in a.todo && a.todo[t] != [] ==> a.todo[t][0] == P(EMPTY) || a.todo[t][0] == P(FULL)
  {
    forall t | t in a.todo ensures Plan(a.todo[t]) && Inside(a.todo[t]) == 0 {}
    SumZero(a.todo, a.todo.Keys, Inside);
    SumZero(a.todo, a.todo.Keys, Holding);
    SumZero(a.todo, a.todo.Keys, Item);
  }

  /** A run comes to a halt only when every thread has finished its calls, or the buffer is
      full and all who are left are producers asleep on `empty`, or it is empty and all who
      are left are consumers asleep on `full`. */
  lemma BufferStops(s: System, run: seq<Pid>)
    requires StartBuffer(s) && IsRun(PROGRAM, s, run)
    requires forall u :: !Moves(PROGRAM, After(PROGRAM, s, run), u)
    ensures var s' := After(PROGRAM, s, run); var r := s'.data.ring;
            || (&& |r.inserted| - |r.removed| == |r.slots|
                && forall t :: t in s.local ==> Finished(s', t) || SleepsOn(s', t, EMPTY))
            || (|r.inserted| == |r.removed| && forall t :: t in s.local ==> Finished(s', t) || SleepsOn(s', t, FULL))
            || (forall t :: t in s.local ==> Finished(s', t))
  {
    hide Inv, Semaphores.Inv, SyncLib.Inv;
    var s' := After(PROGRAM, s, run);
    var a := BufferInv(s, run);
    var c := Counting.Abs(a);
    InitInv(s.lib);
    RunLocals(PROGRAM, s, run);
    forall t | t in s.local
      ensures (Finished(s', t) && c.todo[t] == []) || Sleeper(s', c, t)
    {
      SleeperTask(s, run, a, t);
    }
    StoppedBuffer(s', c);
  }

  predicate Sleeper(s: System, c: Counting.State, t: Pid) {
    && t in c.todo && c.todo[t] != [] && c.todo[t][0].P? && SleepsOn(s, t, c.todo[t][0].i)
    && c.data.Has(c.todo[t][0].i) && c.data.value[c.todo[t][0].i] <= 0
  }

  lemma StoppedBuffer(s: System, c: Counting.State)
    requires Inv(c) && s.data == c.data && s.local.Keys == c.todo.Keys
    requires forall t :: t in s.local ==> (Finished(s, t) && c.todo[t] == []) || Sleeper(s, c, t)
    ensures var r := s.data.ring;
            || (&& |r.inserted| - |r.removed| == |r.slots|
                && forall t :: t in s.local ==> Finished(s, t) || SleepsOn(s, t, EMPTY))
            || (|r.inserted| == |r.removed| && forall t :: t in s.local ==> Finished(s, t) || SleepsOn(s, t, FULL))
            || (forall t :: t in s.local ==> Finished(s, t))
  {
    StoppedHoldsNothing(c);
  }

  /** A thread that cannot go on is asleep in sem_wait or has no task left. */
  lemma SleeperTask(s: System, run: seq<Pid>, a: Semaphores.Spec, t: Pid)
    requires Start(s) && IsRun(PROGRAM, s, run) && t in s.local
    requires forall u :: !Moves(PROGRAM, After(PROGRAM, s, run), u)
    requires Semaphores.Inv(a) && Related(After(PROGRAM, s, run), a)
    ensures var (s', c) := (After(PROGRAM, s, run), Counting.Abs(a));
            && t in c.todo
            && ((Finished(s', t) && c.todo[t] == []) || Sleeper(s', c, t))
  {
    hide Semaphores.Inv, Discipline.ThreadOk, Start;
    NoStrandedWaiter(s, run, t);
    Shaped(a, t);
    SleeperAt(After(PROGRAM, s, run), a, t);
  }

  lemma Shaped(a: Semaphores.Spec, t: Pid)
    requires Semaphores.Inv(a) && t in a.local
    ensures Discipline.ThreadOk(a.mon, ViewsOf(a), t)
  {
  }

  lemma SleeperAt(s: System, a: Semaphores.Spec, t: Pid)
    requires Discipline.ThreadOk(a.mon, ViewsOf(a), t) && Related(s, a) && t in s.local && s.lib.Known(t)
    ensures s.local[t] == Client(Outside, []) ==> Counting.Abs(a).todo[t] == []
    ensures s.lib.PcOf(t).WaitParked? && s.lib.HasCond(s.lib.PcOf(t).c) && t in s.lib.Queue(Clock(s.lib.PcOf(t).c)) ==>
              Counting.Abs(a).todo[t] != [] && Counting.Abs(a).todo[t][0] == P(s.lib.PcOf(t).c)
  {
  }
}
