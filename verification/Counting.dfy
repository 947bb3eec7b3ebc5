/** The abstract counting semaphore: sem_wait and sem_post as single steps. The semaphore
    of user/semaphore.c, running on the library, refines it. */
module Counting {
  import opened Handshake
  import opened Clients
  import opened Semaphores

  datatype State = State(todo: map<Pid, seq<Task>>, data: Data)

  /** The effect of task `k` on the shared data: a wait takes one, a post adds one. */
  function Effect(d: Data, k: Task): Data
    requires (k.P? || k.V? ==> d.Has(k.i)) && (!k.P? && !k.V? ==> d.ring.Ok())
  {
    match k
    case P(i) => d.(value := d.value[i := d.value[i] - 1], taken := d.taken[i := d.taken[i] + 1])
    case V(i) => d.(value := d.value[i := d.value[i] + 1], posted := d.posted[i := d.posted[i] + 1])
    case _ => d.(ring := RingStep(d.ring, k))
  }

  predicate Enabled(a: State, t: Pid) {
    && t in a.todo && a.todo[t] != []
    && match a.todo[t][0]
       case P(i) => a.data.Has(i) && a.data.value[i] > 0
       case V(i) => a.data.Has(i)
       case _ => a.data.ring.Ok()
  }

  function Step(a: State, t: Pid): State
    requires Enabled(a, t)
  {
    var (k, d) := (a.todo[t][0], a.data);
    State(a.todo[t := a.todo[t][1..]], Effect(d, k))
  }

  /** The tasks a thread has not completed: a semaphore call counts until it takes effect. */
  function Remaining(c: Client): seq<Task> {
    match c.at
    case WTest(i, _) => [P(i)] + c.todo
    case WSleep(i) => [P(i)] + c.todo
    case WTake(i, _) => [P(i)] + c.todo
    case PAdd(i) => [V(i)] + c.todo
    case _ => c.todo
  }

  function Abs(a: Semaphores.Spec): State {
    State(map t | t in a.local :: Remaining(a.local[t]), a.data)
  }

  /** What client code does next is to complete its first task or not to be seen. */
  lemma NextCounts(t: Pid, c: Client, d: Data)
    requires c.at.WTake? ==> d.Has(c.at.i) && d.value[c.at.i] > 0
    ensures var (act, r) := (Next(t, c, d), Remaining(c));
            match act
            case Halt => true
            case Invoke(op, c') => Remaining(c') == r
            case Do(c', d') =>
              || (Remaining(c') == r && d' == d)
              || (r != [] && Remaining(c') == r[1..]
                  && (match r[0] case P(i) => d.Has(i) && d.value[i] > 0 case V(i) => d.Has(i) case _ => d.ring.Ok())
                  && d' == Effect(d, r[0]))
  {
    var (act, r) := (Next(t, c, d), Remaining(c));
    if act.Invoke? && c.at.Outside? { assert c.todo == [c.todo[0]] + c.todo[1..]; }
    if act.Do? && !c.at.WTest? { assert Remaining(act.c) == r[1..]; }
  }

  /** Every move of the semaphore code is a step of the counting semaphore by the same
      thread, or is not seen there. */
  lemma MoveCounts(a: Semaphores.Spec, t: Pid)
    requires Knows(a, t) && SpecMoves(PROGRAM, a, t)
    ensures Abs(SpecMove(PROGRAM, a, t)) == Abs(a)
            || (Enabled(Abs(a), t) && Abs(SpecMove(PROGRAM, a, t)) == Step(Abs(a), t))
  {
    var b := SpecMove(PROGRAM, a, t);
    assert a.local[t].at.WTake? ==> a.data.Has(a.local[t].at.i) && a.data.value[a.local[t].at.i] > 0;
    NextCounts(t, a.local[t], a.data);
    hide Next, Remaining, Knows, Effect;
    assert Abs(b).todo == Abs(a).todo[t := Remaining(b.local[t])];
    assert Abs(a).todo == Abs(a).todo[t := Remaining(a.local[t])];
  }

  /** Invariants of the counting semaphore. */
  ghost predicate Inductive(inv: State -> bool) {
    forall a: State, t :: inv(a) && Enabled(a, t) ==> inv(Step(a, t))
  }

  /** Whatever is invariant for the counting semaphore holds of the tasks, the values and
      the buffer in every state of every run on the library. */
  lemma CountingRuns(s: System, run: seq<Pid>, inv: State -> bool) returns (a: Semaphores.Spec)
    requires Start(s) && IsRun(PROGRAM, s, run) && Inductive(inv)
    requires inv(State(map t | t in s.local :: s.local[t].todo, s.data))
    ensures SyncLib.Inv(After(PROGRAM, s, run).lib) && Related(After(PROGRAM, s, run), a)
    ensures Semaphores.Inv(a) && inv(Abs(a))
  {
    var a0 := StartSpec(s);
    forall t | t in a0.local ensures Remaining(a0.local[t]) == s.local[t].todo {}
    assert Abs(a0).todo == map t | t in s.local :: s.local[t].todo;
    var both := (b: Semaphores.Spec) => Semaphores.Inv(b) && inv(Abs(b));
    forall b: Semaphores.Spec, t | both(b) && SpecMoves(PROGRAM, b, t) ensures both(SpecMove(PROGRAM, b, t)) {
      Semaphores.MoveInv(b, t);
      assert Knows(b, t);
      MoveCounts(b, t);
    }
    a := Transfer(PROGRAM, both, s, a0, run);
  }
}
