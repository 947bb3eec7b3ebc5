/** Client programs on top of the library. A program is any function that says what a
    thread does next outside the library; the results of this module hold for all of them. */
module Clients {
  import opened Options
  import opened Handshake
  import opened SyncLib
  import opened Refinement

  /** What client code does next: stop, one atomic step on its own and the shared data, or
      a call of the library after whose return the thread continues in `c`. */
  datatype Act<C, D> = Halt | Do(c: C, d: D) | Invoke(op: Op, c: C)

  datatype Program<!C, !D> = Program(next: (Pid, C, D) -> Act<C, D>)

  /** A program running on the library, and on the specification of the library. */
  datatype Sys<C, D> = Sys(lib: Lib, local: map<Pid, C>, data: D)
  datatype Spec<C, D> = Spec(mon: Monitor.State, local: map<Pid, C>, data: D)

  predicate Moves<C, D>(p: Program<C, D>, s: Sys<C, D>, t: Pid) {
    && t in s.local && s.lib.Known(t)
    && if s.lib.PcOf(t).Idle? then
         match p.next(t, s.local[t], s.data)
         case Halt => false
         case Do(_, _) => true
         case Invoke(op, _) => CallOk(s.lib, t, op)
       else Ready(s.lib, t)
  }

  function Move<C, D>(p: Program<C, D>, s: Sys<C, D>, t: Pid): Sys<C, D>
    requires Moves(p, s, t)
  {
    if s.lib.PcOf(t).Idle? then
      match p.next(t, s.local[t], s.data)
      case Do(c, d) => s.(local := s.local[t := c], data := d)
      case Invoke(op, c) => s.(lib := Call(s.lib, t, op), local := s.local[t := c])
    else s.(lib := Step(s.lib, t))
  }

  predicate SpecCallOk(a: Monitor.State, t: Pid, op: Op) {
    match op
    case Lock(m) => m in a.locks
    case Unlock(m) => m in a.locks && a.locks[m].owner == Some(t)
    case Wait(c, m) => c in a.conds && m in a.locks && a.locks[m].owner == Some(t)
    case Signal(c) => c in a.conds
    case Broadcast(c) => c in a.conds
  }

  predicate SpecMoves<C, D>(p: Program<C, D>, a: Spec<C, D>, t: Pid) {
    && t in a.local && a.mon.Has(t)
    && if a.mon.status[t].Running? then
         match p.next(t, a.local[t], a.data)
         case Halt => false
         case Do(_, _) => true
         case Invoke(op, _) => SpecCallOk(a.mon, t, op)
       else Monitor.Enabled(a.mon, t)
  }

  function SpecMove<C, D>(p: Program<C, D>, a: Spec<C, D>, t: Pid): Spec<C, D>
    requires SpecMoves(p, a, t)
  {
    if a.mon.status[t].Running? then
      match p.next(t, a.local[t], a.data)
      case Do(c, d) => a.(local := a.local[t := c], data := d)
      case Invoke(op, c) => a.(mon := a.mon.Set(t, EntryStatus(op)), local := a.local[t := c])
    else a.(mon := Monitor.Step(a.mon, t))
  }

  ghost predicate Related<C, D>(s: Sys<C, D>, a: Spec<C, D>) {
    Matches(s.lib, a.mon) && s.local == a.local && s.data == a.data
  }

  lemma MoveInv<C, D>(p: Program<C, D>, s: Sys<C, D>, t: Pid)
    requires SyncLib.Inv(s.lib) && Moves(p, s, t)
    ensures SyncLib.Inv(Move(p, s, t).lib)
  {
    hide SyncLib.Inv;
    if s.lib.PcOf(t).Idle? {
      var act := p.next(t, s.local[t], s.data);
      if act.Invoke? { CallInv(s.lib, t, act.op); }
    } else {
      StepInv(s.lib, t);
    }
  }

  /** A move of the program on the library is one on the specification, or is not seen there. */
  lemma MoveRefines<C, D>(p: Program<C, D>, s: Sys<C, D>, a: Spec<C, D>, t: Pid)
    requires SyncLib.Inv(s.lib) && Related(s, a) && Moves(p, s, t)
    ensures Related(Move(p, s, t), a)
            || (SpecMoves(p, a, t) && Related(Move(p, s, t), SpecMove(p, a, t)))
  {
    if s.lib.PcOf(t).Idle? {
      assert StatusOf(s.lib, t).Running?;
      var act := p.next(t, s.local[t], s.data);
      if act.Invoke? {
        CallRefines(s.lib, t, act.op, a.mon);
      }
    } else {
      StepRefines(s.lib, t, a.mon);
      if TakesEffect(s.lib, t) {
        EffectNotRunning(s.lib, t);
      }
    }
  }

  lemma EffectNotRunning(s: Lib, t: Pid)
    requires TakesEffect(s, t)
    ensures !StatusOf(s, t).Running?
  {
  }

  /** Runs, as the sequence of threads that move. */
  predicate IsRun<C, D>(p: Program<C, D>, s: Sys<C, D>, run: seq<Pid>)
    decreases |run|
  {
    run == [] || (Moves(p, s, run[0]) && IsRun(p, Move(p, s, run[0]), run[1..]))
  }

  function After<C, D>(p: Program<C, D>, s: Sys<C, D>, run: seq<Pid>): Sys<C, D>
    requires IsRun(p, s, run)
    decreases |run|
  {
    if run == [] then s else After(p, Move(p, s, run[0]), run[1..])
  }

  /** Every move of the program on the specification keeps `inv`. */
  ghost predicate Inductive<C(!new), D(!new)>(p: Program<C, D>, inv: Spec<C, D> -> bool) {
    forall a: Spec<C, D>, t :: inv(a) && SpecMoves(p, a, t) ==> inv(SpecMove(p, a, t))
  }

  /** What is invariant on the specification holds in every state of every run on the
      library, for whatever interleaving of the threads. */
  lemma {:induction false} Transfer<C(!new), D(!new)>(
    p: Program<C, D>, inv: Spec<C, D> -> bool, s: Sys<C, D>, a: Spec<C, D>, run: seq<Pid>)
    returns (a': Spec<C, D>)
    requires SyncLib.Inv(s.lib) && Related(s, a) && inv(a) && Inductive(p, inv) && IsRun(p, s, run)
    ensures SyncLib.Inv(After(p, s, run).lib) && Related(After(p, s, run), a') && inv(a')
    decreases |run|
  {
    hide SyncLib.Inv, Related;
    if run == [] {
      a' := a;
    } else {
      var t := run[0];
      MoveInv(p, s, t);
      MoveRefines(p, s, a, t);
      if Related(Move(p, s, t), a) {
        a' := Transfer(p, inv, Move(p, s, t), a, run[1..]);
      } else {
        a' := Transfer(p, inv, Move(p, s, t), SpecMove(p, a, t), run[1..]);
      }
    }
  }

  /** No thread can move: each one that is not blocked in a queue has stopped, or is about
      to make a call that clients must not make. */
  lemma StuckSys<C, D>(p: Program<C, D>, s: Sys<C, D>, a: Spec<C, D>, t: Pid)
    requires SyncLib.Inv(s.lib) && Related(s, a) && s.local.Keys == s.lib.core.threads.Keys && t in s.local
    requires forall u :: !Moves(p, s, u)
    ensures a.mon.Has(t)
    ensures a.mon.status[t].Queued? || a.mon.status[t].Waiting?
            || (a.mon.status[t].Running?
                && var act := p.next(t, s.local[t], s.data);
                   act.Halt? || (act.Invoke? && !SpecCallOk(a.mon, t, act.op)))
  {
    forall u | s.lib.Known(u) ensures !Enabled(s.lib, u) {
      assert !Moves(p, s, u);
      if Enabled(s.lib, u) { InvSafe(s.lib, u); }
    }
    StuckRefines(s.lib, t, a.mon);
    assert !Moves(p, s, t);
  }

  /** The same, in terms of the library: a thread that is not outside it is asleep in the
      queue of a mutex or of a condition variable. */
  lemma StuckLibrary<C, D>(p: Program<C, D>, s: Sys<C, D>, a: Spec<C, D>, t: Pid)
    requires SyncLib.Inv(s.lib) && Related(s, a) && t in s.local && s.local.Keys == s.lib.core.threads.Keys
    requires forall u :: !Moves(p, s, u)
    ensures a.mon.Has(t)
    ensures s.lib.PcOf(t).Idle? ==> a.mon.status[t].Running?
    ensures s.lib.PcOf(t).LockParked? ==> a.mon.status[t].Queued?
    ensures s.lib.PcOf(t).WaitParked? ==>
              && s.lib.HasCond(s.lib.PcOf(t).c) && t in s.lib.Queue(Clock(s.lib.PcOf(t).c))
              && a.mon.status[t] == Monitor.Waiting(s.lib.PcOf(t).c, s.lib.PcOf(t).m)
    ensures s.lib.PcOf(t).Idle? || s.lib.PcOf(t).LockParked? || s.lib.PcOf(t).WaitParked?
  {
    forall u | s.lib.Known(u) ensures !Enabled(s.lib, u) {
      assert !Moves(p, s, u);
      if Enabled(s.lib, u) { InvSafe(s.lib, u); }
    }
    Stuck(s.lib, t);
  }

  lemma {:induction false} RunLocals<C, D>(p: Program<C, D>, s: Sys<C, D>, run: seq<Pid>)
    requires IsRun(p, s, run) && s.local.Keys == s.lib.core.threads.Keys && SyncLib.Inv(s.lib)
    ensures After(p, s, run).local.Keys == s.local.Keys == After(p, s, run).lib.core.threads.Keys
    decreases |run|
  {
    if run != [] {
      MoveInv(p, s, run[0]);
      if !s.lib.PcOf(run[0]).Idle? { StepFrame(s.lib, run[0]); }
      RunLocals(p, Move(p, s, run[0]), run[1..]);
    }
  }
}
