/** Any number of readers and writers of one pipe: kernel/pipe.c over sleep and wakeup.  The pipe's
    lock makes each pass from taking it to giving it up one step. */
module PipeRuns {
  import opened Blocks
  import opened PipeBuffer

  type Pid = nat

  datatype Phase =
    | Outside
    | Writing(src: seq<byte>, i: nat, asleep: bool)
    | Reading(n: nat, asleep: bool)

  /** Where a process is; a writer has handed over `i` of its bytes. */
  type Status = x: Phase | x.Writing? ==> x.i <= |x.src| witness Outside

  type PipeQueue = q: Queue | QueueOk(q) witness Queue([], 0, true, true)

  /** The pipe, its callers, and what the calls returned: `got` the bytes read, in order; `put` the
      bytes the writers have handed over, in order. */
  datatype State = State(queue: PipeQueue, procs: map<Pid, Status>, got: seq<byte>, put: seq<byte>)

  datatype Event =
    | BeginWrite(t: Pid, src: seq<byte>)
    | BeginRead(t: Pid, n: nat)
    | Run(t: Pid)
    | CloseEnd(writable: bool)

  predicate AsleepWriter(x: Status) { x.Writing? && x.asleep }

  predicate AsleepReader(x: Status) { x.Reading? && x.asleep }

  function Woken(x: Status, readers: bool): Status {
    if readers && x.Reading? then Reading(x.n, false)
    else if !readers && x.Writing? then Writing(x.src, x.i, false)
    else x
  }

  /** wakeup on &p->nread (the readers) or &p->nwrite (the writers). */
  function Wake(procs: map<Pid, Status>, readers: bool): map<Pid, Status> {
    map t | t in procs :: Woken(procs[t], readers)
  }

  /** When an event can happen: a call is begun from outside on an open end, a sleeper does not run,
      and an end is closed once its callers have left. */
  predicate Enabled(s: State, e: Event) {
    match e
    case BeginWrite(t, _) => t in s.procs && s.procs[t].Outside? && s.queue.writeopen
    case BeginRead(t, _) => t in s.procs && s.procs[t].Outside? && s.queue.readopen
    case Run(t) => t in s.procs && !s.procs[t].Outside? && !s.procs[t].asleep
    case CloseEnd(w) => forall t :: t in s.procs ==> if w then !s.procs[t].Writing? else !s.procs[t].Reading?
  }

  function Write(s: State, t: Pid): State
    requires t in s.procs && s.procs[t].Writing?
  {
    var x := s.procs[t];
    var (q, i, why) := WritePass(s.queue, x.src, x.i);
    var s' := s.(queue := q, put := s.put + x.src[x.i..i]);
    match why
    case Done => s'.(procs := Wake(s.procs, true)[t := Outside])
    case Full => s'.(procs := Wake(s.procs, true)[t := Writing(x.src, i, true)])
    case Broken => s'.(procs := s.procs[t := Outside])
  }

  function Read(s: State, t: Pid): State
    requires t in s.procs && s.procs[t].Reading?
  {
    match ReadPass(s.queue, s.procs[t].n)
    case None => s.(procs := s.procs[t := Reading(s.procs[t].n, true)])
    case Some((q, bytes)) => s.(queue := q, got := s.got + bytes, procs := Wake(s.procs, false)[t := Outside])
  }

  function Step(s: State, e: Event): State
    requires Enabled(s, e)
  {
    match e
    case BeginWrite(t, src) => s.(procs := s.procs[t := Writing(src, 0, false)])
    case BeginRead(t, n) => s.(procs := s.procs[t := Reading(n, false)])
    case Run(t) => if s.procs[t].Writing? then Write(s, t) else Read(s, t)
    case CloseEnd(w) =>
      var q := if w then s.queue.(writeopen := false) else s.queue.(readopen := false);
      s.(queue := q, procs := Wake(s.procs, w))
  }

  /** A reader sleeps only while the pipe is empty and may still be written; a writer only while it
      is full and may still be read. */
  predicate ProcOk(q: Queue, x: Status) {
    && (x.Writing? ==> q.writeopen)
    && (x.Reading? ==> q.readopen)
    && (AsleepReader(x) ==> Waiting(q) == 0 && q.writeopen)
    && (AsleepWriter(x) ==> Waiting(q) == PIPESIZE && q.readopen)
  }

  predicate Inv(s: State) {
    && s.put == s.queue.written && s.got == s.queue.written[..s.queue.taken]
    && forall t :: t in s.procs ==> ProcOk(s.queue, s.procs[t])
  }

  lemma WriteInv(s: State, t: Pid)
    requires Inv(s) && t in s.procs && s.procs[t].Writing? && !s.procs[t].asleep
    ensures Inv(Write(s, t))
  {
    var (x, s') := (s.procs[t], Write(s, t));
    var (q, i, why) := WritePass(s.queue, x.src, x.i);
    assert ProcOk(s.queue, x);
    forall u | u in s'.procs ensures ProcOk(s'.queue, s'.procs[u]) { assert ProcOk(s.queue, s.procs[u]); }
    assert q.written[..q.taken] == s.queue.written[..q.taken];
  }

  lemma ReadInv(s: State, t: Pid)
    requires Inv(s) && t in s.procs && s.procs[t].Reading? && !s.procs[t].asleep
    ensures Inv(Read(s, t))
  {
    var s' := Read(s, t);
    assert ProcOk(s.queue, s.procs[t]);
    forall u | u in s'.procs ensures ProcOk(s'.queue, s'.procs[u]) { assert ProcOk(s.queue, s.procs[u]); }
  }

  /** Every step keeps the pipe a queue and loses no wakeup. */
  lemma StepInv(s: State, e: Event)
    requires Inv(s) && Enabled(s, e)
    ensures Inv(Step(s, e)) && s.put <= Step(s, e).put && s.got <= Step(s, e).got
  {
    var s' := Step(s, e);
    if e.Run? {
      assert ProcOk(s.queue, s.procs[e.t]);
      if s.procs[e.t].Writing? { WriteInv(s, e.t); } else { ReadInv(s, e.t); }
    } else {
      forall u | u in s'.procs ensures ProcOk(s'.queue, s'.procs[u]) {
        assert u in s.procs ==> ProcOk(s.queue, s.procs[u]);
      }
    }
  }

  ghost predicate IsRun(s: State, es: seq<Event>)
    decreases |es|
  {
    es == [] || (Enabled(s, es[0]) && IsRun(Step(s, es[0]), es[1..]))
  }

  ghost function After(s: State, es: seq<Event>): State
    requires IsRun(s, es)
    decreases |es|
  {
    if es == [] then s else After(Step(s, es[0]), es[1..])
  }

  predicate Start(s: State) {
    && s.queue == Queue([], 0, true, true) && s.got == [] && s.put == []
    && forall t :: t in s.procs ==> s.procs[t].Outside?
  }

  lemma {:induction false} RunInv(s: State, es: seq<Event>)
    requires Inv(s) && IsRun(s, es)
    ensures Inv(After(s, es))
    decreases |es|
  {
    if es != [] {
      StepInv(s, es[0]);
      RunInv(Step(s, es[0]), es[1..]);
    }
  }

  /** In every reachable state the bytes read are a prefix of the bytes written, at most PIPESIZE
      behind; readers sleep only on an empty pipe, writers only on a full one, so never both. */
  lemma PipeFifo(s: State, es: seq<Event>)
    requires Start(s) && IsRun(s, es)
    ensures var x := After(s, es);
      && x.got <= x.put && |x.put| <= |x.got| + PIPESIZE
      && (forall t :: t in x.procs && AsleepReader(x.procs[t]) ==> x.got == x.put && x.queue.writeopen)
      && (forall t :: t in x.procs && AsleepWriter(x.procs[t]) ==> |x.put| == |x.got| + PIPESIZE && x.queue.readopen)
      && (forall t, u :: t in x.procs && u in x.procs ==> !(AsleepReader(x.procs[t]) && AsleepWriter(x.procs[u])))
  {
    RunInv(s, es);
    var x := After(s, es);
    assert forall t :: t in x.procs ==> ProcOk(x.queue, x.procs[t]);
  }
}
