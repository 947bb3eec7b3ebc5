/** kernel/pipe.c: the ring of a pipe with 32-bit counters, as a queue of bytes. */
module PipeBuffer {
  import opened Blocks
  import opened Options

  const PIPESIZE: nat := 512

  /** All the bytes ever written and how many of them were read. */
  datatype Queue = Queue(written: seq<byte>, taken: nat, readopen: bool, writeopen: bool)

  predicate QueueOk(q: Queue) { q.taken <= |q.written| <= q.taken + PIPESIZE }

  function Waiting(q: Queue): int { |q.written| - q.taken }

  function Min(a: int, b: int): int { if a < b then a else b }

  datatype Why = Done | Full | Broken

  /** How far a writer with `n` bytes left gets before it must stop. */
  function Room(q: Queue, n: nat): (k: nat)
    requires QueueOk(q)
    ensures k <= n && Waiting(q) + k <= PIPESIZE
  {
    Min(n, PIPESIZE - Waiting(q))
  }

  /** A writer from taking the lock to giving it up. */
  function WritePass(q: Queue, src: seq<byte>, i: nat): (r: (Queue, nat, Why))
    requires QueueOk(q) && i <= |src|
    ensures QueueOk(r.0) && i <= r.1 <= |src| && r.0.written == q.written + src[i..r.1] && r.0.taken == q.taken
    ensures r.2 == Done <==> r.1 == |src|
    ensures r.2 != Done ==> Waiting(r.0) == PIPESIZE
  {
    var k := Room(q, |src| - i);
    (q.(written := q.written + src[i..i + k]), i + k,
     if i + k == |src| then Done else if q.readopen then Full else Broken)
  }

  /** A reader from taking the lock to giving it up; None means that it has to sleep. */
  function ReadPass(q: Queue, n: nat): (r: Option<(Queue, seq<byte>)>)
    requires QueueOk(q)
    ensures r.None? <==> Waiting(q) == 0 && q.writeopen
    ensures r.Some? ==> QueueOk(r.value.0) && r.value.0.written == q.written && |r.value.1| == Min(n, Waiting(q))
    ensures r.Some? ==> q.taken + |r.value.1| == r.value.0.taken && r.value.1 == q.written[q.taken..r.value.0.taken]
  {
    if Waiting(q) == 0 && q.writeopen then None
    else var k := Min(n, Waiting(q)); Some((q.(taken := q.taken + k), q.written[q.taken..q.taken + k]))
  }

  class Pipe {
    const data: array<byte>
    var nread: nat
    var nwrite: nat
    var readopen: bool
    var writeopen: bool
    ghost var queue: Queue

    /** The counters are the true counts modulo 2^32, and the bytes waiting are in their places. */
    ghost predicate Valid()
      reads this, data
    {
      && data.Length == PIPESIZE && QueueOk(queue) && readopen == queue.readopen && writeopen == queue.writeopen
      && nread == queue.taken % WORD && nwrite == |queue.written| % WORD
      && forall k :: queue.taken <= k < |queue.written| ==> data[k % PIPESIZE] == queue.written[k]
    }

    constructor ()
      ensures Valid() && fresh(data) && queue == Queue([], 0, true, true)
    {
      data := new byte[PIPESIZE](_ => 0);
      nread, nwrite, readopen, writeopen := 0, 0, true, true;
      queue := Queue([], 0, true, true);
    }

    method Put(c: byte)
      requires Valid() && Waiting(queue) < PIPESIZE
      modifies this`nwrite, this`queue, data
      ensures Valid() && queue == old(queue).(written := old(queue).written + [c])
    {
      SlotIs(|queue.written|);
      SlotsApart(queue);
      data[nwrite % PIPESIZE] := c;
      nwrite := (nwrite + 1) % WORD;
      queue := queue.(written := queue.written + [c]);
    }

    method Take() returns (c: byte)
      requires Valid() && Waiting(queue) > 0
      modifies this`nread, this`queue
      ensures Valid() && queue == old(queue).(taken := old(queue).taken + 1) && c == queue.written[old(queue).taken]
    {
      SlotIs(queue.taken);
      c := data[nread % PIPESIZE];
      nread := (nread + 1) % WORD;
      queue := queue.(taken := queue.taken + 1);
    }

    method Write(src: seq<byte>, start: nat) returns (i: nat, why: Why)
      requires Valid() && start <= |src|
      modifies this`nwrite, this`queue, data
      ensures Valid() && (queue, i, why) == WritePass(old(queue), src, start)
    {
      i := start;
      ghost var q := queue;
      while i < |src|
        invariant start <= i <= start + Room(q, |src| - start) && Valid()
        invariant queue == q.(written := q.written + src[start..i])
      {
        CountersApart(queue);
        if nwrite == (nread + PIPESIZE) % WORD {
          if !readopen { return i, Broken; }
          return i, Full;
        }
        Put(src[i]);
        i := i + 1;
        assert src[start..i] == src[start..i - 1] + [src[i - 1]];
      }
      why := Done;
    }

    method Read(n: nat) returns (r: Option<seq<byte>>)
      requires Valid()
      modifies this`nread, this`queue
      ensures Valid()
      ensures r.None? ==> ReadPass(old(queue), n).None? && queue == old(queue)
      ensures r.Some? ==> ReadPass(old(queue), n) == Some((queue, r.value))
    {
      CountersApart(queue);
      if nread == nwrite && writeopen { return None; }
      ghost var q := queue;
      var (i: nat, dst: seq<byte>) := (0, []);
      while i < n
        invariant i <= n && i <= Waiting(q) && Valid() && queue == q.(taken := q.taken + i)
        invariant dst == q.written[q.taken..q.taken + i]
        decreases n - i
      {
        CountersApart(queue);
        if nread == nwrite { break; }
        var c := Take();
        dst := dst + [c];
        i := i + 1;
      }
      r := Some(dst);
    }

    /** Close one end. */
    method Close(writable: bool)
      requires Valid()
      modifies this`readopen, this`writeopen, this`queue
      ensures Valid() && queue == if writable then old(queue).(writeopen := false) else old(queue).(readopen := false)
    {
      if writable {
        writeopen := false;
        queue := queue.(writeopen := false);
      } else {
        readopen := false;
        queue := queue.(readopen := false);
      }
    }
  }

  /** Comparing the wrapped counters tells empty and full apart. */
  lemma CountersApart(q: Queue)
    requires QueueOk(q)
    ensures q.taken % WORD == |q.written| % WORD <==> Waiting(q) == 0
    ensures |q.written| % WORD == (q.taken % WORD + PIPESIZE) % WORD <==> Waiting(q) == PIPESIZE
  {
  }

  /** The size of the ring divides the range of the counters. */
  lemma SlotIs(k: nat)
    ensures k % WORD % PIPESIZE == k % PIPESIZE && (k % WORD + 1) % WORD == (k + 1) % WORD
  {
  }

  lemma SlotsApart(q: Queue)
    requires QueueOk(q) && Waiting(q) < PIPESIZE
    ensures forall k :: q.taken <= k < |q.written| ==> k % PIPESIZE != |q.written| % PIPESIZE
  {
  }
}
