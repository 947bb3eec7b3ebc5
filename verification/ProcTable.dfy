/** The process table of kernel/proc.c: creation, exit, wait and join, sleep and wakeup, and
    the park system calls. Every operation here is one region under ptable.lock. */
module ProcTable {
  import opened Options
  import opened ParkFlags

  datatype ProcState = UNUSED | EMBRYO | SLEEPING | RUNNABLE | RUNNING | ZOMBIE

  /** The system call a process last went to sleep in (history). */
  datatype Call = NoCall | InWait | InJoin | InPark

  const NO_PROC: int := -1
  const NO_CHAN: int := -1

  /** struct proc. `parent` is a slot of the table; a channel below the table size is the
      process in that slot, as used by wait and join. */
  datatype Proc = Proc(state: ProcState, pid: int, parent: int, chan: int, isThread: bool, killed: bool,
                       isParked: bool, setPark: bool, immediateUnpark: bool, call: Call)
  {
    predicate Live() { state == SLEEPING || state == RUNNABLE || state == RUNNING }

    function ParkPart(): Flags { Flags(state == SLEEPING, isParked, setPark, immediateUnpark) }

    /** The entry with the park flags `f`; a change of `asleep` is a change of state. */
    function WithPark(f: Flags): Proc {
      this.(isParked := f.isParked, setPark := f.setPark, immediateUnpark := f.immediateUnpark,
            state := if f.asleep == (state == SLEEPING) then state else if f.asleep then SLEEPING else RUNNABLE)
    }
  }

  type Table = seq<Proc>

  /** One process reaped, and the parent that did it. */
  datatype Reap = Reap(pid: int, reaper: int)

  datatype World = World(tab: Table, init: nat, nextpid: int, reaped: seq<Reap>)

  // The operations as functions on the table.

  /** wakeup1(chan) */
  function Wake(tab: Table, chan: int): (r: Table)
    ensures |r| == |tab|
  {
    seq(|tab|, i requires 0 <= i < |tab| =>
      if tab[i].state == SLEEPING && tab[i].chan == chan then tab[i].(state := RUNNABLE) else tab[i])
  }

  /** The loop of exit() that hands the first `k` children of `cur` to init. */
  function Abandon(tab: Table, init: nat, cur: nat, k: nat): (r: Table)
    requires k <= |tab|
    ensures |r| == |tab|
  {
    if k == 0 then tab else
    var t := Abandon(tab, init, cur, k - 1);
    if t[k - 1].parent != cur then t else
    var u := t[k - 1 := t[k - 1].(parent := init)];
    if u[k - 1].state == ZOMBIE then Wake(u, init) else u
  }

  /** exit() */
  function Exit(w: World, cur: nat): (v: World)
    requires cur < |w.tab|
    ensures |v.tab| == |w.tab|
  {
    var t := Abandon(Wake(w.tab, w.tab[cur].parent), w.init, cur, |w.tab|);
    w.(tab := t[cur := t[cur].(state := ZOMBIE)])
  }

  /** What one pass of the scan in wait() or join() finds. */
  datatype Scan = Found(slot: nat) | NoKids | Kids

  predicate Wanted(tab: Table, cur: nat, join: bool, i: nat)
    requires i < |tab|
  {
    tab[i].parent == cur && tab[i].state == ZOMBIE && tab[i].isThread == join
  }

  /** join() looks at thread children only, wait() at all children. */
  predicate Kid(tab: Table, cur: nat, join: bool, i: nat)
    requires i < |tab|
  {
    tab[i].parent == cur && (join ==> tab[i].isThread)
  }

  /** The scan of the slots from `k` on. */
  function ScanFrom(tab: Table, cur: nat, join: bool, k: nat, kids: bool): Scan
    requires k <= |tab|
    decreases |tab| - k
  {
    if k == |tab| then if kids then Kids else NoKids
    else if Wanted(tab, cur, join, k) then Found(k)
    else ScanFrom(tab, cur, join, k + 1, kids || Kid(tab, cur, join, k))
  }

  /** The world after `cur` has reaped slot `i`. */
  function Reaping(w: World, cur: nat, i: nat): World
    requires cur < |w.tab| && i < |w.tab|
  {
    w.(tab := w.tab[i := w.tab[i].(state := UNUSED, pid := 0, parent := NO_PROC, killed := false)],
       reaped := w.reaped + [Reap(w.tab[i].pid, w.tab[cur].pid)])
  }

  datatype Outcome = Reaped(pid: int) | Failed | Slept

  /** One pass of wait() (join() when `join` is set): reap a child, fail, or sleep. */
  function WaitPass(w: World, cur: nat, join: bool): (World, Outcome)
    requires cur < |w.tab|
  {
    match ScanFrom(w.tab, cur, join, 0, false)
    case Found(i) =>
      if i < |w.tab| then
        (Reaping(w, cur, i), Reaped(w.tab[i].pid))
      else (w, Failed)
    case NoKids => (w, Failed)
    case Kids =>
      if w.tab[cur].killed then (w, Failed)
      else
        var y := w.tab[cur].(state := SLEEPING, chan := cur, call := if join then InJoin else InWait);
        (w.(tab := w.tab[cur := y]), Slept)
  }

  function FirstUnused(tab: Table, k: nat): Option<nat>
    requires k <= |tab|
    decreases |tab| - k
  {
    if k == |tab| then None else if tab[k].state == UNUSED then Some(k) else FirstUnused(tab, k + 1)
  }

  /** allocproc() */
  function Alloc(w: World): (World, Option<nat>) {
    match FirstUnused(w.tab, 0)
    case None => (w, None)
    case Some(i) =>
      if i < |w.tab| then
        (w.(tab := w.tab[i := w.tab[i].(state := EMBRYO, pid := w.nextpid)], nextpid := w.nextpid + 1), Some(i))
      else (w, None)
  }

  /** fork() or allocproc() gives the slot back; the pid stays in it. */
  function Drop(w: World, np: nat): World
    requires np < |w.tab|
  {
    w.(tab := w.tab[np := w.tab[np].(state := UNUSED)])
  }

  /** clone() gives the slot back, after it has named the caller as parent. */
  function CloneFails(w: World, np: nat, cur: nat): World
    requires np < |w.tab|
  {
    w.(tab := w.tab[np := w.tab[np].(parent := cur, isThread := true, state := UNUSED)])
  }

  /** The rest of fork() or clone(): the embryo becomes a runnable child of `cur`. */
  function Publish(w: World, np: nat, cur: nat, isThread: bool): World
    requires np < |w.tab|
  {
    w.(tab := w.tab[np := w.tab[np].(parent := cur, isThread := isThread, state := RUNNABLE)])
  }

  /** The scheduler picks a runnable process; if it was asleep, sleep() clears its channel. */
  function Dispatch(w: World, p: nat): World
    requires p < |w.tab|
  {
    w.(tab := w.tab[p := w.tab[p].(state := RUNNING, chan := NO_CHAN, call := NoCall)])
  }

  /** yield() */
  function Yield(w: World, p: nat): World
    requires p < |w.tab|
  {
    w.(tab := w.tab[p := w.tab[p].(state := RUNNABLE)])
  }

  /** sleep(chan) on any channel that is not a process of the table. */
  function SleepOn(w: World, p: nat, chan: int): World
    requires p < |w.tab|
  {
    w.(tab := w.tab[p := w.tab[p].(state := SLEEPING, chan := chan, call := NoCall)])
  }

  /** kill() */
  function Kill(w: World, p: nat): World
    requires p < |w.tab|
  {
    var x := w.tab[p];
    w.(tab := w.tab[p := x.(killed := true, state := if x.state == SLEEPING then RUNNABLE else x.state)])
  }

  /** setpark() */
  function SetParkStep(w: World, p: nat): World
    requires p < |w.tab|
  {
    w.(tab := w.tab[p := w.tab[p].WithPark(SetPark(w.tab[p].ParkPart()))])
  }

  /** park(), up to its call of sched() */
  function ParkStep(w: World, p: nat): World
    requires p < |w.tab|
  {
    var y := w.tab[p].WithPark(Park(w.tab[p].ParkPart()));
    w.(tab := w.tab[p := if y.state == SLEEPING then y.(call := InPark) else y])
  }

  /** The first entry from `k` on with the pid, or the end of the table. */
  function FirstPid(tab: Table, pid: int, k: nat): (p: nat)
    requires k <= |tab|
    ensures k <= p <= |tab| && (p < |tab| ==> tab[p].pid == pid)
    ensures forall i :: k <= i < p ==> tab[i].pid != pid
    decreases |tab| - k
  {
    if k == |tab| || tab[k].pid == pid then k else FirstPid(tab, pid, k + 1)
  }

  predicate ParkedAs(x: Proc, pid: int) { x.state == SLEEPING && x.isParked && x.pid == pid }

  /** The first entry from `k` on that unpark1 wakes, or the end of the table. */
  function FirstParked(tab: Table, pid: int, k: nat): (p: nat)
    requires k <= |tab|
    ensures k <= p <= |tab| && (p < |tab| ==> ParkedAs(tab[p], pid))
    ensures forall i :: k <= i < p ==> !ParkedAs(tab[i], pid)
    decreases |tab| - k
  {
    if k == |tab| || ParkedAs(tab[k], pid) then k else FirstParked(tab, pid, k + 1)
  }

  /** What unpark comes to: a return value, or a look at the entry behind the table. */
  datatype UnparkOutcome = Ret(r: int) | PastTable

  /** unpark(pid), for any pid and any table. */
  function UnparkTab(tab: Table, pid: int): (Table, UnparkOutcome) {
    var p := FirstPid(tab, pid, 0);
    if p == |tab| then (tab, PastTable)
    else if UnparkRefused(tab[p].ParkPart()) then (tab, Ret(-1))
    else if tab[p].setPark && !tab[p].isParked then (tab[p := tab[p].(immediateUnpark := true)], Ret(-1))
    else
      var q := FirstParked(tab, pid, 0);
      if q == |tab| then (tab, Ret(-1))
      else (tab[q := tab[q].(state := RUNNABLE, isParked := false)], Ret(if pid == -1 then -1 else 0))
  }

  function UnparkStep(w: World, pid: int): World { w.(tab := UnparkTab(w.tab, pid).0) }

  // The invariant.

  predicate ParentOk(w: World, p: nat)
    requires p < |w.tab|
  {
    var x := w.tab[p];
    x.state in {UNUSED, EMBRYO} || p == w.init || (0 <= x.parent < |w.tab| && x.parent != p && w.tab[x.parent].Live())
  }

  /** No lost child exit: nobody sleeps in wait or join beside a zombie it could reap. */
  predicate SleepOk(w: World, p: nat)
    requires p < |w.tab|
  {
    var x := w.tab[p];
    x.state == SLEEPING && x.call in {InWait, InJoin} ==>
      x.chan == p && forall c :: 0 <= c < |w.tab| ==> !Wanted(w.tab, p, x.call.InJoin?, c)
  }

  /** Asleep in park. */
  predicate Parks(x: Proc) { x.state == SLEEPING && x.call == InPark }

  /** An unpark is pending only for an announced park; a process asleep in park can be found
      by unpark and waits on no channel. */
  predicate ParkOk(x: Proc) {
    && (x.immediateUnpark ==> x.setPark) && (x.state == RUNNING ==> x.chan == NO_CHAN)
    && (Parks(x) ==> x.isParked && !x.setPark && x.chan == NO_CHAN)
  }

  predicate PidsOk(w: World) {
    && 0 < w.nextpid
    && (forall p :: 0 <= p < |w.tab| ==>
          0 <= w.tab[p].pid < w.nextpid && (w.tab[p].state != UNUSED ==> w.tab[p].pid != 0))
    && (forall p, q :: 0 <= p < q < |w.tab| && w.tab[p].pid == w.tab[q].pid ==> w.tab[p].pid == 0)
  }

  /** Every process is reaped at most once: its pid is not in the table any more and not
      twice in the log. */
  predicate ReapedOk(w: World) {
    && (forall i :: 0 <= i < |w.reaped| ==> w.reaped[i].pid < w.nextpid)
    && (forall i, j :: 0 <= i < j < |w.reaped| ==> w.reaped[i].pid != w.reaped[j].pid)
    && (forall i, p :: 0 <= i < |w.reaped| && 0 <= p < |w.tab| && w.tab[p].state != UNUSED ==>
          w.reaped[i].pid != w.tab[p].pid)
  }

  /** The same processes in the same slots. */
  predicate SameIds(w: World, v: World) {
    && |v.tab| == |w.tab| && v.nextpid == w.nextpid && v.reaped == w.reaped
    && forall p :: 0 <= p < |w.tab| ==>
          v.tab[p].pid == w.tab[p].pid && (v.tab[p].state == UNUSED <==> w.tab[p].state == UNUSED)
  }

  lemma IdsKept(w: World, v: World)
    requires PidsOk(w) && ReapedOk(w) && SameIds(w, v)
    ensures PidsOk(v) && ReapedOk(v)
  {
  }

  predicate Inv(w: World) {
    && w.init < |w.tab| && w.tab[w.init].Live()
    && (forall p :: 0 <= p < |w.tab| ==> ParentOk(w, p) && SleepOk(w, p) && ParkOk(w.tab[p]))
    && PidsOk(w) && ReapedOk(w)
  }

  lemma ParkedFacts(w: World, p: nat)
    requires Inv(w) && p < |w.tab|
    ensures ParkOk(w.tab[p])
  {
  }

  /** Entry `y` is entry `x` with another parent, perhaps woken from a sleep on `chan`. */
  predicate Moved(x: Proc, y: Proc, parent: int, chan: int) {
    && y == x.(parent := parent, state := y.state)
    && (y.state == x.state || (x.state == SLEEPING && x.chan == chan && y.state == RUNNABLE))
  }

  predicate ZombieKid(tab: Table, cur: nat, j: nat)
    requires j < |tab|
  {
    tab[j].parent == cur && tab[j].state == ZOMBIE
  }

  /** What the loop of exit() amounts to. */
  lemma {:induction false} AbandonIs(tab: Table, init: nat, cur: nat, k: nat)
    requires k <= |tab|
    ensures forall i :: 0 <= i < |tab| ==>
              var parent := if i < k && tab[i].parent == cur then init else tab[i].parent;
              Moved(tab[i], Abandon(tab, init, cur, k)[i], parent, init)
  {
    if k > 0 { AbandonIs(tab, init, cur, k - 1); }
  }

  /** If a zombie child is handed over, init does not stay asleep. */
  lemma {:induction false} AbandonWakes(tab: Table, init: nat, cur: nat, k: nat, i: nat, j: nat)
    requires k <= |tab| && i < |tab| && j < k && ZombieKid(tab, cur, j)
    ensures !(Abandon(tab, init, cur, k)[i].state == SLEEPING && Abandon(tab, init, cur, k)[i].chan == init)
  {
    AbandonIs(tab, init, cur, k - 1);
    if j < k - 1 { AbandonWakes(tab, init, cur, k - 1, i, j); }
  }

  lemma ExitIs(w: World, cur: nat, i: nat)
    requires cur < |w.tab| && i < |w.tab|
    ensures ExitEntry(w, cur, i)
    ensures i != cur && w.tab[i].state == SLEEPING && w.tab[i].chan == w.tab[cur].parent ==>
              Exit(w, cur).tab[i].state == RUNNABLE
  {
    AbandonIs(Wake(w.tab, w.tab[cur].parent), w.init, cur, |w.tab|);
    hide Abandon;
  }

  lemma ExitInit(w: World, cur: nat, i: nat, j: nat)
    requires cur < |w.tab| && i < |w.tab| && j < |w.tab|
    ensures ZombieKid(w.tab, cur, j) && i != cur && w.tab[i].chan == w.init ==> Exit(w, cur).tab[i].state != SLEEPING
  {
    ExitIs(w, cur, i);
    var t := Wake(w.tab, w.tab[cur].parent);
    if ZombieKid(w.tab, cur, j) { AbandonWakes(t, w.init, cur, |w.tab|, i, j); }
  }

  /** exit() by any running process but init keeps the invariant. */
  lemma ExitInv(w: World, cur: nat)
    requires Inv(w) && cur < |w.tab| && cur != w.init && w.tab[cur].state == RUNNING
    ensures Inv(Exit(w, cur))
  {
    hide PidsOk, ReapedOk;
    var v := Exit(w, cur);
    forall i | 0 <= i < |w.tab| ensures ExitEntry(w, cur, i) { ExitIs(w, cur, i); }
    assert ExitEntry(w, cur, w.init) && ExitEntry(w, cur, cur) && ParentOk(w, cur);
    forall p | 0 <= p < |v.tab| ensures ParentOk(v, p) {
      assert ExitEntry(w, cur, p) && ParentOk(w, p);
      if 0 <= w.tab[p].parent < |w.tab| { assert ExitEntry(w, cur, w.tab[p].parent); }
    }
    forall p | 0 <= p < |v.tab| ensures SleepOk(v, p) { ExitSleep(w, cur, p); }
    forall p | 0 <= p < |v.tab| ensures ParkOk(v.tab[p]) { assert ExitEntry(w, cur, p) && ParkOk(w.tab[p]); }
    forall p | 0 <= p < |v.tab|
      ensures v.tab[p].pid == w.tab[p].pid && (v.tab[p].state == UNUSED <==> w.tab[p].state == UNUSED)
    {
      assert ExitEntry(w, cur, p);
    }
    IdsKept(w, v);
  }

  predicate ExitEntry(w: World, cur: nat, i: nat)
    requires cur < |w.tab| && i < |w.tab|
  {
    var (x, y) := (w.tab[i], Exit(w, cur).tab[i]);
    && y == x.(parent := if x.parent == cur then w.init else x.parent, state := y.state)
    && (i == cur ==> y.state == ZOMBIE)
    && (i != cur ==> y.state == x.state || (x.state == SLEEPING && y.state == RUNNABLE))
  }

  lemma ExitSleep(w: World, cur: nat, p: nat)
    requires Inv(w) && cur < |w.tab| && cur != w.init && w.tab[cur].state == RUNNING && p < |w.tab|
    ensures SleepOk(Exit(w, cur), p)
  {
    var v := Exit(w, cur);
    ExitIs(w, cur, p);
    assert SleepOk(w, p) && ParentOk(w, cur);
    var y := v.tab[p];
    if y.state == SLEEPING && y.call in {InWait, InJoin} {
      forall c | 0 <= c < |v.tab| ensures !Wanted(v.tab, p, y.call.InJoin?, c) {
        ExitIs(w, cur, c);
        ExitInit(w, cur, p, c);
        assert !Wanted(w.tab, p, y.call.InJoin?, c);
      }
    }
  }

  /** The scan finds the first child it may reap, and otherwise says whether there are any. */
  lemma {:induction false} ScanIs(tab: Table, cur: nat, join: bool, k: nat, kids: bool)
    requires k <= |tab|
    ensures match ScanFrom(tab, cur, join, k, kids)
            case Found(i) =>
              && k <= i < |tab| && Wanted(tab, cur, join, i)
              && forall j :: k <= j < i ==> !Wanted(tab, cur, join, j)
            case Kids =>
              && (forall j :: k <= j < |tab| ==> !Wanted(tab, cur, join, j))
              && (kids || exists j :: k <= j < |tab| && Kid(tab, cur, join, j))
            case NoKids => !kids && forall j :: k <= j < |tab| ==> !Kid(tab, cur, join, j) && !Wanted(tab, cur, join, j)
    decreases |tab| - k
  {
    if k < |tab| && !Wanted(tab, cur, join, k) {
      ScanIs(tab, cur, join, k + 1, kids || Kid(tab, cur, join, k));
    }
  }

  /** A pass of wait() or join() keeps the invariant: it reaps only a zombie child of the
      caller, of the right kind, or fails exactly when there is none to wait for, or goes
      to sleep with no zombie to reap. */
  lemma WaitInv(w: World, cur: nat, join: bool)
    requires Inv(w) && cur < |w.tab| && w.tab[cur].state == RUNNING
    ensures Inv(WaitPass(w, cur, join).0)
    ensures match WaitPass(w, cur, join).1
            case Reaped(pid) => exists i :: 0 <= i < |w.tab| && Wanted(w.tab, cur, join, i) && w.tab[i].pid == pid
            case Failed =>
              && (forall i :: 0 <= i < |w.tab| ==> !Wanted(w.tab, cur, join, i))
              && (w.tab[cur].killed || forall i :: 0 <= i < |w.tab| ==> !Kid(w.tab, cur, join, i))
            case Slept =>
              && (forall i :: 0 <= i < |w.tab| ==> !Wanted(w.tab, cur, join, i))
              && !w.tab[cur].killed && exists i :: 0 <= i < |w.tab| && Kid(w.tab, cur, join, i)
  {
    hide Inv, Wanted, Kid;
    ScanIs(w.tab, cur, join, 0, false);
    match ScanFrom(w.tab, cur, join, 0, false)
    case Found(i) => ReapInv(w, cur, join, i);
    case NoKids =>
    case Kids => if !w.tab[cur].killed { WaitSleep(w, cur, join); }
  }

  lemma WaitSleep(w: World, cur: nat, join: bool)
    requires Inv(w) && cur < |w.tab| && w.tab[cur].state == RUNNING
    requires forall i :: 0 <= i < |w.tab| ==> !Wanted(w.tab, cur, join, i)
    ensures var y := w.tab[cur].(state := SLEEPING, chan := cur, call := if join then InJoin else InWait);
      Inv(w.(tab := w.tab[cur := y]))
  {
    ParkedFacts(w, cur);
    hide Inv, Wanted;
    EntryInv(w, cur, w.tab[cur].(state := SLEEPING, chan := cur, call := if join then InJoin else InWait));
  }

  lemma ReapInv(w: World, cur: nat, join: bool, i: nat)
    requires Inv(w) && cur < |w.tab| && i < |w.tab| && Wanted(w.tab, cur, join, i)
    requires ScanFrom(w.tab, cur, join, 0, false) == Found(i)
    ensures Inv(WaitPass(w, cur, join).0)
  {
    var v := WaitPass(w, cur, join).0;
    ReapIds(w, cur, i);
    hide PidsOk, ReapedOk;
    assert ParentOk(w, i);
    forall p | 0 <= p < |v.tab| ensures ParentOk(v, p) && SleepOk(v, p) && ParkOk(v.tab[p]) {
      assert ParentOk(w, p) && SleepOk(w, p) && ParkOk(w.tab[p]);
      var j := v.tab[p].call.InJoin?;
      forall c | 0 <= c < |v.tab| ensures Wanted(v.tab, p, j, c) ==> Wanted(w.tab, p, j, c) {}
    }
  }

  lemma ReapIds(w: World, cur: nat, i: nat)
    requires PidsOk(w) && ReapedOk(w) && cur < |w.tab| && i < |w.tab| && w.tab[i].state == ZOMBIE
    ensures PidsOk(Reaping(w, cur, i)) && ReapedOk(Reaping(w, cur, i))
  {
  }

  /** Replacing entry `p` by one of the same process that is as alive as before. */
  lemma EntryInv(w: World, p: nat, y: Proc)
    requires Inv(w) && p < |w.tab|
    requires y.pid == w.tab[p].pid && y.parent == w.tab[p].parent && y.isThread == w.tab[p].isThread
    requires y.state == w.tab[p].state || (w.tab[p].Live() && y.Live())
    requires y.state == SLEEPING && y.call in {InWait, InJoin} ==>
               || (w.tab[p].state == SLEEPING && y.call == w.tab[p].call && y.chan == w.tab[p].chan)
               || (y.chan == p && forall c :: 0 <= c < |w.tab| ==> !Wanted(w.tab, p, y.call.InJoin?, c))
    requires ParkOk(y)
    ensures Inv(w.(tab := w.tab[p := y]))
  {
    hide PidsOk, ReapedOk;
    var v := w.(tab := w.tab[p := y]);
    forall q | 0 <= q < |v.tab| ensures ParentOk(v, q) && SleepOk(v, q) && ParkOk(v.tab[q]) {
      assert ParentOk(w, q) && SleepOk(w, q) && ParkOk(w.tab[q]);
      var j := v.tab[q].call.InJoin?;
      forall c | 0 <= c < |v.tab| ensures Wanted(v.tab, q, j, c) ==> Wanted(w.tab, q, j, c) {}
    }
    IdsKept(w, v);
  }

  lemma AllocInv(w: World)
    requires Inv(w)
    ensures Inv(Alloc(w).0)
  {
    var v := Alloc(w).0;
    AllocIds(w);
    UnusedIs(w.tab, 0);
    hide PidsOk, ReapedOk;
    forall q | 0 <= q < |v.tab| ensures ParentOk(v, q) && SleepOk(v, q) && ParkOk(v.tab[q]) {
      assert ParentOk(w, q) && SleepOk(w, q) && ParkOk(w.tab[q]);
      var j := v.tab[q].call.InJoin?;
      forall c | 0 <= c < |v.tab| ensures Wanted(v.tab, q, j, c) ==> Wanted(w.tab, q, j, c) {}
    }
  }

  lemma AllocIds(w: World)
    requires PidsOk(w) && ReapedOk(w)
    ensures PidsOk(Alloc(w).0) && ReapedOk(Alloc(w).0)
  {
    UnusedIs(w.tab, 0);
  }

  lemma {:induction false} UnusedIs(tab: Table, k: nat)
    requires k <= |tab|
    ensures match FirstUnused(tab, k)
            case None => forall i :: k <= i < |tab| ==> tab[i].state != UNUSED
            case Some(i) => k <= i < |tab| && tab[i].state == UNUSED
    decreases |tab| - k
  {
    if k < |tab| && tab[k].state != UNUSED { UnusedIs(tab, k + 1); }
  }

  /** Giving back a slot that was not published keeps the invariant. */
  lemma DropInv(w: World, np: nat, y: Proc)
    requires Inv(w) && np < |w.tab| && w.tab[np].state == EMBRYO
    requires y == w.tab[np].(state := UNUSED, parent := y.parent, isThread := y.isThread)
    ensures Inv(w.(tab := w.tab[np := y]))
  {
    DropIds(w, np, y);
    hide PidsOk, ReapedOk;
    var v := w.(tab := w.tab[np := y]);
    forall q | 0 <= q < |v.tab| ensures ParentOk(v, q) && SleepOk(v, q) && ParkOk(v.tab[q]) {
      assert ParentOk(w, q) && SleepOk(w, q) && ParkOk(w.tab[q]);
      var j := v.tab[q].call.InJoin?;
      forall c | 0 <= c < |v.tab| ensures Wanted(v.tab, q, j, c) ==> Wanted(w.tab, q, j, c) {}
    }
  }

  lemma DropIds(w: World, np: nat, y: Proc)
    requires PidsOk(w) && ReapedOk(w) && np < |w.tab| && y.pid == w.tab[np].pid && y.state == UNUSED
    ensures PidsOk(w.(tab := w.tab[np := y])) && ReapedOk(w.(tab := w.tab[np := y]))
  {
  }

  lemma PublishInv(w: World, np: nat, cur: nat, isThread: bool)
    requires Inv(w) && np < |w.tab| && cur < |w.tab| && w.tab[np].state == EMBRYO && w.tab[cur].state == RUNNING
    ensures Inv(Publish(w, np, cur, isThread))
  {
    var v := Publish(w, np, cur, isThread);
    forall q | 0 <= q < |v.tab| ensures ParentOk(v, q) && SleepOk(v, q) && ParkOk(v.tab[q]) {
      assert ParentOk(w, q) && SleepOk(w, q) && ParkOk(w.tab[q]);
      var j := v.tab[q].call.InJoin?;
      forall c | 0 <= c < |v.tab| ensures Wanted(v.tab, q, j, c) ==> Wanted(w.tab, q, j, c) {}
    }
  }

  lemma WakeInv(w: World, chan: int)
    requires Inv(w)
    ensures Inv(w.(tab := Wake(w.tab, chan)))
  {
    hide PidsOk, ReapedOk;
    var v := w.(tab := Wake(w.tab, chan));
    forall q | 0 <= q < |v.tab| ensures ParentOk(v, q) && SleepOk(v, q) && ParkOk(v.tab[q]) {
      assert ParentOk(w, q) && SleepOk(w, q) && ParkOk(w.tab[q]);
      var j := v.tab[q].call.InJoin?;
      forall c | 0 <= c < |v.tab| ensures Wanted(v.tab, q, j, c) ==> Wanted(w.tab, q, j, c) {}
    }
    IdsKept(w, v);
  }

  /** Entry `p` is the one that unpark changes, if any. */
  predicate UnparkAt(tab: Table, pid: int, p: nat) {
    var x := UnparkTab(tab, pid).0;
    && p < |tab| == |x| && x == tab[p := x[p]]
    && (x[p] == tab[p] || (tab[p].pid == pid && x[p] == tab[p].WithPark(Unpark(tab[p].ParkPart()))))
  }

  /** unpark looks behind the table exactly when no entry has the pid; otherwise it does to one
      entry with that pid what the flags of that entry say, or nothing. It returns 0 exactly when
      it woke somebody, the pid not being -1. */
  lemma UnparkIs(tab: Table, pid: int)
    ensures var (tab', r) := UnparkTab(tab, pid);
      && (r == PastTable <==> forall i :: 0 <= i < |tab| ==> tab[i].pid != pid)
      && (r == PastTable ==> tab' == tab) && (r != PastTable ==> exists p: nat :: UnparkAt(tab, pid, p))
      && (r == Ret(0) <==> pid != -1 && exists p :: 0 <= p < |tab| && tab[p].state != tab'[p].state)
  {
    var p := FirstPid(tab, pid, 0);
    var q := FirstParked(tab, pid, 0);
    assert p < |tab| ==> UnparkAt(tab, pid, p) || (q < |tab| && UnparkAt(tab, pid, q));
    if UnparkTab(tab, pid).1 == Ret(0) { assert tab[q].state != UnparkTab(tab, pid).0[q].state; }
  }

  lemma UnparkInv(w: World, pid: int)
    requires Inv(w)
    ensures Inv(UnparkStep(w, pid))
  {
    UnparkIs(w.tab, pid);
    var v := UnparkStep(w, pid);
    if UnparkTab(w.tab, pid).1 == PastTable {
      assert v == w;
    } else {
      var p: nat :| UnparkAt(w.tab, pid, p);
      assert ParkOk(w.tab[p]) && SleepOk(w, p);
      EntryInv(w, p, v.tab[p]);
    }
  }

  /** In every state of the invariant, unpark wakes a process that is asleep in park. */
  lemma UnparkWakes(w: World, p: nat)
    requires Inv(w) && p < |w.tab| && Parks(w.tab[p])
    ensures UnparkTab(w.tab, w.tab[p].pid) == (w.tab[p := w.tab[p].(state := RUNNABLE, isParked := false)], Ret(0))
  {
    assert ParkOk(w.tab[p]);
    var (f, q) := (FirstPid(w.tab, w.tab[p].pid, 0), FirstParked(w.tab, w.tab[p].pid, 0));
    assert f == p && q == p;
  }

  /** One kernel operation by one process. */
  datatype Event =
    | DoExit(p: nat) | DoWait(p: nat, join: bool)
    | DoAlloc | DoPublish(np: nat, p: nat, isThread: bool) | DoDrop(np: nat) | DoCloneFails(np: nat, p: nat)
    | DoDispatch(p: nat) | DoYield(p: nat) | DoSleep(p: nat, chan: int) | DoWakeup(chan: int) | DoKill(p: nat)
    | DoSetPark(p: nat) | DoPark(p: nat) | DoUnpark(pid: int)

  predicate EventOk(w: World, e: Event) {
    match e
    case DoExit(p) => p < |w.tab| && p != w.init && w.tab[p].state == RUNNING
    case DoWait(p, _) => p < |w.tab| && w.tab[p].state == RUNNING
    case DoAlloc => true
    case DoPublish(np, p, _) => np < |w.tab| && p < |w.tab| && w.tab[np].state == EMBRYO && w.tab[p].state == RUNNING
    case DoDrop(np) => np < |w.tab| && w.tab[np].state == EMBRYO
    case DoCloneFails(np, p) => np < |w.tab| && p < |w.tab| && w.tab[np].state == EMBRYO && w.tab[p].state == RUNNING
    case DoDispatch(p) => p < |w.tab| && w.tab[p].state == RUNNABLE
    case DoYield(p) => p < |w.tab| && w.tab[p].state == RUNNING
    case DoSleep(p, _) => p < |w.tab| && w.tab[p].state == RUNNING
    case DoWakeup(chan) => chan != NO_CHAN
    case DoKill(p) => p < |w.tab|
    case DoSetPark(p) => p < |w.tab| && w.tab[p].state == RUNNING
    case DoPark(p) => p < |w.tab| && w.tab[p].state == RUNNING
    case DoUnpark(pid) => exists p :: 0 <= p < |w.tab| && w.tab[p].pid == pid
  }

  function Apply(w: World, e: Event): World
    requires EventOk(w, e)
  {
    match e
    case DoExit(p) => Exit(w, p)
    case DoWait(p, join) => WaitPass(w, p, join).0
    case DoAlloc => Alloc(w).0
    case DoPublish(np, p, isThread) => Publish(w, np, p, isThread)
    case DoDrop(np) => Drop(w, np)
    case DoCloneFails(np, p) => CloneFails(w, np, p)
    case DoDispatch(p) => Dispatch(w, p)
    case DoYield(p) => Yield(w, p)
    case DoSleep(p, chan) => SleepOn(w, p, chan)
    case DoWakeup(chan) => w.(tab := Wake(w.tab, chan))
    case DoKill(p) => Kill(w, p)
    case DoSetPark(p) => SetParkStep(w, p)
    case DoPark(p) => ParkStep(w, p)
    case DoUnpark(pid) => UnparkStep(w, pid)
  }

  lemma EventInv(w: World, e: Event)
    requires Inv(w) && EventOk(w, e)
    ensures Inv(Apply(w, e))
  {
    hide Inv, Exit, WaitPass, Alloc, Publish, Wake, UnparkTab;
    match e
    case DoExit(p) => ExitInv(w, p);
    case DoWait(p, join) => WaitInv(w, p, join);
    case DoAlloc => AllocInv(w);
    case DoPublish(np, p, isThread) => PublishInv(w, np, p, isThread);
    case DoDrop(np) => DropInv(w, np, Drop(w, np).tab[np]);
    case DoCloneFails(np, p) => DropInv(w, np, CloneFails(w, np, p).tab[np]);
    case DoWakeup(chan) => WakeInv(w, chan);
    case DoUnpark(pid) => UnparkInv(w, pid);
    case _ => OwnEntryInv(w, e);
  }

  /** The operations on one entry. */
  lemma OwnEntryInv(w: World, e: Event)
    requires Inv(w) && EventOk(w, e)
    requires e.DoDispatch? || e.DoYield? || e.DoSleep? || e.DoKill? || e.DoSetPark? || e.DoPark?
    ensures Inv(Apply(w, e))
  {
    hide Inv;
    ParkedFacts(w, e.p);
    EntryInv(w, e.p, Apply(w, e).tab[e.p]);
  }

  predicate IsRun(w: World, run: seq<Event>)
    decreases |run|
  {
    run == [] || (EventOk(w, run[0]) && IsRun(Apply(w, run[0]), run[1..]))
  }

  function After(w: World, run: seq<Event>): World
    requires IsRun(w, run)
    decreases |run|
  {
    if run == [] then w else After(Apply(w, run[0]), run[1..])
  }

  /** The table after userinit(). */
  predicate Boot(w: World) {
    && w.init < |w.tab| && w.tab[w.init].state == RUNNABLE && 0 < w.tab[w.init].pid < w.nextpid && w.reaped == []
    && (forall p :: 0 <= p < |w.tab| && p != w.init ==>
          w.tab[p].state == UNUSED && w.tab[p].parent == NO_PROC && w.tab[p].pid == 0)
    && (forall p :: 0 <= p < |w.tab| ==>
          var x := w.tab[p]; !x.isParked && !x.setPark && !x.immediateUnpark && x.chan == NO_CHAN)
  }

  /** In every state of every run from boot: no process sleeps in wait or join beside a zombie
      it could reap, every process but init has a live parent, pids are unique, and no
      process is reaped twice. */
  lemma {:induction false} RunInv(w: World, run: seq<Event>)
    requires (Boot(w) || Inv(w)) && IsRun(w, run)
    ensures Inv(After(w, run))
    decreases |run|
  {
    assert Inv(w);
    hide Inv;
    if run != [] {
      EventInv(w, run[0]);
      RunInv(Apply(w, run[0]), run[1..]);
    }
  }

  // The parking flags over runs.

  lemma ExitStill(w: World, cur: nat, i: nat)
    requires cur < |w.tab| && i < |w.tab| && i != cur
    requires w.tab[i].chan != w.tab[cur].parent && w.tab[i].chan != w.init
    ensures Exit(w, cur).tab[i] == w.tab[i].(parent := Exit(w, cur).tab[i].parent)
  {
    AbandonIs(Wake(w.tab, w.tab[cur].parent), w.init, cur, |w.tab|);
  }

  /** A process asleep in park is woken by an unpark of its pid and by a kill, and by nothing else:
      no exit, no wakeup and no unpark of another process ends the sleep. */
  lemma ParkSleeps(w: World, e: Event, p: nat)
    requires Inv(w) && EventOk(w, e) && p < |w.tab| && Parks(w.tab[p])
    ensures |Apply(w, e).tab| == |w.tab|
    ensures Parks(Apply(w, e).tab[p]) <==> e != DoUnpark(w.tab[p].pid) && e != DoKill(p)
  {
    hide Inv, UnparkTab, Exit;
    ParkedFacts(w, p);
    match e
    case DoExit(q) =>
      ExitsChan(w, q);
      ExitStill(w, q, p);
    case DoWait(q, join) => WaitOthers(w, q, join, p);
    case DoAlloc => UnusedIs(w.tab, 0);
    case DoUnpark(pid) =>
      UnparkWakes(w, p);
      UnparkOthers(w.tab, pid, p);
    case _ =>
  }

  lemma ExitsChan(w: World, q: nat)
    requires Inv(w) && q < |w.tab| && q != w.init && w.tab[q].state == RUNNING
    ensures w.tab[q].parent != NO_CHAN && w.init != NO_CHAN
  {
    assert ParentOk(w, q);
  }

  /** A pass of wait or join leaves alone who neither calls it nor is a zombie. */
  lemma WaitOthers(w: World, q: nat, join: bool, p: nat)
    requires q < |w.tab| && p < |w.tab|
    ensures var v := WaitPass(w, q, join).0;
      && |v.tab| == |w.tab| && v.tab[p].isParked == w.tab[p].isParked
      && (v.tab[p] == w.tab[p] || w.tab[p].state == ZOMBIE || (p == q && v.tab[p].call in {InWait, InJoin}))
      && (w.tab[p].state == ZOMBIE && p != q ==> v.tab[p].state in {ZOMBIE, UNUSED})
      && (v.tab[p].state in {UNUSED, EMBRYO} ==> v.tab[p] == w.tab[p] || v.tab[p].parent == NO_PROC)
  {
    ScanIs(w.tab, q, join, 0, false);
  }

  lemma UnparkOthers(tab: Table, pid: int, p: nat)
    requires p < |tab|
    ensures |UnparkTab(tab, pid).0| == |tab| && (tab[p].pid != pid ==> UnparkTab(tab, pid).0[p] == tab[p])
    ensures tab[p].isParked == UnparkTab(tab, pid).0[p].isParked || ParkedAs(tab[p], pid)
    ensures tab[p].state != SLEEPING ==> UnparkTab(tab, pid).0[p].state == tab[p].state
    ensures UnparkTab(tab, pid).0[p].call == tab[p].call && UnparkTab(tab, pid).0[p].parent == tab[p].parent
    ensures UnparkTab(tab, pid).0[p].state in {tab[p].state, RUNNABLE}
  {
  }

  /** isParked says of every process whether it is asleep in park. */
  predicate FlagExact(w: World) { forall p :: 0 <= p < |w.tab| ==> (w.tab[p].isParked <==> Parks(w.tab[p])) }

  /** kill() of a process that is asleep in park. */
  predicate KillsParked(w: World, e: Event) { e.DoKill? && e.p < |w.tab| && w.tab[e.p].isParked }

  /** An operation keeps the meaning of isParked exactly when it is not a kill of a parked process. */
  lemma FlagStep(w: World, e: Event)
    requires Inv(w) && EventOk(w, e) && FlagExact(w)
    ensures FlagExact(Apply(w, e)) <==> !KillsParked(w, e)
  {
    hide Inv, Exit, WaitPass, Alloc, Publish, Wake, UnparkTab, ParkOk;
    var v := Apply(w, e);
    if KillsParked(w, e) {
      assert v.tab[e.p].isParked && !Parks(v.tab[e.p]);
    } else {
      hide Apply, EventOk;
      SizeKept(w, e);
      forall p | 0 <= p < |v.tab| ensures v.tab[p].isParked <==> Parks(v.tab[p]) {
        FlagEntry(w, e, p);
      }
    }
  }

  lemma SizeKept(w: World, e: Event)
    requires EventOk(w, e)
    ensures |Apply(w, e).tab| == |w.tab|
  {
  }

  lemma FlagEntry(w: World, e: Event, p: nat)
    requires Inv(w) && EventOk(w, e) && !KillsParked(w, e) && p < |w.tab|
    requires w.tab[p].isParked <==> Parks(w.tab[p])
    ensures |Apply(w, e).tab| == |w.tab| && (Apply(w, e).tab[p].isParked <==> Parks(Apply(w, e).tab[p]))
  {
    hide Inv, UnparkTab, Exit, WaitPass;
    ParkedFacts(w, p);
    match e
    case DoExit(q) =>
      ExitIs(w, q, p);
      ExitsChan(w, q);
      if p != q && Parks(w.tab[p]) { ExitStill(w, q, p); }
    case DoWait(q, join) => WaitOthers(w, q, join, p);
    case DoAlloc => UnusedIs(w.tab, 0);
    case DoUnpark(pid) =>
      UnparkOthers(w.tab, pid, p);
      if Parks(w.tab[p]) { UnparkWakes(w, p); }
    case _ =>
  }

  /** No kill of the run hits a parked process. */
  predicate Spares(w: World, run: seq<Event>)
    requires IsRun(w, run)
    decreases |run|
  {
    run == [] || (!KillsParked(w, run[0]) && Spares(Apply(w, run[0]), run[1..]))
  }

  /** In every state of every run from boot that kills no parked process, isParked says exactly
      which processes are asleep in park. */
  lemma {:induction false} FlagRuns(w: World, run: seq<Event>)
    requires (Boot(w) || (Inv(w) && FlagExact(w))) && IsRun(w, run) && Spares(w, run)
    ensures FlagExact(After(w, run))
    decreases |run|
  {
    assert Inv(w) && (Boot(w) ==> FlagExact(w));
    hide Inv, FlagExact, KillsParked;
    if run != [] {
      EventInv(w, run[0]);
      FlagStep(w, run[0]);
      FlagRuns(Apply(w, run[0]), run[1..]);
    }
  }

  // Children over runs.

  predicate Unborn(x: Proc) { x.state in {UNUSED, EMBRYO} }

  /** No slot without a process names a parent. */
  predicate NoStale(w: World) { forall p :: 0 <= p < |w.tab| && Unborn(w.tab[p]) ==> w.tab[p].parent == NO_PROC }

  /** A child that there is. */
  predicate HasChild(tab: Table, cur: nat, join: bool) {
    exists i :: 0 <= i < |tab| && Kid(tab, cur, join, i) && !Unborn(tab[i])
  }

  /** A slot that a failed clone has left behind in the name of `cur`. */
  predicate HasStale(tab: Table, cur: nat, join: bool) {
    exists i :: 0 <= i < |tab| && Kid(tab, cur, join, i) && Unborn(tab[i])
  }

  /** wait or join with nothing to reap is promised to sleep if there is a child and to fail if there
      is none. It does so exactly when there is a child, or no slot of a failed clone either. */
  lemma SleepsForNobody(w: World, cur: nat, join: bool)
    requires cur < |w.tab| && !w.tab[cur].killed && forall i :: 0 <= i < |w.tab| ==> !Wanted(w.tab, cur, join, i)
    ensures var r := WaitPass(w, cur, join).1;
      && r == (if HasChild(w.tab, cur, join) || HasStale(w.tab, cur, join) then Slept else Failed)
      && (r == (if HasChild(w.tab, cur, join) then Slept else Failed) <==>
            HasChild(w.tab, cur, join) || !HasStale(w.tab, cur, join))
  {
    ScanIs(w.tab, cur, join, 0, false);
    KidsAre(w.tab, cur, join);
    hide HasChild, HasStale, Kid, Wanted;
  }

  lemma KidsAre(tab: Table, cur: nat, join: bool)
    ensures HasChild(tab, cur, join) || HasStale(tab, cur, join) <==>
            exists i :: 0 <= i < |tab| && Kid(tab, cur, join, i)
  {
    hide Kid;
    if i :| 0 <= i < |tab| && Kid(tab, cur, join, i) { assert Unborn(tab[i]) || !Unborn(tab[i]); }
  }

  /** An operation leaves no stale slot behind exactly when it is not a failed clone. */
  lemma StaleStep(w: World, e: Event)
    requires Inv(w) && EventOk(w, e) && NoStale(w)
    ensures NoStale(Apply(w, e)) <==> !e.DoCloneFails?
  {
    hide Inv, Exit, WaitPass, UnparkTab;
    SizeKept(w, e);
    var v := Apply(w, e);
    match e
    case DoAlloc => UnusedIs(w.tab, 0);
    case DoCloneFails(np, p) => assert Unborn(v.tab[np]) && v.tab[np].parent == p;
    case DoExit(q) =>
      forall p | 0 <= p < |v.tab| && Unborn(v.tab[p]) ensures v.tab[p].parent == NO_PROC { ExitIs(w, q, p); }
    case DoWait(q, join) =>
      forall p | 0 <= p < |v.tab| && Unborn(v.tab[p]) ensures v.tab[p].parent == NO_PROC { WaitOthers(w, q, join, p); }
    case DoUnpark(pid) =>
      forall p | 0 <= p < |v.tab| && Unborn(v.tab[p]) ensures v.tab[p].parent == NO_PROC {
        UnparkOthers(w.tab, pid, p);
      }
    case _ =>
  }

  /** In every state of every run from boot without a failed clone: with nothing to reap, wait and
      join sleep exactly when there is a child. */
  lemma WaitRuns(w: World, run: seq<Event>, cur: nat, join: bool)
    requires Boot(w) && IsRun(w, run) && forall e :: e in run ==> !e.DoCloneFails?
    ensures var (v, kill) := (After(w, run), cur < |After(w, run).tab| && After(w, run).tab[cur].killed);
      cur < |v.tab| && !kill && (forall i :: 0 <= i < |v.tab| ==> !Wanted(v.tab, cur, join, i)) ==>
        WaitPass(v, cur, join).1 == if HasChild(v.tab, cur, join) then Slept else Failed
  {
    StaleRuns(w, run);
    var v := After(w, run);
    if cur < |v.tab| && !v.tab[cur].killed && forall i :: 0 <= i < |v.tab| ==> !Wanted(v.tab, cur, join, i) {
      SleepsForNobody(v, cur, join);
    }
  }

  lemma {:induction false} StaleRuns(w: World, run: seq<Event>)
    requires (Boot(w) || (Inv(w) && NoStale(w))) && IsRun(w, run) && forall e :: e in run ==> !e.DoCloneFails?
    ensures NoStale(After(w, run))
    decreases |run|
  {
    assert Inv(w) && NoStale(w);
    hide Inv, NoStale;
    if run != [] {
      EventInv(w, run[0]);
      StaleStep(w, run[0]);
      StaleRuns(Apply(w, run[0]), run[1..]);
    }
  }

  /** A process as it is in a new table. */
  const BLANK := Proc(UNUSED, 0, NO_PROC, NO_CHAN, false, false, false, false, false, NoCall)

  /** The table with init alone and `n` unused slots. */
  function NewTable(n: nat): (w: World)
    ensures Boot(w)
  {
    World([BLANK.(state := RUNNABLE, pid := 1)] + seq(n, _ => BLANK), 0, 2, [])
  }

  /** A process that parks and is killed is runnable with isParked set. */
  lemma KilledParked()
    ensures var (w, run) := (NewTable(63), [DoDispatch(0), DoPark(0), DoKill(0)]);
      IsRun(w, run) && After(w, run).tab[0].isParked && After(w, run).tab[0].state == RUNNABLE
  {
    var w := NewTable(63);
    var w1 := Apply(w, DoDispatch(0));
    var w2 := Apply(w1, DoPark(0));
    RunNext(w2, DoKill(0), []);
    RunNext(w1, DoPark(0), [DoKill(0)]);
    RunNext(w, DoDispatch(0), [DoPark(0), DoKill(0)]);
    assert [DoDispatch(0)] + [DoPark(0), DoKill(0)] == [DoDispatch(0), DoPark(0), DoKill(0)];
  }

  /** The table after init has called clone in vain. */
  function CloneTable(): World {
    var lost := BLANK.(pid := 2, parent := 0, isThread := true);
    World([BLANK.(state := RUNNING, pid := 1), lost] + seq(62, _ => BLANK), 0, 3, [])
  }

  lemma CloneInVain()
    ensures var (w, run) := (NewTable(63), [DoDispatch(0), DoAlloc, DoCloneFails(1, 0)]);
      IsRun(w, run) && After(w, run) == CloneTable()
  {
    var w := NewTable(63);
    var w1 := Apply(w, DoDispatch(0));
    UnusedIs(w1.tab, 0);
    assert FirstUnused(w1.tab, 0) == Some(1);
    var w2 := Apply(w1, DoAlloc);
    var w3 := Apply(w2, DoCloneFails(1, 0));
    assert w3.tab == CloneTable().tab;
    RunNext(w2, DoCloneFails(1, 0), []);
    RunNext(w1, DoAlloc, [DoCloneFails(1, 0)]);
    RunNext(w, DoDispatch(0), [DoAlloc, DoCloneFails(1, 0)]);
    assert [DoDispatch(0)] + [DoAlloc, DoCloneFails(1, 0)] == [DoDispatch(0), DoAlloc, DoCloneFails(1, 0)];
  }

  /** After a clone that failed, join by the caller sleeps, with no other process in the table. */
  lemma JoinsNobody()
    ensures var (w, run) := (NewTable(63), [DoDispatch(0), DoAlloc, DoCloneFails(1, 0)]);
      && IsRun(w, run) && After(w, run).tab[0].state == RUNNING
      && (forall p :: 0 < p < |After(w, run).tab| ==> After(w, run).tab[p].state == UNUSED)
      && WaitPass(After(w, run), 0, true).1 == Slept
  {
    CloneInVain();
    hide IsRun, After;
    var w := CloneTable();
    assert Kid(w.tab, 0, true, 1) && Unborn(w.tab[1]);
    SleepsForNobody(w, 0, true);
  }

  lemma RunNext(w: World, e: Event, run: seq<Event>)
    requires EventOk(w, e) && IsRun(Apply(w, e), run)
    ensures IsRun(w, [e] + run) && After(w, [e] + run) == After(Apply(w, e), run)
  {
    assert ([e] + run)[1..] == run;
  }

  /** On a new table, unpark of a pid that nobody has looks behind the table. */
  lemma UnparkMiss()
    ensures Boot(NewTable(63)) && UnparkTab(NewTable(63).tab, 7).1 == PastTable
  {
    UnparkIs(NewTable(63).tab, 7);
  }

  type Address = a: nat | 0 < a witness 1

  class Kernel {
    const proc: array<Proc>   // ptable.proc
    const table: Address      // where ptable.proc starts
    const stride: Address     // sizeof(struct proc)
    const initproc: nat
    var nextpid: int
    ghost var reaped: seq<Reap>

    constructor (proc: array<Proc>, table: Address, stride: Address, initproc: nat, nextpid: int)
      ensures this.proc == proc && this.table == table && this.stride == stride
      ensures this.initproc == initproc && this.nextpid == nextpid && reaped == []
    {
      this.proc, this.table, this.stride := proc, table, stride;
      this.initproc, this.nextpid, this.reaped := initproc, nextpid, [];
    }

    ghost function State(): World
      reads this, proc
    {
      World(proc[..], initproc, nextpid, reaped)
    }

    method Wakeup1(chan: int)
      modifies proc
      ensures proc[..] == Wake(old(proc[..]), chan)
    {
      for i := 0 to proc.Length
        invariant proc[..i] == Wake(old(proc[..]), chan)[..i] && proc[i..] == old(proc[i..])
      {
        if proc[i].state == SLEEPING && proc[i].chan == chan {
          proc[i] := proc[i].(state := RUNNABLE);
        }
      }
    }

    /** exit() of process `cur`; init must not exit. */
    method ExitProc(cur: nat) returns (panicked: bool)
      requires cur < proc.Length
      modifies proc
      ensures panicked <==> cur == initproc
      ensures panicked ==> State() == old(State())
      ensures !panicked ==> State() == Exit(old(State()), cur)
    {
      if cur == initproc {
        return true;
      }
      ghost var tab := Wake(proc[..], proc[cur].parent);
      Wakeup1(proc[cur].parent);
      for i := 0 to proc.Length
        invariant proc[..] == Abandon(tab, initproc, cur, i)
      {
        if proc[i].parent == cur {
          proc[i] := proc[i].(parent := initproc);
          if proc[i].state == ZOMBIE {
            Wakeup1(initproc);
          }
        }
      }
      proc[cur] := proc[cur].(state := ZOMBIE);
      panicked := false;
    }

    /** One pass of the loop of wait(), or of join() when `join` is set. */
    method Reap1(cur: nat, join: bool) returns (r: Outcome)
      requires cur < proc.Length
      modifies proc, this`reaped
      ensures (State(), r) == WaitPass(old(State()), cur, join)
    {
      var havekids := false;
      var i := 0;
      while i < proc.Length
        invariant 0 <= i <= proc.Length
        invariant proc[..] == old(proc[..])
        invariant ScanFrom(proc[..], cur, join, i, havekids) == ScanFrom(proc[..], cur, join, 0, false)
      {
        if proc[i].parent == cur && (join ==> proc[i].isThread) {
          havekids := true;
          if proc[i].state == ZOMBIE && proc[i].isThread == join {
            r := Reaped(proc[i].pid);
            reaped := reaped + [Reap(proc[i].pid, proc[cur].pid)];
            proc[i] := proc[i].(state := UNUSED, pid := 0, parent := NO_PROC, killed := false);
            return;
          }
        }
        i := i + 1;
      }
      if !havekids || proc[cur].killed {
        return Failed;
      }
      proc[cur] := proc[cur].(state := SLEEPING, chan := cur, call := if join then InJoin else InWait);
      r := Slept;
    }

    /** allocproc(); `stack` says whether there is a page for the kernel stack. */
    method AllocProc(stack: bool) returns (slot: Option<nat>)
      modifies proc, this`nextpid
      ensures var (v, s) := Alloc(old(State()));
        if s.Some? && !stack then s.value < |v.tab| && (State(), slot) == (Drop(v, s.value), None)
        else (State(), slot) == (v, s)
    {
      var i := 0;
      while i < proc.Length
        invariant 0 <= i <= proc.Length
        invariant FirstUnused(proc[..], i) == FirstUnused(proc[..], 0)
      {
        if proc[i].state == UNUSED {
          proc[i] := proc[i].(state := EMBRYO, pid := nextpid);
          nextpid := nextpid + 1;
          if !stack {
            proc[i] := proc[i].(state := UNUSED);
            return None;
          }
          return Some(i);
        }
        i := i + 1;
      }
      slot := None;
    }

    /** setpark() by process `cur`. */
    method SetParkProc(cur: nat) returns (r: int)
      requires cur < proc.Length
      modifies proc
      ensures State() == SetParkStep(old(State()), cur)
      ensures r == 0 <==> !old(proc[cur]).immediateUnpark && !old(proc[cur]).setPark
    {
      r := -1;
      if !proc[cur].immediateUnpark && !proc[cur].setPark {
        proc[cur] := proc[cur].(setPark := true);
        r := 0;
      }
    }

    /** park() by process `cur`, up to its call of sched(), which it makes when it sleeps. */
    method ParkProc(cur: nat) returns (sched: bool)
      requires cur < proc.Length && proc[cur].state == RUNNING
      modifies proc
      ensures State() == ParkStep(old(State()), cur)
      ensures sched <==> !old(proc[cur]).immediateUnpark
    {
      if !proc[cur].immediateUnpark {
        proc[cur] := proc[cur].(state := SLEEPING, isParked := true, call := InPark);
      } else {
        proc[cur] := proc[cur].(immediateUnpark := false);
      }
      proc[cur] := proc[cur].(setPark := false);
      sched := proc[cur].state == SLEEPING;
    }

    /** The search of unpark() and the test that follows it: `isNull` is what the test says of the
        pointer that the search ends with. It never says so, not even behind the table. */
    method FindPid(pid: int) returns (p: nat, isNull: bool)
      ensures p == FirstPid(proc[..], pid, 0) && !isNull
      ensures p == proc.Length <==> forall i :: 0 <= i < proc.Length ==> proc[i].pid != pid
    {
      p := 0;
      while p < proc.Length && proc[p].pid != pid
        invariant p <= proc.Length && FirstPid(proc[..], pid, p) == FirstPid(proc[..], pid, 0)
      {
        p := p + 1;
      }
      isNull := table + p * stride == 0;
    }

    /** unpark1(pid) */
    method Unpark1(pid: int) returns (r: int)
      modifies proc
      ensures var q := FirstParked(old(proc[..]), pid, 0);
        if q == proc.Length then r == -1 && proc[..] == old(proc[..])
        else r == pid && proc[..] == old(proc[..])[q := old(proc[..])[q].(state := RUNNABLE, isParked := false)]
    {
      ghost var tab := proc[..];
      var q := 0;
      while q < proc.Length
        invariant q <= proc.Length && proc[..] == tab && FirstParked(tab, pid, q) == FirstParked(tab, pid, 0)
      {
        if proc[q].state == SLEEPING && proc[q].isParked && proc[q].pid == pid {
          proc[q] := proc[q].(state := RUNNABLE, isParked := false);
          return proc[q].pid;
        }
        q := q + 1;
      }
      r := -1;
    }

    /** unpark(pid) for any pid. What the source reads behind the table is not in the model. */
    method UnparkProc(pid: int) returns (r: UnparkOutcome)
      modifies proc
      ensures (proc[..], r) == UnparkTab(old(proc[..]), pid)
    {
      var p, isNull := FindPid(pid);
      if p == proc.Length {
        return PastTable;
      }
      if !proc[p].setPark && !proc[p].isParked {
        return Ret(-1);
      }
      if proc[p].setPark && !proc[p].isParked {
        proc[p] := proc[p].(immediateUnpark := true);
        return Ret(-1);
      }
      var woken := Unpark1(pid);
      r := Ret(if woken != -1 then 0 else woken);
    }
  }
}
