/** The linked pid queue of user/pidqueue.c. */
module PidQueue {
  /** queue_remove returns (uint)-1 on an empty queue. */
  const NO_PID: int := 0xFFFF_FFFF

  class Node {
    var pid: int
    var next: Node?

    constructor (pid: int)
      ensures this.pid == pid && next == null
    {
      this.pid := pid;
      next := null;
    }
  }

  class Queue {
    var head: Node?
    var tail: Node?
    ghost var nodes: seq<Node>  // the nodes from head to tail

    ghost predicate Valid()
      reads this, nodes
    {
      && (nodes == [] ==> head == null && tail == null)
      && (nodes != [] ==> head == nodes[0] && tail == nodes[|nodes| - 1])
      && (forall i, j :: 0 <= i < j < |nodes| ==> nodes[i] != nodes[j])
      && (forall i :: 0 <= i < |nodes| ==> Linked(nodes, i))
    }

    static ghost predicate Linked(ns: seq<Node>, i: nat)
      requires i < |ns|
      reads ns
    {
      ns[i].next == if i + 1 < |ns| then ns[i + 1] else null
    }

    /** The pids in the order in which they were added. */
    ghost function Contents(): (s: seq<int>)
      reads this, nodes
      ensures |s| == |nodes| && forall i :: 0 <= i < |s| ==> s[i] == nodes[i].pid
    {
      seq(|nodes|, i requires 0 <= i < |nodes| reads this, nodes => nodes[i].pid)
    }

    /** queue_init */
    constructor ()
      ensures Valid() && Contents() == [] && nodes == []
    {
      head, tail, nodes := null, null, [];
    }

    /** queue_empty */
    method IsEmpty() returns (empty: bool)
      requires Valid()
      ensures empty <==> Contents() == []
    {
      empty := head == null && tail == null;
    }

    /** queue_add */
    method Add(pid: int)
      requires Valid()
      modifies this, nodes
      ensures Valid() && Contents() == old(Contents()) + [pid]
      ensures |nodes| == |old(nodes)| + 1 && old(nodes) <= nodes && fresh(nodes[|old(nodes)|])
    {
      var node := new Node(pid);
      if head == null && tail == null {
        head := node;
        tail := node;
      } else {
        tail.next := node;
        tail := node;
      }
      ghost var was := nodes;
      nodes := was + [node];
      forall i | 0 <= i < |nodes| ensures Linked(nodes, i) {
        if i < |was| { assert old(Linked(was, i)); }
      }
    }

    /** queue_remove */
    method Remove() returns (pid: int)
      requires Valid()
      modifies this
      ensures Valid()
      ensures old(Contents()) == [] ==> pid == NO_PID && Contents() == []
      ensures old(Contents()) != [] ==> pid == old(Contents()[0]) && Contents() == old(Contents()[1..])
      ensures nodes == if old(nodes) == [] then [] else old(nodes)[1..]
    {
      if head == null {
        return NO_PID;
      }
      var rem := head;
      assert |nodes| > 1 ==> nodes[0] != nodes[|nodes| - 1] && Linked(nodes, 0);
      if head == tail {
        head := null;
        tail := null;
      } else {
        head := head.next;
      }
      pid := rem.pid;
      ghost var was := nodes;
      nodes := was[1..];
      forall i | 0 <= i < |nodes| ensures Linked(nodes, i) { assert Linked(was, i + 1); }
    }
  }
}
