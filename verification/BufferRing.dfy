/** kernel/bio.c: the doubly linked ring of buffers.  Position 0 of the link tables is the list
    head, the other positions are the buffers. */
module BufferRing {
  function Following(n: nat, k: nat): nat { if k + 1 < n then k + 1 else 0 }

  predicate Joined(next: seq<nat>, prev: seq<nat>, a: nat, b: nat) {
    a < |next| && b < |prev| && next[a] == b && prev[b] == a
  }

  /** The links form one cycle through the distinct entries of `cyc`, the head first. */
  ghost predicate Ring(next: seq<nat>, prev: seq<nat>, cyc: seq<nat>) {
    && |next| == |prev| && |cyc| > 0 && cyc[0] == 0
    && (forall i, j :: 0 <= i < j < |cyc| ==> cyc[i] != cyc[j])
    && (forall i :: 0 <= i < |cyc| ==> cyc[i] < |next| && Joined(next, prev, cyc[i], cyc[Following(|cyc|, i)]))
  }

  function Without(cyc: seq<nat>, k: nat): seq<nat>
    requires k < |cyc|
  {
    cyc[..k] + cyc[k + 1..]
  }

  /** b->next->prev = b->prev; b->prev->next = b->next */
  function Unlinked(next: seq<nat>, prev: seq<nat>, b: nat): (r: (seq<nat>, seq<nat>))
    requires b < |next| == |prev| && next[b] < |next| && prev[b] < |prev|
    ensures |r.0| == |next| && |r.1| == |prev|
  {
    (next[prev[b] := next[b]], prev[next[b] := prev[b]])
  }

  /** b->next = head.next; b->prev = head; head.next->prev = b; head.next = b */
  function Pushed(next: seq<nat>, prev: seq<nat>, b: nat): (r: (seq<nat>, seq<nat>))
    requires 0 < b < |next| == |prev| && next[0] < |next|
    ensures |r.0| == |next| && |r.1| == |prev|
  {
    (next[b := next[0]][0 := b], prev[b := 0][next[0] := b])
  }

  lemma UnlinkedRing(next: seq<nat>, prev: seq<nat>, cyc: seq<nat>, k: nat)
    requires Ring(next, prev, cyc) && 0 < k < |cyc|
    ensures var b := cyc[k];
      && b < |next| && next[b] < |next| && prev[b] < |prev|
      && Ring(Unlinked(next, prev, b).0, Unlinked(next, prev, b).1, Without(cyc, k)) && b !in Without(cyc, k)
  {
    var b := cyc[k];
    var n := |cyc|;
    assert Joined(next, prev, cyc[k], cyc[Following(n, k)]) && Joined(next, prev, cyc[k - 1], cyc[Following(n, k - 1)]);
    var (next', prev') := Unlinked(next, prev, b);
    var rest := Without(cyc, k);
    assert forall i :: 0 <= i < |rest| ==> rest[i] == cyc[if i < k then i else i + 1];
    forall i | 0 <= i < |rest| ensures rest[i] < |next'| && Joined(next', prev', rest[i], rest[Following(|rest|, i)]) {
      var j := if i < k then i else i + 1;
      assert Joined(next, prev, cyc[j], cyc[Following(n, j)]);
      assert rest[Following(|rest|, i)] == if j == k - 1 then cyc[Following(n, k)] else cyc[Following(n, j)];
    }
  }

  lemma PushedRing(next: seq<nat>, prev: seq<nat>, cyc: seq<nat>, b: nat)
    requires Ring(next, prev, cyc) && b !in cyc && b < |next|
    ensures next[0] < |next| && Ring(Pushed(next, prev, b).0, Pushed(next, prev, b).1, [0, b] + cyc[1..])
  {
    var n := |cyc|;
    assert Joined(next, prev, cyc[0], cyc[Following(n, 0)]);
    var (next', prev') := Pushed(next, prev, b);
    var all := [0, b] + cyc[1..];
    forall i | 0 <= i < |all| ensures all[i] < |next'| && Joined(next', prev', all[i], all[Following(|all|, i)]) {
      if i >= 1 { assert Joined(next, prev, cyc[i - 1], cyc[Following(n, i - 1)]); }
    }
  }

  /** The cycle with entry `k` moved behind the head. */
  function Front(cyc: seq<nat>, k: nat): seq<nat>
    requires k < |cyc|
  {
    seq(|cyc|, i requires 0 <= i < |cyc| => cyc[Source(k, i)])
  }

  function Source(k: nat, i: nat): nat { if i == 0 then 0 else if i == 1 then k else if i <= k then i - 1 else i }

  /** Taking a buffer out of the ring and putting it back in front. */
  lemma FrontRing(next: seq<nat>, prev: seq<nat>, cyc: seq<nat>, k: nat)
    requires Ring(next, prev, cyc) && 0 < k < |cyc|
    ensures var b := cyc[k];
      && b < |next| && next[b] < |next| && prev[b] < |prev| && b > 0
      && var (n1, p1) := Unlinked(next, prev, b);
      && n1[0] < |n1| && Ring(Pushed(n1, p1, b).0, Pushed(n1, p1, b).1, Front(cyc, k))
  {
    var b := cyc[k];
    UnlinkedRing(next, prev, cyc, k);
    var (n1, p1) := Unlinked(next, prev, b);
    PushedRing(n1, p1, Without(cyc, k), b);
    assert [0, b] + Without(cyc, k)[1..] == Front(cyc, k);
  }
}
