/**
 * The two queues of the priority-flood traversals. Entries are
 * (x, y, z) triples: a cell and the priority it was queued with. The open
 * queue hands out an entry of least z (its comparator ranks a lower z as
 * the higher priority); which of several equal entries comes first is left
 * open. The pit queue is first-in first-out.
 */
module FloodQueues {

  /** A queued cell (x, y) with its priority z. */
  datatype Entry = Entry(x: int, y: int, z: int)

  /** The position of an entry of least priority value: the one the open queue dequeues next. */
  function LowestIndex(q: seq<Entry>): (i: nat)
    requires |q| > 0
    ensures i < |q|
    ensures forall j :: 0 <= j < |q| ==> q[i].z <= q[j].z
  {
    if |q| == 1 then 0
    else
      var k := LowestIndex(q[1..]);
      assert forall j :: 1 <= j < |q| ==> q[j] == q[1..][j - 1];
      if q[0].z <= q[1 + k].z then 0 else 1 + k
  }

  /** The queue without its entry at position i. */
  function RemoveAt(q: seq<Entry>, i: nat): (r: seq<Entry>)
    requires i < |q|
    ensures |r| == |q| - 1
    ensures multiset(r) + multiset{q[i]} == multiset(q)
  {
    assert q == q[..i] + [q[i]] + q[i + 1..];
    q[..i] + q[i + 1..]
  }

  /** The cell (x, y) is waiting in queue q. */
  predicate Queued(q: seq<Entry>, x: int, y: int) {
    exists k :: 0 <= k < |q| && q[k].x == x && q[k].y == y
  }

  /** Removing the entry of another cell keeps (x, y) waiting. */
  lemma QueuedAfterRemove(q: seq<Entry>, i: nat, x: int, y: int)
    requires i < |q| && Queued(q, x, y) && (q[i].x != x || q[i].y != y)
    ensures Queued(RemoveAt(q, i), x, y)
  {
    var k :| 0 <= k < |q| && q[k].x == x && q[k].y == y;
    var r := RemoveAt(q, i);
    if k < i {
      assert r[k] == q[k];
    } else {
      assert r[k - 1] == q[k];
    }
  }

  /** Dequeuing the head of a FIFO queue keeps every other cell waiting. */
  lemma QueuedAfterDequeue(q: seq<Entry>, x: int, y: int)
    requires |q| > 0 && Queued(q, x, y) && (q[0].x != x || q[0].y != y)
    ensures Queued(q[1..], x, y)
  {
    var k :| 0 <= k < |q| && q[k].x == x && q[k].y == y;
    assert q[1..][k - 1] == q[k];
  }

  /** Appending an entry keeps every waiting cell waiting, and the new cell waits too. */
  lemma QueuedAfterAppend(q: seq<Entry>, e: Entry, x: int, y: int)
    requires Queued(q, x, y) || (e.x == x && e.y == y)
    ensures Queued(q + [e], x, y)
  {
    if e.x == x && e.y == y {
      assert (q + [e])[|q|] == e;
    } else {
      var k :| 0 <= k < |q| && q[k].x == x && q[k].y == y;
      assert (q + [e])[k] == q[k];
    }
  }
}
