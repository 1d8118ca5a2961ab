/** shared/mempool/generic_fifo_set.go: a queue without duplicate indices that forgets its oldest items. */
module FifoSet {
  import opened Common

  ghost function Indices<I, D>(indexer: D -> I, queue: seq<D>): set<I> {
    set d | d in queue :: indexer(d)
  }

  ghost predicate DistinctIndices<I, D>(indexer: D -> I, queue: seq<D>) {
    forall i, j :: 0 <= i < j < |queue| ==> indexer(queue[i]) != indexer(queue[j])
  }

  /** Appending to a full queue drops its front. */
  function Appended<D>(capacity: nat, queue: seq<D>, item: D): seq<D> {
    var q := queue + [item];
    if |q| > capacity then q[1..] else q
  }

  lemma AppendKeepsSet<I, D>(indexer: D -> I, capacity: nat, queue: seq<D>, item: D)
    requires DistinctIndices(indexer, queue) && indexer(item) !in Indices(indexer, queue)
    ensures var q := queue + [item];
      && DistinctIndices(indexer, q) && Indices(indexer, q) == Indices(indexer, queue) + {indexer(item)}
      && DistinctIndices(indexer, q[1..]) && Indices(indexer, q[1..]) == Indices(indexer, q) - {indexer(q[0])}
  {
    var q := queue + [item];
    assert forall i :: 0 <= i < |queue| ==> queue[i] in queue;
    DropFront(indexer, q);
  }

  lemma DropFront<I, D>(indexer: D -> I, q: seq<D>)
    requires DistinctIndices(indexer, q) && q != []
    ensures DistinctIndices(indexer, q[1..]) && Indices(indexer, q[1..]) == Indices(indexer, q) - {indexer(q[0])}
  {
    assert q == [q[0]] + q[1..];
    forall d | d in q[1..] ensures indexer(d) != indexer(q[0]) {
      var i :| 0 <= i < |q[1..]| && q[1..][i] == d;
    }
  }

  lemma DropAt<I, D>(indexer: D -> I, q: seq<D>, k: nat)
    requires DistinctIndices(indexer, q) && k < |q|
    ensures var r := q[..k] + q[k + 1..];
      DistinctIndices(indexer, r) && Indices(indexer, r) == Indices(indexer, q) - {indexer(q[k])}
  {
    var r := q[..k] + q[k + 1..];
    assert q == q[..k] + [q[k]] + q[k + 1..];
    forall d | d in r ensures indexer(d) != indexer(q[k]) {
      var i :| 0 <= i < |r| && r[i] == d;
      assert r[i] == q[if i < k then i else i + 1];
    }
  }

  /** The queue without the item of an index, order kept. */
  function Without<I(==), D>(indexer: D -> I, q: seq<D>, index: I): seq<D> {
    if q == [] then [] else if indexer(q[0]) == index then q[1..] else [q[0]] + Without(indexer, q[1..], index)
  }

  lemma {:induction false} WithoutNone<I, D>(indexer: D -> I, q: seq<D>, index: I)
    requires forall d :: d in q ==> indexer(d) != index
    ensures Without(indexer, q, index) == q
  {
    if q != [] {
      WithoutNone(indexer, q[1..], index);
    }
  }

  lemma {:induction false} WithoutAt<I, D>(indexer: D -> I, q: seq<D>, index: I, k: nat)
    requires k < |q| && indexer(q[k]) == index && forall j :: 0 <= j < k ==> indexer(q[j]) != index
    ensures Without(indexer, q, index) == q[..k] + q[k + 1..]
  {
    if k > 0 {
      WithoutAt(indexer, q[1..], index, k - 1);
      assert q[1..][..k - 1] == q[1..k] && q[1..][k..] == q[k + 1..];
    }
  }

  class GenericFifoSet<I(==), D> {
    const indexer: D -> I
    const capacity: nat
    var indices: set<I>
    var queue: seq<D>

    /** The set is the indices of the queue, none of them twice, and the queue is within its capacity. */
    ghost predicate Valid()
      reads this
    {
      indices == Indices(indexer, queue) && DistinctIndices(indexer, queue) && |queue| <= capacity
    }

    constructor (capacity: nat, indexer: D -> I)
      ensures Valid() && queue == [] && this.capacity == capacity && this.indexer == indexer
    {
      this.capacity, this.indexer := capacity, indexer;
      indices, queue := {}, [];
    }

    method Push(item: D) returns (ok: bool)
      requires Valid()
      modifies this
      ensures Valid()
      ensures ok <==> indexer(item) !in old(indices)
      ensures queue == if ok then Appended(capacity, old(queue), item) else old(queue)
    {
      var index := indexer(item);
      if index in indices { return false; }
      AppendKeepsSet(indexer, capacity, queue, item);
      indices := indices + {index};
      queue := queue + [item];
      if |queue| > capacity {
        indices := indices - {indexer(queue[0])};
        queue := queue[1..];
      }
      return true;
    }

    method Pop() returns (item: Option<D>)
      requires Valid()
      modifies this
      ensures Valid()
      ensures item.None? <==> old(queue) == []
      ensures if item.None? then queue == old(queue) else old(queue) == [item.value] + queue
    {
      if queue == [] { return None; }
      DropFront(indexer, queue);
      var front := queue[0];
      indices := indices - {indexer(front)};
      queue := queue[1..];
      return Some(front);
    }

    method Remove(item: D)
      requires Valid()
      modifies this
      ensures Valid() && indices == old(indices) - {indexer(item)}
      ensures queue == Without(indexer, old(queue), indexer(item))
    {
      var index := indexer(item);
      if index in indices {
        ghost var found :| found in queue && indexer(found) == index;
        var k := 0;
        while indexer(queue[k]) != index
          invariant 0 <= k < |queue|
          invariant found in queue[k..]
          invariant forall j :: 0 <= j < k ==> indexer(queue[j]) != index
          decreases |queue| - k
        {
          assert queue[k..] == [queue[k]] + queue[k + 1..];
          k := k + 1;
        }
        DropAt(indexer, queue, k);
        WithoutAt(indexer, queue, index, k);
        indices := indices - {index};
        queue := queue[..k] + queue[k + 1..];
      } else {
        assert forall d :: d in queue ==> indexer(d) in indices;
        WithoutNone(indexer, queue, index);
      }
    }

    method Get(index: I) returns (item: Option<D>)
      requires Valid()
      ensures item.None? <==> index !in indices
      ensures item.Some? ==> item.value in queue && indexer(item.value) == index
    {
      for k := 0 to |queue|
        invariant forall j :: 0 <= j < k ==> indexer(queue[j]) != index
      {
        if indexer(queue[k]) == index { return Some(queue[k]); }
      }
      return None;
    }

    method Contains(item: D) returns (found: bool)
      requires Valid()
      ensures found <==> exists d :: d in queue && indexer(d) == indexer(item)
    {
      found := indexer(item) in indices;
    }

    method Clear()
      modifies this
      ensures Valid() && queue == []
    {
      indices, queue := {}, [];
    }
  }
}
