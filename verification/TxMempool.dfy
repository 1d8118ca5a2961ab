/** utility/types/tx_fifo_mempool.go: the transaction pool and the counters its callbacks keep. */
module TxMempool {
  import opened Common
  import opened FifoSet

  const TWO_32 := 0x1_0000_0000

  lemma {:induction false} SizeAppend(txs: seq<Raw>, tx: Raw)
    ensures Size(txs + [tx]) == Size(txs) + |tx|
  {
    if txs != [] {
      assert (txs + [tx])[1..] == txs[1..] + [tx];
      SizeAppend(txs[1..], tx);
    }
  }

  lemma CountAdd(a: nat, x: int)
    ensures (a % TWO_32 + x) % TWO_32 == (a + x) % TWO_32
  {
  }

  lemma BytesAdd(a: nat, x: int)
    ensures (a % TWO_64 + x) % TWO_64 == (a + x) % TWO_64
  {
  }

  /** What the byte counter says after it was told of `pushed` twice while `evicted` left. */
  lemma EvictLaw(bytes: nat, before: nat, pushed: nat, evicted: nat)
    requires bytes < TWO_64
    ensures ((bytes + pushed) % TWO_64 - pushed) % TWO_64 == bytes
    ensures before % TWO_64 == (before + pushed - evicted) % TWO_64 <==> (evicted - pushed) % TWO_64 == 0
  {
    var q, r := (evicted - pushed) / TWO_64, (evicted - pushed) % TWO_64;
    assert evicted - pushed == q * TWO_64 + r;
  }

  class TxFifoMempool {
    const hash: Raw -> string
    const maxTxs: nat
    const maxTxsBytesTotal: nat
    var hashes: set<string>
    var queue: seq<Raw>
    var txCount: nat
    var txsBytesTotal: nat

    /** The counter of transactions is always right, modulo its width. */
    ghost predicate Valid()
      reads this
    {
      && hashes == Indices(hash, queue) && DistinctIndices(hash, queue)
      && txCount == |queue| % TWO_32 && txsBytesTotal < TWO_64
    }

    /** The counter of bytes is right. */
    ghost predicate Accurate()
      reads this
    {
      txsBytesTotal == Size(queue) % TWO_64
    }

    /** Within both limits, and no counter has wrapped. */
    ghost predicate Fits()
      reads this
    {
      && |queue| <= maxTxs < TWO_32 - 1 && Size(queue) <= maxTxsBytesTotal < TWO_64 && Accurate()
    }

    /** One more transaction does not overflow the pool. */
    ghost predicate HasRoom(tx: Raw)
      reads this
    {
      && |queue| + 1 <= maxTxs < TWO_32 - 1 && Size(queue) + |tx| <= maxTxsBytesTotal < TWO_64 && Accurate()
    }

    constructor (hash: Raw -> string, maxTxs: nat, maxTxsBytesTotal: nat)
      requires maxTxs < TWO_32 && maxTxsBytesTotal < TWO_64
      ensures Valid() && Accurate() && queue == []
      ensures this.hash == hash && this.maxTxs == maxTxs && this.maxTxsBytesTotal == maxTxsBytesTotal
    {
      this.hash, this.maxTxs, this.maxTxsBytesTotal := hash, maxTxs, maxTxsBytesTotal;
      hashes, queue, txCount, txsBytesTotal := {}, [], 0, 0;
    }

    method OnAdd(item: Raw)
      modifies this`txCount, this`txsBytesTotal
      ensures txCount == (old(txCount) + 1) % TWO_32 && txsBytesTotal == (old(txsBytesTotal) + |item|) % TWO_64
    {
      txCount := (txCount + 1) % TWO_32;
      txsBytesTotal := (txsBytesTotal + |item|) % TWO_64;
    }

    method OnRemove(item: Raw)
      modifies this`txCount, this`txsBytesTotal
      ensures txCount == (old(txCount) - 1) % TWO_32 && txsBytesTotal == (old(txsBytesTotal) - |item|) % TWO_64
    {
      txCount := (txCount - 1) % TWO_32;
      txsBytesTotal := (txsBytesTotal - |item|) % TWO_64;
    }

    /**
     * A pool that overflows forgets its oldest transaction, but the callback is told of the new one:
     * an accurate byte counter stays accurate exactly when the two have the same length.
     */
    method AddTx(tx: Raw) returns (ok: bool)
      requires Valid()
      modifies this
      ensures Valid() && (ok <==> hash(tx) !in old(hashes))
      ensures !ok ==> queue == old(queue) && txsBytesTotal == old(txsBytesTotal)
      ensures ok ==>
        var full := (old(txCount) + 1) % TWO_32 > maxTxs || (old(txsBytesTotal) + |tx|) % TWO_64 > maxTxsBytesTotal;
        queue == if full then (old(queue) + [tx])[1..] else old(queue) + [tx]
      ensures old(|queue|) <= maxTxs < TWO_32 - 1 ==> |queue| <= maxTxs
      ensures ok && queue == old(queue) + [tx] && old(Accurate()) ==> Accurate()
      ensures ok && queue == (old(queue) + [tx])[1..] && old(Accurate()) ==>
                (Accurate() <==> (|(old(queue) + [tx])[0]| - |tx|) % TWO_64 == 0)
      ensures ok && old(HasRoom(tx)) ==> queue == old(queue) + [tx] && Fits()
    {
      hide DistinctIndices;
      hide Indices;
      hide Size;
      var index := hash(tx);
      if index in hashes { return false; }
      AppendKeepsSet(hash, 0, queue, tx);
      SizeAppend(queue, tx);
      CountAdd(|queue|, 1);
      BytesAdd(Size(queue), |tx|);
      hashes := hashes + {index};
      queue := queue + [tx];
      OnAdd(tx);
      ok := true;
      if txCount > maxTxs || txsBytesTotal > maxTxsBytesTotal {
        EvictedBytes(old(queue), tx, old(txsBytesTotal));
        Evict(tx);
      }
    }

    /** The overflow branch of a push. */
    method Evict(pushed: Raw)
      requires Valid() && queue != []
      modifies this
      ensures Valid() && queue == old(queue)[1..] && txsBytesTotal == (old(txsBytesTotal) - |pushed|) % TWO_64
    {
      hide DistinctIndices;
      hide Indices;
      DropFront(hash, queue);
      CountAdd(|queue|, -1);
      hashes := hashes - {hash(queue[0])};
      queue := queue[1..];
      OnRemove(pushed);
    }

    /** Counters before and after an eviction. */
    lemma EvictedBytes(before: seq<Raw>, pushed: Raw, bytes: nat)
      requires bytes < TWO_64
      ensures var q := before + [pushed];
              (bytes == Size(before) % TWO_64) ==>
                (((bytes + |pushed|) % TWO_64 - |pushed|) % TWO_64 == Size(q[1..]) % TWO_64 <==> (|q[0]| - |pushed|) % TWO_64 == 0)
    {
      var q := before + [pushed];
      SizeAppend(before, pushed);
      assert Size(q) == |q[0]| + Size(q[1..]);
      EvictLaw(bytes, Size(before), |pushed|, |q[0]|);
    }

    method PopTx() returns (tx: Option<Raw>)
      requires Valid()
      modifies this
      ensures Valid() && (tx.None? <==> old(queue) == [])
      ensures if tx.None? then queue == old(queue) else old(queue) == [tx.value] + queue
      ensures old(Accurate()) ==> Accurate()
      ensures txsBytesTotal == if tx.None? then old(txsBytesTotal) else (old(txsBytesTotal) - |tx.value|) % TWO_64
      ensures tx.Some? ==> hash(tx.value) !in hashes
      ensures tx.Some? && old(Fits()) ==> Fits() && HasRoom(tx.value)
    {
      if queue == [] { return None; }
      DropFront(hash, queue);
      CountAdd(|queue|, -1);
      BytesAdd(Size(queue), -|queue[0]|);
      var front := queue[0];
      hashes := hashes - {hash(front)};
      queue := queue[1..];
      OnRemove(front);
      return Some(front);
    }

    method Contains(hash: string) returns (found: bool)
      requires Valid()
      ensures found <==> exists tx :: tx in queue && this.hash(tx) == hash
    {
      found := hash in hashes;
    }

    method RemoveTx(tx: Raw)
      requires Valid()
      modifies this
      ensures Valid() && queue == Without(hash, old(queue), hash(tx)) && hashes == old(hashes) - {hash(tx)}
      ensures old(Accurate()) && tx in old(queue) ==> Accurate()
      ensures txsBytesTotal == if hash(tx) in old(hashes) then (old(txsBytesTotal) - |tx|) % TWO_64 else old(txsBytesTotal)
    {
      var index := hash(tx);
      if index in hashes {
        ghost var found :| found in queue && hash(found) == index;
        var k := 0;
        while hash(queue[k]) != index
          invariant 0 <= k < |queue|
          invariant found in queue[k..]
          invariant forall j :: 0 <= j < k ==> hash(queue[j]) != index
          decreases |queue| - k
        {
          assert queue[k..] == [queue[k]] + queue[k + 1..];
          k := k + 1;
        }
        RemoveAt(k, tx);
      } else {
        assert forall d :: d in queue ==> hash(d) in hashes;
        WithoutNone(hash, queue, index);
      }
    }

    method RemoveAt(k: nat, tx: Raw)
      requires Valid() && k < |queue| && hash(queue[k]) == hash(tx)
      requires forall j :: 0 <= j < k ==> hash(queue[j]) != hash(tx)
      modifies this
      ensures Valid() && queue == Without(hash, old(queue), hash(tx)) && hashes == old(hashes) - {hash(tx)}
      ensures old(Accurate()) && tx in old(queue) ==> Accurate()
      ensures txsBytesTotal == if hash(tx) in old(hashes) then (old(txsBytesTotal) - |tx|) % TWO_64 else old(txsBytesTotal)
    {
      assert tx in queue ==> queue[k] == tx by {
        if tx in queue {
          var j :| 0 <= j < |queue| && queue[j] == tx;
          assert j == k;
        }
      }
      hide DistinctIndices;
      hide Indices;
      hide Size;
      DropAt(hash, queue, k);
      WithoutAt(hash, queue, hash(tx), k);
      CountAdd(|queue|, -1);
      SizeWithout(queue, k);
      BytesAdd(Size(queue), -|tx|);
      hashes := hashes - {hash(tx)};
      queue := queue[..k] + queue[k + 1..];
      OnRemove(tx);
    }

    method Clear()
      modifies this
      ensures Valid() && Accurate() && queue == []
    {
      hashes, queue, txCount, txsBytesTotal := {}, [], 0, 0;
    }
  }

  lemma {:induction false} SizeWithout(txs: seq<Raw>, k: nat)
    requires k < |txs|
    ensures Size(txs[..k] + txs[k + 1..]) == Size(txs) - |txs[k]|
  {
    if k == 0 {
      assert txs[..k] + txs[k + 1..] == txs[1..];
    } else {
      assert (txs[..k] + txs[k + 1..])[1..] == txs[1..][..k - 1] + txs[1..][k..];
      SizeWithout(txs[1..], k - 1);
    }
  }
}
