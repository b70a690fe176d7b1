/**
 * Runs of producers on the pool, written as sequences of its operations. A single producer that
 * fills a buffer sends exactly its chunks to the file; and when stores overlap (sequences of the
 * atomic steps), slots follow reservation order whatever the order of completion, and among the
 * producers that overshoot a full buffer only the first one advances.
 */
module Interleavings {
  import opened Config
  import opened Bytes
  import opened CacheLayout
  import opened AtomicCache

  /**
   * One producer stores slotCount chunks into an empty active buffer: the last store flushes it,
   * and the file grows by exactly the chunks, in the order they were stored.
   */
  method FillBuffer(pool: Pool, chunks: seq<seq<byte>>)
    requires pool.Idle() && pool.Pending(pool.active) == [] && |chunks| == pool.slotCount
    requires forall i :: 0 <= i < |chunks| ==> 0 < |chunks[i]| <= pool.maxChunk
    modifies pool`active, pool`rows, pool.sink, pool.data, pool.reserved, pool.completed
    ensures pool.Idle() && pool.active == old(pool.active)
    ensures pool.sink.written == old(pool.sink.written) + Flatten(chunks)
    ensures pool.Pending(pool.active) == []
  {
    ghost var a, out := pool.active, pool.sink.written;
    for i := 0 to |chunks|
      invariant pool.Idle() && pool.active == a
      invariant i < |chunks| ==> pool.sink.written == out && pool.Pending(a) == chunks[..i]
      invariant i == |chunks| ==> pool.sink.written == out + Flatten(chunks) && pool.Pending(a) == []
    {
      ghost var before := pool.Pending(a);
      var flushed := pool.StoreDataChunk(chunks[i]);
      assert before + [chunks[i]] == chunks[..i + 1];
      if flushed {
        assert chunks[..i + 1] == chunks;
      }
    }
  }

  /**
   * Producers A and B store into the active buffer; A reserves first, but B writes and completes
   * before A writes. The buffer still holds A's chunk before B's, and if the two fill the buffer,
   * the completer (A) writes them out in that order.
   */
  method OutOfOrderCompletion(pool: Pool, xA: seq<byte>, xB: seq<byte>) returns (slotA: nat, slotB: nat)
    requires pool.Idle() && 0 < |xA| <= pool.maxChunk && 0 < |xB| <= pool.maxChunk
    requires |pool.Pending(pool.active)| + 2 <= pool.slotCount
    modifies pool`rows, pool.sink, pool.data, pool.reserved, pool.completed
    ensures slotA == |old(pool.Pending(pool.active))| && slotB == slotA + 1
    ensures pool.Idle() && pool.active == old(pool.active)
    ensures slotB + 1 < pool.slotCount ==>
      pool.sink.written == old(pool.sink.written)
      && pool.Pending(pool.active) == old(pool.Pending(pool.active)) + [xA, xB]
    ensures slotB + 1 == pool.slotCount ==>
      pool.sink.written == old(pool.sink.written) + Flatten(old(pool.Pending(pool.active)) + [xA, xB])
      && pool.Pending(pool.active) == []
  {
    var c := pool.active;
    ghost var n, max := pool.slotCount, pool.maxChunk;
    ghost var row0 := pool.rows[c];
    ghost var out0 := pool.sink.written;
    slotA := pool.Reserve(c);
    slotB := pool.Reserve(c);
    pool.WriteSlot(c, slotB, xB);
    var lastB := pool.Complete(c);
    pool.WriteSlot(c, slotA, xA);
    var lastA := pool.Complete(c);
    if lastA {
      pool.WriteCache(c, pool.slotCount);
      pool.Reset(c);
    }
    OutOfOrderAccounting(row0, pool.rows[c], n, slotA, xA, xB, max, out0, pool.sink.written);
    assert pool.Idle() by {
      forall d | 0 <= d < NumberOfCaches
        ensures pool.reserved[d] == pool.completed[d] < pool.slotCount && (d != pool.active ==> pool.completed[d] == 0)
      {
      }
    }
  }

  /**
   * Buffer c has every slot reserved and at least one still being written. Producers A and B both
   * read c as active and reserve in it: A obtains index slotCount and publishes the next buffer
   * once that one is free; B obtains slotCount + 1 and changes nothing but its own reservation.
   */
  method RotationRace(pool: Pool) returns (indexA: nat, indexB: nat)
    requires pool.Valid() && pool.reserved[pool.active] == pool.slotCount
    requires pool.reserved[NextCache(pool.active)] == 0
    modifies pool`active, pool.reserved
    ensures indexA == pool.slotCount && indexB == pool.slotCount + 1
    ensures pool.Valid() && pool.active == NextCache(old(pool.active))
    ensures pool.reserved[old(pool.active)] == old(pool.reserved[pool.active]) + 2
    ensures forall d :: 0 <= d < NumberOfCaches && d != old(pool.active) ==> pool.reserved[d] == old(pool.reserved[d])
  {
    var c := pool.active;
    indexA := pool.Reserve(c);
    indexB := pool.Reserve(c);
    // B: indexB > slotCount, so it retries without touching anything else.
    // A: indexA == slotCount and the next buffer is free, so it advances.
    pool.Advance(c);
  }
}
