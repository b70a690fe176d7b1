/**
 * The trace-buffer pool of atomic-cache.cpp: NUMBER_OF_CACHES byte buffers of CACHE_SIZE bytes,
 * each cut into slots of max + 4 bytes, with a reservation counter and a completion counter per
 * buffer and the index of the buffer that takes new reservations.
 *
 * Each fetch_add is one method call (Reserve, Complete), and so is the slot copy (WriteSlot), the
 * flush of a buffer under the writer lock (WriteCache), the counter reset after it (Reset) and the
 * publication of the next buffer (Advance). An interleaving of producers is a sequence of these
 * calls; Attempt is one pass of storeDataChunk's retry loop.
 */
module AtomicCache {
  import opened Config
  import opened Bytes
  import opened CacheLayout

  /** The output file descriptor: everything written to it, in order. */
  class Sink {
    const descriptor: int
    var written: seq<byte>

    constructor (descriptor: int)
      ensures this.descriptor == descriptor && written == []
    {
      this.descriptor := descriptor;
      written := [];
    }
  }

  class Pool {
    /** dataCache[NUMBER_OF_CACHES][CACHE_SIZE] */
    const data: array2<byte>
    /** indexStoreing: slots reserved in each buffer */
    const reserved: array<nat>
    /** indexStored: slots completed in each buffer */
    const completed: array<nat>
    /** cacheActualNumber: the buffer that takes new reservations */
    var active: nat
    /** maxDataChunkSize_g */
    const maxChunk: nat
    /** cacheIndexCount */
    const slotCount: nat
    /** fileDescriptor */
    const sink: Sink
    /** The contents of data, buffer by buffer. */
    ghost var rows: seq<seq<byte>>

    /** The fixed dimensions of the pool. */
    ghost predicate Geometry() {
      && data.Length0 == NumberOfCaches && data.Length1 == CacheSize
      && reserved.Length == NumberOfCaches && completed.Length == NumberOfCaches
      && reserved != completed
      && 0 < maxChunk && slotCount == SlotCount(maxChunk) && 0 < slotCount
    }

    /** Shape of the pool, and every slot's prefix stays within the largest chunk. */
    ghost predicate Shaped()
      reads this
    {
      && Geometry() && active < NumberOfCaches
      && |rows| == NumberOfCaches
      && (forall c :: 0 <= c < NumberOfCaches ==>
            |rows[c]| == CacheSize && SlotsWellFormed(rows[c], slotCount, maxChunk))
    }

    /** data holds what rows says. */
    ghost predicate Storage()
      reads this, data
    {
      Shaped() && forall c, j :: 0 <= c < NumberOfCaches && 0 <= j < CacheSize ==> data[c, j] == rows[c][j]
    }

    /** No buffer is counted complete past its last slot. */
    ghost predicate Counted()
      reads this, completed
    {
      Shaped() && forall c :: 0 <= c < NumberOfCaches ==> completed[c] <= slotCount
    }

    /** The object invariant: a slot is completed only after it was reserved. */
    ghost predicate Valid()
      reads this, data, reserved, completed
    {
      Storage() && Counted() && forall c :: 0 <= c < NumberOfCaches ==> completed[c] <= reserved[c]
    }

    /** The bytes of buffer c. */
    function Row(c: nat): (r: seq<byte>)
      requires Storage() && c < NumberOfCaches
      reads this, data
      ensures r == rows[c]
    {
      var a := data;
      var r := seq(a.Length1, j requires 0 <= j < a.Length1 && c < a.Length0 reads a => a[c, j]);
      assert |r| == |rows[c]| && forall j :: 0 <= j < |r| ==> r[j] == rows[c][j];
      r
    }

    /** The chunks buffer c holds and has not yet written out: its completed slots, in slot order. */
    ghost function Pending(c: nat): seq<seq<byte>>
      requires Counted() && c < NumberOfCaches
      reads this, completed
    {
      Payloads(rows[c], completed[c], maxChunk)
    }

    /** What deinitAtomicCache writes out: buffers 0..k with completed slots, in buffer order. */
    ghost function Leftover(k: nat): seq<byte>
      requires Counted() && k <= NumberOfCaches
      reads this, completed
    {
      if k == 0 then []
      else Leftover(k - 1) + (if completed[k - 1] > 0 then Drain(rows[k - 1], completed[k - 1], maxChunk) else [])
    }

    /**
     * No store is in progress (every reserved slot is completed) and only the active buffer
     * holds chunks: the state a single producer always leaves behind.
     */
    ghost predicate Idle()
      reads this, data, reserved, completed
    {
      Valid() && forall c :: 0 <= c < NumberOfCaches ==>
        reserved[c] == completed[c] < slotCount && (c != active ==> completed[c] == 0)
    }

    /** In an Idle pool the next reservation lands inside the active buffer, right after its pending chunks. */
    lemma IdleReservesInside()
      requires Idle()
      ensures reserved[active] < slotCount && reserved[active] == |Pending(active)|
    {
    }

    constructor Init(writeFileDescriptor: Sink, maxDataChunkSize: nat)
      requires writeFileDescriptor.descriptor > 0
      requires maxDataChunkSize > 0
      requires Stride(maxDataChunkSize) <= CacheSize
      ensures Idle() && fresh(data) && fresh(reserved) && fresh(completed)
      ensures sink == writeFileDescriptor && maxChunk == maxDataChunkSize
      ensures slotCount == SlotCount(maxDataChunkSize)
      ensures forall c, j :: 0 <= c < NumberOfCaches && 0 <= j < CacheSize ==> data[c, j] == 0
      ensures forall c :: 0 <= c < NumberOfCaches ==> reserved[c] == 0 && completed[c] == 0
      ensures active == 0
      ensures forall c :: 0 <= c < NumberOfCaches ==> Pending(c) == []
    {
      var cache := new byte[NumberOfCaches, CacheSize];
      var storing := new nat[NumberOfCaches];
      var stored := new nat[NumberOfCaches];
      // every byte of every buffer to 0
      for c := 0 to NumberOfCaches
        modifies cache
        invariant forall d, j :: 0 <= d < c && 0 <= j < CacheSize ==> cache[d, j] == 0
      {
        for j := 0 to CacheSize
          invariant forall d, i :: 0 <= d < c && 0 <= i < CacheSize ==> cache[d, i] == 0
          invariant forall i :: 0 <= i < j ==> cache[c, i] == 0
        {
          cache[c, j] := 0;
        }
      }
      // both counters of every buffer to 0
      for c := 0 to NumberOfCaches
        modifies storing, stored
        invariant forall d :: 0 <= d < c ==> storing[d] == 0 && stored[d] == 0
      {
        storing[c] := 0;
        stored[c] := 0;
      }
      sink := writeFileDescriptor;
      maxChunk := maxDataChunkSize;
      slotCount := SlotCount(maxDataChunkSize);
      data, reserved, completed := cache, storing, stored;
      active := 0;
      var zero := seq(CacheSize, _ => 0 as byte);
      rows := seq(NumberOfCaches, _ => zero);
      new;
      ZeroRowWellFormed(zero, slotCount, maxChunk);
    }

    /** indexStoreing[c].fetch_add(1): claim the next slot index of buffer c. */
    method Reserve(c: nat) returns (index: nat)
      requires Valid() && c < NumberOfCaches
      modifies reserved
      ensures Valid()
      ensures index == old(reserved[c]) && reserved[c] == index + 1
      ensures forall d :: 0 <= d < NumberOfCaches && d != c ==> reserved[d] == old(reserved[d])
    {
      index := reserved[c];
      reserved[c] := index + 1;
    }

    /** Copy the length prefix and the chunk into slot i of buffer c. */
    method WriteSlot(c: nat, i: nat, chunk: seq<byte>)
      requires Valid() && c < NumberOfCaches && i < slotCount
      requires 0 < |chunk| <= maxChunk
      modifies this`rows, data
      ensures Valid()
      ensures SlotOffset(i, maxChunk) + |SlotImage(chunk)| <= CacheSize
      ensures rows == old(rows)[c := WriteAt(old(rows[c]), SlotOffset(i, maxChunk), SlotImage(chunk))]
    {
      ghost var row := rows[c];
      SlotWithin(i, slotCount, maxChunk);
      WriteSlotEffect(row, slotCount, i, chunk, maxChunk);
      var off := i * (maxChunk + 4);
      var bytes := SlotImage(chunk);
      assert off + |bytes| <= CacheSize;
      // *chunkSizePointer = chunkSize (bytes 0..4 of the image), then the memcpy of the chunk
      for j := 0 to |bytes|
        modifies data
        invariant forall k :: 0 <= k < CacheSize ==>
          data[c, k] == if off <= k < off + j then bytes[k - off] else row[k]
        invariant forall d, k :: 0 <= d < NumberOfCaches && d != c && 0 <= k < CacheSize ==>
          data[d, k] == rows[d][k]
      {
        data[c, off + j] := bytes[j];
      }
      ghost var row' := WriteAt(row, off, bytes);
      assert |row'| == CacheSize;
      rows := rows[c := row'];
      forall d, k | 0 <= d < NumberOfCaches && 0 <= k < CacheSize
        ensures data[d, k] == rows[d][k]
      {
      }
    }

    /**
     * writeCache: send slots 0..n of buffer c to the file, each as the number of bytes its
     * prefix records, read from just after the prefix.
     */
    method WriteCache(c: nat, n: nat)
      requires Storage() && c < NumberOfCaches && n <= slotCount
      modifies sink
      ensures sink.written == old(sink.written) + Drain(rows[c], n, maxChunk)
    {
      var row := Row(c);
      assert SlotsWellFormed(row, n, maxChunk);
      for i := 0 to n
        invariant sink.written == old(sink.written) + Drain(row, i, maxChunk)
      {
        var realCacheIndex := i * (maxChunk + PrefixSize);
        DrainStep(row, i, realCacheIndex, maxChunk);
        var chunkSize := DecodeLE(row[realCacheIndex..realCacheIndex + PrefixSize]);
        sink.written := sink.written + row[realCacheIndex + PrefixSize..realCacheIndex + PrefixSize + chunkSize];
      }
    }

    /**
     * indexStored[c].fetch_add(1) by a producer holding a written slot of c that is not yet counted
     * (so fewer slots are completed than reserved, and fewer than slotCount). `last` says that it
     * completed the buffer's last slot; that producer goes on to WriteCache and Reset.
     */
    method Complete(c: nat) returns (last: bool)
      requires Valid() && c < NumberOfCaches
      requires completed[c] < reserved[c] && completed[c] < slotCount
      modifies completed
      ensures Valid()
      ensures last <==> old(completed[c]) == slotCount - 1
      ensures completed[c] == old(completed[c]) + 1
      ensures forall d :: 0 <= d < NumberOfCaches && d != c ==> completed[d] == old(completed[d])
    {
      var before := completed[c];
      completed[c] := before + 1;
      last := before == slotCount - 1;
    }

    /** indexStored[c] = 0 and indexStoreing[c] = 0, after the buffer was written out. */
    method Reset(c: nat)
      requires Valid() && c < NumberOfCaches
      modifies reserved, completed
      ensures Valid() && completed[c] == 0 && reserved[c] == 0
      ensures forall d :: 0 <= d < NumberOfCaches && d != c ==>
        completed[d] == old(completed[d]) && reserved[d] == old(reserved[d])
    {
      completed[c] := 0;
      reserved[c] := 0;
    }

    /**
     * The producer that reserved index slotCount publishes the next buffer as active. The
     * source spins until that buffer's reservation counter reads 0; here that is required.
     */
    method Advance(c: nat)
      requires Valid() && c < NumberOfCaches
      requires reserved[NextCache(c)] == 0
      modifies this`active
      ensures Valid() && active == NextCache(c)
    {
      var nextCacheNumber := NextCache(c);
      active := nextCacheNumber;
    }

    /**
     * One pass of storeDataChunk's retry loop: read the active buffer, reserve a slot in it,
     * and then store and complete (index < slotCount), advance the active buffer
     * (index == slotCount), or do nothing more (index > slotCount). `done` says whether the
     * chunk was stored; otherwise the caller retries.
     */
    method Attempt(chunk: seq<byte>) returns (done: bool, c: nat, index: nat)
      requires Valid() && 0 < |chunk| <= maxChunk
      requires reserved[active] == slotCount ==> reserved[NextCache(active)] == 0
      modifies this`active, this`rows, sink, data, reserved, completed
      ensures Valid()
      ensures c == old(active) && index == old(reserved[c])
      ensures done <==> index < slotCount
      ensures active != old(active) <==> index == slotCount
      ensures index == slotCount ==> active == NextCache(c)
      ensures forall d :: 0 <= d < NumberOfCaches && d != c ==>
        rows[d] == old(rows[d]) && reserved[d] == old(reserved[d]) && completed[d] == old(completed[d])
      ensures !done ==>
        && rows == old(rows) && completed[c] == old(completed[c])
        && reserved[c] == old(reserved[c]) + 1 && sink.written == old(sink.written)
      ensures done ==>
        && SlotOffset(index, maxChunk) + |SlotImage(chunk)| <= CacheSize
        && rows[c] == WriteAt(old(rows[c]), SlotOffset(index, maxChunk), SlotImage(chunk))
      ensures done && old(completed[c]) == slotCount - 1 ==>
        && sink.written == old(sink.written) + Drain(rows[c], slotCount, maxChunk)
        && completed[c] == 0 && reserved[c] == 0
      ensures done && old(completed[c]) != slotCount - 1 ==>
        && sink.written == old(sink.written)
        && completed[c] == old(completed[c]) + 1 && reserved[c] == old(reserved[c]) + 1
    {
      c := active;
      index := Reserve(c);
      done := index < slotCount;
      if done {
        WriteSlot(c, index, chunk);
        var last := Complete(c);
        if last {
          WriteCache(c, slotCount);
          Reset(c);
        }
      } else if index == slotCount {
        Advance(c);
      }
    }

    /**
     * storeDataChunk for a single producer. From an Idle pool the first pass of the retry loop
     * always stores the chunk (the rotation branch is never reached), the active buffer never
     * changes, and the pool is Idle again. The chunk is appended to the active buffer's pending
     * chunks, and the producer that fills the last slot writes all of them, this one last.
     */
    method StoreDataChunk(chunk: seq<byte>) returns (flushed: bool)
      requires Idle() && 0 < |chunk| <= maxChunk
      modifies this`active, this`rows, sink, data, reserved, completed
      ensures Idle() && active == old(active)
      ensures flushed <==> |old(Pending(active))| == slotCount - 1
      ensures Pending(active) == if flushed then [] else old(Pending(active)) + [chunk]
      ensures sink.written == if flushed then old(sink.written) + Flatten(old(Pending(active)) + [chunk])
                              else old(sink.written)
      ensures sink.written + Flatten(Pending(active)) == old(sink.written) + Flatten(old(Pending(active))) + chunk
    {
      ghost var a := active;
      ghost var before := Pending(a);
      IdleReservesInside();
      WriteSlotAppends(rows[a], slotCount, completed[a], chunk, maxChunk);
      var done, c, index := Attempt(chunk);
      flushed := index == slotCount - 1;
      assert Idle() by {
        forall d | 0 <= d < NumberOfCaches
          ensures reserved[d] == completed[d] < slotCount && (d != active ==> completed[d] == 0)
        {
        }
      }
      if flushed {
        assert Pending(a) == [];
      } else {
        assert Pending(a) == before + [chunk];
      }
      StoreConserves(old(sink.written), sink.written, before, Pending(a), chunk, flushed);
    }

    /** deinitAtomicCache: write out every buffer with completed slots, in buffer order. */
    method Deinit()
      requires Valid()
      modifies sink
      ensures sink.written == old(sink.written) + Leftover(NumberOfCaches)
    {
      for i := 0 to NumberOfCaches
        invariant sink.written == old(sink.written) + Leftover(i)
      {
        if completed[i] > 0 {
          WriteCache(i, completed[i]);
        }
      }
    }

    /** In an Idle pool, deinitialisation writes exactly the active buffer's pending chunks. */
    lemma {:induction false} IdleLeftover(k: nat)
      requires Idle() && k <= NumberOfCaches
      ensures Leftover(k) == if active < k then Flatten(Pending(active)) else []
    {
      if k > 0 {
        IdleLeftover(k - 1);
        if k - 1 == active && completed[active] == 0 {
          assert Pending(active) == [];
        }
      }
    }
  }
}
