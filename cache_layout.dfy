/**
 * The slot arithmetic of the trace-buffer pool, as pure functions over one buffer's bytes:
 * where slot i starts, what the writer reads back from it, how many slots a buffer holds,
 * and which buffer follows the active one.
 */
module CacheLayout {
  import opened Config
  import opened Bytes

  // ---------------------------------------------------------------------------------------
  // Slot geometry
  // ---------------------------------------------------------------------------------------

  /** Bytes taken by one slot: the largest chunk plus its length prefix. */
  function Stride(max: nat): nat {
    max + PrefixSize
  }

  /** Byte offset of slot i inside its buffer. */
  function SlotOffset(i: nat, max: nat): nat {
    i * Stride(max)
  }

  lemma SlotOffsetStep(i: nat, max: nat)
    ensures SlotOffset(i + 1, max) == SlotOffset(i, max) + Stride(max)
  {
    assert (i + 1) * Stride(max) == i * Stride(max) + Stride(max);
  }

  /** Distinct slots occupy disjoint byte ranges: slot i ends where a later slot k can begin at the earliest. */
  lemma {:induction false} SlotsOrdered(i: nat, k: nat, max: nat)
    requires i < k
    ensures SlotOffset(i, max) + Stride(max) <= SlotOffset(k, max)
    decreases k - i
  {
    SlotOffsetStep(i, max);
    if i + 1 < k {
      SlotsOrdered(i + 1, k, max);
      SlotOffsetStep(i + 1, max);
    }
  }

  /** Every one of the first n slots ends inside the first n strides. */
  lemma SlotWithin(i: nat, n: nat, max: nat)
    requires i < n
    ensures SlotOffset(i, max) + Stride(max) <= n * Stride(max)
  {
    SlotOffsetStep(i, max);
    if i + 1 < n {
      SlotsOrdered(i + 1, n, max);
      SlotOffsetStep(i + 1, max);
    }
    assert SlotOffset(n, max) == n * Stride(max);
  }

  // ---------------------------------------------------------------------------------------
  // Slot count: as written and as intended
  // ---------------------------------------------------------------------------------------

  /** The slot count exactly as initAtomicCache computes it: CACHE_SIZE / max + 4. */
  function SourceSlotCount(max: nat): nat
    requires max > 0
  {
    CacheSize / max + 4
  }

  /** For every admissible maximum, the slots line 88 creates do not fit in one buffer. */
  lemma SourceSlotCountOverflows(max: nat)
    requires max > 0
    ensures SourceSlotCount(max) * Stride(max) > CacheSize
  {
    var q, r := CacheSize / max, CacheSize % max;
    assert CacheSize == q * max + r && r < max;
    calc {
      SourceSlotCount(max) * Stride(max);
      (q + 4) * (max + 4);
      q * max + 4 * q + 4 * max + 16;
      CacheSize - r + 4 * q + 4 * max + 16;
    }
  }

  /** With the hooks' maximum on a 64-bit target (33 bytes) line 88 creates 19 slots of 37 bytes. */
  lemma SourceSlotCountExample()
    ensures SourceSlotCount(33) == 19 && SourceSlotCount(33) * Stride(33) == 703
  {
  }

  /** The slot count that tiles a buffer with whole slots, as the layout diagram draws it. */
  function SlotCount(max: nat): (r: nat)
    ensures r * Stride(max) <= CacheSize
    ensures CacheSize < (r + 1) * Stride(max)
    ensures Stride(max) <= CacheSize ==> r >= 1
  {
    var s := Stride(max);
    var r := CacheSize / s;
    assert CacheSize == r * s + CacheSize % s;
    assert (r + 1) * s == r * s + s;
    r
  }

  // ---------------------------------------------------------------------------------------
  // Writing and reading one slot
  // ---------------------------------------------------------------------------------------

  /** The buffer after copying bs to offset off (the memcpy of a slot write). */
  function WriteAt(row: seq<byte>, off: nat, bs: seq<byte>): (r: seq<byte>)
    requires off + |bs| <= |row|
    ensures |r| == |row|
    ensures forall j :: 0 <= j < |row| ==> r[j] == if off <= j < off + |bs| then bs[j - off] else row[j]
  {
    row[..off] + bs + row[off + |bs|..]
  }

  /** What a producer copies into its slot: the length prefix followed by the chunk. */
  function SlotImage(chunk: seq<byte>): (r: seq<byte>)
    requires |chunk| < Pow256(PrefixSize)
    ensures |r| == PrefixSize + |chunk| && DecodeLE(r[..PrefixSize]) == |chunk| && r[PrefixSize..] == chunk
  {
    Prefix(|chunk|) + chunk
  }

  /** The length recorded in the prefix at offset off. */
  function PrefixAt(row: seq<byte>, off: nat): nat
    requires off + PrefixSize <= |row|
  {
    DecodeLE(row[off..off + PrefixSize])
  }

  /** Slot i lies inside the buffer and its prefix names no more than max bytes. */
  predicate SlotWellFormed(row: seq<byte>, i: nat, max: nat) {
    SlotOffset(i, max) + Stride(max) <= |row| && PrefixAt(row, SlotOffset(i, max)) <= max
  }

  predicate SlotsWellFormed(row: seq<byte>, n: nat, max: nat) {
    forall i :: 0 <= i < n ==> SlotWellFormed(row, i, max)
  }

  /** The bytes writeCache writes for slot i: as many as its prefix says, right after the prefix. */
  function SlotPayload(row: seq<byte>, i: nat, max: nat): seq<byte>
    requires SlotWellFormed(row, i, max)
  {
    var off := SlotOffset(i, max);
    row[off + PrefixSize..off + PrefixSize + PrefixAt(row, off)]
  }

  /** The payloads of slots 0..n, in slot order. */
  function Payloads(row: seq<byte>, n: nat, max: nat): (r: seq<seq<byte>>)
    requires SlotsWellFormed(row, n, max)
    ensures |r| == n
  {
    if n == 0 then [] else Payloads(row, n - 1, max) + [SlotPayload(row, n - 1, max)]
  }

  /** Concatenation of a sequence of byte strings. */
  function Flatten(ss: seq<seq<byte>>): seq<byte> {
    if ss == [] then [] else Flatten(ss[..|ss| - 1]) + ss[|ss| - 1]
  }

  /** Everything writeCache(c, n) sends to the file: slots 0..n, in order. */
  function Drain(row: seq<byte>, n: nat, max: nat): seq<byte>
    requires SlotsWellFormed(row, n, max)
  {
    Flatten(Payloads(row, n, max))
  }

  lemma FlattenSnoc(ss: seq<seq<byte>>, s: seq<byte>)
    ensures Flatten(ss + [s]) == Flatten(ss) + s
  {
    assert (ss + [s])[..|ss|] == ss;
  }

  lemma {:induction false} FlattenAppend(a: seq<seq<byte>>, b: seq<seq<byte>>)
    ensures Flatten(a + b) == Flatten(a) + Flatten(b)
    decreases |b|
  {
    if b == [] {
      assert a + b == a;
    } else {
      var b' := b[..|b| - 1];
      assert (a + b)[..|a + b| - 1] == a + b';
      FlattenAppend(a, b');
    }
  }

  lemma FlattenLength(ss: seq<seq<byte>>, w: nat)
    requires forall i :: 0 <= i < |ss| ==> |ss[i]| == w
    ensures |Flatten(ss)| == |ss| * w
  {
    if ss != [] {
      FlattenLength(ss[..|ss| - 1], w);
    }
  }

  /** writeCache's loop: one more slot appends that slot's payload. */
  lemma DrainStep(row: seq<byte>, i: nat, off: nat, max: nat)
    requires SlotsWellFormed(row, i + 1, max) && off == SlotOffset(i, max)
    ensures off + PrefixSize <= |row|
    ensures off + PrefixSize + DecodeLE(row[off..off + PrefixSize]) <= |row|
    ensures Drain(row, i + 1, max)
      == Drain(row, i, max) + row[off + PrefixSize..off + PrefixSize + DecodeLE(row[off..off + PrefixSize])]
  {
    assert SlotWellFormed(row, i, max);
    assert Payloads(row, i + 1, max)[..i] == Payloads(row, i, max);
  }

  /** An all-zero buffer: every slot's prefix says 0, so its payloads are empty. */
  lemma ZeroRowWellFormed(row: seq<byte>, n: nat, max: nat)
    requires |row| == CacheSize && n * Stride(max) <= CacheSize
    requires forall j :: 0 <= j < |row| ==> row[j] == 0
    ensures SlotsWellFormed(row, n, max)
    ensures forall i :: 0 <= i < n ==> SlotPayload(row, i, max) == []
  {
    forall i | 0 <= i < n
      ensures SlotWellFormed(row, i, max) && SlotPayload(row, i, max) == []
    {
      SlotWithin(i, n, max);
      var off := SlotOffset(i, max);
      assert row[off..off + PrefixSize] == EncodeLE(0, PrefixSize);
      DecodeEncodeLE(0, PrefixSize);
    }
  }

  /** A slot's payload only depends on the stride bytes of that slot. */
  lemma SlotPayloadFrame(row: seq<byte>, row': seq<byte>, i: nat, max: nat)
    requires SlotWellFormed(row, i, max)
    requires |row'| == |row|
    requires forall j :: SlotOffset(i, max) <= j < SlotOffset(i, max) + Stride(max) ==> row'[j] == row[j]
    ensures SlotWellFormed(row', i, max) && SlotPayload(row', i, max) == SlotPayload(row, i, max)
  {
    var off := SlotOffset(i, max);
    assert row'[off..off + PrefixSize] == row[off..off + PrefixSize];
    var len := PrefixAt(row, off);
    assert row'[off + PrefixSize..off + PrefixSize + len] == row[off + PrefixSize..off + PrefixSize + len];
  }

  /**
   * Writing a chunk into slot k of a well-formed buffer keeps every slot well formed, makes
   * slot k's payload exactly that chunk, and leaves every other slot's payload as it was.
   */
  lemma WriteSlotEffect(row: seq<byte>, n: nat, k: nat, chunk: seq<byte>, max: nat)
    requires SlotsWellFormed(row, n, max) && k < n
    requires |chunk| <= max && max < Pow256(PrefixSize)
    ensures SlotOffset(k, max) + |SlotImage(chunk)| <= |row|
    ensures var row' := WriteAt(row, SlotOffset(k, max), SlotImage(chunk));
      && SlotsWellFormed(row', n, max)
      && SlotPayload(row', k, max) == chunk
      && forall i :: 0 <= i < n && i != k ==> SlotPayload(row', i, max) == SlotPayload(row, i, max)
  {
    var off := SlotOffset(k, max);
    var img := SlotImage(chunk);
    assert SlotWellFormed(row, k, max);
    var row' := WriteAt(row, off, img);
    assert row'[off..off + PrefixSize] == img[..PrefixSize];
    assert row'[off + PrefixSize..off + PrefixSize + |chunk|] == chunk;
    assert SlotWellFormed(row', k, max);
    forall i | 0 <= i < n && i != k
      ensures SlotWellFormed(row', i, max) && SlotPayload(row', i, max) == SlotPayload(row, i, max)
    {
      assert SlotWellFormed(row, i, max);
      if i < k { SlotsOrdered(i, k, max); } else { SlotsOrdered(k, i, max); }
      SlotPayloadFrame(row, row', i, max);
    }
  }

  /**
   * Accounting of one store: whether the buffer was flushed (everything it held plus the new
   * chunk went out) or not (the chunk was appended), written bytes followed by pending bytes
   * grow by exactly the chunk.
   */
  lemma StoreConserves(out: seq<byte>, out': seq<byte>, pending: seq<seq<byte>>, pending': seq<seq<byte>>,
                       chunk: seq<byte>, flushed: bool)
    requires flushed ==> out' == out + Flatten(pending + [chunk]) && pending' == []
    requires !flushed ==> out' == out && pending' == pending + [chunk]
    ensures out' + Flatten(pending') == out + Flatten(pending) + chunk
  {
    FlattenSnoc(pending, chunk);
  }

  /** Only slots below n matter for the first n payloads. */
  lemma {:induction false} PayloadsFrame(row: seq<byte>, row': seq<byte>, n: nat, max: nat)
    requires SlotsWellFormed(row, n, max) && SlotsWellFormed(row', n, max)
    requires forall i :: 0 <= i < n ==> SlotPayload(row', i, max) == SlotPayload(row, i, max)
    ensures Payloads(row', n, max) == Payloads(row, n, max)
  {
    if n > 0 {
      PayloadsFrame(row, row', n - 1, max);
    }
  }

  /**
   * Storing a chunk in the first free slot k of a buffer whose first k slots hold chunks appends
   * that chunk to the buffer's payloads.
   */
  lemma WriteSlotAppends(row: seq<byte>, n: nat, k: nat, chunk: seq<byte>, max: nat)
    requires SlotsWellFormed(row, n, max) && k < n
    requires |chunk| <= max && max < Pow256(PrefixSize)
    ensures SlotOffset(k, max) + |SlotImage(chunk)| <= |row|
    ensures var row' := WriteAt(row, SlotOffset(k, max), SlotImage(chunk));
      && SlotsWellFormed(row', n, max)
      && Payloads(row', k + 1, max) == Payloads(row, k, max) + [chunk]
  {
    WriteSlotEffect(row, n, k, chunk, max);
    var row' := WriteAt(row, SlotOffset(k, max), SlotImage(chunk));
    PayloadsFrame(row, row', k, max);
  }

  /**
   * Two chunks stored in slots k and k + 1, the later slot written first: the payloads still
   * list them in slot order.
   */
  lemma WritesOutOfOrder(row: seq<byte>, n: nat, k: nat, xA: seq<byte>, xB: seq<byte>, max: nat)
    requires SlotsWellFormed(row, n, max) && k + 1 < n
    requires |xA| <= max && |xB| <= max && max < Pow256(PrefixSize)
    ensures SlotOffset(k + 1, max) + |SlotImage(xB)| <= |row|
    ensures var rowB := WriteAt(row, SlotOffset(k + 1, max), SlotImage(xB));
      && SlotsWellFormed(rowB, n, max)
      && SlotOffset(k, max) + |SlotImage(xA)| <= |rowB|
      && var rowA := WriteAt(rowB, SlotOffset(k, max), SlotImage(xA));
      && SlotsWellFormed(rowA, n, max)
      && Payloads(rowA, k + 2, max) == Payloads(row, k, max) + [xA, xB]
  {
    WriteSlotEffect(row, n, k + 1, xB, max);
    var rowB := WriteAt(row, SlotOffset(k + 1, max), SlotImage(xB));
    PayloadsFrame(row, rowB, k, max);
    WriteSlotAppends(rowB, n, k, xA, max);
    WriteSlotEffect(rowB, n, k, xA, max);
  }

  /**
   * The buffer's account after the out-of-order pair: if it filled up, the file gained the old
   * payloads then xA then xB; otherwise the payloads gained xA then xB.
   */
  lemma OutOfOrderAccounting(row: seq<byte>, rowA: seq<byte>, n: nat, k: nat, xA: seq<byte>, xB: seq<byte>, max: nat,
                             out: seq<byte>, out': seq<byte>)
    requires SlotsWellFormed(row, n, max) && k + 1 < n
    requires |xA| <= max && |xB| <= max && max < Pow256(PrefixSize)
    requires SlotOffset(k + 1, max) + |SlotImage(xB)| <= |row|
    requires var rowB := WriteAt(row, SlotOffset(k + 1, max), SlotImage(xB));
      SlotOffset(k, max) + |SlotImage(xA)| <= |rowB| && rowA == WriteAt(rowB, SlotOffset(k, max), SlotImage(xA))
    requires SlotsWellFormed(rowA, n, max)
    requires k + 2 == n ==> out' == out + Drain(rowA, n, max)
    ensures k + 2 == n ==> out' == out + Flatten(Payloads(row, k, max) + [xA, xB])
    ensures k + 2 < n ==> Payloads(rowA, k + 2, max) == Payloads(row, k, max) + [xA, xB]
  {
    WritesOutOfOrder(row, n, k, xA, xB, max);
  }

  // ---------------------------------------------------------------------------------------
  // Buffer rotation: as written and as intended
  // ---------------------------------------------------------------------------------------

  /** The buffer index storeDataChunk advances to, exactly as lines 186-188 compute it. */
  function SourceNextCache(current: nat): nat {
    var next := current + 1;
    if next >= NumberOfCaches then next + 1 else next
  }

  /** From the last buffer the computed index lands two past the end of the pool. */
  lemma SourceNextCacheOutOfRange()
    ensures SourceNextCache(NumberOfCaches - 1) == NumberOfCaches + 1
    ensures !(SourceNextCache(NumberOfCaches - 1) < NumberOfCaches)
  {
  }

  /** Round-robin successor of a buffer index. */
  function NextCache(current: nat): (r: nat)
    requires current < NumberOfCaches
    ensures r < NumberOfCaches && r != current
  {
    (current + 1) % NumberOfCaches
  }

  /** The buffer reached from `start` after k advances. */
  function Advanced(start: nat, k: nat): (r: nat)
    requires start < NumberOfCaches
    ensures r < NumberOfCaches
  {
    if k == 0 then start else NextCache(Advanced(start, k - 1))
  }

  /** Advancing is addition modulo the pool size: it skips no buffer and returns after N steps. */
  lemma {:induction false} AdvancedIsModular(start: nat, k: nat)
    requires start < NumberOfCaches
    ensures Advanced(start, k) == (start + k) % NumberOfCaches
  {
    if k > 0 {
      AdvancedIsModular(start, k - 1);
    }
  }

  /** Every buffer is reached from any start within fewer than N advances. */
  lemma EveryBufferReached(start: nat, target: nat)
    requires start < NumberOfCaches && target < NumberOfCaches
    ensures var k := (target + NumberOfCaches - start) % NumberOfCaches;
      k < NumberOfCaches && Advanced(start, k) == target
  {
    var k := (target + NumberOfCaches - start) % NumberOfCaches;
    AdvancedIsModular(start, k);
  }
}
