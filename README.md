# Trace-buffer pool of performance-analysis, in Dafny

performance-analysis instruments a program with `-finstrument-functions`. Every function entry
and exit calls a hook that builds a small packed record and hands it to the atomic cache. The
atomic cache is a pool of `NUMBER_OF_CACHES` byte buffers of `CACHE_SIZE` bytes each. Each
buffer is cut into slots of `maxDataChunkSize + 4` bytes: a 4-byte length prefix, then the chunk.

Producers store a chunk in three steps:

1. claim a slot with an atomic `fetch_add` on the buffer's reservation counter;
2. copy the prefix and the chunk into that slot;
3. bump the buffer's completion counter.

The producer that completes the last slot writes the whole buffer to the trace file and resets
both counters. The producer whose reservation lands exactly one past the end moves the pool on to
the next buffer. At shutdown, every buffer with completed slots is written out.

The model has seven modules:

- `Config`: the two configuration constants (4 buffers of 500 bytes).
- `Bytes`: bytes, and the little-endian 4-byte length prefix with its round trip.
- `CacheLayout`: pure slot arithmetic over one buffer's bytes. It covers slot offsets, the slot
  image a producer writes, and what the writer reads back (`Payloads`, `Drain`). It also holds
  the slot count and the buffer rotation, each both as the source writes it and as intended.
- `AtomicCache`: the pool as a class, imperative like the source. It has the arrays `data`
  (`array2<byte>`), `reserved` and `completed`, the field `active`, and a `Sink` object for the
  output file. Each atomic step of `storeDataChunk` is its own method, so interleavings of
  producers are sequences of calls. A ghost field `rows` mirrors `data` as values, and the
  contracts are stated over it.
- `DataChunk`: the packed record `type | timespec | function | caller` as `Encode`/`Decode`, with
  the pointer width as a parameter. It also has a reader for the trace file (header byte, then
  records), which is the reference the end-to-end session is proved against.
- `AnalysisHooks`: `init_analysis`, the enter/exit hooks and `deinit_analysis`. `TraceSession` is
  a whole single-threaded run: the file ends up holding the header and every call's record, and
  it decodes back to exactly those calls.
- `Interleavings`: runs of producers:
  - `FillBuffer`: a single producer filling a buffer;
  - `OutOfOrderCompletion`: two producers that complete out of order;
  - `RotationRace`: two producers that both overshoot a full buffer.

The pool follows the code with two corrections, both listed under Findings. Slots are counted as
`CACHE_SIZE / (max + 4)`, and rotation wraps with `(c + 1) % NUMBER_OF_CACHES`. The as-written
versions are modelled beside them and their failures are proved.

## Model

| member | source | states |
|---|---|---|
| Bytes.Prefix | src/analysis-lib/atomic-cache.cpp:168-170 | the stored length prefix is 4 bytes and reads back as the chunk size |
| Bytes.DecodeEncodeLE | src/analysis-lib/atomic-cache.cpp:132-135 | a length stored through the prefix is read back unchanged by writeCache, for every value that fits in 4 bytes |
| Bytes.EncodeDecodeLE | src/analysis-lib/atomic-cache.cpp:132-135 | every 4 prefix bytes are the encoding of the length they are read as |
| CacheLayout.SlotsOrdered | src/analysis-lib/atomic-cache.cpp:152-162 | an earlier slot ends no later than a later slot begins, so slots never overlap |
| CacheLayout.SlotWithin | src/analysis-lib/atomic-cache.cpp:152-162 | each of the first n slots ends within n strides |
| CacheLayout.SourceSlotCountOverflows | src/analysis-lib/atomic-cache.cpp:88 | for every maximum chunk size > 0, the slots line 88 creates take more than CACHE_SIZE bytes |
| CacheLayout.SourceSlotCountExample | src/analysis-lib/atomic-cache.cpp:88 | with the hooks' maximum of 33 bytes, line 88 gives 19 slots of 37 bytes, 703 bytes in a 500-byte buffer |
| CacheLayout.SlotCount | src/analysis-lib/atomic-cache.cpp:58-64 | the corrected slot count: the slots fit in a buffer, one more would not, and there is at least one whenever one slot fits |
| CacheLayout.WriteAt | src/analysis-lib/atomic-cache.cpp:173-174 | copying bytes at an offset changes exactly that range and leaves every other byte |
| CacheLayout.SlotImage | src/analysis-lib/atomic-cache.cpp:166-174 | a slot holds the 4-byte prefix, which decodes to the chunk length, followed by the chunk itself |
| CacheLayout.DrainStep | src/analysis-lib/atomic-cache.cpp:128-137 | writing slot i appends exactly the number of bytes its prefix names, taken from right after the prefix |
| CacheLayout.ZeroRowWellFormed | src/analysis-lib/atomic-cache.cpp:90-91 | a cleared buffer is well formed and each slot in it reads back as empty |
| CacheLayout.WriteSlotEffect | src/analysis-lib/atomic-cache.cpp:166-174 | writing slot k makes it read back as the chunk and leaves every other slot's contents |
| CacheLayout.WriteSlotAppends | src/analysis-lib/atomic-cache.cpp:163-176 | writing the next free slot appends the chunk to the buffer's completed payloads |
| CacheLayout.StoreConserves | src/analysis-lib/atomic-cache.cpp:176-181 | flushed or not, file plus pending chunks grow by exactly the stored chunk |
| CacheLayout.WritesOutOfOrder | src/analysis-lib/atomic-cache.cpp:163-174 | slots k and k+1 written in reverse order still read back in slot order |
| CacheLayout.OutOfOrderAccounting | src/analysis-lib/atomic-cache.cpp:176-181 | after such a pair, the buffer either holds both chunks in slot order, or, if they filled it, has written its payloads followed by them |
| CacheLayout.SourceNextCacheOutOfRange | src/analysis-lib/atomic-cache.cpp:186-188 | from the last buffer, the index lines 186-188 compute is NUMBER_OF_CACHES + 1, outside the pool |
| CacheLayout.NextCache | src/analysis-lib/atomic-cache.cpp:186-188 | the corrected successor is a valid buffer index different from the current one |
| CacheLayout.AdvancedIsModular | src/analysis-lib/atomic-cache.cpp:184-193 | k advances move the active buffer by k modulo the pool size |
| CacheLayout.EveryBufferReached | src/analysis-lib/atomic-cache.cpp:184-193 | from any buffer, every buffer becomes active within fewer than NUMBER_OF_CACHES advances |
| AtomicCache.Pool.Row | src/analysis-lib/atomic-cache.cpp:50 | reading buffer c yields exactly its modelled contents |
| AtomicCache.Pool.constructor | src/analysis-lib/atomic-cache.cpp:80-100 | after init every byte is 0, every counter is 0, the active buffer is 0, nothing is pending, and the pool is valid and idle |
| AtomicCache.Pool.Reserve | src/analysis-lib/atomic-cache.cpp:163 | returns the buffer's old reservation count and raises it by exactly one, leaving other buffers |
| AtomicCache.Pool.WriteSlot | src/analysis-lib/atomic-cache.cpp:166-174 | the slot lies inside the buffer, and buffer c becomes its old bytes with the prefix and the chunk at i*(max+4); every other buffer is unchanged |
| AtomicCache.Pool.WriteCache | src/analysis-lib/atomic-cache.cpp:119-140 | the file grows by the payloads of slots 0..n, in slot order |
| AtomicCache.Pool.Complete | src/analysis-lib/atomic-cache.cpp:176 | raises buffer c's completed count by exactly one and reports the last slot if and only if the old count was slotCount-1; other buffers keep their counts, and no buffer is completed past its reservations |
| AtomicCache.Pool.Reset | src/analysis-lib/atomic-cache.cpp:179-180 | both counters of buffer c become 0, and every other buffer keeps its counters |
| AtomicCache.Pool.Advance | src/analysis-lib/atomic-cache.cpp:184-193 | once the next buffer has no reservations, it becomes the active one |
| AtomicCache.Pool.Attempt | src/analysis-lib/atomic-cache.cpp:148-194 | one pass of the retry loop: the chunk is stored if and only if the reserved index is below slotCount; the producer completing the last slot writes the whole buffer to the file and leaves both counters 0, any other only raises both counters by one; the active buffer changes if and only if the index equals slotCount; a larger index changes nothing but the reservation |
| AtomicCache.Pool.StoreDataChunk | src/analysis-lib/atomic-cache.cpp:144-195 | from an idle pool, the first pass stores the chunk and the rotation branch is never reached; it flushes if and only if the chunk fills the last slot; the chunk is appended to the pending chunks or written after them; file plus pending grow by exactly the chunk |
| AtomicCache.Pool.IdleReservesInside | src/analysis-lib/atomic-cache.cpp:163-164 | in an idle pool the reservation counter of the active buffer is below slotCount and equals its number of pending chunks, so the next reservation takes the store branch |
| AtomicCache.Pool.Deinit | src/analysis-lib/atomic-cache.cpp:103-116 | writes, in buffer order, the completed slots of every buffer whose completed count is positive, and skips the others |
| AtomicCache.Pool.IdleLeftover | src/analysis-lib/atomic-cache.cpp:107-115 | in an idle pool, deinit writes exactly the active buffer's pending chunks |
| DataChunk.KindOf | src/analysis-lib/analysis-hooks.cpp:47-50 | a type byte names a kind if and only if it is 1 or 2, and then its code is that byte |
| DataChunk.Encode | src/analysis-lib/analysis-hooks.cpp:52-58 | the record is DATA_CHUNK_SIZE bytes: the type code, then time, function and caller at their packed offsets |
| DataChunk.Decode | src/analysis-lib/analysis-hooks.cpp:52-58 | reading fails if and only if the length is wrong or the type byte is unknown; otherwise the fields have their packed sizes |
| DataChunk.DecodeEncode | src/analysis-lib/analysis-hooks.cpp:52-58 | decoding a record gives back the event it encodes |
| DataChunk.EncodeDecode | src/analysis-lib/analysis-hooks.cpp:52-58 | every decodable byte string is the encoding of what it decodes to |
| DataChunk.EnterExitDifferOnlyInType | src/analysis-lib/analysis-hooks.cpp:92-118 | for the same time, function and caller, the enter and exit records differ only in byte 0, which is 1 and 2 |
| DataChunk.Header | src/analysis-lib/analysis-hooks.cpp:79-81 | the header chunk is one byte, holding the pointer size |
| DataChunk.DecodeRecordsEncodeAll | src/analysis-lib/analysis-hooks.cpp:100-103 | back-to-back records read back as exactly the events, in order |
| DataChunk.TraceRoundTrip | src/analysis-lib/analysis-hooks.cpp:77-81 | a header followed by records reads back as that pointer size and exactly those events |
| AnalysisHooks.HookChunk | src/analysis-lib/analysis-hooks.cpp:94-103 | the chunk a hook stores has DATA_CHUNK_SIZE bytes, starts with the kind's type code and decodes to the call's event, whether or not the clock read succeeded |
| AnalysisHooks.HookChunkFits | src/analysis-lib/analysis-hooks.cpp:45 | every hook chunk satisfies 0 < size <= DATA_CHUNK_SIZE, the maximum passed to init |
| AnalysisHooks.HeaderFits | src/analysis-lib/analysis-hooks.cpp:80-81 | the one-byte header satisfies 0 < size <= DATA_CHUNK_SIZE |
| AnalysisHooks.InitAnalysis | src/analysis-lib/analysis-hooks.cpp:68-82 | leaves an idle pool with DATA_CHUNK_SIZE as the maximum, with the header as the only thing recorded |
| AnalysisHooks.FuncHook | src/analysis-lib/analysis-hooks.cpp:92-118 | a hook appends its record to what is recorded and leaves the pool idle |
| AnalysisHooks.FuncEnter | src/analysis-lib/analysis-hooks.cpp:92-104 | the enter hook appends the enter record of the call |
| AnalysisHooks.FuncExit | src/analysis-lib/analysis-hooks.cpp:106-118 | the exit hook appends the exit record of the call |
| AnalysisHooks.DeinitAnalysis | src/analysis-lib/analysis-hooks.cpp:84-87 | afterwards, everything recorded is in the file |
| AnalysisHooks.TraceBytesStep | src/analysis-lib/analysis-hooks.cpp:92-118 | each further call adds its record at the end of the expected trace |
| AnalysisHooks.TraceSession | src/analysis-lib/analysis-hooks.cpp:68-118 | a whole run leaves the header followed by every call's record in call order, and the trace reads back as the pointer size and exactly the calls |
| Interleavings.FillBuffer | src/analysis-lib/atomic-cache.cpp:163-181 | storing slotCount chunks into an empty buffer grows the file by exactly their concatenation and leaves the buffer empty |
| Interleavings.OutOfOrderCompletion | src/analysis-lib/atomic-cache.cpp:163-181 | when B writes and completes before A, who reserved first, the two get consecutive slots and the chunks are kept, or written, in reservation order |
| Interleavings.RotationRace | src/analysis-lib/atomic-cache.cpp:184-193 | of two producers that overshoot a full buffer, the one holding index slotCount advances to the next buffer, and the other changes nothing but the reservation count; every other buffer keeps its reservation count |

## Left out

- AtomicCache.Pool.constructor: the slot count is the corrected `CACHE_SIZE / (max + 4)`, not the `CACHE_SIZE / max + 4` of line 88 (see Findings). The constructor also requires `max + 4 <= CACHE_SIZE`, which the source does not check; without it the corrected pool would have no slot at all.
- AtomicCache.Pool.Advance: the wait at lines 189-190 until the next buffer's reservation counter reads 0 is a precondition, not a loop. The successor is the corrected `(c + 1) % NUMBER_OF_CACHES` (see Findings).
- AtomicCache.Pool.StoreDataChunk: models the `while(true)` loop for a single producer only, in an idle pool, where its first pass always stores the chunk. With several producers the loop's progress depends on other threads. `Attempt` models one pass for any valid pool.
- AtomicCache.Pool.WriteSlot: the store of the prefix through an `int*` and the `memcpy` of the chunk are one byte-copy loop over the slot image. The prefix is little-endian; alignment, host byte order and the reinterpret casts are not modelled.
- AtomicCache.Pool.Reset: the two stores at lines 179-180 are one step. Between them the source briefly has a completed count of 0 beside a full reservation count; no other method of the model can run in that gap.
- AtomicCache.Pool.WriteCache: every `write` appends all the bytes it is given. Its return value (ignored by the source), short writes and I/O errors are not modelled.
- The `storeChunkLock` spin lock and its diagnostic: the model is sequential, so writers exclude each other trivially.
- Threads, `std::atomic` memory ordering and real concurrency: each `fetch_add` is one method call (`Reserve`, `Complete`), as are the slot copy (`WriteSlot`), the flush under the writer lock (`WriteCache`), the pair of counter resets (`Reset`) and the store of the next active buffer (`Advance`). Interleavings are explicit call sequences. The model has three such scenarios, not a proof over all schedules.
- Integer widths: counters and sizes are unbounded naturals. `int` overflow of the counters after 2^31 reservations, and the signed/unsigned comparison at line 164, are not modelled.
- `printf`, `fprintf` and `perror` diagnostics, and the `exit` on a failed `open`: not modelled.
- `open("test.bin", …)` and the constructor/destructor attributes: `InitAnalysis` takes the output `Sink` as a parameter.
- `clock_gettime`: its result is an input (`ClockReading`). On failure the hook goes on with whatever 16 bytes the timespec held.
- `sizeof(void*)` and `sizeof(struct timespec)`: the pointer width is the parameter `p`, and addresses are `p` raw bytes. The header byte is `p % 256`, the `uint8_t` cast. The time field is `TimeSize` = 16 bytes, the literal in `DATA_CHUNK_SIZE` (analysis-hooks.cpp line 45), while the hooks pass `sizeof(chunk)` (lines 103 and 117); the model takes `sizeof(struct timespec)` to be 16 and the record to be packed, so the two sizes agree.
- The `__cyg_profile_*` declarations and `no_instrument_function`: compiler registration only, nothing to model.
- `atomic-cache-conf.h` is not modelled as a file; its two constants are in `Config`.

## Findings

| source | as written | input that shows it | evidently intended | confidence | as-written member | corrected member |
|---|---|---|---|---|---|---|
| src/analysis-lib/atomic-cache.cpp:88 | slot count `CACHE_SIZE / maxDataChunkSize_g + 4` | maximum chunk size 33 (the hooks' DATA_CHUNK_SIZE with 8-byte pointers): 19 slots of 37 bytes need 703 bytes of a 500-byte buffer, so slot writes run past the buffer; for every maximum > 0 the slots overflow | `CACHE_SIZE / (maxDataChunkSize_g + 4)`, so that slots tile the buffer as lines 58-64 and 154-162 describe (13 slots for 33) | high; not executed | CacheLayout.SourceSlotCountOverflows | CacheLayout.SlotCount |
| src/analysis-lib/atomic-cache.cpp:186-188 | from the last buffer, `nextCacheNumber` is incremented a second time instead of wrapping | current buffer 3 of 4: the next index becomes 5, and `indexStoreing[5]` is read out of bounds | wrap to buffer 0: `(current + 1) % NUMBER_OF_CACHES` | high; not executed | CacheLayout.SourceNextCacheOutOfRange | CacheLayout.NextCache |
