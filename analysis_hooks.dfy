/**
 * The instrumentation hooks of analysis-hooks.cpp: init_analysis sets up the pool with
 * DATA_CHUNK_SIZE as the largest chunk and stores the pointer-width header, the enter and exit
 * hooks build a record and store it, and deinit_analysis flushes what is left.
 */
module AnalysisHooks {
  import opened Config
  import opened Bytes
  import opened CacheLayout
  import opened AtomicCache
  import opened DataChunk

  /**
   * What clock_gettime leaves in the timespec: the time it read, or, when it fails, whatever
   * the variable already held. Either way the hook goes on with those bytes.
   */
  datatype ClockReading = Read(time: seq<byte>) | Failed(time: seq<byte>)

  /** The chunk a hook stores: the record of its kind, the clock bytes and the two addresses. */
  function HookChunk(kind: Kind, clock: ClockReading, callee: seq<byte>, caller: seq<byte>, p: nat): (r: seq<byte>)
    requires |clock.time| == TimeSize && |callee| == p && |caller| == p
    ensures |r| == DataChunkSize(p) && r[0] == TypeCode(kind)
    ensures Decode(r, p) == Some(Event(kind, clock.time, callee, caller))
  {
    var e := Event(kind, clock.time, callee, caller);
    DecodeEncode(e, p);
    Encode(e, p)
  }

  /** A hook chunk always satisfies storeDataChunk's 0 < chunkSize <= maxDataChunkSize_g. */
  lemma HookChunkFits(kind: Kind, clock: ClockReading, callee: seq<byte>, caller: seq<byte>, p: nat)
    requires |clock.time| == TimeSize && |callee| == p && |caller| == p
    ensures 0 < |HookChunk(kind, clock, callee, caller, p)| <= DataChunkSize(p)
  {
  }

  /** The header chunk is one byte long, which is admissible for any maximum chunk size. */
  lemma HeaderFits(p: nat)
    ensures 0 < |Header(p)| <= DataChunkSize(p)
  {
  }

  /** A pointer width for which a slot sized for the hooks' records still fits in one buffer. */
  predicate PointerWidthFits(p: nat) {
    0 < p && Stride(DataChunkSize(p)) <= CacheSize
  }

  /** Everything recorded so far: what reached the file, then the chunks still in the active buffer. */
  ghost function Recorded(pool: Pool): seq<byte>
    requires pool.Idle()
    reads pool, pool.sink, pool.data, pool.reserved, pool.completed
  {
    pool.sink.written + Flatten(pool.Pending(pool.active))
  }

  /** init_analysis: initialise the pool for records of pointer width p and store the header. */
  method InitAnalysis(file: Sink, p: nat) returns (pool: Pool)
    requires file.descriptor > 0 && PointerWidthFits(p)
    modifies file
    ensures fresh(pool) && fresh(pool.data) && fresh(pool.reserved) && fresh(pool.completed)
    ensures pool.Idle() && pool.sink == file && pool.maxChunk == DataChunkSize(p)
    ensures Recorded(pool) == old(file.written) + Header(p)
  {
    pool := new Pool.Init(file, DataChunkSize(p));
    var _ := pool.StoreDataChunk(Header(p));
    FlattenSnoc([], Header(p));
  }

  /** __cyg_profile_func_enter and __cyg_profile_func_exit, with the clock reading as an input. */
  method FuncHook(pool: Pool, kind: Kind, clock: ClockReading, callee: seq<byte>, caller: seq<byte>, p: nat)
    requires pool.Idle() && pool.maxChunk == DataChunkSize(p)
    requires |clock.time| == TimeSize && |callee| == p && |caller| == p
    modifies pool`active, pool`rows, pool.sink, pool.data, pool.reserved, pool.completed
    ensures pool.Idle() && pool.active == old(pool.active)
    ensures Recorded(pool) == old(Recorded(pool)) + HookChunk(kind, clock, callee, caller, p)
  {
    var chunk := Encode(Event(kind, clock.time, callee, caller), p);
    var _ := pool.StoreDataChunk(chunk);
  }

  /** __cyg_profile_func_enter(function, caller). */
  method FuncEnter(pool: Pool, clock: ClockReading, callee: seq<byte>, caller: seq<byte>, p: nat)
    requires pool.Idle() && pool.maxChunk == DataChunkSize(p)
    requires |clock.time| == TimeSize && |callee| == p && |caller| == p
    modifies pool`active, pool`rows, pool.sink, pool.data, pool.reserved, pool.completed
    ensures pool.Idle() && pool.active == old(pool.active)
    ensures Recorded(pool) == old(Recorded(pool)) + HookChunk(Enter, clock, callee, caller, p)
  {
    FuncHook(pool, Enter, clock, callee, caller, p);
  }

  /** __cyg_profile_func_exit(function, caller). */
  method FuncExit(pool: Pool, clock: ClockReading, callee: seq<byte>, caller: seq<byte>, p: nat)
    requires pool.Idle() && pool.maxChunk == DataChunkSize(p)
    requires |clock.time| == TimeSize && |callee| == p && |caller| == p
    modifies pool`active, pool`rows, pool.sink, pool.data, pool.reserved, pool.completed
    ensures pool.Idle() && pool.active == old(pool.active)
    ensures Recorded(pool) == old(Recorded(pool)) + HookChunk(Exit, clock, callee, caller, p)
  {
    FuncHook(pool, Exit, clock, callee, caller, p);
  }

  /** deinit_analysis: after it, everything recorded is in the file. */
  method DeinitAnalysis(pool: Pool)
    requires pool.Idle()
    modifies pool.sink
    ensures pool.sink.written == old(Recorded(pool))
  {
    pool.IdleLeftover(NumberOfCaches);
    pool.Deinit();
  }

  /** One instrumented call as the hooks see it. */
  datatype Call = Call(kind: Kind, clock: ClockReading, callee: seq<byte>, caller: seq<byte>)

  predicate CallFits(call: Call, p: nat) {
    |call.clock.time| == TimeSize && |call.callee| == p && |call.caller| == p
  }

  /** The event each call leaves in the trace. */
  function EventOf(call: Call): Event {
    Event(call.kind, call.clock.time, call.callee, call.caller)
  }

  function Events(calls: seq<Call>): (r: seq<Event>)
    ensures |r| == |calls|
  {
    if calls == [] then [] else Events(calls[..|calls| - 1]) + [EventOf(calls[|calls| - 1])]
  }

  lemma {:induction false} EventsFit(calls: seq<Call>, p: nat)
    requires forall i :: 0 <= i < |calls| ==> CallFits(calls[i], p)
    ensures forall i :: 0 <= i < |calls| ==> EventFits(Events(calls)[i], p) && Events(calls)[i] == EventOf(calls[i])
  {
    if calls != [] {
      EventsFit(calls[..|calls| - 1], p);
    }
  }

  /** The trace file a run with these calls should produce: the header, then one record per call. */
  function TraceBytes(calls: seq<Call>, p: nat): seq<byte>
    requires forall i :: 0 <= i < |calls| ==> CallFits(calls[i], p)
  {
    EventsFit(calls, p);
    Header(p) + Flatten(EncodeAll(Events(calls), p))
  }

  /** One more call adds its record to the end of the trace. */
  lemma TraceBytesStep(calls: seq<Call>, i: nat, p: nat)
    requires i < |calls|
    requires forall j :: 0 <= j < |calls| ==> CallFits(calls[j], p)
    ensures TraceBytes(calls[..i + 1], p)
      == TraceBytes(calls[..i], p) + HookChunk(calls[i].kind, calls[i].clock, calls[i].callee, calls[i].caller, p)
  {
    var call := calls[i];
    assert calls[..i + 1][..i] == calls[..i];
    EventsFit(calls[..i + 1], p);
    EventsFit(calls[..i], p);
    assert Events(calls[..i + 1]) == Events(calls[..i]) + [EventOf(call)];
    FlattenSnoc(EncodeAll(Events(calls[..i]), p), Encode(EventOf(call), p));
  }

  /**
   * A whole single-threaded run: the constructor hook, one hook per traced call, the destructor
   * hook. The file ends up holding the header and every call's record, in call order, and a
   * reader of the trace format recovers exactly the pointer width and the events.
   */
  method TraceSession(file: Sink, p: nat, calls: seq<Call>)
    requires file.descriptor > 0 && file.written == [] && PointerWidthFits(p)
    requires forall i :: 0 <= i < |calls| ==> CallFits(calls[i], p)
    modifies file
    ensures file.written == TraceBytes(calls, p)
    ensures DecodeTrace(file.written) == Some((p, Events(calls)))
  {
    var pool := InitAnalysis(file, p);
    assert calls[..0] == [];
    for i := 0 to |calls|
      invariant pool.Idle() && pool.sink == file && pool.maxChunk == DataChunkSize(p)
      invariant fresh(pool.data) && fresh(pool.reserved) && fresh(pool.completed)
      invariant Recorded(pool) == TraceBytes(calls[..i], p)
    {
      var call := calls[i];
      // __cyg_profile_func_enter or __cyg_profile_func_exit, as call.kind says
      FuncHook(pool, call.kind, call.clock, call.callee, call.caller, p);
      TraceBytesStep(calls, i, p);
    }
    assert calls[..|calls|] == calls;
    DeinitAnalysis(pool);
    EventsFit(calls, p);
    TraceRoundTrip(Events(calls), p);
  }
}
