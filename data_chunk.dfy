/**
 * The trace record of analysis-hooks.cpp: a packed DataChunk of
 * type (1 byte) | struct timespec (16 bytes) | function (P bytes) | caller (P bytes),
 * and the trace file it ends up in: one header byte holding P, then records back to back.
 * P is sizeof(void*), a parameter here.
 */
module DataChunk {
  import opened Bytes
  import opened CacheLayout

  datatype Option<T> = None | Some(value: T)

  /** sizeof(struct timespec) on the targets the record layout assumes. */
  const TimeSize: nat := 16

  datatype Kind = Enter | Exit

  /** ENTER_TYPE and EXIT_TYPE. */
  function TypeCode(k: Kind): byte {
    match k
    case Enter => 1
    case Exit => 2
  }

  function KindOf(b: byte): (r: Option<Kind>)
    ensures r.Some? <==> b == 1 || b == 2
    ensures r.Some? ==> TypeCode(r.value) == b
  {
    if b == 1 then Some(Enter) else if b == 2 then Some(Exit) else None
  }

  /** One traced call: its kind, the monotonic time, the called function and its call site, all as raw bytes. */
  datatype Event = Event(kind: Kind, time: seq<byte>, callee: seq<byte>, caller: seq<byte>)

  predicate EventFits(e: Event, p: nat) {
    |e.time| == TimeSize && |e.callee| == p && |e.caller| == p
  }

  /** DATA_CHUNK_SIZE: 1 + 16 + sizeof(void*) + sizeof(void*). */
  function DataChunkSize(p: nat): nat {
    1 + TimeSize + p + p
  }

  /** The bytes of DataChunk chunk = {TYPE, time, callee, caller}: packed, in declaration order. */
  function Encode(e: Event, p: nat): (r: seq<byte>)
    requires EventFits(e, p)
    ensures |r| == DataChunkSize(p) && r[0] == TypeCode(e.kind)
    ensures r[1..1 + TimeSize] == e.time
    ensures r[1 + TimeSize..1 + TimeSize + p] == e.callee
    ensures r[1 + TimeSize + p..] == e.caller
  {
    [TypeCode(e.kind)] + e.time + e.callee + e.caller
  }

  /** Reads one record of pointer width p back; fails on a wrong length or an unknown type byte. */
  function Decode(bs: seq<byte>, p: nat): (r: Option<Event>)
    ensures r.Some? ==> EventFits(r.value, p)
    ensures r.None? <==> |bs| != DataChunkSize(p) || KindOf(bs[0]).None?
  {
    if |bs| != DataChunkSize(p) then None
    else
      match KindOf(bs[0])
      case None => None
      case Some(k) => Some(Event(k, bs[1..1 + TimeSize], bs[1 + TimeSize..1 + TimeSize + p], bs[1 + TimeSize + p..]))
  }

  lemma DecodeEncode(e: Event, p: nat)
    requires EventFits(e, p)
    ensures Decode(Encode(e, p), p) == Some(e)
  {
    var bs := Encode(e, p);
    assert KindOf(bs[0]) == Some(e.kind);
  }

  lemma EncodeDecode(bs: seq<byte>, p: nat)
    requires Decode(bs, p).Some?
    ensures Encode(Decode(bs, p).value, p) == bs
  {
    var e := Decode(bs, p).value;
    assert bs == [bs[0]] + bs[1..1 + TimeSize] + bs[1 + TimeSize..1 + TimeSize + p] + bs[1 + TimeSize + p..];
  }

  /** Enter and exit records of the same call differ in the type byte and nowhere else. */
  lemma EnterExitDifferOnlyInType(time: seq<byte>, callee: seq<byte>, caller: seq<byte>, p: nat)
    requires EventFits(Event(Enter, time, callee, caller), p)
    ensures var enter := Encode(Event(Enter, time, callee, caller), p);
      var exit := Encode(Event(Exit, time, callee, caller), p);
      && enter[0] == 1 && exit[0] == 2
      && enter[1..] == exit[1..]
  {
  }

  // ---------------------------------------------------------------------------------------
  // The trace file
  // ---------------------------------------------------------------------------------------

  /** The first chunk init_analysis stores: (uint8_t)sizeof(void*). */
  function Header(p: nat): (r: seq<byte>)
    ensures |r| == 1 && (p < 256 ==> r[0] as nat == p)
  {
    [(p % 256) as byte]
  }

  /** The records of a sequence of events, in order. */
  function EncodeAll(events: seq<Event>, p: nat): (r: seq<seq<byte>>)
    requires forall i :: 0 <= i < |events| ==> EventFits(events[i], p)
    ensures |r| == |events|
  {
    if events == [] then [] else EncodeAll(events[..|events| - 1], p) + [Encode(events[|events| - 1], p)]
  }

  /** Reads back-to-back records of pointer width p. */
  function DecodeRecords(bs: seq<byte>, p: nat): Option<seq<Event>>
    decreases |bs|
  {
    if bs == [] then Some([])
    else if |bs| < DataChunkSize(p) then None
    else
      match Decode(bs[..DataChunkSize(p)], p)
      case None => None
      case Some(e) =>
        match DecodeRecords(bs[DataChunkSize(p)..], p)
        case None => None
        case Some(rest) => Some([e] + rest)
  }

  /** A reader of the trace file: the header gives the pointer width, the records follow. */
  function DecodeTrace(bs: seq<byte>): Option<(nat, seq<Event>)> {
    if bs == [] then None
    else
      var p := bs[0] as nat;
      match DecodeRecords(bs[1..], p)
      case None => None
      case Some(events) => Some((p, events))
  }

  lemma {:induction false} EncodeAllAppend(a: seq<Event>, b: seq<Event>, p: nat)
    requires forall i :: 0 <= i < |a| ==> EventFits(a[i], p)
    requires forall i :: 0 <= i < |b| ==> EventFits(b[i], p)
    ensures forall i :: 0 <= i < |a + b| ==> EventFits((a + b)[i], p)
    ensures EncodeAll(a + b, p) == EncodeAll(a, p) + EncodeAll(b, p)
    decreases |b|
  {
    assert forall i :: 0 <= i < |a + b| ==> (a + b)[i] == if i < |a| then a[i] else b[i - |a|];
    if b == [] {
      assert a + b == a;
    } else {
      var b' := b[..|b| - 1];
      assert (a + b)[..|a + b| - 1] == a + b';
      EncodeAllAppend(a, b', p);
    }
  }

  lemma EncodeAllFront(events: seq<Event>, p: nat)
    requires |events| > 0
    requires forall i :: 0 <= i < |events| ==> EventFits(events[i], p)
    ensures Flatten(EncodeAll(events, p)) == Encode(events[0], p) + Flatten(EncodeAll(events[1..], p))
  {
    assert events == [events[0]] + events[1..];
    EncodeAllAppend([events[0]], events[1..], p);
    assert EncodeAll([events[0]], p) == [Encode(events[0], p)];
    FlattenAppend([Encode(events[0], p)], EncodeAll(events[1..], p));
    FlattenSnoc([], Encode(events[0], p));
  }

  lemma {:induction false} DecodeRecordsEncodeAll(events: seq<Event>, p: nat)
    requires forall i :: 0 <= i < |events| ==> EventFits(events[i], p)
    ensures DecodeRecords(Flatten(EncodeAll(events, p)), p) == Some(events)
    decreases |events|
  {
    if events != [] {
      EncodeAllFront(events, p);
      var first := Encode(events[0], p);
      var bs := Flatten(EncodeAll(events, p));
      assert bs[..DataChunkSize(p)] == first;
      assert bs[DataChunkSize(p)..] == Flatten(EncodeAll(events[1..], p));
      DecodeEncode(events[0], p);
      DecodeRecordsEncodeAll(events[1..], p);
      assert [events[0]] + events[1..] == events;
    }
  }

  /** The header followed by the records of any events reads back as exactly those events. */
  lemma TraceRoundTrip(events: seq<Event>, p: nat)
    requires p < 256
    requires forall i :: 0 <= i < |events| ==> EventFits(events[i], p)
    ensures DecodeTrace(Header(p) + Flatten(EncodeAll(events, p))) == Some((p, events))
  {
    var bs := Header(p) + Flatten(EncodeAll(events, p));
    assert bs[1..] == Flatten(EncodeAll(events, p));
    DecodeRecordsEncodeAll(events, p);
  }
}
