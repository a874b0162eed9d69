/**
  The recorder's event and sample records (src/recorder.rs) and their
  persisted form: `to_serializable` writes each key as its codec tag, and
  `from_serializable` reads the records back, dropping, one by one, the
  events whose key tag is unknown.
*/
module Samples {
  import opened Wrappers
  import opened Enigo
  import opened KeyCodec

  /** `RecordedMode`: the edge of a recorded key event. */
  datatype Mode = Press | Release

  /** `SerialMode`: the edge as it is persisted. */
  datatype SerialMode = SerialPress | SerialRelease

  /** One recorded edge, `deltaMs` milliseconds after the recording started. */
  datatype TimedEvent = TimedEvent(key: Key, mode: Mode, deltaMs: nat)

  /** One stored recording. */
  datatype Sample = Sample(id: nat, startedAt: nat, name: string, events: seq<TimedEvent>)

  datatype SerialEvent = SerialEvent(key: string, mode: SerialMode, deltaMs: nat)

  datatype SerialSample = SerialSample(id: nat, startedAt: nat, name: string, events: seq<SerialEvent>)

  function ModeToSerial(m: Mode): SerialMode {
    match m
    case Press => SerialPress
    case Release => SerialRelease
  }

  function ModeFromSerial(m: SerialMode): Mode {
    match m
    case SerialPress => Press
    case SerialRelease => Release
  }

  function EncodeEvent(e: TimedEvent): SerialEvent {
    SerialEvent(KeyToString(e.key), ModeToSerial(e.mode), e.deltaMs)
  }

  function EncodeEvents(events: seq<TimedEvent>): seq<SerialEvent> {
    seq(|events|, i requires 0 <= i < |events| => EncodeEvent(events[i]))
  }

  function EncodeSample(s: Sample): SerialSample {
    SerialSample(s.id, s.startedAt, s.name, EncodeEvents(s.events))
  }

  /** `to_serializable`: every sample, in order, with every event encoded. */
  function ToSerializable(samples: seq<Sample>): seq<SerialSample> {
    seq(|samples|, i requires 0 <= i < |samples| => EncodeSample(samples[i]))
  }

  /** One persisted event read back, or None when its key tag is unknown. */
  function DecodeEvent(e: SerialEvent): Option<TimedEvent> {
    match StringToKey(e.key)
    case Some(k) => Some(TimedEvent(k, ModeFromSerial(e.mode), e.deltaMs))
    case None => None
  }

  /** The events of one persisted sample that decode, in order. */
  function DecodeEvents(es: seq<SerialEvent>): seq<TimedEvent>
    decreases |es|
  {
    if es == [] then []
    else
      var last := DecodeEvent(es[|es| - 1]);
      DecodeEvents(es[..|es| - 1]) + (if last.Some? then [last.value] else [])
  }

  function DecodeSample(s: SerialSample): Sample {
    Sample(s.id, s.startedAt, s.name, DecodeEvents(s.events))
  }

  /** `from_serializable`, as a value. */
  function DecodeAll(serial: seq<SerialSample>): seq<Sample> {
    seq(|serial|, i requires 0 <= i < |serial| => DecodeSample(serial[i]))
  }

  /** `from_serializable`: the same push loops as the source. Every sample is
      kept, in order, with its id, start time and name; only its events whose
      key tag fails to decode are dropped. */
  method FromSerializable(serial: seq<SerialSample>) returns (res: seq<Sample>)
    ensures res == DecodeAll(serial)
    ensures |res| == |serial|
    ensures forall i :: 0 <= i < |serial| ==>
      res[i].id == serial[i].id && res[i].startedAt == serial[i].startedAt
      && res[i].name == serial[i].name && res[i].events == DecodeEvents(serial[i].events)
  {
    res := [];
    var i := 0;
    while i < |serial|
      invariant 0 <= i <= |serial|
      invariant res == DecodeAll(serial[..i])
    {
      var s := serial[i];
      var evts: seq<TimedEvent> := [];
      var j := 0;
      while j < |s.events|
        invariant 0 <= j <= |s.events|
        invariant evts == DecodeEvents(s.events[..j])
      {
        var e := s.events[j];
        assert s.events[..j + 1][..j] == s.events[..j];
        match StringToKey(e.key) {
          case Some(key) =>
            evts := evts + [TimedEvent(key, ModeFromSerial(e.mode), e.deltaMs)];
          case None =>
        }
        j := j + 1;
      }
      assert s.events[..j] == s.events;
      res := res + [Sample(s.id, s.startedAt, s.name, evts)];
      i := i + 1;
    }
    assert serial[..i] == serial;
  }

  /** A single event is kept, decoded, exactly when its key tag is known. */
  lemma DecodeOne(e: SerialEvent)
    ensures DecodeEvents([e]) == if StringToKey(e.key).Some? then [TimedEvent(StringToKey(e.key).value, ModeFromSerial(e.mode), e.deltaMs)] else []
  {
    assert [e][..0] == [];
  }

  /** Decoding works event by event: it distributes over concatenation. With
      DecodeOne this says the decoder is exactly a filter that drops the
      events with unknown tags and keeps the others in order. */
  lemma {:induction false} DecodeConcat(a: seq<SerialEvent>, b: seq<SerialEvent>)
    ensures DecodeEvents(a + b) == DecodeEvents(a) + DecodeEvents(b)
    decreases |b|
  {
    if b == [] {
      assert a + b == a;
    } else {
      var ab := a + b;
      var init := b[..|b| - 1];
      var last := DecodeEvent(b[|b| - 1]);
      var tail := if last.Some? then [last.value] else [];
      assert ab[..|ab| - 1] == a + init;
      assert ab[|ab| - 1] == b[|b| - 1];
      assert DecodeEvents(ab) == DecodeEvents(a + init) + tail;
      assert DecodeEvents(b) == DecodeEvents(init) + tail;
      DecodeConcat(a, init);
    }
  }

  predicate AllSupported(events: seq<TimedEvent>) {
    forall i :: 0 <= i < |events| ==> Supported(events[i].key)
  }

  /** One event with a supported key survives encoding and decoding. */
  lemma EventRoundTrip(e: TimedEvent)
    requires Supported(e.key)
    ensures DecodeEvent(EncodeEvent(e)) == Some(e)
  {
    CodecRoundTrip(e.key);
    assert ModeFromSerial(ModeToSerial(e.mode)) == e.mode;
  }

  /** Decoding one more event whose tag is known appends its decoding. */
  lemma DecodeStep(init: seq<SerialEvent>, x: SerialEvent, done: seq<TimedEvent>, e: TimedEvent)
    requires DecodeEvents(init) == done
    requires DecodeEvent(x) == Some(e)
    ensures DecodeEvents(init + [x]) == done + [e]
  {
    var es := init + [x];
    assert es[..|es| - 1] == init;
    assert es[|es| - 1] == x;
  }

  /** A non-empty sequence is its prefix followed by its last element. */
  lemma SplitLast<T>(s: seq<T>)
    requires s != []
    ensures s == s[..|s| - 1] + [s[|s| - 1]]
  {
  }

  /** Encoding works event by event. */
  lemma EncodeSnoc(init: seq<TimedEvent>, e: TimedEvent)
    ensures EncodeEvents(init + [e]) == EncodeEvents(init) + [EncodeEvent(e)]
  {
  }

  /** Encoding then decoding a sequence of events with supported keys gives
      back the same events, in order. */
  lemma {:induction false} EventsRoundTrip(events: seq<TimedEvent>)
    requires AllSupported(events)
    ensures DecodeEvents(EncodeEvents(events)) == events
    decreases |events|
  {
    if events != [] {
      var init := events[..|events| - 1];
      var e := events[|events| - 1];
      EventsRoundTrip(init);
      EventRoundTrip(e);
      EncodeSnoc(init, e);
      DecodeStep(EncodeEvents(init), EncodeEvent(e), init, e);
      SplitLast(events);
    }
  }

  /** Saving then loading a store whose keys are all supported gives the same
      store back: same ids, start times, names and events, in order. */
  lemma SaveLoadRoundTrip(samples: seq<Sample>)
    requires forall i :: 0 <= i < |samples| ==> AllSupported(samples[i].events)
    ensures DecodeAll(ToSerializable(samples)) == samples
  {
    var back := DecodeAll(ToSerializable(samples));
    forall i | 0 <= i < |samples| ensures back[i] == samples[i] {
      var s := samples[i];
      EventsRoundTrip(s.events);
    }
  }
}
