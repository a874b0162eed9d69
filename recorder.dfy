/**
  The first engine's recorder (`MacroRecorder`): a live buffer of key edges
  filled while recording, a store of numbered samples, and the settings the
  hotkeys, the allow-list and playback read.

  Each mutating method is tied to a pure transition on a `Store` snapshot of
  the recorder's buffers; the properties are proved about the transitions.
  The listener thread and its channel are left out: the recorder sees one
  channel message per call of `Step`.
*/
module Recorder {
  import opened Wrappers
  import opened Enigo
  import Rdev
  import opened Clock
  import opened Text
  import opened KeyCodec
  import opened Samples
  import Aggregator

  // ---------------------------------------------------------------------------
  // One channel message and where it goes
  // ---------------------------------------------------------------------------

  /** A key edge as the listener reports it, with its timestamp in nanoseconds. */
  datatype Message = Message(mode: Mode, raw: Rdev.Key, ts: nat)

  datatype Route = ToggleRecording | LaunchPlayback | RecordEdge(key: Key) | Ignore

  /** The branch `poll_events` takes for one message. */
  function RouteOf(m: Message, toggle: Rdev.Key, playback: Rdev.Key, recording: bool, allowed: seq<Key>): Route {
    if m.raw == toggle && m.mode == Press then ToggleRecording
    else if m.raw == playback && m.mode == Press then LaunchPlayback
    else if recording && MapKey(m.raw).Some? then
      var k := MapKey(m.raw).value;
      if allowed != [] && k !in allowed then Ignore else RecordEdge(k)
    else Ignore
  }

  /** A hotkey press is never recorded; any other edge is recorded exactly
      when recording is on, the key maps to an injector key, and the
      allow-list is empty or holds that key. */
  lemma RouteMeaning(m: Message, toggle: Rdev.Key, playback: Rdev.Key, recording: bool, allowed: seq<Key>)
    ensures RouteOf(m, toggle, playback, recording, allowed) == ToggleRecording <==> m.raw == toggle && m.mode == Press
    ensures RouteOf(m, toggle, playback, recording, allowed) == LaunchPlayback <==>
              m.raw == playback && m.mode == Press && m.raw != toggle
    ensures RouteOf(m, toggle, playback, recording, allowed).RecordEdge? <==>
              !(m.mode == Press && (m.raw == toggle || m.raw == playback))
              && recording && MapKey(m.raw).Some? && (allowed == [] || MapKey(m.raw).value in allowed)
    ensures RouteOf(m, toggle, playback, recording, allowed).RecordEdge? ==>
              RouteOf(m, toggle, playback, recording, allowed).key == MapKey(m.raw).value
  {
  }

  /** Whole milliseconds from `start` to `ts`, zero if `ts` is earlier
      (`saturating_duration_since(..).as_millis()`). */
  function SatMs(ts: nat, start: nat): nat {
    Elapsed(ts, start) / Millisecond
  }

  /** Later timestamps never give smaller deltas. */
  lemma SatMsMonotone(ts1: nat, ts2: nat, start: nat)
    requires ts1 <= ts2
    ensures SatMs(ts1, start) <= SatMs(ts2, start)
  {
  }

  // ---------------------------------------------------------------------------
  // The recorder's buffers and their transitions
  // ---------------------------------------------------------------------------

  /** The buffers the recorder changes; its settings are kept apart. */
  datatype Store = Store(liveEvents: seq<TimedEvent>, samples: seq<Sample>, isRecording: bool,
                         pressedKeys: set<Key>, recordingStart: Option<nat>, sampleCounter: nat)

  predicate IdsAtMost(samples: seq<Sample>, n: nat) {
    forall i :: 0 <= i < |samples| ==> samples[i].id <= n
  }

  /** Recording is on exactly when a start time is set, the buffer is empty
      when it is off, and no stored id is above the counter. */
  predicate Inv(s: Store) {
    (s.isRecording <==> s.recordingStart.Some?)
    && (!s.isRecording ==> s.liveEvents == [])
    && IdsAtMost(s.samples, s.sampleCounter)
  }

  function SampleName(id: nat): string {
    "sample-" + NatToString(id)
  }

  /** `start_recording`. */
  function Started(s: Store, now: nat): Store {
    s.(isRecording := true, recordingStart := Some(now), liveEvents := [])
  }

  /** `finish_recording`: store the buffer under the next id if recording,
      then stop and empty the buffer in every case. */
  function Finished(s: Store, startedAt: nat): Store {
    var stored :=
      if s.isRecording then
        var id := s.sampleCounter + 1;
        s.(sampleCounter := id, samples := s.samples + [Sample(id, startedAt, SampleName(id), s.liveEvents)])
      else s;
    stored.(isRecording := false, recordingStart := None, liveEvents := [])
  }

  /** `clear`. */
  function Cleared(s: Store): Store {
    s.(liveEvents := [], pressedKeys := {})
  }

  /** The recording branch of `poll_events` for a mapped, allowed key. */
  function Recorded(s: Store, k: Key, mode: Mode, ts: nat): Store {
    var live :=
      if s.recordingStart.Some? then s.liveEvents + [TimedEvent(k, mode, SatMs(ts, s.recordingStart.value))]
      else s.liveEvents;
    s.(liveEvents := live,
       pressedKeys := if mode == Press then s.pressedKeys + {k} else s.pressedKeys - {k})
  }

  /** The buffers after one message taking `route`; `now` is the time the
      message is handled, `startedAt` the start stamp a finished sample gets. */
  function Stepped(s: Store, route: Route, m: Message, now: nat, startedAt: nat): Store {
    match route
    case ToggleRecording => if s.isRecording then Finished(s, startedAt) else Started(s, now)
    case LaunchPlayback => s
    case RecordEdge(k) => Recorded(s, k, m.mode, m.ts)
    case Ignore => s
  }

  /** Finishing stores exactly one sample when recording, even an empty one,
      under a fresh id one above the counter; it always stops and empties the
      buffer. */
  lemma FinishMeaning(s: Store, startedAt: nat)
    requires Inv(s)
    ensures var f := Finished(s, startedAt);
      !f.isRecording && f.recordingStart == None && f.liveEvents == [] && f.pressedKeys == s.pressedKeys
    ensures s.isRecording ==>
      var f := Finished(s, startedAt);
      f.sampleCounter == s.sampleCounter + 1
      && f.samples == s.samples + [Sample(f.sampleCounter, startedAt, SampleName(f.sampleCounter), s.liveEvents)]
      && forall i :: 0 <= i < |s.samples| ==> s.samples[i].id != f.sampleCounter
    ensures !s.isRecording ==> Finished(s, startedAt) == s
  {
  }

  /** Every transition keeps the invariant. */
  lemma SteppedKeepsInv(s: Store, route: Route, m: Message, now: nat, startedAt: nat)
    requires Inv(s)
    ensures Inv(Stepped(s, route, m, now, startedAt))
    ensures Inv(Cleared(s))
  {
    match route {
      case ToggleRecording =>
        if s.isRecording {
          var f := Finished(s, startedAt);
          assert f.samples[..|s.samples|] == s.samples;
          assert forall i :: 0 <= i < |s.samples| ==> f.samples[i] == s.samples[i];
        }
      case LaunchPlayback =>
      case RecordEdge(k) =>
      case Ignore =>
    }
  }

  /** A hotkey press adds no edge: the buffer is left alone or emptied. */
  lemma HotkeyPressNotRecorded(s: Store, m: Message, toggle: Rdev.Key, playback: Rdev.Key,
                               allowed: seq<Key>, now: nat, startedAt: nat)
    requires m.mode == Press && (m.raw == toggle || m.raw == playback)
    ensures var after := Stepped(s, RouteOf(m, toggle, playback, s.isRecording, allowed), m, now, startedAt);
      after.liveEvents == [] || after.liveEvents == s.liveEvents
  {
  }

  /** A recorded edge is appended with the saturating delay since the start;
      a press adds the key to the pressed set and a release removes it. */
  lemma RecordMeaning(s: Store, k: Key, mode: Mode, ts: nat)
    requires Inv(s) && s.isRecording
    ensures Recorded(s, k, mode, ts).liveEvents ==
              s.liveEvents + [TimedEvent(k, mode, SatMs(ts, s.recordingStart.value))]
    ensures mode == Press ==> Recorded(s, k, mode, ts).pressedKeys == s.pressedKeys + {k}
    ensures mode == Release ==> Recorded(s, k, mode, ts).pressedKeys == s.pressedKeys - {k}
    ensures Recorded(s, k, mode, ts).samples == s.samples
  {
  }

  predicate DeltasSorted(events: seq<TimedEvent>) {
    forall i, j :: 0 <= i < j < |events| ==> events[i].deltaMs <= events[j].deltaMs
  }

  /** The live buffer stays in order of delay when messages arrive in
      timestamp order: every delay so far is at most that of time `ts`, and a
      recorded edge at a later time keeps both facts for that time. */
  lemma RecordKeepsOrder(s: Store, k: Key, mode: Mode, last: nat, ts: nat)
    requires Inv(s) && s.isRecording && last <= ts
    requires DeltasSorted(s.liveEvents)
    requires forall i :: 0 <= i < |s.liveEvents| ==> s.liveEvents[i].deltaMs <= SatMs(last, s.recordingStart.value)
    ensures DeltasSorted(Recorded(s, k, mode, ts).liveEvents)
    ensures forall i :: 0 <= i < |Recorded(s, k, mode, ts).liveEvents| ==>
              Recorded(s, k, mode, ts).liveEvents[i].deltaMs <= SatMs(ts, s.recordingStart.value)
  {
    SatMsMonotone(last, ts, s.recordingStart.value);
    var live := Recorded(s, k, mode, ts).liveEvents;
    assert live == s.liveEvents + [TimedEvent(k, mode, SatMs(ts, s.recordingStart.value))];
    assert forall i :: 0 <= i < |s.liveEvents| ==> live[i] == s.liveEvents[i];
  }

  // ---------------------------------------------------------------------------
  // The sample store
  // ---------------------------------------------------------------------------

  /** `samples.retain(|s| s.id != id)`. */
  function Without(samples: seq<Sample>, id: nat): (r: seq<Sample>)
    ensures forall i :: 0 <= i < |r| ==> r[i].id != id
    decreases |samples|
  {
    if samples == [] then []
    else
      var rest := Without(samples[..|samples| - 1], id);
      if samples[|samples| - 1].id == id then rest else rest + [samples[|samples| - 1]]
  }

  /** Deleting keeps exactly the samples with another id. */
  lemma {:induction false} WithoutMembers(samples: seq<Sample>, id: nat)
    ensures forall x :: x in Without(samples, id) <==> x in samples && x.id != id
    decreases |samples|
  {
    if samples != [] {
      var init := samples[..|samples| - 1];
      WithoutMembers(init, id);
      assert samples == init + [samples[|samples| - 1]];
    }
  }

  /** Deleting keeps the others in their order: it distributes over
      concatenation. */
  lemma {:induction false} WithoutConcat(a: seq<Sample>, b: seq<Sample>, id: nat)
    ensures Without(a + b, id) == Without(a, id) + Without(b, id)
    decreases |b|
  {
    if b != [] {
      var init := b[..|b| - 1];
      WithoutConcat(a, init, id);
      assert (a + b)[..|a + b| - 1] == a + init;
    } else {
      assert a + b == a;
    }
  }

  /** The position of the first sample with `id`. */
  function FirstWithId(samples: seq<Sample>, id: nat): (r: Option<nat>)
    ensures r.Some? ==> r.value < |samples| && samples[r.value].id == id
                        && forall j :: 0 <= j < r.value ==> samples[j].id != id
    ensures r.None? ==> forall j :: 0 <= j < |samples| ==> samples[j].id != id
    decreases |samples|
  {
    if samples == [] then None
    else if samples[0].id == id then Some(0)
    else
      match FirstWithId(samples[1..], id)
      case None => None
      case Some(i) => Some(i + 1)
  }

  /** `rename_sample`: the first sample with `id` takes the new name. */
  function Renamed(samples: seq<Sample>, id: nat, name: string): seq<Sample> {
    match FirstWithId(samples, id)
    case None => samples
    case Some(i) => samples[i := samples[i].(name := name)]
  }

  /** Renaming changes only the name of the first match, and nothing when
      no sample has that id. */
  lemma RenameMeaning(samples: seq<Sample>, id: nat, name: string)
    ensures |Renamed(samples, id, name)| == |samples|
    ensures forall i :: 0 <= i < |samples| ==>
              Renamed(samples, id, name)[i].(name := samples[i].name) == samples[i]
    ensures forall i :: 0 <= i < |samples| && Renamed(samples, id, name)[i] != samples[i] ==>
              FirstWithId(samples, id) == Some(i) && Renamed(samples, id, name)[i].name == name
    ensures (forall j :: 0 <= j < |samples| ==> samples[j].id != id) ==> Renamed(samples, id, name) == samples
  {
  }

  /** What the samples file holds: no file, a file that cannot be read, or
      its text with the samples it parses to (`None` when it is malformed). */
  datatype Disk = Missing | Unreadable | Contents(text: string, parsed: Option<seq<SerialSample>>)

  /** The largest id, 0 for no samples. */
  function MaxId(samples: seq<Sample>): (r: nat)
    ensures IdsAtMost(samples, r)
    ensures samples == [] ==> r == 0
    ensures samples != [] ==> exists i :: 0 <= i < |samples| && samples[i].id == r
    decreases |samples|
  {
    if samples == [] then 0
    else
      var m := MaxId(samples[1..]);
      assert forall i :: 1 <= i < |samples| ==> samples[i] == samples[1..][i - 1];
      if samples[0].id >= m then samples[0].id else m
  }

  /** The state update of `load_from_disk`: a missing, unreadable or blank
      file leaves the store alone; otherwise the parsed samples (none when
      the text is malformed) replace the store and the counter becomes their
      largest id. */
  function Loaded(s: Store, disk: Disk): Store {
    match disk
    case Missing => s
    case Unreadable => s
    case Contents(text, parsed) =>
      if Trim(text) == [] then s
      else
        var converted := DecodeAll(parsed.GetOr([]));
        s.(samples := converted, sampleCounter := MaxId(converted))
  }

  /** After a load the counter is the largest stored id, so the next
      finished sample gets an id no stored sample has. */
  lemma LoadMeaning(s: Store, disk: Disk)
    requires Inv(s)
    ensures Inv(Loaded(s, disk))
    ensures disk.Contents? && Trim(disk.text) != [] ==>
              Loaded(s, disk).samples == DecodeAll(disk.parsed.GetOr([]))
              && Loaded(s, disk).sampleCounter == MaxId(Loaded(s, disk).samples)
    ensures disk.Contents? && Trim(disk.text) != [] && disk.parsed == None ==>
              Loaded(s, disk).samples == [] && Loaded(s, disk).sampleCounter == 0
    ensures !disk.Contents? || Trim(disk.text) == [] ==> Loaded(s, disk) == s
  {
  }

  /** Deleting and renaming keep the invariant. */
  lemma StoreOpsKeepInv(s: Store, id: nat, name: string)
    requires Inv(s)
    ensures Inv(s.(samples := Without(s.samples, id)))
    ensures Inv(s.(samples := Renamed(s.samples, id, name)))
  {
    WithoutMembers(s.samples, id);
    var w := Without(s.samples, id);
    forall i | 0 <= i < |w|
      ensures w[i].id <= s.sampleCounter
    {
      assert w[i] in s.samples;
    }
    RenameMeaning(s.samples, id, name);
  }

  // ---------------------------------------------------------------------------
  // Per-key offsets
  // ---------------------------------------------------------------------------

  /** `key_offsets_snapshot`: the entries whose name decodes to a key. */
  function OffsetsOf(perKey: map<string, int>): set<(Key, int)> {
    set name | name in perKey && StringToKey(name).Some? :: (StringToKey(name).value, perKey[name])
  }

  /** An offset set for a supported key shows up in the snapshot, as the
      only offset of that key when the key is a named one; one set for any
      other key never shows up. */
  lemma SetOffsetVisible(perKey: map<string, int>, k: Key, offset: int)
    ensures Supported(k) ==> (k, offset) in OffsetsOf(perKey[KeyToString(k) := offset])
    ensures Named(k) ==> forall v :: (k, v) in OffsetsOf(perKey[KeyToString(k) := offset]) ==> v == offset
    ensures !Supported(k) ==> OffsetsOf(perKey[KeyToString(k) := offset]) == OffsetsOf(perKey)
  {
    var m := perKey[KeyToString(k) := offset];
    if Supported(k) {
      CodecRoundTrip(k);
      forall v | Named(k) && (k, v) in OffsetsOf(m)
        ensures v == offset
      {
        var name :| name in m && StringToKey(name).Some? && (StringToKey(name).value, m[name]) == (k, v);
        CodecRoundTrip(StringToKey(name).value);
        StringToKeyInverse(name);
      }
    } else {
      UnsupportedIsOther(k);
    }
  }

  /** A name that decodes is the encoding of what it decodes to. */
  lemma StringToKeyInverse(name: string)
    requires StringToKey(name).Some?
    ensures Supported(StringToKey(name).value)
    ensures StringToKey(name).value.Layout? || KeyToString(StringToKey(name).value) == name
  {
  }

  // ---------------------------------------------------------------------------
  // The recorder
  // ---------------------------------------------------------------------------

  class MacroRecorder {
    var liveEvents: seq<TimedEvent>
    var samples: seq<Sample>
    var isRecording: bool
    var allowedKeys: seq<Key>
    var pressedKeys: set<Key>
    var recordingStart: Option<nat>
    var sampleCounter: nat
    var perKeyOffset: map<string, int>
    var hotkeyToggle: Rdev.Key
    var hotkeyPlayback: Rdev.Key
    var outlierK: real
    var useMedian: bool
    var playbackOffsetMs: int
    var autosave: bool

    function Snapshot(): Store
      reads this
    {
      Store(liveEvents, samples, isRecording, pressedKeys, recordingStart, sampleCounter)
    }

    ghost predicate Valid()
      reads this
    {
      Inv(Snapshot())
    }

    /** The settings no buffer operation touches. */
    twostate predicate SameSettings()
      reads this
    {
      allowedKeys == old(allowedKeys) && perKeyOffset == old(perKeyOffset)
      && hotkeyToggle == old(hotkeyToggle) && hotkeyPlayback == old(hotkeyPlayback)
      && outlierK == old(outlierK) && useMedian == old(useMedian)
      && playbackOffsetMs == old(playbackOffsetMs) && autosave == old(autosave)
    }

    /** The tuning fields that only the interface sets, left alone by every setter. */
    twostate predicate SameTuning()
      reads this
    {
      outlierK == old(outlierK) && useMedian == old(useMedian)
      && playbackOffsetMs == old(playbackOffsetMs) && autosave == old(autosave)
    }

    /** Where the next message goes under the current settings. */
    function Routed(m: Message): Route
      reads this
    {
      RouteOf(m, hotkeyToggle, hotkeyPlayback, isRecording, allowedKeys)
    }

    /** `Default`: not recording, nothing stored, F9 toggles and F10 plays,
        outlier factor 2, mean mode, no offset, autosave on. */
    constructor()
      ensures Valid()
      ensures Snapshot() == Store([], [], false, {}, None, 0)
      ensures allowedKeys == [] && perKeyOffset == map[]
      ensures hotkeyToggle == Rdev.F(9) && hotkeyPlayback == Rdev.F(10)
      ensures outlierK == 2.0 && !useMedian && playbackOffsetMs == 0 && autosave
    {
      liveEvents, samples, isRecording := [], [], false;
      allowedKeys, pressedKeys, recordingStart := [], {}, None;
      sampleCounter, perKeyOffset := 0, map[];
      hotkeyToggle, hotkeyPlayback := Rdev.F(9), Rdev.F(10);
      outlierK, useMedian, playbackOffsetMs, autosave := 2.0, false, 0, true;
    }

    method StartRecording(now: nat)
      requires Valid()
      modifies this
      ensures Valid() && SameSettings()
      ensures Snapshot() == Started(old(Snapshot()), now)
    {
      isRecording := true;
      recordingStart := Some(now);
      liveEvents := [];
    }

    /** The file write of autosave is not modelled. */
    method FinishRecording(startedAt: nat)
      requires Valid()
      modifies this
      ensures Valid() && SameSettings()
      ensures Snapshot() == Finished(old(Snapshot()), startedAt)
    {
      FinishMeaning(Snapshot(), startedAt);
      SteppedKeepsInv(Snapshot(), ToggleRecording, Message(Press, hotkeyToggle, 0), 0, startedAt);
      if isRecording {
        sampleCounter := sampleCounter + 1;
        samples := samples + [Sample(sampleCounter, startedAt, SampleName(sampleCounter), liveEvents)];
      }
      isRecording := false;
      recordingStart := None;
      liveEvents := [];
    }

    method Clear()
      requires Valid()
      modifies this
      ensures Valid() && SameSettings()
      ensures Snapshot() == Cleared(old(Snapshot()))
    {
      liveEvents := [];
      pressedKeys := {};
    }

    /** One message of `poll_events`. A playback hotkey press computes the
        timing map and returns it when it is not empty: those are the events
        handed to the player. */
    method Step(m: Message, now: nat, startedAt: nat)
      returns (launched: Option<seq<TimedEvent>>, ghost order: seq<Aggregator.Slot>)
      requires Valid()
      modifies this
      ensures Valid() && SameSettings()
      ensures Snapshot() == Stepped(old(Snapshot()), old(Routed(m)), m, now, startedAt)
      ensures launched.Some? ==> old(Routed(m)) == LaunchPlayback && launched.value != []
      ensures launched.Some? ==> Aggregator.Enumerates(order, Aggregator.Buckets(samples).Keys)
                                 && Aggregator.Covers(order, Aggregator.Buckets(samples))
      ensures launched.Some? && Aggregator.Covers(order, Aggregator.Buckets(samples)) ==>
                launched.value == Aggregator.Timeline(order, Aggregator.Buckets(samples), useMedian,
                                                      Aggregator.OutlierKeep(outlierK), Aggregator.DebugRebuild)
      ensures old(Routed(m)) == LaunchPlayback ==> (launched.Some? <==> Aggregator.ExpectedLen(samples) > 0)
    {
      var route := RouteOf(m, hotkeyToggle, hotkeyPlayback, isRecording, allowedKeys);
      SteppedKeepsInv(Snapshot(), route, m, now, startedAt);
      launched, order := None, [];
      match route {
        case ToggleRecording =>
          if isRecording {
            FinishRecording(startedAt);
          } else {
            StartRecording(now);
          }
        case LaunchPlayback =>
          var events;
          events, order := Aggregator.TimingMap(samples, useMedian, Aggregator.OutlierKeep(outlierK));
          Aggregator.TimelineShape(samples, order, useMedian, Aggregator.OutlierKeep(outlierK), Aggregator.DebugRebuild);
          if events != [] {
            launched := Some(events);
          }
        case RecordEdge(k) =>
          if recordingStart.Some? {
            liveEvents := liveEvents + [TimedEvent(k, m.mode, SatMs(m.ts, recordingStart.value))];
          }
          if m.mode == Press {
            pressedKeys := pressedKeys + {k};
          } else {
            pressedKeys := pressedKeys - {k};
          }
        case Ignore =>
      }
    }

    /** `delete_sample`, retaining the others in place; the file write is
        not modelled. */
    method DeleteSample(id: nat)
      requires Valid()
      modifies this
      ensures Valid() && SameSettings()
      ensures Snapshot() == old(Snapshot()).(samples := Without(old(samples), id))
    {
      StoreOpsKeepInv(Snapshot(), id, []);
      var kept: seq<Sample> := [];
      var i := 0;
      while i < |samples|
        invariant 0 <= i <= |samples|
        invariant kept == Without(samples[..i], id)
      {
        assert samples[..i + 1][..i] == samples[..i];
        if samples[i].id != id {
          kept := kept + [samples[i]];
        }
        i := i + 1;
      }
      assert samples[..i] == samples;
      samples := kept;
    }

    /** `rename_sample`: find the first match and rename it in place. */
    method RenameSample(id: nat, name: string)
      requires Valid()
      modifies this
      ensures Valid() && SameSettings()
      ensures Snapshot() == old(Snapshot()).(samples := Renamed(old(samples), id, name))
    {
      StoreOpsKeepInv(Snapshot(), id, name);
      var i := 0;
      while i < |samples| && samples[i].id != id
        invariant 0 <= i <= |samples|
        invariant forall j :: 0 <= j < i ==> samples[j].id != id
      {
        i := i + 1;
      }
      if i < |samples| {
        assert FirstWithId(samples, id) == Some(i);
        samples := samples[i := samples[i].(name := name)];
      } else {
        assert FirstWithId(samples, id) == None;
      }
    }

    /** The state update of `load_from_disk` for what the file holds; the
        result is false only when the file exists but cannot be read. */
    method Load(disk: Disk) returns (ok: bool)
      requires Valid()
      modifies this
      ensures Valid() && SameSettings()
      ensures Snapshot() == Loaded(old(Snapshot()), disk)
      ensures ok <==> !disk.Unreadable?
    {
      LoadMeaning(Snapshot(), disk);
      ok := true;
      match disk {
        case Missing =>
        case Unreadable =>
          ok := false;
        case Contents(text, parsed) =>
          if Trim(text) != [] {
            var converted := FromSerializable(parsed.GetOr([]));
            sampleCounter := MaxId(converted);
            samples := converted;
          }
      }
    }

    /** `set_key_offset`: the offset is an `i32`. */
    method SetKeyOffset(k: Key, offset: int)
      requires -0x8000_0000 <= offset < 0x8000_0000
      modifies this
      ensures perKeyOffset == old(perKeyOffset)[KeyToString(k) := offset]
      ensures Snapshot() == old(Snapshot())
      ensures allowedKeys == old(allowedKeys) && hotkeyToggle == old(hotkeyToggle) && hotkeyPlayback == old(hotkeyPlayback)
      ensures SameTuning()
    {
      perKeyOffset := perKeyOffset[KeyToString(k) := offset];
    }

    function KeyOffsetsSnapshot(): set<(Key, int)>
      reads this
    {
      OffsetsOf(perKeyOffset)
    }

    method SetAllowedKeys(keys: seq<Key>)
      modifies this
      ensures allowedKeys == keys && Snapshot() == old(Snapshot())
      ensures perKeyOffset == old(perKeyOffset) && hotkeyToggle == old(hotkeyToggle) && hotkeyPlayback == old(hotkeyPlayback)
      ensures SameTuning()
    {
      allowedKeys := keys;
    }

    method SetHotkeys(toggle: Rdev.Key, playback: Rdev.Key)
      modifies this
      ensures hotkeyToggle == toggle && hotkeyPlayback == playback && Snapshot() == old(Snapshot())
      ensures allowedKeys == old(allowedKeys) && perKeyOffset == old(perKeyOffset)
      ensures SameTuning()
    {
      hotkeyToggle, hotkeyPlayback := toggle, playback;
    }
  }
}
