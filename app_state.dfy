/**
  The second engine's application state (`AppState`): a recording buffer of
  `Down`/`Up` actions timed from the start of the recording, a list of named
  samples, the tracked-key list of the overlay with the last known state of
  each key, and the playback flags.

  The shared cells (`Arc<Mutex<..>>`, atomics) become fields of one object,
  the listener callback becomes `HandleEvent`, and every clock reading is a
  parameter.  As for the recorder, each mutating method is tied to a pure
  transition on a `Store` snapshot, and the properties are proved about the
  transitions.
*/
module State {
  import opened Wrappers
  import opened Enigo
  import Rdev
  import opened Clock
  import opened Text
  import opened Sorting
  import opened Schema
  import KeyCodec
  import MacroPlay

  // ---------------------------------------------------------------------------
  // Key conversion and offsets
  // ---------------------------------------------------------------------------

  /** `convert_key`: every letter and digit, the editing and arrow keys, and
      the modifiers except the Windows keys. */
  function ConvertKey(raw: Rdev.Key): Option<Key> {
    match raw
    case KeyLetter(c) => Some(Layout(LowerChar(c)))
    case Num(d) => Some(Layout(DigitChar(d)))
    case Space => Some(Space)
    case Return => Some(Return)
    case Backspace => Some(Backspace)
    case Tab => Some(Tab)
    case Escape => Some(Escape)
    case UpArrow => Some(UpArrow)
    case DownArrow => Some(DownArrow)
    case LeftArrow => Some(LeftArrow)
    case RightArrow => Some(RightArrow)
    case ShiftLeft => Some(Shift)
    case ShiftRight => Some(Shift)
    case ControlLeft => Some(Control)
    case ControlRight => Some(Control)
    case Alt => Some(Alt)
    case AltGr => Some(Alt)
    case _ => None
  }

  /** The second engine's mapping agrees with the recorder's on every key
      the recorder maps except the Windows keys, which only the recorder
      maps; it maps more: every letter, every digit and Backspace.  It never
      yields an unlisted key or Meta, and function keys are never mapped. */
  lemma ConvertKeyAgrees(raw: Rdev.Key)
    ensures KeyCodec.MapKey(raw).Some? && !(raw.MetaLeft? || raw.MetaRight?) ==>
              ConvertKey(raw) == KeyCodec.MapKey(raw)
    ensures raw.MetaLeft? || raw.MetaRight? ==> ConvertKey(raw) == None && KeyCodec.MapKey(raw) == Some(Meta)
    ensures raw.KeyLetter? || raw.Num? || raw.Backspace? ==> ConvertKey(raw).Some?
    ensures ConvertKey(raw).Some? ==> !ConvertKey(raw).value.Unlisted? && !ConvertKey(raw).value.Meta?
    ensures raw.F? ==> ConvertKey(raw) == None
  {
  }

  /** Letters map to their lower-case character and digits to their digit
      character, so distinct letter or digit keys give distinct keys. */
  lemma ConvertKeyCharacters(a: Rdev.Key, b: Rdev.Key)
    requires (a.KeyLetter? || a.Num?) && (b.KeyLetter? || b.Num?)
    ensures ConvertKey(a) == ConvertKey(b) <==> a == b
  {
  }

  /** `max(at - d, 0)` on durations. */
  function SaturatingSub(at: nat, d: nat): nat {
    if at >= d then at - d else 0
  }

  /** `apply_offset` in this file: add a non-negative millisecond offset,
      saturating-subtract the magnitude of a negative one. */
  function ApplyOffset(at: nat, offsetMs: int): nat {
    if offsetMs >= 0 then at + offsetMs * Millisecond
    else SaturatingSub(at, (-offsetMs) * Millisecond)
  }

  /** The state's offset rule is the player's: both clamp at + offset at 0. */
  lemma ApplyOffsetSameRule(at: nat, offsetMs: int)
    ensures ApplyOffset(at, offsetMs) == MacroPlay.ApplyOffset(at, offsetMs)
    ensures ApplyOffset(at, offsetMs) == if at + offsetMs * Millisecond >= 0 then at + offsetMs * Millisecond else 0
  {
  }

  // ---------------------------------------------------------------------------
  // Samples, merging
  // ---------------------------------------------------------------------------

  datatype Sample = Sample(name: string, events: seq<TimedEvent>)

  function At(e: TimedEvent): nat { e.at }

  /** `samples.iter().flat_map(|s| s.events.clone())`. */
  function Flatten(samples: seq<Sample>): seq<TimedEvent>
    decreases |samples|
  {
    if samples == [] then [] else Flatten(samples[..|samples| - 1]) + samples[|samples| - 1].events
  }

  /** The concatenation is empty exactly when every sample is. */
  lemma {:induction false} FlattenEmpty(samples: seq<Sample>)
    ensures Flatten(samples) == [] <==> forall i :: 0 <= i < |samples| ==> samples[i].events == []
    decreases |samples|
  {
    if samples != [] {
      var init := samples[..|samples| - 1];
      FlattenEmpty(init);
      assert forall i :: 0 <= i < |init| ==> init[i] == samples[i];
    }
  }

  /** Every event of every sample is in the concatenation, and nothing else. */
  lemma {:induction false} FlattenMembers(samples: seq<Sample>)
    ensures forall e :: e in Flatten(samples) <==> exists i :: 0 <= i < |samples| && e in samples[i].events
    decreases |samples|
  {
    if samples != [] {
      var init := samples[..|samples| - 1];
      FlattenMembers(init);
      forall e | e in Flatten(samples)
        ensures exists i :: 0 <= i < |samples| && e in samples[i].events
      {
        if e in Flatten(init) {
          var i :| 0 <= i < |init| && e in init[i].events;
          assert samples[i] == init[i];
        } else {
          assert e in samples[|samples| - 1].events;
        }
      }
      forall e, i | 0 <= i < |samples| && e in samples[i].events
        ensures e in Flatten(samples)
      {
        if i < |init| {
          assert init[i] == samples[i];
        }
      }
    }
  }

  // ---------------------------------------------------------------------------
  // The state's buffers and their transitions
  // ---------------------------------------------------------------------------

  /** The state `AppState` shares between the listener and the interface. */
  datatype Store = Store(recording: bool, start: Option<nat>, currentEvents: seq<TimedEvent>,
                         samples: seq<Sample>, playbackStop: bool, playing: bool,
                         trackedKeys: seq<Key>, keyStates: map<Key, bool>)

  /** A started recording has a start time (it is never reset). */
  predicate Inv(s: Store) {
    s.recording ==> s.start.Some?
  }

  /** `start_recording`. */
  function Started(s: Store, now: nat): Store {
    s.(currentEvents := [], start := Some(now), recording := true)
  }

  /** `stop_recording`: when recording, stop, and store a non-empty buffer
      as "Sample n+1"; the buffer itself is kept. */
  function Stopped(s: Store): Store {
    if !s.recording then s
    else if s.currentEvents == [] then s.(recording := false)
    else
      s.(recording := false,
         samples := s.samples + [Sample("Sample " + NatToString(|s.samples| + 1), s.currentEvents)])
  }

  /** `merge_samples`: append "Merged n+1", the stable sort by time of all
      events, unless there are no samples or no events. */
  function Merged(s: Store): Store {
    if s.samples == [] then s
    else
      var merged := SortBy(Flatten(s.samples), At);
      if merged == [] then s
      else s.(samples := s.samples + [Sample("Merged " + NatToString(|s.samples| + 1), merged)])
  }

  /** `stop_playback`'s flag updates (the thread join is not modelled). */
  function PlaybackStopped(s: Store): Store {
    s.(playbackStop := true, playing := false)
  }

  /** `playback_latest`'s flag updates: nothing without a non-empty last
      sample; otherwise stop any playback, then clear the stop flag and mark
      playing (the player and its watcher thread are not modelled). */
  function PlaybackStarted(s: Store): Store {
    if s.samples == [] || s.samples[|s.samples| - 1].events == [] then s
    else PlaybackStopped(s).(playbackStop := false, playing := true)
  }

  /** An event the listener reports. */
  datatype Event = KeyPress(key: Rdev.Key) | KeyRelease(key: Rdev.Key) | OtherEvent

  /** `handle_event` at clock reading `now`. */
  function Handled(s: Store, ev: Event, now: nat): Store {
    if ev == KeyPress(Rdev.F(9)) then
      if s.recording then Stopped(s) else Started(s, now)
    else if ev == KeyPress(Rdev.F(10)) then
      if s.playing then PlaybackStopped(s) else PlaybackStarted(Stopped(s))
    else if !s.recording || s.start.None? then s
    else
      match ev
      case KeyPress(raw) =>
        if ConvertKey(raw).None? then s
        else
          var k := ConvertKey(raw).value;
          s.(keyStates := s.keyStates[k := true],
             currentEvents := s.currentEvents + [TimedEvent(Elapsed(now, s.start.value), Down(k))])
      case KeyRelease(raw) =>
        if ConvertKey(raw).None? then s
        else
          var k := ConvertKey(raw).value;
          s.(keyStates := s.keyStates[k := false],
             currentEvents := s.currentEvents + [TimedEvent(Elapsed(now, s.start.value), Up(k))])
      case OtherEvent => s
  }

  /** Stopping is a no-op unless recording; otherwise it stores one sample
      exactly when the buffer is non-empty, after the unchanged earlier
      samples, and keeps the buffer. */
  lemma StopMeaning(s: Store)
    ensures !s.recording ==> Stopped(s) == s
    ensures s.recording ==> !Stopped(s).recording && Stopped(s).currentEvents == s.currentEvents
    ensures s.recording ==>
              (|Stopped(s).samples| == |s.samples| + 1 <==> s.currentEvents != [])
    ensures Stopped(s).samples[..|s.samples|] == s.samples
    ensures |Stopped(s).samples| == |s.samples| + 1 ==>
              Stopped(s).samples[|s.samples|] == Sample("Sample " + NatToString(|s.samples| + 1), s.currentEvents)
    ensures s.recording && s.currentEvents == [] ==> Stopped(s).samples == s.samples
  {
  }

  /** Merging leaves the store alone when there is nothing to merge;
      otherwise it appends one sample whose events are all the samples'
      events, sorted by time, with events of equal time in concatenation
      order, and keeps the earlier samples. */
  lemma MergeMeaning(s: Store)
    ensures (forall i :: 0 <= i < |s.samples| ==> s.samples[i].events == []) ==> Merged(s) == s
    ensures (exists i :: 0 <= i < |s.samples| && s.samples[i].events != []) ==>
      var m := Merged(s).samples;
      |m| == |s.samples| + 1 && m[..|s.samples|] == s.samples
      && m[|s.samples|].name == "Merged " + NatToString(|s.samples| + 1)
      && multiset(m[|s.samples|].events) == multiset(Flatten(s.samples))
      && SortedBy(m[|s.samples|].events, At)
      && SameTies(m[|s.samples|].events, Flatten(s.samples), At)
    ensures Merged(s).(samples := s.samples) == s
  {
    FlattenEmpty(s.samples);
    SortByStable(Flatten(s.samples), At);
    if Flatten(s.samples) != [] {
      assert |SortBy(Flatten(s.samples), At)| > 0;
    }
  }

  /** The merged timeline is determined by the samples: any sequence sorted
      by time that keeps the concatenation's order among equal times is it. */
  lemma MergedUnique(s: Store, r: seq<TimedEvent>)
    requires SortedBy(r, At) && SameTies(r, Flatten(s.samples), At)
    requires exists i :: 0 <= i < |s.samples| && s.samples[i].events != []
    ensures |Merged(s).samples| == |s.samples| + 1 && Merged(s).samples[|s.samples|].events == r
  {
    StableSortIsSortBy(Flatten(s.samples), r, At);
    MergeMeaning(s);
  }

  /** The F9 press toggles recording and is itself never recorded: starting
      empties the buffer, stopping keeps it. */
  lemma ToggleMeaning(s: Store, now: nat)
    ensures Handled(s, KeyPress(Rdev.F(9)), now).recording == !s.recording
    ensures !s.recording ==> Handled(s, KeyPress(Rdev.F(9)), now).currentEvents == []
    ensures s.recording ==> Handled(s, KeyPress(Rdev.F(9)), now).currentEvents == s.currentEvents
  {
  }

  /** Outside a recording, an event other than the two hotkeys changes nothing. */
  lemma IdleIgnores(s: Store, ev: Event, now: nat)
    requires !s.recording
    requires ev != KeyPress(Rdev.F(9)) && ev != KeyPress(Rdev.F(10))
    ensures Handled(s, ev, now) == s
  {
  }

  /** While recording, a mapped press appends `Down(k)` timed from the start
      and marks k down; a mapped release appends `Up(k)` and marks k up;
      nothing else changes. */
  lemma RecordingMeaning(s: Store, raw: Rdev.Key, now: nat)
    requires Inv(s) && s.recording && raw != Rdev.F(9) && raw != Rdev.F(10)
    requires ConvertKey(raw).Some?
    ensures var k := ConvertKey(raw).value;
      Handled(s, KeyPress(raw), now) ==
        s.(keyStates := s.keyStates[k := true],
           currentEvents := s.currentEvents + [TimedEvent(Elapsed(now, s.start.value), Down(k))])
    ensures var k := ConvertKey(raw).value;
      Handled(s, KeyRelease(raw), now) ==
        s.(keyStates := s.keyStates[k := false],
           currentEvents := s.currentEvents + [TimedEvent(Elapsed(now, s.start.value), Up(k))])
  {
  }

  /** Every transition keeps the invariant. */
  lemma HandledKeepsInv(s: Store, ev: Event, now: nat)
    requires Inv(s)
    ensures Inv(Handled(s, ev, now)) && Inv(Merged(s)) && Inv(Stopped(s)) && Inv(Started(s, now))
  {
  }

  /** Events recorded at non-decreasing clock readings keep the buffer in
      time order. */
  lemma RecordingKeepsOrder(s: Store, ev: Event, last: nat, now: nat)
    requires Inv(s) && s.recording && last <= now
    requires SortedBy(s.currentEvents, At)
    requires forall i :: 0 <= i < |s.currentEvents| ==> s.currentEvents[i].at <= Elapsed(last, s.start.value)
    requires ev != KeyPress(Rdev.F(9)) && ev != KeyPress(Rdev.F(10))
    ensures SortedBy(Handled(s, ev, now).currentEvents, At)
    ensures forall i :: 0 <= i < |Handled(s, ev, now).currentEvents| ==>
              Handled(s, ev, now).currentEvents[i].at <= Elapsed(now, s.start.value)
  {
    var after := Handled(s, ev, now).currentEvents;
    if after != s.currentEvents {
      assert forall i :: 0 <= i < |s.currentEvents| ==> after[i] == s.currentEvents[i];
      assert after[|after| - 1].at == Elapsed(now, s.start.value);
    }
  }

  // ---------------------------------------------------------------------------
  // Tracked keys
  // ---------------------------------------------------------------------------

  /** One character of `add_tracked_keys_from_text`. */
  function AddChar(keys: seq<Key>, c: char): seq<Key> {
    if IsWhitespace(c) || Layout(c) in keys then keys else keys + [Layout(c)]
  }

  /** The tracked list after adding the characters of `text` in order. */
  function AddChars(keys: seq<Key>, text: string): seq<Key>
    decreases |text|
  {
    if text == [] then keys else AddChar(AddChars(keys, text[..|text| - 1]), text[|text| - 1])
  }

  predicate NoDuplicates(keys: seq<Key>) {
    forall i, j :: 0 <= i < j < |keys| ==> keys[i] != keys[j]
  }

  /** Adding keeps the old list as a prefix, adds exactly the keys of the
      text's non-whitespace characters, and never duplicates a key. */
  lemma {:induction false} AddCharsMeaning(keys: seq<Key>, text: string)
    ensures |keys| <= |AddChars(keys, text)| && AddChars(keys, text)[..|keys|] == keys
    ensures forall k :: k in AddChars(keys, text) <==>
              k in keys || exists i :: 0 <= i < |text| && !IsWhitespace(text[i]) && k == Layout(text[i])
    ensures NoDuplicates(keys) ==> NoDuplicates(AddChars(keys, text))
    decreases |text|
  {
    if text != [] {
      var init := text[..|text| - 1];
      var c := text[|text| - 1];
      AddCharsMeaning(keys, init);
      var before := AddChars(keys, init);
      assert before[..|keys|] == keys;
      assert AddChars(keys, text)[..|before|] == before;
      forall k
        ensures k in AddChars(keys, text) <==>
                k in keys || exists i :: 0 <= i < |text| && !IsWhitespace(text[i]) && k == Layout(text[i])
      {
        if exists i :: 0 <= i < |text| && !IsWhitespace(text[i]) && k == Layout(text[i]) {
          var i :| 0 <= i < |text| && !IsWhitespace(text[i]) && k == Layout(text[i]);
          if i < |init| {
            assert init[i] == text[i];
          }
        }
        if exists i :: 0 <= i < |init| && !IsWhitespace(init[i]) && k == Layout(init[i]) {
          var i :| 0 <= i < |init| && !IsWhitespace(init[i]) && k == Layout(init[i]);
          assert text[i] == init[i];
        }
      }
    }
  }

  /** `keys.remove(idx)` when `idx` is in range. */
  function RemoveAt(keys: seq<Key>, idx: nat): seq<Key> {
    if idx < |keys| then keys[..idx] + keys[idx + 1..] else keys
  }

  /** Removing shortens the list by one exactly when the index is in range
      and keeps the others in order; otherwise it changes nothing. */
  lemma RemoveAtMeaning(keys: seq<Key>, idx: nat)
    ensures |RemoveAt(keys, idx)| == if idx < |keys| then |keys| - 1 else |keys|
    ensures idx >= |keys| ==> RemoveAt(keys, idx) == keys
    ensures forall i :: 0 <= i < |RemoveAt(keys, idx)| ==>
              RemoveAt(keys, idx)[i] == if i < idx then keys[i] else keys[i + 1]
  {
  }

  /** In a list without duplicates, removing takes out just the key at that
      index and introduces no duplicate. */
  lemma RemoveAtUnique(keys: seq<Key>, idx: nat)
    requires NoDuplicates(keys)
    ensures NoDuplicates(RemoveAt(keys, idx))
    ensures idx < |keys| ==> forall k :: k in RemoveAt(keys, idx) <==> k in keys && k != keys[idx]
  {
    RemoveAtMeaning(keys, idx);
    var r := RemoveAt(keys, idx);
    if idx < |keys| {
      forall k | k in keys && k != keys[idx]
        ensures k in r
      {
        var j :| 0 <= j < |keys| && keys[j] == k;
        if j < idx { assert r[j] == k; } else { assert r[j - 1] == k; }
      }
      forall k | k in r
        ensures k in keys && k != keys[idx]
      {
        var j :| 0 <= j < |r| && r[j] == k;
        if j < idx { assert keys[j] == k; } else { assert keys[j + 1] == k; }
      }
    }
  }

  /** `tracked_key_states`: each tracked key with its last state, false
      when none was seen. */
  function KeyStates(keys: seq<Key>, states: map<Key, bool>): seq<(Key, bool)> {
    seq(|keys|, i requires 0 <= i < |keys| => (keys[i], if keys[i] in states then states[keys[i]] else false))
  }

  /** The report lists the tracked keys in order, and a key reads as down
      exactly when its last recorded edge was a press. */
  lemma KeyStatesMeaning(keys: seq<Key>, states: map<Key, bool>)
    ensures |KeyStates(keys, states)| == |keys|
    ensures forall i :: 0 <= i < |keys| ==> KeyStates(keys, states)[i].0 == keys[i]
    ensures forall i :: 0 <= i < |keys| ==>
              (KeyStates(keys, states)[i].1 <==> keys[i] in states && states[keys[i]])
  {
  }

  /** After a recorded press every tracked entry of that key reads down, and
      after a recorded release it reads up; other entries are unchanged. */
  lemma PressShowsInReport(s: Store, raw: Rdev.Key, now: nat, i: nat)
    requires Inv(s) && s.recording && raw != Rdev.F(9) && raw != Rdev.F(10)
    requires ConvertKey(raw).Some? && i < |s.trackedKeys|
    ensures var after := Handled(s, KeyPress(raw), now);
      KeyStates(after.trackedKeys, after.keyStates)[i].1 ==
        (s.trackedKeys[i] == ConvertKey(raw).value || KeyStates(s.trackedKeys, s.keyStates)[i].1)
    ensures var after := Handled(s, KeyRelease(raw), now);
      KeyStates(after.trackedKeys, after.keyStates)[i].1 ==
        (s.trackedKeys[i] != ConvertKey(raw).value && KeyStates(s.trackedKeys, s.keyStates)[i].1)
  {
    RecordingMeaning(s, raw, now);
  }

  // ---------------------------------------------------------------------------
  // The application state
  // ---------------------------------------------------------------------------

  class AppState {
    var recording: bool
    var start: Option<nat>
    var currentEvents: seq<TimedEvent>
    var samples: seq<Sample>
    var playbackStop: bool
    var playbackOffsetMs: int
    var playing: bool
    var trackedKeys: seq<Key>
    var keyStates: map<Key, bool>

    function Snapshot(): Store
      reads this
    {
      Store(recording, start, currentEvents, samples, playbackStop, playing, trackedKeys, keyStates)
    }

    ghost predicate Valid()
      reads this
    {
      Inv(Snapshot())
    }

    /** `new`: idle, empty, no offset. */
    constructor()
      ensures Valid()
      ensures Snapshot() == Store(false, None, [], [], false, false, [], map[])
      ensures playbackOffsetMs == 0
    {
      recording, start, currentEvents, samples := false, None, [], [];
      playbackStop, playbackOffsetMs, playing := false, 0, false;
      trackedKeys, keyStates := [], map[];
    }

    method StartRecording(now: nat)
      requires Valid()
      modifies this
      ensures Valid() && playbackOffsetMs == old(playbackOffsetMs)
      ensures Snapshot() == Started(old(Snapshot()), now)
    {
      currentEvents := [];
      start := Some(now);
      recording := true;
    }

    method StopRecording()
      requires Valid()
      modifies this
      ensures Valid() && playbackOffsetMs == old(playbackOffsetMs)
      ensures Snapshot() == Stopped(old(Snapshot()))
    {
      var wasRecording := recording;
      recording := false;
      if !wasRecording {
        return;
      }
      var snapshot := currentEvents;
      if snapshot != [] {
        samples := samples + [Sample("Sample " + NatToString(|samples| + 1), snapshot)];
      }
    }

    method MergeSamples()
      requires Valid()
      modifies this
      ensures Valid() && playbackOffsetMs == old(playbackOffsetMs)
      ensures Snapshot() == Merged(old(Snapshot()))
    {
      if samples == [] {
        return;
      }
      var merged := SortBy(Flatten(samples), At);
      if merged == [] {
        return;
      }
      samples := samples + [Sample("Merged " + NatToString(|samples| + 1), merged)];
    }

    method StopPlayback()
      requires Valid()
      modifies this
      ensures Valid() && playbackOffsetMs == old(playbackOffsetMs)
      ensures Snapshot() == PlaybackStopped(old(Snapshot()))
    {
      playbackStop := true;
      playing := false;
    }

    /** The flag updates of `playback_latest`; the events handed to the
        player are returned. */
    method PlaybackLatest() returns (launched: Option<seq<TimedEvent>>)
      requires Valid()
      modifies this
      ensures Valid() && playbackOffsetMs == old(playbackOffsetMs)
      ensures Snapshot() == PlaybackStarted(old(Snapshot()))
      ensures launched.Some? <==> old(samples) != [] && old(samples)[|old(samples)| - 1].events != []
      ensures launched.Some? ==> launched.value == old(samples)[|old(samples)| - 1].events
    {
      launched := None;
      if samples == [] {
        return;
      }
      var last := samples[|samples| - 1].events;
      if last == [] {
        return;
      }
      StopPlayback();
      playbackStop := false;
      playing := true;
      launched := Some(last);
    }

    /** `handle_event` for one listener event seen at clock reading `now`. */
    method HandleEvent(ev: Event, now: nat) returns (launched: Option<seq<TimedEvent>>)
      requires Valid()
      modifies this
      ensures Valid() && playbackOffsetMs == old(playbackOffsetMs)
      ensures Snapshot() == Handled(old(Snapshot()), ev, now)
      ensures launched.Some? ==> ev == KeyPress(Rdev.F(10)) && !old(playing)
    {
      launched := None;
      if ev == KeyPress(Rdev.F(9)) {
        if recording {
          StopRecording();
        } else {
          StartRecording(now);
        }
        return;
      }
      if ev == KeyPress(Rdev.F(10)) {
        if playing {
          StopPlayback();
        } else {
          StopRecording();
          launched := PlaybackLatest();
        }
        return;
      }
      if !recording || start.None? {
        return;
      }
      var startAt := start.value;
      match ev {
        case KeyPress(raw) =>
          var mapped := ConvertKey(raw);
          if mapped.Some? {
            keyStates := keyStates[mapped.value := true];
            currentEvents := currentEvents + [TimedEvent(Elapsed(now, startAt), Down(mapped.value))];
          }
        case KeyRelease(raw) =>
          var mapped := ConvertKey(raw);
          if mapped.Some? {
            keyStates := keyStates[mapped.value := false];
            currentEvents := currentEvents + [TimedEvent(Elapsed(now, startAt), Up(mapped.value))];
          }
        case OtherEvent =>
      }
    }

    function TrackedKeys(): seq<Key>
      reads this
    {
      trackedKeys
    }

    /** `add_tracked_keys_from_text`, one character at a time. */
    method AddTrackedKeysFromText(text: string)
      modifies this
      ensures trackedKeys == AddChars(old(trackedKeys), text)
      ensures Snapshot() == old(Snapshot()).(trackedKeys := trackedKeys)
      ensures playbackOffsetMs == old(playbackOffsetMs)
    {
      var i := 0;
      while i < |text|
        invariant 0 <= i <= |text|
        invariant trackedKeys == AddChars(old(trackedKeys), text[..i])
        invariant Snapshot() == old(Snapshot()).(trackedKeys := trackedKeys)
        invariant playbackOffsetMs == old(playbackOffsetMs)
      {
        assert text[..i + 1][..i] == text[..i];
        var ch := text[i];
        if !IsWhitespace(ch) {
          var key := Layout(ch);
          if key !in trackedKeys {
            trackedKeys := trackedKeys + [key];
          }
        }
        i := i + 1;
      }
      assert text[..i] == text;
    }

    method RemoveTrackedKey(idx: nat)
      modifies this
      ensures trackedKeys == RemoveAt(old(trackedKeys), idx)
      ensures Snapshot() == old(Snapshot()).(trackedKeys := trackedKeys)
      ensures playbackOffsetMs == old(playbackOffsetMs)
    {
      if idx < |trackedKeys| {
        trackedKeys := trackedKeys[..idx] + trackedKeys[idx + 1..];
      }
    }

    function TrackedKeyStates(): seq<(Key, bool)>
      reads this
    {
      KeyStates(trackedKeys, keyStates)
    }
  }
}
