# Key-macro recorder: a Dafny model

The repository records timed key-edge sequences from a global keyboard hook.
It keeps them as numbered samples and fuses several samples into one timing
map. It then replays a timeline through a synthetic-input injector, shifted
by a global offset and by per-key offsets. It contains two engines that
share this purpose. The binary compiles only the first, because
`src/main.rs` declares just `mod recorder;`. The model keeps the two apart
and does not mix their rules.

**First engine** (`src/recorder.rs`, with the key parsers of `src/main.rs`):

- `KeyCodec`: the tagged-string key codec (`char:`, named keys, `other:`) and
  the listener-to-injector key map.
- `Samples`: persisted samples and the lossy decode that drops events whose
  key tag is unknown.
- `Recorder`: the `MacroRecorder` class.
  - Start, finish and clear a recording.
  - One step of `poll_events` per channel message: hotkeys, allow-list,
    saturating delay, pressed-key set.
  - Delete and rename samples, the id counter, and the state update of a
    load.
  - Per-key offsets and settings.
- `Aggregator`: `timing_map`.
  - Positional buckets up to the shortest non-empty sample.
  - A median or an outlier-filtered mean per bucket.
  - The key rebuilt from its `Debug` text.
  - A stable sort by delay.
- `Sorting`: the stable sort, and the uniqueness of stable sorts.
- `RecorderPlayback`: `play_events`, with its target clamp and its
  sleep-then-spin wait.
- `KeyParse`: `parse_key_token`, `parse_allowed` and `parse_rdev_key`.

**Second engine** (`src/state.rs`, `src/macro_play.rs`, `src/schema.rs`):

- `State`: the `AppState` class.
  - Record start and stop.
  - `merge_samples`: concatenate, then sort stably by time.
  - Tracked-key list upkeep.
  - The state updates of `handle_event`.
  - `convert_key` and `apply_offset`.
- `Schema` and `MacroPlay`: the event types, `apply_offset`, the delivery
  loop of `play_timeline_async`, and `wait_until`.

**Shared modules:**

- `Enigo` and `Rdev`: the two key enumerations.
- `Clock`: durations in nanoseconds.
- `Text`: Rust's `trim`, ASCII case mapping, `split` and decimal formatting.
- `Wrappers`: `Option` and `Result`.

**How the model stands in for the runtime:**

- Time is a natural number of nanoseconds. A clock is a finite trace of its
  readings.
- The playback stop flag is a finite trace of observations.
- Injector calls form an output trace of `KeyDown`/`KeyUp`.
- A run that exhausts a trace ends early and says so.
- Each class keeps the fields the source updates in place. It exposes them
  as a `Store` value through `Snapshot()`. Each method is proved to move
  `Snapshot()` by a pure transition function (`Finished`, `Stepped`,
  `Handled`, `Merged`, …). The lemmas about those functions carry the
  source's promises.

## Model

| member | source | states |
|---|---|---|
| KeyCodec.MapKey | src/recorder.rs:15-43 | The map yields only codec-supported keys. Of the letter keys it maps exactly A, S, D, F, J, K and L, each to its lower-case character key. Digits, function keys, Backspace and unlisted keys map to nothing. |
| KeyCodec.CodecRoundTrip | src/recorder.rs:45-83 | For every character key and the twelve named keys, `string_to_key(key_to_string(k)) == Some(k)`. |
| KeyCodec.UnsupportedIsOther | src/recorder.rs:45-83 | Every other key is written with an `other:` tag and decodes to nothing. |
| KeyCodec.CharTagFirstCharOnly | src/recorder.rs:64-83 | A `char:` tag decodes from its first following character alone; an empty tag decodes to nothing. |
| KeyCodec.EncodingInjective | src/recorder.rs:45-62 | Distinct supported keys get distinct strings, so per-key offsets of different keys never collide. |
| Samples.FromSerializable | src/recorder.rs:192-217 | The push loops keep every sample in order, with its id, start time and name. Each sample's events are exactly the decodable ones, in order. |
| Samples.DecodeOne | src/recorder.rs:196-207 | An event is kept, with its edge and delay, exactly when its key tag decodes. |
| Samples.DecodeConcat | src/recorder.rs:196-208 | Decoding works event by event: it distributes over concatenation. |
| Samples.EventRoundTrip | src/recorder.rs:176-186 | An event with a supported key survives encoding and decoding. |
| Samples.EventsRoundTrip | src/recorder.rs:176-186 | A list of events with supported keys survives encoding and decoding unchanged. |
| Samples.SaveLoadRoundTrip | src/recorder.rs:168-217 | `from_serializable(to_serializable(s)) == s` when every key is supported. |
| Recorder.RouteMeaning | src/recorder.rs:254-295 | A toggle or playback hotkey press takes its branch and is never recorded. Any other edge is recorded exactly when recording is on, the key maps, and the allow-list is empty or holds it. |
| Recorder.SatMsMonotone | src/recorder.rs:279 | The saturating delay since the start never decreases as timestamps grow. |
| Recorder.FinishMeaning | src/recorder.rs:305-321 | While recording, one sample is appended even for an empty buffer. Its id is the old counter plus one and its name is `sample-<id>`. In every case recording ends with no start time and an empty buffer. |
| Recorder.SteppedKeepsInv | src/recorder.rs:246-326 | Every transition keeps the invariant. Recording is on exactly when a start time is set. Every stored id is at most the counter. |
| Recorder.HotkeyPressNotRecorded | src/recorder.rs:254-270 | A hotkey press appends no edge; the buffer is kept or emptied. |
| Recorder.RecordMeaning | src/recorder.rs:278-293 | A recorded edge is appended with the saturating delay. A press adds its key to the pressed set and a release removes it. The samples are untouched. |
| Recorder.RecordKeepsOrder | src/recorder.rs:278-285 | Edges arriving with non-decreasing timestamps keep the buffer sorted by delay. |
| Recorder.Without | src/recorder.rs:501 | After `retain`, no sample has the deleted id. |
| Recorder.WithoutMembers | src/recorder.rs:501 | Deleting keeps exactly the samples with another id. |
| Recorder.WithoutConcat | src/recorder.rs:501 | Deleting distributes over concatenation, so the kept samples stay in their order. |
| Recorder.FirstWithId | src/recorder.rs:506 | The result is the first position with that id, or nothing when no sample has it. |
| Recorder.RenameMeaning | src/recorder.rs:505-512 | Only the name of the first sample with the id changes. Nothing changes when no sample has the id. |
| Recorder.MaxId | src/recorder.rs:529 | The largest stored id bounds every id and is one of them; it is 0 for no samples. |
| Recorder.LoadMeaning | src/recorder.rs:519-532 | A non-blank file replaces the store with the decoded samples and sets the counter to their largest id. Malformed text counts as an empty list. A missing or blank file changes nothing. The invariant holds afterwards. |
| Recorder.StoreOpsKeepInv | src/recorder.rs:500-512 | Deleting and renaming keep every stored id at most the counter, so new ids never collide. |
| Recorder.SetOffsetVisible | src/recorder.rs:467-477 | An offset set for a supported key shows up in the offsets snapshot; for a named key it is the only value shown. Setting it for an unsupported key leaves the snapshot as it was. |
| Recorder.StringToKeyInverse | src/recorder.rs:471-477 | A name the snapshot decodes denotes a supported key. Unless it is a character key, the name is that key's encoding. |
| Recorder.MacroRecorder.constructor | src/recorder.rs:145-165 | The default recorder: idle and empty, counter 0, F9 and F10 as hotkeys, outlier factor 2, mean mode, no offset, autosave on. |
| Recorder.MacroRecorder.StartRecording | src/recorder.rs:299-303 | Recording is on, the start time is set and the buffer is empty. The settings are unchanged. |
| Recorder.MacroRecorder.FinishRecording | src/recorder.rs:305-321 | The new state is `Finished` of the old one; the invariant and the settings are kept. |
| Recorder.MacroRecorder.Clear | src/recorder.rs:323-326 | The buffer and the pressed set are emptied and nothing else changes. |
| Recorder.MacroRecorder.Step | src/recorder.rs:246-297 | One message moves the state by `Stepped` along its route. A launched playback comes only from the playback hotkey. It happens exactly when the timing map is non-empty. It carries the timing map for an order that lists every bucket once. |
| Recorder.MacroRecorder.DeleteSample | src/recorder.rs:500-503 | The samples become `Without(old samples, id)`, retained in place; nothing else changes. |
| Recorder.MacroRecorder.RenameSample | src/recorder.rs:505-512 | The search loop renames the first match in place: the samples become `Renamed(old, id, name)`. |
| Recorder.MacroRecorder.Load | src/recorder.rs:519-532 | The state becomes `Loaded(old, disk)`. An error is reported only for a file that cannot be read. |
| Recorder.MacroRecorder.SetKeyOffset | src/recorder.rs:467-469 | The per-key map gains the offset under the key's codec string. Nothing else changes. |
| Recorder.MacroRecorder.SetAllowedKeys | src/recorder.rs:479-481 | The allow-list is replaced and nothing else changes. |
| Recorder.MacroRecorder.SetHotkeys | src/recorder.rs:491-494 | Both hotkeys are replaced and nothing else changes. |
| Aggregator.ExpectedLen | src/recorder.rs:337-343 | L is 0 exactly when no sample has events. Otherwise L is the length of some non-empty sample and at most the length of each. |
| Aggregator.FillSample | src/recorder.rs:345-355 | The inner loop pushes the sample's first min(L, length) events into their buckets, in order, with the sample's weight. |
| Aggregator.FillBuckets | src/recorder.rs:344-356 | The nested loops build exactly `Buckets(samples)`. |
| Aggregator.FillSamplesAt | src/recorder.rs:344-356 | Each bucket holds exactly the samples' contributions to it, in sample order. A bucket exists exactly when it has one. |
| Aggregator.ContributesPrefix | src/recorder.rs:346-350 | An event at position p lands in a bucket exactly when p < L: each sample contributes exactly its first L events. |
| Aggregator.BucketValueFromSample | src/recorder.rs:351-354 | Every value in a bucket is the delay of some sample's event with that key text, edge and position, and that position is below L. |
| Aggregator.BucketsNonEmpty | src/recorder.rs:360-362 | No bucket is empty, so the `is_empty` skip never fires. |
| Aggregator.BucketsEmptyIff | src/recorder.rs:337-356 | There are no buckets exactly when L is 0. |
| Aggregator.MedianIsMember | src/recorder.rs:364-367 | The median is one of the bucket's values. |
| Aggregator.AggregateBounds | src/recorder.rs:363-390 | Whatever the outlier filter, the aggregate lies between the bucket's smallest and largest value. This covers the fallback to all values. |
| Aggregator.WeightsOnlyThroughFilter | src/recorder.rs:369-389 | Buckets with the same values whose filters keep the same values aggregate equally, so weights matter only through the filter. |
| Aggregator.MeanBetween | src/recorder.rs:389 | The truncated mean of values between two bounds lies between them. |
| Aggregator.OutlierKeepsOne | src/recorder.rs:369-388 | With a factor of at least 1, the weighted outlier test keeps at least one value, so the fallback is not needed. |
| Aggregator.VarianceFacts | src/recorder.rs:372-380 | The weighted variance is non-negative. Times the total weight, it is the weighted sum of squared deviations. |
| Aggregator.KeepsSome | src/recorder.rs:385 | Some value lies within one standard deviation of the mean and passes the test. |
| Aggregator.Select | src/recorder.rs:382-387 | The filter keeps exactly the values that pass the test. |
| Aggregator.AggregateBuckets | src/recorder.rs:358-406 | The loop visits every non-empty bucket once, in some order. Every non-empty bucket yields its event (rebuilt key, edge, aggregate), and no other event is emitted. |
| Aggregator.TimingMap | src/recorder.rs:329-410 | The result is the stable sort by delay of one event per bucket, for an order that lists every bucket exactly once. It has as many events as buckets, is sorted by delay, and is empty exactly when L is 0. Each bucket's event is in it and nothing else is. |
| Aggregator.TimelineShape | src/recorder.rs:358-408 | The output has one event per bucket. It is empty exactly when L is 0 and is sorted by delay. |
| Aggregator.TimelineEntry | src/recorder.rs:401-405 | Each output event is the aggregate of one non-empty bucket, carrying that bucket's edge. |
| Aggregator.DebugRebuildLosesKeys | src/recorder.rs:392-400 | As written, every character key is rebuilt as the quote character and every other key as `?`. |
| Aggregator.DebugRebuildCounterexample | src/recorder.rs:392-400 | Key `a` is rebuilt as key `'`. |
| Aggregator.AsWrittenTimelineKeys | src/recorder.rs:392-405 | As written, every key in the timing map is `'` or `?`. |
| Aggregator.CorrectedRebuildRoundTrip | src/recorder.rs:332-334 | Parsing the `Debug` text back inverts it for every key. |
| Aggregator.CorrectedTimelineKeys | src/recorder.rs:344-405 | With the corrected rebuild, each output event carries the key and edge of events the samples hold at that bucket's position. |
| Aggregator.MedianExample | src/recorder.rs:364-367 | Median mode on [10, 12, 1000] gives 12, whatever the filter. |
| Aggregator.MeanExample | src/recorder.rs:369-389 | Mean mode with factor 2 on [40, 60] keeps both values and gives 50. |
| Aggregator.ShortSamplesBuckets | src/recorder.rs:337-356 | For samples of lengths 1, 1 and 0, L is 1 and the empty sample adds nothing. |
| Aggregator.ShortSamplesAggregate | src/recorder.rs:369-389 | Mean mode on [10, 12] gives 11. |
| Aggregator.EmptySampleExcludedExample | src/recorder.rs:329-410 | The timing map of those samples is a single event at 11 ms. |
| Sorting.SortBy | src/recorder.rs:408 | The sort returns a sorted permutation of its input. |
| Sorting.SortByStable | src/recorder.rs:408 | Equal delays keep their input order. |
| Sorting.StableSortIsSortBy | src/recorder.rs:408 | Any stable sort by the same key returns exactly `SortBy`. |
| RecorderPlayback.PlayTarget | src/recorder.rs:422-427 | The target is never negative. It is the delay plus the global and per-key offsets when that sum is non-negative, and 0 otherwise. |
| RecorderPlayback.PlayTargetMonotone | src/recorder.rs:426-427 | A larger global offset never makes an event due earlier. |
| RecorderPlayback.KeyOffsetApplies | src/recorder.rs:422-427 | An offset set for a key applies to that key's events only. |
| RecorderPlayback.AwaitTarget | src/recorder.rs:429-440 | The first reading gives the elapsed time. An event already due goes out on that reading. Otherwise the player sleeps only for a wait over 1 ms, and then for the wait less 1 ms. It then takes readings until one reaches the target, and every reading before that one is short of it. A trace that runs out leaves every remaining reading short of the target. |
| RecorderPlayback.PlayEvents | src/recorder.rs:413-451 | Events go out in the given order as the matching call, with no cancellation. Each delivery's first and last times are the elapsed times of the clock readings it names. It goes out on the first reading that reaches its target, and at once if already due. The sleep rule holds. The deliveries take the readings in turn. A run that stops short found every remaining reading short of the next target. |
| RecorderPlayback.ReadsInOrder | src/recorder.rs:421-440 | An earlier event's readings all come before a later event's readings. |
| RecorderPlayback.GoesOutInOrder | src/recorder.rs:421-448 | On a clock that never runs backwards, each event is let through no later than the next event's first reading. |
| KeyParse.ParseKeyToken | src/main.rs:43-68 | Every key the parser returns is one the codec supports. |
| KeyParse.TokenMeaning | src/main.rs:43-68 | A token is rejected as empty exactly when it is blank. It is a character key exactly when its normal form is one byte long. A longer token gets the name lookup. |
| KeyParse.TokenNormalised | src/main.rs:44 | Surrounding whitespace and letter case do not matter. |
| KeyParse.MultiByteRejected | src/main.rs:48-65 | Under ASCII case mapping, a single character of more than one byte falls through to the name match and is rejected, with the character as written in the error. |
| KeyParse.NamedTokenTable | src/main.rs:52-66 | The name match is exactly the alias table: `enter`/`return`, `esc`/`escape`, `ctrl`/`control` and `meta`/`win`/`cmd` each name one key. |
| KeyParse.NamesParse | src/main.rs:52-67 | Every name and alias in the table parses to its key. |
| KeyParse.UnknownName | src/main.rs:65 | Any other multi-character token is an error naming the normalised token. |
| KeyParse.PaddedLetterExample | src/main.rs:44-50 | `" A "` parses as character key `a`. |
| KeyParse.BlankTokenExample | src/main.rs:44-47 | A blank token is an empty token. |
| KeyParse.ParseAllowed | src/main.rs:70-79 | The loop returns what `Allowed` specifies, stopping at the first error. |
| KeyParse.AllowedMeaning | src/main.rs:70-79 | On success the result has one key per non-blank field, in order. The result is "no keys provided" exactly when there is no non-blank field. Any other error is that of some field. |
| KeyParse.AllowedAfterError | src/main.rs:73 | Once a prefix of the fields fails to parse, the whole input fails with that error. |
| KeyParse.ParseAllOk | src/main.rs:72-74 | On success each field parses to the key at its position. |
| KeyParse.FirstErr | src/main.rs:73 | On failure the error is that of the first field that does not parse; every earlier field parses. |
| KeyParse.Fields | src/main.rs:72 | No field passed to the parser is blank. |
| KeyParse.AllowedExample | src/main.rs:72-74 | The fields `a`, ` s `, an empty field and `space` give keys a, s and Space. |
| KeyParse.ParseRdevKey | src/main.rs:81-131 | Only function keys, Space and letter keys are ever returned. |
| KeyParse.RdevRoundTrip | src/main.rs:81-131 | Every key the parser can return has a name that parses back to it, also when padded and lower-cased. |
| KeyParse.RdevCaseInsensitive | src/main.rs:82 | Hotkey text is read without regard to surrounding whitespace, and without regard to case under ASCII case mapping. |
| KeyParse.UnsupportedExample | src/main.rs:52-65 | `f9` is not an allow-list key name. |
| State.ConvertKeyAgrees | src/state.rs:262-316 | `convert_key` agrees with the recorder's `map_key` wherever both map, except for the Meta keys. It maps every letter, digit and Backspace. It never yields Meta or an unlisted key and maps no function key. |
| State.ConvertKeyCharacters | src/state.rs:262-316 | Distinct letter and digit keys map to distinct character keys. |
| State.ApplyOffsetSameRule | src/state.rs:254-260 | The result is never below 0: `at + offset` clamped at 0. This is the same rule as the player's. |
| State.FlattenEmpty | src/state.rs:123 | The concatenation is empty exactly when every sample is. |
| State.FlattenMembers | src/state.rs:123 | The concatenation holds every event of every sample and nothing else. |
| State.StopMeaning | src/state.rs:65-76 | The call is a no-op unless recording. Otherwise it stops and appends `Sample <n+1>` only for a non-empty buffer. The buffer is kept and earlier samples are untouched. |
| State.MergeMeaning | src/state.rs:117-135 | With no events at all the store is unchanged. Otherwise one sample `Merged <n+1>` is appended, holding the stable sort by time of the concatenation. Earlier samples and other fields are untouched. |
| State.MergedUnique | src/state.rs:123-134 | Any sequence sorted by time that keeps the concatenation's tie order is exactly the merged sample. |
| State.ToggleMeaning | src/state.rs:180-189 | An F9 press toggles recording and is not recorded. Starting empties the buffer. |
| State.IdleIgnores | src/state.rs:205-207 | When not recording, any event other than the two hotkeys changes nothing. |
| State.RecordingMeaning | src/state.rs:213-235 | While recording, a mapped press appends `Down(k)` and marks k down. A mapped release appends `Up(k)` and marks k up. Both are timed from the start. |
| State.HandledKeepsInv | src/state.rs:176-238 | Every transition keeps a start time set whenever recording is on. |
| State.RecordingKeepsOrder | src/state.rs:240-245 | Events handled at non-decreasing clock readings keep the buffer sorted by time. |
| State.AddCharsMeaning | src/state.rs:149-157 | The old list stays a prefix. Exactly the non-whitespace characters are added, as character keys, and no duplicate appears. |
| State.RemoveAtMeaning | src/state.rs:159-164 | The key at `idx` is removed exactly when `idx` is in range; otherwise nothing changes. The rest keep their order. |
| State.RemoveAtUnique | src/state.rs:159-164 | In a list without duplicates, exactly the key at that index disappears. |
| State.KeyStatesMeaning | src/state.rs:166-173 | The report follows the tracked keys in order. A key with no recorded state reads false. |
| State.PressShowsInReport | src/state.rs:214-235 | After a recorded press every tracked entry of that key reads down, and after a release it reads up. |
| State.AppState.constructor | src/state.rs:35-48 | A new state: idle, with no start time, no events, no samples, no tracked keys and no offset. |
| State.AppState.StartRecording | src/state.rs:59-63 | The buffer is emptied, the start time set and recording turned on. |
| State.AppState.StopRecording | src/state.rs:65-76 | The new state is `Stopped` of the old one. |
| State.AppState.MergeSamples | src/state.rs:117-135 | The new state is `Merged` of the old one. |
| State.AppState.StopPlayback | src/state.rs:137-143 | The stop flag is raised and `playing` is cleared. |
| State.AppState.PlaybackLatest | src/state.rs:78-115 | Playback launches exactly when the last sample exists and is non-empty, and it carries that sample's events. |
| State.AppState.HandleEvent | src/state.rs:176-238 | The new state is `Handled` of the old one. A launch comes only from an F10 press while not playing. |
| State.AppState.AddTrackedKeysFromText | src/state.rs:149-157 | The loop leaves the tracked list at `AddChars(old, text)` and changes nothing else. |
| State.AppState.RemoveTrackedKey | src/state.rs:159-164 | The tracked list becomes `RemoveAt(old, idx)` and nothing else changes. |
| MacroPlay.ApplyOffset | src/macro_play.rs:52-58 | The result is `at + offset` clamped at 0. |
| MacroPlay.ApplyOffsetMonotone | src/macro_play.rs:52-58 | A later event or a larger offset is never scheduled earlier. |
| MacroPlay.ApplyOffsetAdditive | src/macro_play.rs:52-58 | Non-negative offsets compose by addition. |
| MacroPlay.WaitSleepsRule | src/macro_play.rs:70-78 | Every sleep of a wait starts with over 500 µs to go and ends 200 µs before the scheduled time. |
| MacroPlay.WaitUntil | src/macro_play.rs:61-80 | Each round reads the clock and then the flag. The wait returns on the first round that sees the flag set or the elapsed time at the target. Its result is that round's clock reading and flag. Every earlier round was quiet, and the sleeps are exactly those the quiet rounds call for. A wait that runs out of a trace found every round it could take quiet. |
| MacroPlay.PlayOne | src/macro_play.rs:20-26 | A set flag at the top of the loop stops the run before the event. Otherwise the event goes out with what its wait observed. A trace that runs out is reported along with where. |
| MacroPlay.PlayTimeline | src/macro_play.rs:11-50 | Events go out in input order as `key_down`/`key_up`. Each delivery reads a clear flag at the top of the loop, then waits rounds that read the clock and the flag in turn. Its time and stop flag are the readings of its last round. Without a stop it is never before its time. The deliveries read both traces in turn. A stopped run ends on a set flag read before the next event. A run that runs out shows where. With a flag that stays set, nothing goes out when it is set before the run, and a stop seen while waiting lets that one event through and no more. |
| MacroPlay.StopEndsRun | src/macro_play.rs:20-26 | With a flag that stays set, no delivery follows one whose wait saw the stop, and a flag set before the run lets nothing out. |
| MacroPlay.TracesInOrder | src/macro_play.rs:20-26 | An earlier event's flag and clock readings all come before a later event's. |
| MacroPlay.GoesOutInOrder | src/macro_play.rs:20-47 | On a clock that never runs backwards, the reading that lets an event through is no later than the one that lets a later event through. |
| Clock.Elapsed | src/recorder.rs:430 | The elapsed time since the start, or 0 for an earlier reading. |

## Left out

- Threads, the listener (`rdev::listen`, `start_listener`,
  `spawn_global_listener`), the mpsc channel, `Arc`/`Mutex`/atomics, and
  `JoinHandle::join`. These are concurrency. `poll_events` is one `Step` per
  channel message. The playback stop flag is a trace of observations.
- `Instant::now`, `thread::sleep` and `spin_loop` are clock readings passed
  in as parameters or traces. A sleep is recorded, not performed.
- `started_at` of a new sample is a parameter, since the source reads a
  clock that was just started.
- The injector (`enigo.key_down`/`key_up`) is an output trace of calls.
- File I/O and `serde_json`: `save_to_disk`, the autosave writes, and the
  reading and parsing in `load_from_disk`. A load takes what the file holds
  as a `Disk` value: missing, unreadable, or text with its parsed list,
  `None` standing for malformed text.
- The GUI, `main`, `key_label`, the `*_snapshot` getters that only clone, and
  all printing and logging (`log_recorded_events`).
- `play_sample` and `play_timing_map` are thin glue that hand a list to
  `play_events`.
- The watcher thread of `playback_sample` and its `max_at` delay, which
  clear `playing` after the run.
- Aggregator.TimingMap: the `f64` arithmetic of the outlier test is exact
  real arithmetic in `OutlierKeep`. `|v - mean| <= k * std` is compared as
  squares, so there is no square root. The aggregation lemmas hold for any
  keep-predicate. Rounding effects of `f64` are not captured.
- Aggregator.TimingMap: the `HashMap` iteration order is an arbitrary
  enumeration of the buckets (the `order` out-parameter). Ties after the
  stable sort follow that order.
- Recorder.MacroRecorder.FinishRecording: the `u64` id counter is unbounded,
  so overflow after 2^64 samples is not modelled.
- RecorderPlayback.PlayTarget: the `u128` delay is cast to `i64`, and the
  target to `u64`. The model uses unbounded integers and so does not capture
  the wrap-around of delays above 2^63 ms.
- Recorder.MacroRecorder.SetKeyOffset: the `i32` offset is a range
  precondition.
- Text: `to_lowercase`/`to_uppercase` are modelled on ASCII letters only.
  Other characters are kept as they are, which differs from Rust for
  non-ASCII letters.
- MacroPlay.PlayTimeline and RecorderPlayback.PlayEvents: a run that
  exhausts the clock or stop trace ends early and reports it.
- Schema: `src/schema.rs` holds only the two types, reproduced as
  datatypes.
- KeyParse.MultiByteRejected: holds under the ASCII case mapping only. In
  Rust, `to_lowercase` turns the Kelvin sign U+212A into `k`, so that token
  parses as character key `k`. A non-ASCII capital such as `É` is reported
  lower-cased, as `unsupported key: é`.
- KeyParse.RdevCaseInsensitive: holds under the ASCII case mapping only. In
  Rust, `to_uppercase` leaves the Kelvin sign U+212A as it is, so it gives no
  key, while its lower-case form `k` gives letter key K. Dotless `ı`
  upper-cases to `I` and gives letter key I, where the model gives no key.
- Aggregator.DebugText: the `Debug` text escapes the quote, the backslash,
  `\n`, `\r`, `\t` and `\0`. The other control characters and grapheme
  extenders, which Rust writes as `\u{..}`, are written as themselves. The
  text stays injective either way, so buckets group the same keys.

## Findings

| source | as written | input that shows it | evidently intended | confidence | as-written member | corrected member |
|---|---|---|---|---|---|---|
| src/recorder.rs:392-400 | The key of a bucket is rebuilt from its `Debug` text by taking the first character after `Layout(`. That character is the opening quote, and named keys become `Layout('?')`. | Samples pressing key `a`: the bucket text is `Layout('a')` and the timing map's event carries `Layout('\'')`. | Each timing-map event carries the key its bucket was built from. | not executed | Aggregator.DebugRebuildCounterexample | Aggregator.CorrectedRebuildRoundTrip |

The timing map takes the key rebuild as a parameter. `TimingMap`, and
through it `MacroRecorder.Step`, use the rebuild as written. The lemma
`AsWrittenTimelineKeys` shows its effect on the output.
`CorrectedTimelineKeys` proves the intended property for the corrected
rebuild on the same timeline.
