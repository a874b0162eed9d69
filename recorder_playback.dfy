/**
  Playback in the first engine (`MacroRecorder::play_events`): each event is
  due at its delay plus the global and per-key offsets, clamped at zero; the
  player sleeps for all but the last millisecond of the wait and then spins
  on the clock.  There is no way to cancel a run.
*/
module RecorderPlayback {
  import opened Wrappers
  import opened Enigo
  import opened Clock
  import KeyCodec
  import opened Samples

  /** The per-key offset of `k`, looked up under its codec string, 0 if unset. */
  function KeyAdjust(perKey: map<string, int>, k: Key): int {
    var name := KeyCodec.KeyToString(k);
    if name in perKey then perKey[name] else 0
  }

  /** The event's target in milliseconds since the start of playback: the
      least non-negative value not below delay + global offset + key offset. */
  function PlayTarget(e: TimedEvent, offsetMs: int, perKey: map<string, int>): (r: nat)
    ensures r >= e.deltaMs + offsetMs + KeyAdjust(perKey, e.key)
    ensures r == 0 || r == e.deltaMs + offsetMs + KeyAdjust(perKey, e.key)
  {
    var base := e.deltaMs + offsetMs + KeyAdjust(perKey, e.key);
    if base >= 0 then base else 0
  }

  /** A larger global offset never makes an event due earlier. */
  lemma PlayTargetMonotone(e: TimedEvent, o1: int, o2: int, perKey: map<string, int>)
    requires o1 <= o2
    ensures PlayTarget(e, o1, perKey) <= PlayTarget(e, o2, perKey)
  {
  }

  /** An offset set for a key (`set_key_offset`) is the one its events use,
      and offsets set for other keys do not affect them. */
  lemma KeyOffsetApplies(e: TimedEvent, offsetMs: int, perKey: map<string, int>, k: Key, x: int)
    requires KeyCodec.Supported(e.key) && KeyCodec.Supported(k)
    ensures e.key == k ==>
      PlayTarget(e, offsetMs, perKey[KeyCodec.KeyToString(k) := x]) == if e.deltaMs + offsetMs + x >= 0 then e.deltaMs + offsetMs + x else 0
    ensures e.key != k ==>
      PlayTarget(e, offsetMs, perKey[KeyCodec.KeyToString(k) := x]) == PlayTarget(e, offsetMs, perKey)
  {
    if e.key != k && KeyCodec.KeyToString(e.key) == KeyCodec.KeyToString(k) {
      KeyCodec.EncodingInjective(e.key, k);
    }
  }

  function CallOf(e: TimedEvent): Call {
    match e.mode
    case Press => KeyDown(e.key)
    case Release => KeyUp(e.key)
  }

  /** What happened for one delivered event: the call made, its target (ns
      since start), the elapsed time at the first reading, the sleep issued
      if any, the elapsed time at the reading that let it through, and the
      positions in the clock trace of those two readings. */
  datatype Delivery = Delivery(call: Call, target: nat, first: nat, sleep: Option<nat>, last: nat,
                               firstAt: nat, lastAt: nat)

  /** The scheduling rule for one event. */
  predicate Scheduled(d: Delivery, e: TimedEvent, offsetMs: int, perKey: map<string, int>) {
    && d.call == CallOf(e)
    && d.target == PlayTarget(e, offsetMs, perKey) * Millisecond
    // never delivered before its target
    && d.last >= d.target
    // an event already due goes out at once, on its first reading
    && (d.first >= d.target ==> d.last == d.first && d.lastAt == d.firstAt)
    // it sleeps only for a wait over 1 ms, and then for the wait less 1 ms
    && (d.sleep.Some? <==> d.first < d.target && d.target - d.first > Millisecond)
    && (d.sleep.Some? ==> d.first + d.sleep.value + Millisecond == d.target)
  }

  /** The readings a delivery took: `first` and `last` are the elapsed times
      of the clock readings at `firstAt` and `lastAt`, and every reading
      before `lastAt` was still short of the target. */
  predicate ReadFrom(d: Delivery, clock: seq<nat>, start: nat) {
    && d.firstAt <= d.lastAt < |clock|
    && d.first == Elapsed(clock[d.firstAt], start)
    && d.last == Elapsed(clock[d.lastAt], start)
    && forall k :: d.firstAt <= k < d.lastAt ==> Elapsed(clock[k], start) < d.target
  }

  /** How many clock readings the deliveries took. */
  function ReadingsUsed(ds: seq<Delivery>): nat {
    if ds == [] then 0 else ds[|ds| - 1].lastAt + 1
  }

  /** The deliveries read the clock in turn: each starts with the reading
      after the one that let the previous event through. */
  predicate Consecutive(ds: seq<Delivery>) {
    && (|ds| > 0 ==> ds[0].firstAt == 0)
    && forall i :: 0 < i < |ds| ==> ds[i].firstAt == ds[i - 1].lastAt + 1
  }

  /** Deliveries that read the clock in turn read it at increasing positions. */
  lemma ReadsInOrder(ds: seq<Delivery>, clock: seq<nat>, start: nat)
    requires Consecutive(ds) && forall i :: 0 <= i < |ds| ==> ReadFrom(ds[i], clock, start)
    ensures forall i, j :: 0 <= i < j < |ds| ==> ds[i].lastAt < ds[j].firstAt
  {
    forall i, j | 0 <= i < j < |ds|
      ensures ds[i].lastAt < ds[j].firstAt
    {
      ReadsInOrderFrom(ds, clock, start, i, j);
    }
  }

  lemma {:induction false} ReadsInOrderFrom(ds: seq<Delivery>, clock: seq<nat>, start: nat, i: nat, j: nat)
    requires Consecutive(ds) && forall k :: 0 <= k < |ds| ==> ReadFrom(ds[k], clock, start)
    requires i < j < |ds|
    ensures ds[i].lastAt < ds[j].firstAt
    decreases j - i
  {
    if i + 1 < j {
      ReadsInOrderFrom(ds, clock, start, i, j - 1);
      assert ReadFrom(ds[j - 1], clock, start);
    }
  }

  /** On a clock that never runs backwards, events go out in the order
      given: each is let through no later than the next one's first reading. */
  lemma GoesOutInOrder(ds: seq<Delivery>, clock: seq<nat>, start: nat)
    requires Consecutive(ds) && forall i :: 0 <= i < |ds| ==> ReadFrom(ds[i], clock, start)
    requires forall a, b :: 0 <= a <= b < |clock| ==> clock[a] <= clock[b]
    ensures forall i, j :: 0 <= i < j < |ds| ==> ds[i].last <= ds[j].first
  {
    ReadsInOrder(ds, clock, start);
    forall i, j | 0 <= i < j < |ds|
      ensures ds[i].last <= ds[j].first
    {
      assert ReadFrom(ds[i], clock, start) && ReadFrom(ds[j], clock, start);
    }
  }

  /** The deliveries so far are those of a prefix of `events`: each follows
      its event's schedule, and they read the clock in turn. */
  predicate Played(ds: seq<Delivery>, events: seq<TimedEvent>, offsetMs: int, perKey: map<string, int>,
                   start: nat, clock: seq<nat>) {
    && |ds| <= |events|
    && Consecutive(ds)
    && (forall j :: 0 <= j < |ds| ==> Scheduled(ds[j], events[j], offsetMs, perKey))
    && (forall j :: 0 <= j < |ds| ==> ReadFrom(ds[j], clock, start))
  }

  lemma PlayedAppend(ds: seq<Delivery>, d: Delivery, events: seq<TimedEvent>, offsetMs: int,
                     perKey: map<string, int>, start: nat, clock: seq<nat>)
    requires Played(ds, events, offsetMs, perKey, start, clock) && |ds| < |events|
    requires Scheduled(d, events[|ds|], offsetMs, perKey) && ReadFrom(d, clock, start)
    requires d.firstAt == ReadingsUsed(ds)
    ensures Played(ds + [d], events, offsetMs, perKey, start, clock)
    ensures ReadingsUsed(ds + [d]) == d.lastAt + 1
  {
    var ds' := ds + [d];
    forall j | 0 <= j < |ds'|
      ensures Scheduled(ds'[j], events[j], offsetMs, perKey) && ReadFrom(ds'[j], clock, start)
    {
      if j < |ds| {
        assert ds'[j] == ds[j];
      }
    }
    forall i | 0 < i < |ds'|
      ensures ds'[i].firstAt == ds'[i - 1].lastAt + 1
    {
      assert ds'[i - 1] == if i - 1 < |ds| then ds[i - 1] else d;
    }
  }

  /** The wait for one event, from clock reading `at` on: one reading; when
      the target is further off, a sleep if over 1 ms remains and then a spin
      on the clock until a reading reaches the target.  `ok` is false when
      the trace runs out first, every reading left having been short. */
  method AwaitTarget(target: nat, start: nat, clock: seq<nat>, at: nat)
    returns (first: nat, sleep: Option<nat>, last: nat, lastAt: nat, ok: bool)
    requires at <= |clock|
    ensures ok ==> at <= lastAt < |clock|
                   && first == Elapsed(clock[at], start) && last == Elapsed(clock[lastAt], start)
                   && last >= target
                   && (first >= target ==> lastAt == at)
                   && (forall k :: at <= k < lastAt ==> Elapsed(clock[k], start) < target)
                   && (sleep.Some? <==> first < target && target - first > Millisecond)
                   && (sleep.Some? ==> first + sleep.value + Millisecond == target)
    ensures !ok ==> forall k :: at <= k < |clock| ==> Elapsed(clock[k], start) < target
  {
    first, sleep, last, lastAt, ok := 0, None, 0, at, false;
    if at == |clock| {
      return;
    }
    first := Elapsed(clock[at], start);
    last := first;
    if target > first {
      var remain := target - first;
      if remain > Millisecond {
        sleep := Some(remain - Millisecond);
      }
      // Spin until a reading reaches the target.
      while last < target
        invariant at <= lastAt < |clock|
        invariant last == Elapsed(clock[lastAt], start)
        invariant forall k :: at <= k < lastAt ==> Elapsed(clock[k], start) < target
        decreases |clock| - lastAt
      {
        if lastAt + 1 == |clock| {
          return;
        }
        lastAt := lastAt + 1;
        last := Elapsed(clock[lastAt], start);
      }
    }
    ok := true;
  }

  /** `play_events` on one thread.  `clock` lists the successive readings of
      the clock; the run is cut short (`complete` false) when it has no
      reading left to take. */
  method PlayEvents(events: seq<TimedEvent>, offsetMs: int, perKey: map<string, int>, start: nat, clock: seq<nat>)
    returns (delivered: seq<Delivery>, complete: bool)
    // each delivery follows its event's schedule and read the clock in turn
    ensures Played(delivered, events, offsetMs, perKey, start, clock)
    ensures complete <==> |delivered| == |events|
    // a run cut short found every reading left short of the next target
    ensures !complete ==>
              ReadingsUsed(delivered) <= |clock|
              && forall k :: ReadingsUsed(delivered) <= k < |clock| ==>
                   Elapsed(clock[k], start) < PlayTarget(events[|delivered|], offsetMs, perKey) * Millisecond
  {
    delivered := [];
    var cp := 0;
    var i := 0;
    while i < |events|
      invariant 0 <= i <= |events| && |delivered| == i
      invariant cp == ReadingsUsed(delivered) <= |clock|
      invariant Played(delivered, events, offsetMs, perKey, start, clock)
    {
      var e := events[i];
      var target := PlayTarget(e, offsetMs, perKey) * Millisecond;
      var first, sleep, last, lastAt, ok := AwaitTarget(target, start, clock, cp);
      if !ok {
        complete := false;
        return;
      }
      var d := Delivery(CallOf(e), target, first, sleep, last, cp, lastAt);
      PlayedAppend(delivered, d, events, offsetMs, perKey, start, clock);
      delivered := delivered + [d];
      cp := lastAt + 1;
      i := i + 1;
    }
    complete := true;
  }
}
