/**
  The second engine's event type: a key edge and the time it happened,
  measured from the start of the recording.
*/
module Schema {
  import Enigo

  datatype KeyAction = Down(key: Enigo.Key) | Up(key: Enigo.Key)

  /** `at` is in nanoseconds since the recording started. */
  datatype TimedEvent = TimedEvent(at: nat, action: KeyAction)
}

/**
  Playback in the second engine (`play_timeline_async`): events go out in
  the order given, each at its time shifted by the global offset; a shared
  stop flag, read before each event and while waiting, ends the run.  The
  clock and the stop flag are finite traces of observations.
*/
module MacroPlay {
  import opened Enigo
  import opened Clock
  import opened Schema

  /** `apply_offset`: shift by a signed number of milliseconds; a negative
      shift saturates at 0.  Its result is the clamp at 0 of at + offset. */
  function ApplyOffset(at: nat, offsetMs: int): (r: nat)
    ensures r == if at + offsetMs * Millisecond >= 0 then at + offsetMs * Millisecond else 0
  {
    if offsetMs >= 0 then at + offsetMs * Millisecond
    else
      var back := -offsetMs * Millisecond;
      if at >= back then at - back else 0
  }

  /** A later event or a larger offset is never scheduled earlier. */
  lemma {:induction false} ApplyOffsetMonotone(at1: nat, at2: nat, o1: int, o2: int)
    requires at1 <= at2 && o1 <= o2
    ensures ApplyOffset(at1, o1) <= ApplyOffset(at2, o2)
  {
    assert o1 * Millisecond <= o2 * Millisecond;
  }

  /** Non-negative offsets compose by addition. */
  lemma {:induction false} ApplyOffsetAdditive(at: nat, o1: nat, o2: nat)
    ensures ApplyOffset(ApplyOffset(at, o1), o2) == ApplyOffset(at, o1 + o2)
  {
    assert (o1 + o2) * Millisecond == o1 * Millisecond + o2 * Millisecond;
  }

  function ActionCall(a: KeyAction): Call {
    match a
    case Down(k) => KeyDown(k)
    case Up(k) => KeyUp(k)
  }

  /** The first `n` rounds of a wait that started at clock reading `c0` and
      stop observation `s0` each saw the flag clear and a time short of
      `scheduled`. */
  predicate QuietRounds(clock: seq<nat>, c0: nat, stops: seq<bool>, s0: nat, n: nat, scheduled: nat, start: nat) {
    && c0 + n <= |clock| && s0 + n <= |stops|
    && (forall k :: s0 <= k < s0 + n ==> !stops[k])
    && (forall k :: c0 <= k < c0 + n ==> Elapsed(clock[k], start) < scheduled)
  }

  lemma QuietExtend(clock: seq<nat>, c0: nat, stops: seq<bool>, s0: nat, n: nat, scheduled: nat, start: nat)
    requires QuietRounds(clock, c0, stops, s0, n, scheduled, start)
    requires c0 + n < |clock| && s0 + n < |stops|
    requires !stops[s0 + n] && Elapsed(clock[c0 + n], start) < scheduled
    ensures QuietRounds(clock, c0, stops, s0, n + 1, scheduled, start)
  {
  }

  /** A wait from clock reading `c0` and stop observation `s0` on that runs
      out of a trace: every round it could take was quiet. */
  predicate RanOut(clock: seq<nat>, c0: nat, stops: seq<bool>, s0: nat, scheduled: nat, start: nat) {
    && c0 <= |clock| && s0 <= |stops|
    && QuietRounds(clock, c0, stops, s0,
                   if |clock| - c0 <= |stops| - s0 then |clock| - c0 else |stops| - s0, scheduled, start)
  }

  /** The sleeps of a wait whose quiet rounds read `clock[lo..hi]`: a
      round sleeps, for the remainder less 200 µs, when over 500 µs remain. */
  function WaitSleeps(clock: seq<nat>, lo: nat, hi: nat, scheduled: nat, start: nat): seq<Sleep>
    requires lo <= hi <= |clock|
    decreases hi
  {
    if hi == lo then []
    else
      var prev := WaitSleeps(clock, lo, hi - 1, scheduled, start);
      var now := clock[hi - 1];
      var elapsed := Elapsed(now, start);
      if elapsed < scheduled && scheduled - elapsed > 500 * Microsecond
      then prev + [Sleep(now, scheduled - elapsed - 200 * Microsecond)]
      else prev
  }

  /** Every sleep of a wait is issued with over 500 µs to go and ends
      200 µs before the scheduled time. */
  lemma {:induction false} WaitSleepsRule(clock: seq<nat>, lo: nat, hi: nat, scheduled: nat, start: nat)
    requires lo <= hi <= |clock|
    ensures forall s :: s in WaitSleeps(clock, lo, hi, scheduled, start) ==>
              (Elapsed(s.at, start) + 500 * Microsecond < scheduled
               && Elapsed(s.at, start) + s.dur + 200 * Microsecond == scheduled)
    decreases hi
  {
    if hi > lo {
      WaitSleepsRule(clock, lo, hi - 1, scheduled, start);
    }
  }

  /** `wait_until`, from clock reading `cp0` and stop observation `sp0` on.
      Each round reads the clock, then the flag; it returns when the flag is
      set or the elapsed time has reached `scheduled`; otherwise it sleeps
      for the remainder less 200 µs when over 500 µs remain, or spins.
      `ok` is false when a trace runs out first. */
  method WaitUntil(start: nat, scheduled: nat, clock: seq<nat>, cp0: nat, stops: seq<bool>, sp0: nat)
    returns (elapsed: nat, stopSeen: bool, sleeps: seq<Sleep>, cp: nat, sp: nat, ok: bool)
    requires cp0 <= |clock| && sp0 <= |stops|
    ensures cp0 <= cp <= |clock| && sp0 <= sp <= |stops|
    ensures ok ==> cp > cp0 && sp > sp0 && elapsed == Elapsed(clock[cp - 1], start)
    ensures ok ==> stopSeen || elapsed >= scheduled
    ensures ok && stopSeen ==> stops[sp - 1]
    ensures !ok ==> cp == |clock| || sp == |stops|
    ensures forall s :: s in sleeps ==>
              Elapsed(s.at, start) + 500 * Microsecond < scheduled
              && Elapsed(s.at, start) + s.dur + 200 * Microsecond == scheduled
    // one clock reading and one flag reading per round; the last round ended
    // the wait, every earlier one was quiet and slept by the rule
    ensures ok ==> cp - cp0 == sp - sp0 && stopSeen == stops[sp - 1]
                   && QuietRounds(clock, cp0, stops, sp0, sp - sp0 - 1, scheduled, start)
                   && sleeps == WaitSleeps(clock, cp0, cp - 1, scheduled, start)
    ensures !ok ==> RanOut(clock, cp0, stops, sp0, scheduled, start)
  {
    cp, sp := cp0, sp0;
    sleeps := [];
    elapsed, stopSeen, ok := 0, false, false;
    while true
      invariant cp0 <= cp <= |clock| && sp0 <= sp <= |stops| && cp - cp0 == sp - sp0
      invariant QuietRounds(clock, cp0, stops, sp0, sp - sp0, scheduled, start)
      invariant sleeps == WaitSleeps(clock, cp0, cp, scheduled, start)
      decreases |clock| - cp
    {
      WaitSleepsRule(clock, cp0, cp, scheduled, start);
      if cp == |clock| {
        return;
      }
      var now := clock[cp];
      cp := cp + 1;
      elapsed := Elapsed(now, start);
      if sp == |stops| {
        return;
      }
      var stop := stops[sp];
      sp := sp + 1;
      if stop {
        stopSeen, ok := true, true;
        return;
      }
      if elapsed >= scheduled {
        ok := true;
        return;
      }
      var remaining := scheduled - elapsed;
      QuietExtend(clock, cp0, stops, sp0, sp - 1 - sp0, scheduled, start);
      if remaining > 500 * Microsecond {
        sleeps := sleeps + [Sleep(now, remaining - 200 * Microsecond)];
      }
    }
  }

  /** What happened for one delivered event: the call, its scheduled time,
      the sleeps issued while waiting, the elapsed time at the last reading,
      whether the wait ended because the stop flag was set, and where in the
      traces it looked: the flag read before the wait at `topAt`, and
      `rounds` wait rounds reading the clock from `clockFrom` on and the
      flag from `topAt + 1` on. */
  datatype Delivery = Delivery(call: Call, scheduled: nat, sleeps: seq<Sleep>, seenAt: nat, stopSeen: bool,
                               topAt: nat, clockFrom: nat, rounds: nat)

  datatype Outcome = Finished | Stopped | OutOfObservations

  /** The stop flag, once set, stays set (nothing clears it during a run). */
  predicate Sticky(stops: seq<bool>) {
    forall i, j :: 0 <= i <= j < |stops| && stops[i] ==> stops[j]
  }

  /** The rule each delivered event obeys. */
  predicate Delivered(d: Delivery, e: TimedEvent, offsetMs: int, start: nat) {
    && d.call == ActionCall(e.action)
    && d.scheduled == ApplyOffset(e.at, offsetMs)
    // without a stop, never before its time
    && (!d.stopSeen ==> d.seenAt >= d.scheduled)
    // a sleep never passes the scheduled time
    && (forall s :: s in d.sleeps ==> Elapsed(s.at, start) + s.dur < d.scheduled)
  }

  /** What a delivery observed: the flag clear before the wait; quiet rounds
      until the last, whose clock reading is `seenAt` and whose flag reading
      is `stopSeen`; and the sleeps those quiet rounds call for. */
  predicate Observed(d: Delivery, clock: seq<nat>, stops: seq<bool>, start: nat) {
    && 0 < d.rounds
    && d.topAt + d.rounds < |stops| && d.clockFrom + d.rounds <= |clock|
    && !stops[d.topAt]
    && QuietRounds(clock, d.clockFrom, stops, d.topAt + 1, d.rounds - 1, d.scheduled, start)
    && d.seenAt == Elapsed(clock[d.clockFrom + d.rounds - 1], start)
    && d.stopSeen == stops[d.topAt + d.rounds]
    && d.sleeps == WaitSleeps(clock, d.clockFrom, d.clockFrom + d.rounds - 1, d.scheduled, start)
  }

  /** The next unread clock reading after the deliveries. */
  function NextClock(ds: seq<Delivery>): nat {
    if ds == [] then 0 else ds[|ds| - 1].clockFrom + ds[|ds| - 1].rounds
  }

  /** The next unread flag observation after the deliveries. */
  function NextStop(ds: seq<Delivery>): nat {
    if ds == [] then 0 else ds[|ds| - 1].topAt + ds[|ds| - 1].rounds + 1
  }

  /** The deliveries read both traces in turn, each from where the previous
      one stopped reading. */
  predicate InTurn(ds: seq<Delivery>) {
    && (|ds| > 0 ==> ds[0].topAt == 0 && ds[0].clockFrom == 0)
    && forall i :: 0 < i < |ds| ==>
         ds[i].topAt == ds[i - 1].topAt + ds[i - 1].rounds + 1
         && ds[i].clockFrom == ds[i - 1].clockFrom + ds[i - 1].rounds
  }

  /** Deliveries that read the traces in turn read them at increasing
      positions: every flag and clock reading of an earlier event comes
      before those of a later one. */
  lemma TracesInOrder(ds: seq<Delivery>)
    requires InTurn(ds)
    ensures forall i, j :: 0 <= i < j < |ds| ==>
              ds[i].topAt + ds[i].rounds < ds[j].topAt && ds[i].clockFrom + ds[i].rounds <= ds[j].clockFrom
  {
    forall i, j | 0 <= i < j < |ds|
      ensures ds[i].topAt + ds[i].rounds < ds[j].topAt && ds[i].clockFrom + ds[i].rounds <= ds[j].clockFrom
    {
      TracesInOrderFrom(ds, i, j);
    }
  }

  lemma {:induction false} TracesInOrderFrom(ds: seq<Delivery>, i: nat, j: nat)
    requires InTurn(ds) && i < j < |ds|
    ensures ds[i].topAt + ds[i].rounds < ds[j].topAt && ds[i].clockFrom + ds[i].rounds <= ds[j].clockFrom
    decreases j - i
  {
    if i + 1 < j {
      TracesInOrderFrom(ds, i, j - 1);
    }
  }

  /** On a clock that never runs backwards, events go out in the order
      given: the reading that let an event through is no later than the one
      that let a later event through. */
  lemma GoesOutInOrder(ds: seq<Delivery>, clock: seq<nat>, stops: seq<bool>, start: nat)
    requires InTurn(ds) && forall i :: 0 <= i < |ds| ==> Observed(ds[i], clock, stops, start)
    requires forall a, b :: 0 <= a <= b < |clock| ==> clock[a] <= clock[b]
    ensures forall i, j :: 0 <= i < j < |ds| ==> ds[i].seenAt <= ds[j].seenAt
  {
    TracesInOrder(ds);
    forall i, j | 0 <= i < j < |ds|
      ensures ds[i].seenAt <= ds[j].seenAt
    {
      assert Observed(ds[i], clock, stops, start) && Observed(ds[j], clock, stops, start);
    }
  }

  /** The deliveries so far are those of a prefix of `events`: each obeys
      the rule for its event and observed the traces in turn. */
  predicate Played(ds: seq<Delivery>, events: seq<TimedEvent>, offsetMs: int, start: nat,
                   clock: seq<nat>, stops: seq<bool>) {
    && |ds| <= |events|
    && InTurn(ds)
    && (forall j :: 0 <= j < |ds| ==> Delivered(ds[j], events[j], offsetMs, start))
    && (forall j :: 0 <= j < |ds| ==> Observed(ds[j], clock, stops, start))
  }

  lemma PlayedAppend(ds: seq<Delivery>, d: Delivery, events: seq<TimedEvent>, offsetMs: int, start: nat,
                     clock: seq<nat>, stops: seq<bool>)
    requires Played(ds, events, offsetMs, start, clock, stops) && |ds| < |events|
    requires Delivered(d, events[|ds|], offsetMs, start) && Observed(d, clock, stops, start)
    requires d.topAt == NextStop(ds) && d.clockFrom == NextClock(ds)
    ensures Played(ds + [d], events, offsetMs, start, clock, stops)
    ensures NextStop(ds + [d]) == d.topAt + d.rounds + 1 && NextClock(ds + [d]) == d.clockFrom + d.rounds
  {
    ObservedAppend(ds, d, clock, stops, start);
    DeliveredAppend(ds, d, events, offsetMs, start);
    InTurnAppend(ds, d);
  }

  lemma DeliveredAppend(ds: seq<Delivery>, d: Delivery, events: seq<TimedEvent>, offsetMs: int, start: nat)
    requires |ds| < |events|
    requires forall j :: 0 <= j < |ds| ==> Delivered(ds[j], events[j], offsetMs, start)
    requires Delivered(d, events[|ds|], offsetMs, start)
    ensures forall j :: 0 <= j < |ds| + 1 ==> Delivered((ds + [d])[j], events[j], offsetMs, start)
  {
    forall j | 0 <= j < |ds| + 1
      ensures Delivered((ds + [d])[j], events[j], offsetMs, start)
    {
      if j < |ds| {
        assert (ds + [d])[j] == ds[j];
      }
    }
  }

  lemma InTurnAppend(ds: seq<Delivery>, d: Delivery)
    requires InTurn(ds) && d.topAt == NextStop(ds) && d.clockFrom == NextClock(ds)
    ensures InTurn(ds + [d])
  {
    var ds' := ds + [d];
    forall i | 0 < i < |ds'|
      ensures ds'[i].topAt == ds'[i - 1].topAt + ds'[i - 1].rounds + 1
              && ds'[i].clockFrom == ds'[i - 1].clockFrom + ds'[i - 1].rounds
    {
      assert ds'[i - 1] == if i - 1 < |ds| then ds[i - 1] else d;
    }
  }

  lemma ObservedAppend(ds: seq<Delivery>, d: Delivery, clock: seq<nat>, stops: seq<bool>, start: nat)
    requires forall j :: 0 <= j < |ds| ==> Observed(ds[j], clock, stops, start)
    requires Observed(d, clock, stops, start)
    ensures forall j :: 0 <= j < |ds| + 1 ==> Observed((ds + [d])[j], clock, stops, start)
  {
    forall j | 0 <= j < |ds| + 1
      ensures Observed((ds + [d])[j], clock, stops, start)
    {
      if j < |ds| {
        assert (ds + [d])[j] == ds[j];
      } else {
        assert (ds + [d])[j] == d;
      }
    }
  }

  /** With a flag that stays set, a stop seen during a wait is followed by
      a set flag at the next top-of-loop read, so no delivery follows it; and
      a flag set before the run lets nothing out. */
  lemma StopEndsRun(ds: seq<Delivery>, events: seq<TimedEvent>, offsetMs: int, start: nat,
                    clock: seq<nat>, stops: seq<bool>)
    requires Played(ds, events, offsetMs, start, clock, stops)
    ensures Sticky(stops) ==> forall i :: 0 <= i < |ds| && ds[i].stopSeen ==> i == |ds| - 1
    ensures Sticky(stops) && |stops| > 0 && stops[0] ==> ds == []
  {
    if Sticky(stops) {
      forall i | 0 <= i < |ds| - 1
        ensures !ds[i].stopSeen
      {
        var at := ds[i].topAt + ds[i].rounds;
        assert Observed(ds[i + 1], clock, stops, start) && ds[i + 1].topAt == at + 1;
        assert Observed(ds[i], clock, stops, start);
      }
      if ds != [] {
        assert Observed(ds[0], clock, stops, start);
      }
    }
  }

  /** One pass of the delivery loop, from clock reading `cp` and flag
      observation `sp` on: read the flag, and unless it is set, wait for
      the event.  `go` is true when the event goes out as `d`. */
  method PlayOne(ev: TimedEvent, offsetMs: int, start: nat, clock: seq<nat>, cp: nat, stops: seq<bool>, sp: nat)
    returns (d: Delivery, go: bool, outcome: Outcome)
    requires cp <= |clock| && sp <= |stops|
    ensures go ==> Delivered(d, ev, offsetMs, start) && Observed(d, clock, stops, start)
                   && d.topAt == sp && d.clockFrom == cp
    ensures !go ==> outcome != Finished
    ensures !go && outcome == Stopped ==> sp < |stops| && stops[sp]
    ensures !go && outcome == OutOfObservations ==>
              sp == |stops|
              || (!stops[sp] && RanOut(clock, cp, stops, sp + 1, ApplyOffset(ev.at, offsetMs), start))
  {
    d, go, outcome := Delivery(ActionCall(ev.action), 0, [], 0, false, sp, cp, 0), false, OutOfObservations;
    if sp == |stops| {
      return;
    }
    if stops[sp] {
      outcome := Stopped;
      return;
    }
    var scheduled := ApplyOffset(ev.at, offsetMs);
    var elapsed, stopSeen, sleeps, cp', sp', ok := WaitUntil(start, scheduled, clock, cp, stops, sp + 1);
    if !ok {
      return;
    }
    d := Delivery(ActionCall(ev.action), scheduled, sleeps, elapsed, stopSeen, sp, cp, cp' - cp);
    go := true;
  }

  /** The delivery loop of `play_timeline_async`. */
  method PlayTimeline(events: seq<TimedEvent>, offsetMs: int, start: nat, clock: seq<nat>, stops: seq<bool>)
    returns (delivered: seq<Delivery>, outcome: Outcome)
    // each delivery obeys its event's rule and observed the traces in turn
    ensures Played(delivered, events, offsetMs, start, clock, stops)
    ensures outcome == Finished <==> |delivered| == |events|
    // a run that stops does so on a set flag read before the next event
    ensures outcome == Stopped ==>
              |delivered| < |events| && NextStop(delivered) < |stops| && stops[NextStop(delivered)]
    // a run that runs out does so before the next event's top read or in its wait
    ensures outcome == OutOfObservations ==>
              |delivered| < |events| && NextClock(delivered) <= |clock| && NextStop(delivered) <= |stops|
              && (NextStop(delivered) == |stops|
                  || (!stops[NextStop(delivered)]
                      && RanOut(clock, NextClock(delivered), stops, NextStop(delivered) + 1,
                                ApplyOffset(events[|delivered|].at, offsetMs), start)))
    // a stop seen while waiting lets that one event through and no more
    ensures Sticky(stops) ==> forall i :: 0 <= i < |delivered| && delivered[i].stopSeen ==> i == |delivered| - 1
    // a stop raised before the run delivers nothing
    ensures Sticky(stops) && |stops| > 0 && stops[0] ==> delivered == [] && (events != [] ==> outcome == Stopped)
  {
    delivered := [];
    var cp, sp := 0, 0;
    var i := 0;
    while i < |events|
      invariant 0 <= i <= |events| && |delivered| == i
      invariant cp == NextClock(delivered) <= |clock| && sp == NextStop(delivered) <= |stops|
      invariant Played(delivered, events, offsetMs, start, clock, stops)
    {
      var d, go;
      d, go, outcome := PlayOne(events[i], offsetMs, start, clock, cp, stops, sp);
      if !go {
        StopEndsRun(delivered, events, offsetMs, start, clock, stops);
        return;
      }
      PlayedAppend(delivered, d, events, offsetMs, start, clock, stops);
      delivered := delivered + [d];
      cp, sp := NextClock(delivered), NextStop(delivered);
      i := i + 1;
    }
    outcome := Finished;
    StopEndsRun(delivered, events, offsetMs, start, clock, stops);
  }
}
