/**
  Time as the playback code sees it.  Instants and durations are whole
  nanoseconds; a clock is a finite trace of readings of `Instant::now()`.
*/
module Clock {

  const Microsecond: nat := 1_000
  const Millisecond: nat := 1_000_000

  /** `now.saturating_duration_since(start)`: the time since `start`, or 0 for
      a reading taken before it. */
  function Elapsed(now: nat, start: nat): (d: nat)
    ensures now >= start ==> now == start + d
    ensures now < start ==> d == 0
  {
    if now >= start then now - start else 0
  }

  /** One `thread::sleep(dur)` issued when the clock read `at`. */
  datatype Sleep = Sleep(at: nat, dur: nat)
}
