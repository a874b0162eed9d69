/**
  The timing aggregator `timing_map` (src/recorder.rs): it lines the stored
  samples up by position, up to the length L of the shortest non-empty one,
  collects the delays that share a (key text, edge, position) slot into a
  bucket, reduces each bucket to one delay (lower median, or the mean of the
  values an outlier test keeps), and sorts the result by delay.

  Two details follow the source literally:
  - a bucket is keyed by the key's derived `Debug` text, and the output key
    is rebuilt from that text by taking the first character after
    `Layout(`; for a character key that is the opening quote of the char's
    `Debug` form, and a named key becomes `Layout('?')` (see DebugRebuild
    and CorrectedRebuild below);
  - the floating-point outlier test is a parameter `keep(bucket, value)`;
    OutlierKeep gives it over exact reals.
*/
module Aggregator {
  import opened Wrappers
  import opened Text
  import opened Enigo
  import opened Sorting
  import opened KeyCodec
  import opened Samples

  // ---------------------------------------------------------------------------
  // Debug text of a key and the key rebuilt from it
  // ---------------------------------------------------------------------------

  /** Rust's `char::escape_debug` for the quote, the backslash and the
      characters it writes as a backslash and one letter or digit; every
      other character is written as itself here, including the control
      characters and grapheme extenders Rust writes as `\u{..}`. */
  function EscapeDebug(c: char): string {
    if c == '\'' then "\\'"
    else if c == '\\' then "\\\\"
    else if c == '\n' then "\\n"
    else if c == '\r' then "\\r"
    else if c == '\t' then "\\t"
    else if c == '\0' then "\\0"
    else [c]
  }

  /** `format!("{:?}", key)`, the bucket's key text (`key_id`). */
  function DebugText(k: Key): string {
    if k.Layout? then "Layout('" + EscapeDebug(k.c) + "')" else VariantName(k)
  }

  /** The key rebuilt from a bucket's key text, as the source does it: the first
      character after a `Layout(` prefix, otherwise `Layout('?')`. */
  function DebugRebuild(text: string): Key {
    if StartsWith(text, "Layout(") && |text| > 7 then Layout(text[7]) else Layout('?')
  }

  /** Keys whose Debug text is what DebugText says: an unlisted variant's name
      is never that of a listed one and never looks like a character key. */
  ghost predicate WellNamed(k: Key) {
    k.Unlisted? ==>
      !StartsWith(k.name, "Layout(") && k.name != "Backspace"
      && forall n: Key :: Named(n) ==> k.name != Name(n)
  }

  /** As written, every character key comes back as the quote character and
      every other key as `Layout('?')`: no key survives aggregation except
      `Layout('\'')` itself. */
  lemma DebugRebuildLosesKeys(k: Key)
    requires WellNamed(k)
    ensures DebugRebuild(DebugText(k)) == if k.Layout? then Layout('\'') else Layout('?')
  {
    var t := DebugText(k);
    if k.Layout? {
      assert StartsWith(t, "Layout(");
      assert t[7] == '\'';
    } else if Named(k) || k.Backspace? {
      assert t[0] != 'L' || t[1] != 'a';
    }
  }

  /** The concrete input: key `a` is aggregated under key `'`. */
  lemma DebugRebuildCounterexample()
    ensures DebugRebuild(DebugText(Layout('a'))) == Layout('\'')
    ensures DebugRebuild(DebugText(Layout('a'))) != Layout('a')
  {
    DebugRebuildLosesKeys(Layout('a'));
  }

  function Unescape(c: char): char {
    if c == 'n' then '\n' else if c == 'r' then '\r' else if c == 't' then '\t'
    else if c == '0' then '\0' else c
  }

  /** The evidently intended rebuild: parse the Debug text back into the key. */
  function CorrectedRebuild(text: string): Key {
    if StartsWith(text, "Layout('") && |text| > 8 then
      if text[8] == '\\' && |text| > 9 then Layout(Unescape(text[9])) else Layout(text[8])
    else if text == "Space" then Space
    else if text == "Return" then Return
    else if text == "Tab" then Tab
    else if text == "Escape" then Escape
    else if text == "UpArrow" then UpArrow
    else if text == "DownArrow" then DownArrow
    else if text == "LeftArrow" then LeftArrow
    else if text == "RightArrow" then RightArrow
    else if text == "Shift" then Shift
    else if text == "Control" then Control
    else if text == "Alt" then Alt
    else if text == "Meta" then Meta
    else if text == "Backspace" then Backspace
    else Unlisted(text)
  }

  lemma NamedRebuild(k: Key)
    requires Named(k) || k.Backspace?
    ensures CorrectedRebuild(DebugText(k)) == k
  {
    var t := DebugText(k);
    assert !StartsWith(t, "Layout('") by {
      assert t[0] != 'L' || t[1] != 'a';
    }
  }

  lemma LayoutRebuild(c: char)
    ensures CorrectedRebuild(DebugText(Layout(c))) == Layout(c)
  {
    assert StartsWith(DebugText(Layout(c)), "Layout('");
  }

  lemma UnlistedRebuild(name: string)
    requires WellNamed(Unlisted(name))
    ensures CorrectedRebuild(DebugText(Unlisted(name))) == Unlisted(name)
  {
    assert DebugText(Unlisted(name)) == name;
    assert !StartsWith(name, "Layout('");
    assert Named(Space) && Named(Return) && Named(Tab) && Named(Escape);
    assert Named(UpArrow) && Named(DownArrow) && Named(LeftArrow) && Named(RightArrow);
    assert Named(Shift) && Named(Control) && Named(Alt) && Named(Meta);
  }

  /** The corrected rebuild inverts the Debug text of every key. */
  lemma CorrectedRebuildRoundTrip(k: Key)
    requires WellNamed(k)
    ensures CorrectedRebuild(DebugText(k)) == k
  {
    match k {
      case Layout(c) => LayoutRebuild(c);
      case Unlisted(name) => UnlistedRebuild(name);
      case _ => NamedRebuild(k);
    }
  }

  // ---------------------------------------------------------------------------
  // Positional buckets
  // ---------------------------------------------------------------------------

  /** A bucket's key: the key's Debug text, the edge and the position. */
  datatype Slot = Slot(keyText: string, mode: Mode, index: nat)

  /** One contribution to a bucket: a delay and its sample's weight. */
  datatype Entry = Entry(value: nat, weight: nat)

  type Bucket = seq<Entry>

  function SlotOf(e: TimedEvent, index: nat): Slot {
    Slot(DebugText(e.key), e.mode, index)
  }

  /** A sample's weight: its event count, at least 1. */
  function Weight(s: Sample): nat {
    if |s.events| > 1 then |s.events| else 1
  }

  function Min(a: nat, b: nat): nat {
    if a <= b then a else b
  }

  /** `expected_len`: the length of the shortest sample that has events, or 0
      when none has. */
  function ExpectedLen(samples: seq<Sample>): (n: nat)
    ensures n == 0 <==> forall i :: 0 <= i < |samples| ==> samples[i].events == []
    ensures forall i :: 0 <= i < |samples| && samples[i].events != [] ==> n <= |samples[i].events|
    ensures n > 0 ==> exists i :: 0 <= i < |samples| && |samples[i].events| == n
    decreases |samples|
  {
    if samples == [] then 0
    else
      var rest := ExpectedLen(samples[1..]);
      var here := |samples[0].events|;
      assert forall i :: 1 <= i < |samples| ==> samples[i] == samples[1..][i - 1];
      if here == 0 then rest
      else if rest == 0 || here <= rest then here
      else rest
  }

  function Get(m: map<Slot, Bucket>, slot: Slot): Bucket {
    if slot in m then m[slot] else []
  }

  /** `per_slot.entry(slot).or_default().push(x)`. */
  function Push(m: map<Slot, Bucket>, slot: Slot, x: Entry): map<Slot, Bucket> {
    m[slot := Get(m, slot) + [x]]
  }

  /** The first n events of one sample, pushed into their buckets in order. */
  function FillEvents(m: map<Slot, Bucket>, events: seq<TimedEvent>, n: nat, w: nat): map<Slot, Bucket>
    requires n <= |events|
    decreases n
  {
    if n == 0 then m
    else
      Push(FillEvents(m, events, n - 1, w), SlotOf(events[n - 1], n - 1), Entry(events[n - 1].deltaMs, w))
  }

  /** `per_slot` after the nested loops: every sample in order contributes its
      first min(L, length) events. */
  function FillSamples(samples: seq<Sample>, expected: nat): map<Slot, Bucket>
    decreases |samples|
  {
    if samples == [] then map[]
    else
      var last := samples[|samples| - 1];
      FillEvents(FillSamples(samples[..|samples| - 1], expected), last.events, Min(expected, |last.events|), Weight(last))
  }

  function Buckets(samples: seq<Sample>): map<Slot, Bucket> {
    FillSamples(samples, ExpectedLen(samples))
  }

  /** What one sample puts in one slot: its event at that position, if the
      position is below L and the event's key text and edge match. */
  function Contribution(s: Sample, slot: Slot, expected: nat): Bucket {
    if slot.index < expected && slot.index < |s.events| && SlotOf(s.events[slot.index], slot.index) == slot
    then [Entry(s.events[slot.index].deltaMs, Weight(s))]
    else []
  }

  /** The contributions of all samples to one slot, in sample order. */
  function SlotEntries(samples: seq<Sample>, slot: Slot, expected: nat): Bucket
    decreases |samples|
  {
    if samples == [] then []
    else SlotEntries(samples[..|samples| - 1], slot, expected) + Contribution(samples[|samples| - 1], slot, expected)
  }

  /** Whether event `index` of a sample, among its first n, lands in `slot`. */
  predicate Lands(events: seq<TimedEvent>, n: nat, slot: Slot)
    requires n <= |events|
  {
    slot.index < n && SlotOf(events[slot.index], slot.index) == slot
  }

  /** One push extends the pushed slot's bucket and no other. */
  lemma PushAt(m: map<Slot, Bucket>, here: Slot, x: Entry, slot: Slot)
    ensures slot == here ==> Get(Push(m, here, x), slot) == Get(m, slot) + [x]
    ensures slot != here ==> Get(Push(m, here, x), slot) == Get(m, slot)
    ensures slot in Push(m, here, x) <==> slot in m || slot == here
  {
  }

  /** The entry a sample whose first n events are pushed adds to a slot. */
  function Gained(events: seq<TimedEvent>, n: nat, w: nat, slot: Slot): Bucket
    requires n <= |events|
  {
    if Lands(events, n, slot) then [Entry(events[slot.index].deltaMs, w)] else []
  }

  /** After the first n events of one sample are pushed, a slot's bucket has
      gained that sample's entry exactly when one of those events lands in it. */
  predicate FilledAt(m: map<Slot, Bucket>, events: seq<TimedEvent>, n: nat, w: nat, slot: Slot)
    requires n <= |events|
  {
    && Get(FillEvents(m, events, n, w), slot) == Get(m, slot) + Gained(events, n, w, slot)
    && (slot in FillEvents(m, events, n, w) <==> slot in m || Lands(events, n, slot))
  }

  /** Where event n - 1 is pushed, given where the first n - 1 went. */
  lemma {:induction false} FillEventsStep(m: map<Slot, Bucket>, events: seq<TimedEvent>, n: nat, w: nat, slot: Slot)
    requires 0 < n <= |events|
    ensures FilledAt(m, events, n, w, slot)
    decreases n, 0
  {
    FillEventsAt(m, events, n - 1, w, slot);
    var before := FillEvents(m, events, n - 1, w);
    var here := SlotOf(events[n - 1], n - 1);
    var x := Entry(events[n - 1].deltaMs, w);
    assert FillEvents(m, events, n, w) == Push(before, here, x);
    PushAt(before, here, x, slot);
    if slot == here {
      assert !Lands(events, n - 1, slot) && Lands(events, n, slot);
      assert Gained(events, n - 1, w, slot) == [];
      assert Gained(events, n, w, slot) == [x];
      assert Get(before, slot) == Get(m, slot) + [];
    } else {
      assert Lands(events, n, slot) == Lands(events, n - 1, slot);
      assert Gained(events, n, w, slot) == Gained(events, n - 1, w, slot);
    }
  }

  lemma {:induction false} FillEventsAt(m: map<Slot, Bucket>, events: seq<TimedEvent>, n: nat, w: nat, slot: Slot)
    requires n <= |events|
    ensures FilledAt(m, events, n, w, slot)
    decreases n, 1
  {
    if n > 0 {
      FillEventsStep(m, events, n, w, slot);
    } else {
      assert Get(m, slot) + [] == Get(m, slot);
    }
  }

  /** Each bucket holds exactly the contributions of the samples, in sample
      order; a slot has a bucket exactly when some sample contributes to it. */
  lemma {:induction false} FillSamplesAt(samples: seq<Sample>, expected: nat, slot: Slot)
    ensures Get(FillSamples(samples, expected), slot) == SlotEntries(samples, slot, expected)
    ensures slot in FillSamples(samples, expected) <==> SlotEntries(samples, slot, expected) != []
    decreases |samples|
  {
    if samples != [] {
      var init := samples[..|samples| - 1];
      var last := samples[|samples| - 1];
      FillSamplesAt(init, expected, slot);
      FillEventsAt(FillSamples(init, expected), last.events, Min(expected, |last.events|), Weight(last), slot);
    }
  }

  /** A sample that contributes to a slot puts an entry in its bucket. */
  lemma {:induction false} SlotEntriesHas(samples: seq<Sample>, slot: Slot, expected: nat, i: nat)
    requires i < |samples|
    requires Contribution(samples[i], slot, expected) != []
    ensures SlotEntries(samples, slot, expected) != []
    decreases |samples|
  {
    if i < |samples| - 1 {
      var init := samples[..|samples| - 1];
      assert init[i] == samples[i];
      SlotEntriesHas(init, slot, expected, i);
    }
  }

  /** Every entry of a bucket comes from some sample's event at the slot's
      position, and that event's key text and edge are the slot's. */
  lemma {:induction false} SlotEntriesFrom(samples: seq<Sample>, slot: Slot, expected: nat, j: nat)
    requires j < |SlotEntries(samples, slot, expected)|
    ensures exists i :: 0 <= i < |samples| && slot.index < expected && slot.index < |samples[i].events|
              && SlotOf(samples[i].events[slot.index], slot.index) == slot
              && SlotEntries(samples, slot, expected)[j].value == samples[i].events[slot.index].deltaMs
    decreases |samples|
  {
    var init := samples[..|samples| - 1];
    var k := |samples| - 1;
    if j < |SlotEntries(init, slot, expected)| {
      SlotEntriesFrom(init, slot, expected, j);
      var i :| 0 <= i < |init| && slot.index < expected && slot.index < |init[i].events|
              && SlotOf(init[i].events[slot.index], slot.index) == slot
              && SlotEntries(init, slot, expected)[j].value == init[i].events[slot.index].deltaMs;
      assert init[i] == samples[i];
    } else {
      assert Contribution(samples[k], slot, expected) != [];
    }
  }

  /** Every bucket is non-empty, so the source's `values.is_empty()` skip never fires. */
  lemma BucketsNonEmpty(samples: seq<Sample>, slot: Slot)
    requires slot in Buckets(samples)
    ensures Buckets(samples)[slot] != []
  {
    FillSamplesAt(samples, ExpectedLen(samples), slot);
  }

  // ---------------------------------------------------------------------------
  // One bucket's aggregate
  // ---------------------------------------------------------------------------

  function Values(b: Bucket): (r: seq<nat>)
    ensures |r| == |b|
  {
    seq(|b|, i requires 0 <= i < |b| => b[i].value)
  }

  function Sum(s: seq<nat>): nat
    decreases |s|
  {
    if s == [] then 0 else Sum(s[..|s| - 1]) + s[|s| - 1]
  }

  function SeqMin(s: seq<nat>): (m: nat)
    requires s != []
    ensures m in s && forall i :: 0 <= i < |s| ==> m <= s[i]
    decreases |s|
  {
    if |s| == 1 then s[0]
    else
      var rest := SeqMin(s[1..]);
      assert forall i :: 1 <= i < |s| ==> s[i] == s[1..][i - 1];
      if s[0] <= rest then s[0] else rest
  }

  function SeqMax(s: seq<nat>): (m: nat)
    requires s != []
    ensures m in s && forall i :: 0 <= i < |s| ==> s[i] <= m
    decreases |s|
  {
    if |s| == 1 then s[0]
    else
      var rest := SeqMax(s[1..]);
      assert forall i :: 1 <= i < |s| ==> s[i] == s[1..][i - 1];
      if s[0] >= rest then s[0] else rest
  }

  /** The values a filter keeps, in bucket order. */
  function Select(s: seq<nat>, p: nat -> bool): (r: seq<nat>)
    ensures forall x :: x in r <==> x in s && p(x)
    decreases |s|
  {
    if s == [] then []
    else
      var init := Select(s[..|s| - 1], p);
      assert forall x :: x in s <==> x in s[..|s| - 1] || x == s[|s| - 1];
      if p(s[|s| - 1]) then init + [s[|s| - 1]] else init
  }

  function Id(v: nat): nat { v }

  /** The element at index n/2 of the sorted values. */
  function Median(vals: seq<nat>): nat
    requires vals != []
  {
    vals[|vals| / 2]
  }

  /** The truncated arithmetic mean. */
  function Mean(use: seq<nat>): nat
    requires use != []
  {
    Sum(use) / |use|
  }

  /** The aggregate of one bucket.  Median mode takes the element at index
      n/2 of the sorted values; mean mode averages (truncating) the values
      the outlier test `keep` lets through, or all of them when it keeps
      none.  The weights reach the result only through `keep`. */
  function Aggregate(b: Bucket, useMedian: bool, keep: (Bucket, nat) -> bool): nat
    requires b != []
  {
    var vals := SortBy(Values(b), Id);
    if useMedian then Median(vals)
    else
      var filtered := Select(Values(b), (v: nat) => keep(b, v));
      Mean(if filtered == [] then vals else filtered)
  }

  /** Weights reach the aggregate only through the outlier test: buckets
      with the same values, whose tests keep the same values, aggregate
      alike in both modes. */
  lemma WeightsOnlyThroughFilter(b1: Bucket, b2: Bucket, useMedian: bool,
                                 keep1: (Bucket, nat) -> bool, keep2: (Bucket, nat) -> bool)
    requires b1 != [] && Values(b1) == Values(b2)
    requires Select(Values(b1), (v: nat) => keep1(b1, v)) == Select(Values(b2), (v: nat) => keep2(b2, v))
    ensures Aggregate(b1, useMedian, keep1) == Aggregate(b2, useMedian, keep2)
  {
  }

  lemma {:induction false} SumBounds(s: seq<nat>, lo: nat, hi: nat)
    requires forall i :: 0 <= i < |s| ==> lo <= s[i] <= hi
    ensures |s| * lo <= Sum(s) <= |s| * hi
    decreases |s|
  {
    if s != [] {
      var init := s[..|s| - 1];
      SumBounds(init, lo, hi);
      assert |s| * lo == |init| * lo + lo;
      assert |s| * hi == |init| * hi + hi;
    }
  }

  lemma DivBounds(total: nat, n: nat, lo: nat, hi: nat)
    requires n > 0 && n * lo <= total <= n * hi
    ensures lo <= total / n <= hi
  {
    var q := total / n;
    var r := total % n;
    assert total == n * q + r && 0 <= r < n;
    if q < lo {
      MulMonotone(n, q + 1, lo);
    }
  }

  lemma MulMonotone(n: nat, a: nat, b: nat)
    requires a <= b
    ensures n * a <= n * b
  {
    var c: nat := b - a;
    assert n * b == n * a + n * c;
  }

  /** The truncated mean of values between lo and hi lies between them. */
  lemma MeanBetween(s: seq<nat>, lo: nat, hi: nat)
    requires s != []
    requires forall i :: 0 <= i < |s| ==> lo <= s[i] <= hi
    ensures lo <= Sum(s) / |s| <= hi
  {
    SumBounds(s, lo, hi);
    DivBounds(Sum(s), |s|, lo, hi);
  }

  /** The median is one of the bucket's values. */
  lemma MedianIsMember(b: Bucket, keep: (Bucket, nat) -> bool)
    requires b != []
    ensures Aggregate(b, true, keep) in Values(b)
  {
    var vals := SortBy(Values(b), Id);
    assert vals[|vals| / 2] in multiset(vals);
  }

  /** Whatever the filter, the aggregate lies between the bucket's smallest
      and largest value. */
  lemma AggregateBounds(b: Bucket, useMedian: bool, keep: (Bucket, nat) -> bool)
    requires b != []
    ensures SeqMin(Values(b)) <= Aggregate(b, useMedian, keep) <= SeqMax(Values(b))
  {
    var lo, hi := SeqMin(Values(b)), SeqMax(Values(b));
    var vals := SortBy(Values(b), Id);
    forall x | x in vals ensures x in Values(b) {
      assert x in multiset(vals);
    }
    WithinRange(vals, Values(b));
    if !useMedian {
      var filtered := Select(Values(b), (v: nat) => keep(b, v));
      if filtered != [] {
        WithinRange(filtered, Values(b));
        MeanBetween(filtered, lo, hi);
      } else {
        MeanBetween(vals, lo, hi);
      }
    }
  }

  /** Values drawn from `ys` lie between its smallest and largest value. */
  lemma WithinRange(xs: seq<nat>, ys: seq<nat>)
    requires ys != [] && forall x :: x in xs ==> x in ys
    ensures forall i :: 0 <= i < |xs| ==> SeqMin(ys) <= xs[i] <= SeqMax(ys)
  {
    forall i | 0 <= i < |xs| ensures SeqMin(ys) <= xs[i] <= SeqMax(ys) {
      assert xs[i] in ys;
    }
  }

  // ---------------------------------------------------------------------------
  // The outlier test, over exact reals
  // ---------------------------------------------------------------------------

  function SumW(b: Bucket): nat
    decreases |b|
  {
    if b == [] then 0 else SumW(b[..|b| - 1]) + b[|b| - 1].weight
  }

  function SumVW(b: Bucket): nat
    decreases |b|
  {
    if b == [] then 0 else SumVW(b[..|b| - 1]) + b[|b| - 1].value * b[|b| - 1].weight
  }

  /** The weighted sum of squared deviations from m. */
  function SumSq(b: Bucket, m: real): real
    decreases |b|
  {
    if b == [] then 0.0
    else
      var d := b[|b| - 1].value as real - m;
      SumSq(b[..|b| - 1], m) + d * d * b[|b| - 1].weight as real
  }

  function WeightedMean(b: Bucket): real {
    if SumW(b) == 0 then 0.0 else SumVW(b) as real / SumW(b) as real
  }

  /** The weighted population variance: the squared deviations' sum over
      the total weight (at least 1). */
  function Variance(b: Bucket): real {
    PerWeight(SumSq(b, WeightedMean(b)), SumW(b))
  }

  function PerWeight(q: real, n: nat): real {
    q / (if n > 1 then n else 1) as real
  }

  /** `|v - mean| <= k * std` without the square root: for k >= 0 both sides
      are squared; for k < 0 the bound k * std is at most 0, so only a value
      equal to the mean of a bucket with no spread survives. */
  function KeepTest(k: real, mean: real, variance: real, v: nat): bool {
    var d := v as real - mean;
    if k >= 0.0 then d * d <= k * k * variance
    else d == 0.0 && variance == 0.0
  }

  /** The mean-mode outlier test of a bucket with factor k. */
  function OutlierKeep(k: real): (Bucket, nat) -> bool {
    (b: Bucket, v: nat) => KeepTest(k, WeightedMean(b), Variance(b), v)
  }

  predicate PositiveWeights(b: Bucket) {
    forall i :: 0 <= i < |b| ==> b[i].weight > 0
  }

  lemma {:induction false} SumWPositive(b: Bucket)
    requires PositiveWeights(b) && b != []
    ensures SumW(b) > 0
    decreases |b|
  {
    if |b| > 1 {
      SumWPositive(b[..|b| - 1]);
    }
  }

  /** If every squared deviation exceeded t, the weighted sum of squares
      would exceed t times the total weight. */
  lemma {:induction false} SumSqAbove(b: Bucket, m: real, t: real)
    requires PositiveWeights(b) && b != []
    requires forall i :: 0 <= i < |b| ==> (b[i].value as real - m) * (b[i].value as real - m) > t
    ensures SumSq(b, m) > t * SumW(b) as real
    decreases |b|
  {
    var init := b[..|b| - 1];
    var d := b[|b| - 1].value as real - m;
    var w := b[|b| - 1].weight as real;
    assert d * d * w > t * w by {
      assert w >= 1.0;
      assert (d * d - t) * w > 0.0;
    }
    if init != [] {
      SumSqAbove(init, m, t);
    }
  }

  /** Some value's squared deviation is at most the weighted average of
      the squared deviations. */
  lemma SomeBelow(b: Bucket, m: real, v: real) returns (i: nat)
    requires b != [] && PositiveWeights(b)
    requires SumSq(b, m) == v * SumW(b) as real
    ensures i < |b| && (b[i].value as real - m) * (b[i].value as real - m) <= v
  {
    if forall j :: 0 <= j < |b| ==> (b[j].value as real - m) * (b[j].value as real - m) > v {
      SumSqAbove(b, m, v);
      assert false;
    }
    i :| 0 <= i < |b| && (b[i].value as real - m) * (b[i].value as real - m) <= v;
  }

  /** Dividing by max(n, 1) and multiplying by n cancel for n >= 1. */
  lemma ScaleBack(q: real, n: nat)
    requires n >= 1
    ensures q == PerWeight(q, n) * n as real
  {
    assert (if n > 1 then n else 1) == n;
  }

  lemma PerWeightNonNegative(q: real, n: nat)
    requires q >= 0.0
    ensures PerWeight(q, n) >= 0.0
  {
  }

  /** A value within one standard deviation passes the test for k >= 1. */
  lemma KeepWithin(k: real, m: real, v: real, x: nat)
    requires k >= 1.0 && v >= 0.0
    requires (x as real - m) * (x as real - m) <= v
    ensures KeepTest(k, m, v, x)
  {
    assert v <= k * k * v by {
      assert k * k >= 1.0;
      assert (k * k - 1.0) * v >= 0.0;
    }
  }

  lemma SelectHas(s: seq<nat>, p: nat -> bool, x: nat)
    requires x in s && p(x)
    ensures Select(s, p) != []
  {
  }

  /** With k >= 1 the outlier test keeps at least one value: some value lies
      within one standard deviation of the weighted mean. */
  lemma OutlierKeepsOne(b: Bucket, k: real)
    requires b != [] && PositiveWeights(b) && k >= 1.0
    ensures Select(Values(b), (v: nat) => OutlierKeep(k)(b, v)) != []
  {
    VarianceFacts(b);
    var i := KeepsSome(b, k, WeightedMean(b), Variance(b));
    var x := b[i].value;
    assert OutlierKeep(k)(b, x);
    assert Values(b)[i] == x;
    SelectHas(Values(b), (v: nat) => OutlierKeep(k)(b, v), x);
  }

  /** Given a mean m and a variance v that scales back to the squared
      deviations, some value passes the test. */
  lemma KeepsSome(b: Bucket, k: real, m: real, v: real) returns (i: nat)
    requires b != [] && PositiveWeights(b) && k >= 1.0 && v >= 0.0
    requires SumSq(b, m) == v * SumW(b) as real
    ensures i < |b| && KeepTest(k, m, v, b[i].value)
  {
    i := SomeBelow(b, m, v);
    KeepWithin(k, m, v, b[i].value);
  }

  /** The variance is non-negative, and times the total weight it is the sum
      of squared deviations. */
  lemma VarianceFacts(b: Bucket)
    requires b != [] && PositiveWeights(b)
    ensures Variance(b) >= 0.0
    ensures SumSq(b, WeightedMean(b)) == Variance(b) * SumW(b) as real
  {
    var q := SumSq(b, WeightedMean(b));
    var n := SumW(b);
    SumWPositive(b);
    ScaleBack(q, n);
    SumSqNonNegative(b, WeightedMean(b));
    PerWeightNonNegative(q, n);
  }

  lemma {:induction false} SumSqNonNegative(b: Bucket, m: real)
    ensures SumSq(b, m) >= 0.0
    decreases |b|
  {
    if b != [] {
      SumSqNonNegative(b[..|b| - 1], m);
      var d := b[|b| - 1].value as real - m;
      assert d * d >= 0.0;
      assert d * d * b[|b| - 1].weight as real >= 0.0;
    }
  }

  // ---------------------------------------------------------------------------
  // The timeline
  // ---------------------------------------------------------------------------

  /** `order` lists every key of the bucket map exactly once: the order in
      which the hash map happened to yield its entries. */
  ghost predicate Enumerates(order: seq<Slot>, keys: set<Slot>) {
    (forall slot :: slot in order <==> slot in keys)
    && forall i, j :: 0 <= i < j < |order| ==> order[i] != order[j]
  }

  function DeltaOf(e: TimedEvent): nat { e.deltaMs }

  /** Every slot listed has a non-empty bucket. */
  predicate Covers(order: seq<Slot>, buckets: map<Slot, Bucket>) {
    forall i :: 0 <= i < |order| ==> order[i] in buckets && buckets[order[i]] != []
  }

  /** The event a bucket yields: its key rebuilt from the key text by
      `rebuild`, its edge, and its aggregate as the delay. */
  function BucketEvent(buckets: map<Slot, Bucket>, slot: Slot, useMedian: bool,
                       keep: (Bucket, nat) -> bool, rebuild: string -> Key): TimedEvent
    requires slot in buckets && buckets[slot] != []
  {
    TimedEvent(rebuild(slot.keyText), slot.mode, Aggregate(buckets[slot], useMedian, keep))
  }

  /** One output event per bucket, in enumeration order. */
  function Unsorted(order: seq<Slot>, buckets: map<Slot, Bucket>, useMedian: bool,
                    keep: (Bucket, nat) -> bool, rebuild: string -> Key): (r: seq<TimedEvent>)
    requires Covers(order, buckets)
    ensures |r| == |order|
  {
    seq(|order|, i requires 0 <= i < |order| && order[i] in buckets && buckets[order[i]] != [] =>
      BucketEvent(buckets, order[i], useMedian, keep, rebuild))
  }

  /** The events listed are exactly those of the buckets enumerated. */
  lemma UnsortedMembers(order: seq<Slot>, buckets: map<Slot, Bucket>, useMedian: bool,
                        keep: (Bucket, nat) -> bool, rebuild: string -> Key)
    requires Covers(order, buckets)
    ensures forall slot :: slot in order && slot in buckets && buckets[slot] != [] ==>
              BucketEvent(buckets, slot, useMedian, keep, rebuild) in Unsorted(order, buckets, useMedian, keep, rebuild)
    ensures forall e :: e in Unsorted(order, buckets, useMedian, keep, rebuild) ==>
              exists slot :: slot in order && slot in buckets && buckets[slot] != [] &&
                e == BucketEvent(buckets, slot, useMedian, keep, rebuild)
  {
    var r := Unsorted(order, buckets, useMedian, keep, rebuild);
    forall slot | slot in order && slot in buckets && buckets[slot] != []
      ensures BucketEvent(buckets, slot, useMedian, keep, rebuild) in r
    {
      var i :| 0 <= i < |order| && order[i] == slot;
      assert r[i] == BucketEvent(buckets, slot, useMedian, keep, rebuild);
    }
    forall e | e in r
      ensures exists slot :: slot in order && slot in buckets && buckets[slot] != [] &&
                e == BucketEvent(buckets, slot, useMedian, keep, rebuild)
    {
      var i :| 0 <= i < |r| && r[i] == e;
      assert order[i] in order;
    }
  }

  /** What `timing_map` returns for a given enumeration order of the buckets. */
  function Timeline(order: seq<Slot>, buckets: map<Slot, Bucket>, useMedian: bool,
                    keep: (Bucket, nat) -> bool, rebuild: string -> Key): seq<TimedEvent>
    requires Covers(order, buckets)
  {
    SortBy(Unsorted(order, buckets, useMedian, keep, rebuild), DeltaOf)
  }

  /** The inner loop of `timing_map`: one sample pushes its first L events
      into their buckets. The source breaks out of the loop at position L;
      here the loop bound says the same. */
  method FillSample(perSlot: map<Slot, Bucket>, sample: Sample, expected: nat)
    returns (filled: map<Slot, Bucket>)
    ensures filled == FillEvents(perSlot, sample.events, Min(expected, |sample.events|), Weight(sample))
  {
    var weight := Weight(sample);
    var stop := Min(expected, |sample.events|);
    filled := perSlot;
    var idx := 0;
    while idx < stop
      invariant 0 <= idx <= stop
      invariant filled == FillEvents(perSlot, sample.events, idx, weight)
    {
      var slot := SlotOf(sample.events[idx], idx);
      filled := Push(filled, slot, Entry(sample.events[idx].deltaMs, weight));
      idx := idx + 1;
    }
  }

  /** The outer loop of `timing_map`'s bucketing: every sample, in order,
      pushes its first L events into their buckets. */
  method FillBuckets(samples: seq<Sample>) returns (perSlot: map<Slot, Bucket>)
    ensures perSlot == Buckets(samples)
  {
    var expected := ExpectedLen(samples);
    perSlot := map[];
    var i := 0;
    while i < |samples|
      invariant 0 <= i <= |samples|
      invariant perSlot == FillSamples(samples[..i], expected)
    {
      perSlot := FillSample(perSlot, samples[i], expected);
      assert samples[..i + 1][..i] == samples[..i];
      i := i + 1;
    }
    assert samples[..i] == samples;
  }

  /** The aggregation loop of `timing_map`: visit the buckets in the hash
      map's order, returned as the ghost `order`, and emit one event per
      non-empty bucket. */
  method AggregateBuckets(perSlot: map<Slot, Bucket>, useMedian: bool, keep: (Bucket, nat) -> bool)
    returns (aggregated: seq<TimedEvent>, ghost order: seq<Slot>)
    ensures forall slot :: slot in order <==> slot in perSlot && perSlot[slot] != []
    ensures forall i, j :: 0 <= i < j < |order| ==> order[i] != order[j]
    ensures Covers(order, perSlot)
    ensures aggregated == Unsorted(order, perSlot, useMedian, keep, DebugRebuild)
    // whatever the order, every non-empty bucket yields its event, and nothing else is emitted
    ensures forall slot :: slot in perSlot && perSlot[slot] != [] ==>
              BucketEvent(perSlot, slot, useMedian, keep, DebugRebuild) in aggregated
    ensures forall e :: e in aggregated ==>
              exists slot :: slot in perSlot && perSlot[slot] != [] &&
                e == BucketEvent(perSlot, slot, useMedian, keep, DebugRebuild)
  {
    aggregated := [];
    order := [];
    var remaining := perSlot.Keys;
    while remaining != {}
      invariant remaining <= perSlot.Keys
      invariant forall slot :: slot in order <==> slot in perSlot && slot !in remaining && perSlot[slot] != []
      invariant forall i, j :: 0 <= i < j < |order| ==> order[i] != order[j]
      invariant Covers(order, perSlot)
      invariant aggregated == Unsorted(order, perSlot, useMedian, keep, DebugRebuild)
      decreases |remaining|
    {
      var slot :| slot in remaining;
      remaining := remaining - {slot};
      var values := perSlot[slot];
      if values == [] {
        continue;
      }
      var avg := Aggregate(values, useMedian, keep);
      var key := DebugRebuild(slot.keyText);
      aggregated := aggregated + [TimedEvent(key, slot.mode, avg)];
      order := order + [slot];
    }
    UnsortedMembers(order, perSlot, useMedian, keep, DebugRebuild);
  }

  /** `timing_map`: bucket the samples' first L events by key text, edge and
      position, aggregate each bucket, rebuild each key from its Debug text,
      and sort by delay.  The hash map's iteration order is a free choice,
      returned as the ghost `order`. */
  method TimingMap(samples: seq<Sample>, useMedian: bool, keep: (Bucket, nat) -> bool)
    returns (out: seq<TimedEvent>, ghost order: seq<Slot>)
    ensures Enumerates(order, Buckets(samples).Keys)
    ensures Covers(order, Buckets(samples))
    ensures out == Timeline(order, Buckets(samples), useMedian, keep, DebugRebuild)
    // one event per bucket, sorted by delay, none exactly when L is 0
    ensures |out| == |Buckets(samples).Keys|
    ensures SortedBy(out, DeltaOf)
    ensures out == [] <==> ExpectedLen(samples) == 0
    ensures forall slot :: slot in Buckets(samples) ==>
              BucketEvent(Buckets(samples), slot, useMedian, keep, DebugRebuild) in out
    ensures forall e :: e in out ==>
              exists slot :: slot in Buckets(samples) && Buckets(samples)[slot] != [] &&
                e == BucketEvent(Buckets(samples), slot, useMedian, keep, DebugRebuild)
  {
    var perSlot := FillBuckets(samples);
    var aggregated;
    aggregated, order := AggregateBuckets(perSlot, useMedian, keep);
    forall slot | slot in perSlot
      ensures slot in order && perSlot[slot] != []
    {
      BucketsNonEmpty(samples, slot);
    }
    out := SortBy(aggregated, DeltaOf);
    TimelineShape(samples, order, useMedian, keep, DebugRebuild);
    forall e | e in out
      ensures e in aggregated
    {
      assert e in multiset(out);
    }
    forall slot | slot in perSlot
      ensures BucketEvent(perSlot, slot, useMedian, keep, DebugRebuild) in out
    {
      var e := BucketEvent(perSlot, slot, useMedian, keep, DebugRebuild);
      assert e in multiset(aggregated);
    }
  }

  // ---------------------------------------------------------------------------
  // Properties of the timeline
  // ---------------------------------------------------------------------------

  lemma {:induction false} DistinctCount(order: seq<Slot>, keys: set<Slot>)
    requires Enumerates(order, keys)
    ensures |order| == |keys|
    decreases |order|
  {
    if order != [] {
      var last := order[|order| - 1];
      var init := order[..|order| - 1];
      assert Enumerates(init, keys - {last}) by {
        forall slot ensures slot in init <==> slot in keys - {last} {
          if slot in init {
            var i :| 0 <= i < |init| && init[i] == slot;
            assert order[i] == slot;
          }
          if slot in keys - {last} {
            assert slot in order;
            var i :| 0 <= i < |order| && order[i] == slot;
            assert i < |order| - 1;
            assert init[i] == slot;
          }
        }
      }
      DistinctCount(init, keys - {last});
    }
  }

  lemma {:induction false} NothingBelowZero(samples: seq<Sample>, slot: Slot)
    ensures SlotEntries(samples, slot, 0) == []
    decreases |samples|
  {
    if samples != [] {
      NothingBelowZero(samples[..|samples| - 1], slot);
    }
  }

  /** There are buckets exactly when L > 0. */
  lemma BucketsEmptyIff(samples: seq<Sample>)
    ensures Buckets(samples).Keys == {} <==> ExpectedLen(samples) == 0
  {
    var n := ExpectedLen(samples);
    if n == 0 {
      forall slot ensures slot !in Buckets(samples) {
        FillSamplesAt(samples, 0, slot);
        NothingBelowZero(samples, slot);
      }
    } else {
      var i :| 0 <= i < |samples| && |samples[i].events| == n;
      var slot := SlotOf(samples[i].events[0], 0);
      assert Contribution(samples[i], slot, n) != [];
      SlotEntriesHas(samples, slot, n, i);
      FillSamplesAt(samples, n, slot);
    }
  }

  /** The timeline has one event per bucket, is empty exactly when L is 0,
      and is sorted by delay, whatever order the buckets were visited in. */
  lemma TimelineShape(samples: seq<Sample>, order: seq<Slot>, useMedian: bool,
                      keep: (Bucket, nat) -> bool, rebuild: string -> Key)
    requires Enumerates(order, Buckets(samples).Keys) && Covers(order, Buckets(samples))
    ensures |Timeline(order, Buckets(samples), useMedian, keep, rebuild)| == |Buckets(samples).Keys|
    ensures Timeline(order, Buckets(samples), useMedian, keep, rebuild) == [] <==> ExpectedLen(samples) == 0
    ensures SortedBy(Timeline(order, Buckets(samples), useMedian, keep, rebuild), DeltaOf)
  {
    DistinctCount(order, Buckets(samples).Keys);
    BucketsEmptyIff(samples);
  }

  /** Each sample contributes exactly its first L events: an event lands in a
      bucket iff its position is below L. */
  lemma ContributesPrefix(samples: seq<Sample>, i: nat, p: nat)
    requires i < |samples| && p < |samples[i].events|
    ensures SlotOf(samples[i].events[p], p) in Buckets(samples) <==> p < ExpectedLen(samples)
  {
    var n := ExpectedLen(samples);
    var slot := SlotOf(samples[i].events[p], p);
    FillSamplesAt(samples, n, slot);
    if p < n {
      assert Contribution(samples[i], slot, n) != [];
      SlotEntriesHas(samples, slot, n, i);
    } else if slot in Buckets(samples) {
      SlotEntriesFrom(samples, slot, n, 0);
    }
  }

  /** Every value in a bucket is the delay of some sample's event at the
      bucket's position (below L), with the bucket's key text and edge. */
  lemma BucketValueFromSample(samples: seq<Sample>, slot: Slot, j: nat)
    requires slot in Buckets(samples) && j < |Buckets(samples)[slot]|
    ensures exists i :: 0 <= i < |samples| && slot.index < ExpectedLen(samples) && slot.index < |samples[i].events|
              && SlotOf(samples[i].events[slot.index], slot.index) == slot
              && Buckets(samples)[slot][j].value == samples[i].events[slot.index].deltaMs
  {
    FillSamplesAt(samples, ExpectedLen(samples), slot);
    SlotEntriesFrom(samples, slot, ExpectedLen(samples), j);
  }

  /** Each timeline event is the aggregate of one bucket, so its delay lies
      between the smallest and the largest delay in that bucket. */
  lemma TimelineEntry(order: seq<Slot>, buckets: map<Slot, Bucket>, useMedian: bool,
                      keep: (Bucket, nat) -> bool, rebuild: string -> Key, e: TimedEvent)
    requires Covers(order, buckets)
    requires e in Timeline(order, buckets, useMedian, keep, rebuild)
    ensures exists slot :: slot in order && slot in buckets && buckets[slot] != []
              && e == TimedEvent(rebuild(slot.keyText), slot.mode, Aggregate(buckets[slot], useMedian, keep))
              && SeqMin(Values(buckets[slot])) <= e.deltaMs <= SeqMax(Values(buckets[slot]))
  {
    var u := Unsorted(order, buckets, useMedian, keep, rebuild);
    assert e in multiset(Timeline(order, buckets, useMedian, keep, rebuild));
    assert e in u;
    var i :| 0 <= i < |u| && u[i] == e;
    AggregateBounds(buckets[order[i]], useMedian, keep);
    assert order[i] in order;
  }

  /** With the corrected rebuild, every timeline event carries the key and
      edge of an event that some sample recorded at that position. */
  lemma CorrectedTimelineKeys(samples: seq<Sample>, order: seq<Slot>, useMedian: bool,
                              keep: (Bucket, nat) -> bool, e: TimedEvent)
    requires forall s, p :: 0 <= s < |samples| && 0 <= p < |samples[s].events| ==> WellNamed(samples[s].events[p].key)
    requires Covers(order, Buckets(samples))
    requires e in Timeline(order, Buckets(samples), useMedian, keep, CorrectedRebuild)
    ensures exists i, p :: 0 <= i < |samples| && 0 <= p < |samples[i].events| && p < ExpectedLen(samples)
              && e.key == samples[i].events[p].key && e.mode == samples[i].events[p].mode
  {
    TimelineEntry(order, Buckets(samples), useMedian, keep, CorrectedRebuild, e);
    var slot :| slot in order && slot in Buckets(samples) && Buckets(samples)[slot] != []
              && e == TimedEvent(CorrectedRebuild(slot.keyText), slot.mode, Aggregate(Buckets(samples)[slot], useMedian, keep));
    BucketValueFromSample(samples, slot, 0);
    var i :| 0 <= i < |samples| && slot.index < ExpectedLen(samples) && slot.index < |samples[i].events|
              && SlotOf(samples[i].events[slot.index], slot.index) == slot
              && Buckets(samples)[slot][0].value == samples[i].events[slot.index].deltaMs;
    CorrectedRebuildRoundTrip(samples[i].events[slot.index].key);
  }

  /** As written, every timeline event's key is the quote character or `?`
      when the recorded keys are well named: the rebuilt keys are lost. */
  lemma AsWrittenTimelineKeys(samples: seq<Sample>, order: seq<Slot>, useMedian: bool,
                              keep: (Bucket, nat) -> bool, e: TimedEvent)
    requires forall s, p :: 0 <= s < |samples| && 0 <= p < |samples[s].events| ==> WellNamed(samples[s].events[p].key)
    requires Covers(order, Buckets(samples))
    requires e in Timeline(order, Buckets(samples), useMedian, keep, DebugRebuild)
    ensures e.key == Layout('\'') || e.key == Layout('?')
  {
    TimelineEntry(order, Buckets(samples), useMedian, keep, DebugRebuild, e);
    var slot :| slot in order && slot in Buckets(samples) && Buckets(samples)[slot] != []
              && e == TimedEvent(DebugRebuild(slot.keyText), slot.mode, Aggregate(Buckets(samples)[slot], useMedian, keep));
    BucketValueFromSample(samples, slot, 0);
    var i :| 0 <= i < |samples| && slot.index < ExpectedLen(samples) && slot.index < |samples[i].events|
              && SlotOf(samples[i].events[slot.index], slot.index) == slot
              && Buckets(samples)[slot][0].value == samples[i].events[slot.index].deltaMs;
    DebugRebuildLosesKeys(samples[i].events[slot.index].key);
  }

  // ---------------------------------------------------------------------------
  // Worked examples
  // ---------------------------------------------------------------------------

  /** Median mode never filters: [10, 12, 1000] gives 12 whatever the test. */
  lemma MedianExample(keep: (Bucket, nat) -> bool)
    ensures Aggregate([Entry(10, 3), Entry(12, 3), Entry(1000, 3)], true, keep) == 12
  {
    var b := [Entry(10, 3), Entry(12, 3), Entry(1000, 3)];
    assert Values(b) == [10, 12, 1000];
    var sorted: seq<nat> := [10, 12, 1000];
    assert Insert<nat>(1000, [], Id) == [1000];
    assert SortBy<nat>(sorted[2..], Id) == [1000];
    assert Insert<nat>(12, [1000], Id) == [12, 1000];
    assert SortBy<nat>(sorted[1..], Id) == [12, 1000];
    assert Insert<nat>(10, [12, 1000], Id) == sorted;
    assert SortBy<nat>(sorted, Id) == sorted;
  }

  /** Mean mode with k = 2: [40, 60] keeps both values and gives 50. */
  lemma MeanExample()
    ensures Aggregate([Entry(40, 1), Entry(60, 1)], false, OutlierKeep(2.0)) == 50
  {
    var b := [Entry(40, 1), Entry(60, 1)];
    assert Values(b) == [40, 60];
    assert SumW(b) == 2 && SumVW(b) == 100;
    assert WeightedMean(b) == 50.0;
    assert SumSq(b, 50.0) == 200.0;
    assert Variance(b) == 100.0;
    var p := (v: nat) => OutlierKeep(2.0)(b, v);
    assert OutlierKeep(2.0)(b, 40) && OutlierKeep(2.0)(b, 60);
    assert p(40) && p(60);
    assert Select([40], p) == [40];
    assert Select(Values(b), p) == [40, 60];
    assert Sum([40, 60]) == 100;
  }

  /** Samples of lengths 1, 1 and 0 on key `k`, pressed at 10 and 12 ms. */
  const ShortSamples: seq<Sample> := [Sample(1, 0, "a", [TimedEvent(Layout('k'), Press, 10)]),
                                      Sample(2, 0, "b", [TimedEvent(Layout('k'), Press, 12)]),
                                      Sample(3, 0, "c", [])]

  const ShortSlot: Slot := Slot(DebugText(Layout('k')), Press, 0)

  /** L is 1 and the empty sample adds nothing: one bucket holding 10 and 12. */
  lemma ShortSamplesBuckets()
    ensures ExpectedLen(ShortSamples) == 1
    ensures Buckets(ShortSamples) == map[ShortSlot := [Entry(10, 1), Entry(12, 1)]]
  {
    var samples := ShortSamples;
    var a, b, c := samples[0], samples[1], samples[2];
    assert ExpectedLen(samples) == 1 by {
      assert ExpectedLen([c]) == 0;
      assert samples[1..][1..] == [c];
      assert ExpectedLen(samples[1..]) == 1;
    }
    var slot := ShortSlot;
    assert SlotOf(a.events[0], 0) == slot && SlotOf(b.events[0], 0) == slot;
    assert Weight(a) == 1 && Weight(b) == 1;
    assert samples[..2] == [a, b] && [a, b][..1] == [a] && [a][..0] == [];
    var empty: map<Slot, Bucket> := map[];
    var one: map<Slot, Bucket> := map[slot := [Entry(10, 1)]];
    var two: map<Slot, Bucket> := map[slot := [Entry(10, 1), Entry(12, 1)]];
    assert FillSamples([], 1) == empty;
    assert FillEvents(empty, a.events, 0, 1) == empty;
    assert Get(empty, slot) + [Entry(10, 1)] == [Entry(10, 1)];
    assert FillEvents(empty, a.events, 1, 1) == one;
    assert FillSamples([a], 1) == one;
    assert FillEvents(one, b.events, 0, 1) == one;
    assert Get(one, slot) + [Entry(12, 1)] == [Entry(10, 1), Entry(12, 1)];
    assert FillEvents(one, b.events, 1, 1) == two;
    assert FillSamples([a, b], 1) == two;
  }

  /** Mean mode with k = 2 on [10, 12] keeps both and gives 11. */
  lemma ShortSamplesAggregate()
    ensures Aggregate([Entry(10, 1), Entry(12, 1)], false, OutlierKeep(2.0)) == 11
  {
    var bucket := [Entry(10, 1), Entry(12, 1)];
    assert Values(bucket) == [10, 12];
    assert SumW(bucket) == 2 && SumVW(bucket) == 22;
    assert WeightedMean(bucket) == 11.0;
    assert SumSq(bucket, 11.0) == 2.0;
    assert Variance(bucket) == 1.0;
    var p := (v: nat) => OutlierKeep(2.0)(bucket, v);
    assert OutlierKeep(2.0)(bucket, 10) && OutlierKeep(2.0)(bucket, 12);
    assert p(10) && p(12);
    assert Select([10], p) == [10];
    assert Select(Values(bucket), p) == [10, 12];
    assert Sum([10, 12]) == 22;
  }

  /** The empty sample is ignored and the timeline is a single event at
      11 ms, under the quote key as written. */
  lemma EmptySampleExcludedExample(order: seq<Slot>)
    requires Enumerates(order, Buckets(ShortSamples).Keys) && Covers(order, Buckets(ShortSamples))
    ensures Timeline(order, Buckets(ShortSamples), false, OutlierKeep(2.0), DebugRebuild)
         == [TimedEvent(Layout('\''), Press, 11)]
  {
    ShortSamplesBuckets();
    ShortSamplesAggregate();
    var m := Buckets(ShortSamples);
    assert order == [ShortSlot] by {
      DistinctCount(order, m.Keys);
      assert |m.Keys| == 1;
      assert order[0] in order;
    }
    assert DebugRebuild(ShortSlot.keyText) == Layout('\'') by {
      DebugRebuildLosesKeys(Layout('k'));
    }
    var u := Unsorted(order, m, false, OutlierKeep(2.0), DebugRebuild);
    assert u == [TimedEvent(Layout('\''), Press, 11)];
  }
}
