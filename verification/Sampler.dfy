/**
 * The segment duration sampler: collects timestamps, suggests a segment duration from their
 * intervals, and lists the time ranges of that duration that hold them. The suggestion and the
 * sorted timestamps are cached until the next collect. Calls do not overlap.
 */
module Sampler {
  import opened Common
  import opened Time

  const HOUR_MS: nat := 3600 * 1000
  const DAY_MS: nat := 24 * HOUR_MS
  const AVAILABLE_DURATIONS: seq<nat> :=
    [2 * HOUR_MS, DAY_MS, 7 * DAY_MS, 30 * DAY_MS, 180 * DAY_MS, 360 * DAY_MS, 5 * 360 * DAY_MS, 10 * 360 * DAY_MS]
  const MAX_DURATION: nat := 10 * 360 * DAY_MS
  const DEFAULT_SEGMENT_DURATION: nat := 2 * HOUR_MS
  const POINTS_PER_SERIES: nat := 100
  const MAX_TIMESTAMP: int := I64_MAX - 2 * MAX_DURATION
  const MIN_SAMPLES: nat := 2

  // ---------------------------------------------------------------------------
  // Sorting
  // ---------------------------------------------------------------------------

  predicate IsSorted(s: seq<int>) { forall i, j :: 0 <= i < j < |s| ==> s[i] <= s[j] }

  /** The elements of the set, each once, in ascending order. */
  ghost predicate IsListing(s: seq<int>, elements: set<int>) {
    Ascending(s) && forall x :: x in s <==> x in elements
  }

  function InsertSorted(x: int, s: seq<int>): (r: seq<int>)
    ensures multiset(r) == multiset(s) + multiset{x}
    ensures forall i :: 0 <= i < |r| ==> r[i] == x || r[i] in s
  {
    if s == [] || x <= s[0] then [x] + s
    else
      assert s == [s[0]] + s[1..];
      [s[0]] + InsertSorted(x, s[1..])
  }

  lemma {:induction false} InsertSortedAscends(x: int, s: seq<int>)
    requires IsSorted(s)
    ensures IsSorted(InsertSorted(x, s))
  {
    if s != [] && x > s[0] {
      InsertSortedAscends(x, s[1..]);
      var r := InsertSorted(x, s[1..]);
      assert forall i :: 0 <= i < |r| ==> s[0] <= r[i];
    }
  }

  function Sort(s: seq<int>): (r: seq<int>)
    ensures multiset(r) == multiset(s) && |r| == |s|
  {
    if s == [] then []
    else
      assert s == [s[0]] + s[1..];
      var r := InsertSorted(s[0], Sort(s[1..]));
      assert |multiset(r)| == |multiset(s)|;
      r
  }

  lemma {:induction false} SortAscends(s: seq<int>)
    ensures IsSorted(Sort(s))
  {
    if s != [] {
      SortAscends(s[1..]);
      InsertSortedAscends(s[0], Sort(s[1..]));
    }
  }

  /** `sort_unstable` over the set of timestamps. */
  method ListSet(elements: set<int>) returns (s: seq<int>)
    ensures IsListing(s, elements)
  {
    s := [];
    var rest := elements;
    while exists x :: x in rest
      invariant rest <= elements
      invariant Ascending(s)
      invariant forall x :: x in s <==> x in elements && x !in rest
      decreases |rest|
    {
      var x :| x in rest;
      assert x !in s;
      var k := 0;
      while k < |s| && s[k] < x
        invariant k <= |s|
        invariant forall i :: 0 <= i < k ==> s[i] < x
      {
        k := k + 1;
      }
      rest := rest - {x};
      s := s[..k] + [x] + s[k..];
    }
  }

  /** A set has only one listing, so the cache cannot depend on the order of collection. */
  lemma {:induction false} ListingIsUnique(a: seq<int>, b: seq<int>, elements: set<int>)
    requires IsListing(a, elements) && IsListing(b, elements)
    ensures a == b
  {
    assert a != [] ==> a[0] in a;
    assert b != [] ==> b[0] in b;
    if a != [] {
      assert a[0] in b && b[0] in a;
      var i :| 0 <= i < |b| && b[i] == a[0];
      var j :| 0 <= j < |a| && a[j] == b[0];
      assert a[0] == b[0];
      forall x ensures x in a[1..] <==> x in elements - {a[0]} { TailMembers(a, x); }
      forall x ensures x in b[1..] <==> x in elements - {a[0]} { TailMembers(b, x); }
      ListingIsUnique(a[1..], b[1..], elements - {a[0]});
      assert a == [a[0]] + a[1..] && b == [b[0]] + b[1..];
    }
  }

  ghost function Smallest(elements: set<int>): (m: int)
    requires exists x :: x in elements
    ensures m in elements && forall x :: x in elements ==> m <= x
    decreases |elements|
  {
    var x :| x in elements;
    var rest := elements - {x};
    assert forall z :: z in elements ==> z == x || z in rest;
    if exists y :: y in rest then
      var y := Smallest(rest);
      if x < y then x else y
    else x
  }

  /** The one listing of a set. */
  ghost function Listing(elements: set<int>): (s: seq<int>)
    ensures IsListing(s, elements)
    decreases |elements|
  {
    if !exists x :: x in elements then []
    else
      var m := Smallest(elements);
      var rest := Listing(elements - {m});
      ConsListing(m, rest, elements);
      [m] + rest
  }

  lemma ConsListing(m: int, rest: seq<int>, elements: set<int>)
    requires m in elements && IsListing(rest, elements - {m}) && forall x :: x in elements ==> m <= x
    ensures IsListing([m] + rest, elements)
  {
    assert forall i :: 0 <= i < |rest| ==> rest[i] in rest;
  }

  lemma TailMembers(s: seq<int>, x: int)
    requires s != [] && Ascending(s)
    ensures x in s[1..] <==> x in s && x != s[0]
  {
  }

  // ---------------------------------------------------------------------------
  // The suggested duration
  // ---------------------------------------------------------------------------

  /** The difference of neighbours. */
  function Gap(ts: seq<int>, i: nat): int
    requires i < |ts| - 1
  {
    ts[i + 1] - ts[i]
  }

  function Intervals(ts: seq<int>): (r: seq<int>)
    ensures |r| == if |ts| < 2 then 0 else |ts| - 1
    ensures forall i :: 0 <= i < |r| ==> r[i] == Gap(ts, i)
  {
    if |ts| < 2 then [] else seq(|ts| - 1, i requires 0 <= i < |ts| - 1 => Gap(ts, i))
  }

  /** Some difference of neighbours is not an i64. */
  predicate GapOverflows(ts: seq<int>) {
    exists i :: 0 <= i < |ts| - 1 && Gap(ts, i) > I64_MAX
  }

  /** Position of the selected interval among n sorted ones: nine tenths up, one back. */
  function SelectedIndex(n: nat): nat {
    var index := n * 9 / 10;
    if index > 1 then index - 1 else index
  }

  /** From three intervals on, the last position whose rank is within nine tenths; before that the last one. */
  lemma SelectedRank(n: nat)
    requires n > 0
    ensures SelectedIndex(n) < n
    ensures n >= 3 ==> 10 * (SelectedIndex(n) + 1) <= 9 * n < 10 * (SelectedIndex(n) + 2)
    ensures n <= 2 ==> SelectedIndex(n) == n - 1
  {
  }

  function SelectedInterval(ts: seq<int>): int
    requires |ts| >= MIN_SAMPLES
  {
    Sort(Intervals(ts))[SelectedIndex(|ts| - 1)]
  }

  lemma SortedIsMember(s: seq<int>, k: nat)
    requires k < |s|
    ensures Sort(s)[k] in s
  {
    assert Sort(s)[k] in multiset(Sort(s));
  }

  lemma IntervalIsGap(ts: seq<int>, x: int) returns (i: nat)
    requires x in Intervals(ts) && Ascending(ts)
    ensures i < |ts| - 1 && Gap(ts, i) == x > 0
  {
    i :| 0 <= i < |Intervals(ts)| && Intervals(ts)[i] == x;
  }

  /** The selected interval is positive and is the interval between two neighbouring samples. */
  lemma SelectedIntervalIsGap(ts: seq<int>)
    requires |ts| >= MIN_SAMPLES && Ascending(ts)
    ensures SelectedInterval(ts) > 0
    ensures exists i :: 0 <= i < |ts| - 1 && Gap(ts, i) == SelectedInterval(ts)
  {
    SortedIsMember(Intervals(ts), SelectedIndex(|ts| - 1));
    var i := IntervalIsGap(ts, SelectedInterval(ts));
  }

  /**
   * The intervals before the selected position are no longer, those after it no shorter. The position is
   * nine tenths up: no interval of the lower nine tenths is longer, none of the upper tenth shorter.
   */
  lemma SelectedSplitsIntervals(ts: seq<int>, k: nat)
    requires |ts| >= MIN_SAMPLES && k < |Intervals(ts)|
    ensures 10 * (k + 1) <= 9 * (|ts| - 1) ==> Sort(Intervals(ts))[k] <= SelectedInterval(ts)
    ensures 9 * (|ts| - 1) <= 10 * k ==> SelectedInterval(ts) <= Sort(Intervals(ts))[k]
    ensures k <= SelectedIndex(|ts| - 1) ==> Sort(Intervals(ts))[k] <= SelectedInterval(ts)
    ensures SelectedIndex(|ts| - 1) <= k ==> SelectedInterval(ts) <= Sort(Intervals(ts))[k]
  {
    SortAscends(Intervals(ts));
  }

  /** The first available duration above the scaled interval, or the largest one. */
  predicate IsPicked(interval: nat, d: nat) {
    var scaled := if interval * POINTS_PER_SERIES > U64_MAX then U64_MAX else interval * POINTS_PER_SERIES;
    && d in AVAILABLE_DURATIONS
    && (forall e :: e in AVAILABLE_DURATIONS && e > scaled ==> scaled < d <= e)
    && ((forall e :: e in AVAILABLE_DURATIONS ==> e <= scaled) ==> d == MAX_DURATION)
  }

  /** Durations by the interval between samples, all in milliseconds: room for a hundred points. */
  function DurationFor(interval: nat): nat {
    if interval < 72_000 then 7_200_000
    else if interval < 864_000 then 86_400_000
    else if interval < 6_048_000 then 604_800_000
    else if interval < 25_920_000 then 2_592_000_000
    else if interval < 155_520_000 then 15_552_000_000
    else if interval < 311_040_000 then 31_104_000_000
    else if interval < 1_555_200_000 then 155_520_000_000
    else 311_040_000_000
  }

  /** The rule picks exactly that duration. */
  lemma PickedIff(interval: nat, d: nat)
    ensures IsPicked(interval, d) <==> d == DurationFor(interval)
  {
    DurationsAscend();
    var scaled := if interval * POINTS_PER_SERIES > U64_MAX then U64_MAX else interval * POINTS_PER_SERIES;
    DurationMembers(d);
    DurationMembers(DurationFor(interval));
    if d == DurationFor(interval) {
      forall e | e in AVAILABLE_DURATIONS
        ensures e > scaled ==> scaled < d <= e
      {
        DurationMembers(e);
      }
      assert MAX_DURATION in AVAILABLE_DURATIONS;
    }
  }

  lemma DurationMembers(d: nat)
    ensures d in AVAILABLE_DURATIONS <==>
            || d == 7_200_000 || d == 86_400_000 || d == 604_800_000 || d == 2_592_000_000
            || d == 15_552_000_000 || d == 31_104_000_000 || d == 155_520_000_000 || d == 311_040_000_000
  {
  }

  lemma DurationsAscend()
    ensures Ascending(AVAILABLE_DURATIONS) && |AVAILABLE_DURATIONS| == 8
    ensures AVAILABLE_DURATIONS[7] == MAX_DURATION
    ensures forall d :: d in AVAILABLE_DURATIONS ==> 0 < d <= MAX_DURATION
  {
  }

  method PickDuration(interval: nat) returns (d: nat)
    ensures IsPicked(interval, d)
  {
    DurationsAscend();
    var scaled := interval * POINTS_PER_SERIES;
    if scaled > U64_MAX {
      scaled := U64_MAX;
    }
    for i := 0 to |AVAILABLE_DURATIONS|
      invariant forall k :: 0 <= k < i ==> AVAILABLE_DURATIONS[k] <= scaled
    {
      if AVAILABLE_DURATIONS[i] > scaled {
        return AVAILABLE_DURATIONS[i];
      }
    }
    return AVAILABLE_DURATIONS[|AVAILABLE_DURATIONS| - 1];
  }

  datatype Interval = NoInterval | Selected(interval: nat) | Overflow

  /** The differences of neighbours; a subtraction that overflows panics. */
  method CollectIntervals(ts: seq<int>) returns (r: Option<seq<int>>)
    requires |ts| >= MIN_SAMPLES
    ensures r == if GapOverflows(ts) then None else Some(Intervals(ts))
  {
    var intervals: seq<int> := [];
    for i := 0 to |ts| - 1
      invariant |intervals| == i
      invariant forall k :: 0 <= k < i ==> intervals[k] == Gap(ts, k) <= I64_MAX
    {
      var interval := ts[i + 1] - ts[i];
      assert interval == Gap(ts, i);
      if interval > I64_MAX {
        return None;
      }
      intervals := intervals + [interval];
    }
    assert intervals == Intervals(ts);
    r := Some(intervals);
  }

  /** `evaluate_interval`. */
  method EvaluateInterval(ts: seq<int>) returns (r: Interval)
    requires Ascending(ts)
    ensures r == NoInterval <==> |ts| < MIN_SAMPLES
    ensures r == Overflow <==> |ts| >= MIN_SAMPLES && GapOverflows(ts)
    ensures r.Selected? ==> |ts| >= MIN_SAMPLES && r.interval == SelectedInterval(ts)
  {
    if |ts| < MIN_SAMPLES {
      return NoInterval;
    }
    var intervals := CollectIntervals(ts);
    if intervals == None {
      return Overflow;
    }
    var selected := Sort(intervals.value)[SelectedIndex(|ts| - 1)];
    SelectedIntervalIsGap(ts);
    r := Selected(selected);
  }

  /** The duration suggested for sorted timestamps. */
  ghost predicate IsSuggested(ts: seq<int>, d: nat) {
    if |ts| < MIN_SAMPLES then d == DEFAULT_SEGMENT_DURATION
    else !GapOverflows(ts) && SelectedInterval(ts) >= 0 && IsPicked(SelectedInterval(ts), d)
  }

  lemma SuggestedIsUnique(ts: seq<int>, d: nat, e: nat)
    requires IsSuggested(ts, d) && IsSuggested(ts, e)
    ensures d == e
  {
  }

  lemma SuggestedIsAvailable(ts: seq<int>, d: nat)
    requires IsSuggested(ts, d)
    ensures 0 < d <= MAX_DURATION
  {
    DurationsAscend();
  }

  // ---------------------------------------------------------------------------
  // Ranges
  // ---------------------------------------------------------------------------

  ghost predicate HasSample(range: TimeRange, ts: seq<int>) {
    exists i :: 0 <= i < |ts| && range.Contains(ts[i])
  }

  ghost predicate IsHeld(t: int, ranges: seq<TimeRange>) {
    exists k :: 0 <= k < |ranges| && ranges[k].Contains(t)
  }

  predicate IsBucket(range: TimeRange, d: nat)
    requires d > 0
  {
    range.end == range.start + d && range.start % d == 0
  }

  predicate Disjoint(ranges: seq<TimeRange>) {
    forall j, k :: 0 <= j < k < |ranges| ==> ranges[j].end <= ranges[k].start
  }

  /** The ranges ascend without overlap, each is an aligned bucket with a sample in it, and together they hold all samples. */
  ghost predicate IsCover(ranges: seq<TimeRange>, ts: seq<int>, d: nat)
    requires d > 0
  {
    && (forall k :: 0 <= k < |ranges| ==> IsBucket(ranges[k], d))
    && Disjoint(ranges)
    && (forall k {:trigger HasSample(ranges[k], ts)} :: 0 <= k < |ranges| ==> HasSample(ranges[k], ts))
    && (forall i {:trigger IsHeld(ts[i], ranges)} :: 0 <= i < |ts| ==> IsHeld(ts[i], ranges))
  }

  /** Each sample lies in exactly one range. */
  lemma InExactlyOneRange(ranges: seq<TimeRange>, ts: seq<int>, d: nat, i: nat, j: nat, k: nat)
    requires d > 0 && IsCover(ranges, ts, d) && i < |ts| && j < |ranges| && k < |ranges|
    requires ranges[j].Contains(ts[i]) && ranges[k].Contains(ts[i])
    ensures j == k
  {
  }

  /** The floor of the timestamp underflows for this duration. */
  predicate FloorUnderflows(ts: int, d: nat) { ts < 0 && ts - (d - 1) < I64_MIN }

  predicate Accepted(ts: int) { IsI64(ts) && ts < MAX_TIMESTAMP }

  lemma AcceptedHasBucket(ts: int, d: nat)
    requires Accepted(ts) && 0 < d <= MAX_DURATION
    ensures BucketOf(ts, d) == None <==> FloorUnderflows(ts, d)
  {
    BucketMissingIff(ts, d);
    assert 0 <= ts % d < d;
  }

  lemma LaterIsFine(earlier: int, later: int, d: nat)
    requires earlier <= later && !FloorUnderflows(earlier, d)
    ensures !FloorUnderflows(later, d)
  {
  }

  /** The floors of the first `n` timestamps do not underflow. */
  predicate NoneUnderflows(ts: seq<int>, n: nat, d: nat)
    requires n <= |ts|
  {
    forall i :: 0 <= i < n ==> !FloorUnderflows(ts[i], d)
  }

  datatype RangesResult = Ranges(ranges: seq<TimeRange>) | Panicked

  /**
   * The greedy loop of `ranges`, which compares a timestamp only with the last range. It panics
   * exactly if the floor of some timestamp underflows.
   */
  method CoverRanges(ts: seq<int>, d: nat) returns (r: RangesResult)
    requires Ascending(ts) && 0 < d <= MAX_DURATION
    requires forall i :: 0 <= i < |ts| ==> Accepted(ts[i])
    ensures r == Panicked <==> UnderflowsIn(ts, d)
    ensures r.Ranges? ==> IsCover(r.ranges, ts, d)
  {
    var ranges: seq<TimeRange> := [];
    for n := 0 to |ts|
      invariant CoversUpTo(ranges, ts, n, d)
    {
      var t := ts[n];
      if ranges != [] && ranges[|ranges| - 1].Contains(t) {
        StaysCovered(ranges, ts, n, d);
      } else {
        AcceptedHasBucket(t, d);
        var bucket := BucketOf(t, d);
        if bucket == None {
          return Panicked;
        }
        BucketFollows(ranges, ts, n, d);
        NewRangeCovers(ranges, ts, n, d, bucket.value);
        ranges := ranges + [bucket.value];
      }
    }
    assert ts[..|ts|] == ts;
    r := Ranges(ranges);
  }

  /** The ranges cover the first `n` timestamps, the last one the latest of them. */
  ghost predicate CoversUpTo(ranges: seq<TimeRange>, ts: seq<int>, n: nat, d: nat)
    requires n <= |ts| && d > 0
  {
    && NoneUnderflows(ts, n, d) && IsCover(ranges, ts[..n], d)
    && (ranges == [] <==> n == 0)
    && (n > 0 ==> ranges[|ranges| - 1].Contains(ts[n - 1]))
  }

  lemma StaysCovered(ranges: seq<TimeRange>, ts: seq<int>, n: nat, d: nat)
    requires n < |ts| && Ascending(ts) && d > 0 && CoversUpTo(ranges, ts, n, d)
    requires ranges != [] && ranges[|ranges| - 1].Contains(ts[n])
    ensures CoversUpTo(ranges, ts, n + 1, d)
  {
    assert ts[..n + 1] == ts[..n] + [ts[n]];
    KeepCover(ranges, ts[..n], ts[n], d);
    LaterIsFine(ts[n - 1], ts[n], d);
  }

  lemma NewRangeCovers(ranges: seq<TimeRange>, ts: seq<int>, n: nat, d: nat, bucket: TimeRange)
    requires n < |ts| && d > 0 && NoneUnderflows(ts, n, d)
    requires !FloorUnderflows(ts[n], d) && bucket.Contains(ts[n]) && IsCover(ranges + [bucket], ts[..n] + [ts[n]], d)
    ensures CoversUpTo(ranges + [bucket], ts, n + 1, d)
  {
    assert ts[..n + 1] == ts[..n] + [ts[n]];
  }

  /** The bucket of the next timestamp goes behind the ranges so far. */
  lemma BucketFollows(ranges: seq<TimeRange>, ts: seq<int>, n: nat, d: nat)
    requires n < |ts| && Ascending(ts) && 0 < d <= MAX_DURATION && IsCover(ranges, ts[..n], d)
    requires Accepted(ts[n]) && BucketOf(ts[n], d).Some?
    requires ranges != [] ==> !ranges[|ranges| - 1].Contains(ts[n])
    ensures var bucket := BucketOf(ts[n], d).value;
      !FloorUnderflows(ts[n], d) && bucket.Contains(ts[n]) && IsCover(ranges + [bucket], ts[..n] + [ts[n]], d)
  {
    AcceptedHasBucket(ts[n], d);
    BucketHoldsTimestamp(ts[n], d);
    ExtendCover(ranges, ts[..n], ts[n], d);
  }

  lemma SampleStays(range: TimeRange, ts: seq<int>, t: int)
    requires HasSample(range, ts) || range.Contains(t)
    ensures HasSample(range, ts + [t])
  {
    if range.Contains(t) {
      assert (ts + [t])[|ts|] == t;
    } else {
      var i :| 0 <= i < |ts| && range.Contains(ts[i]);
      assert (ts + [t])[i] == ts[i];
    }
  }

  lemma HeldStays(t: int, ranges: seq<TimeRange>, range: TimeRange)
    requires IsHeld(t, ranges) || range.Contains(t)
    ensures IsHeld(t, ranges + [range])
  {
    if range.Contains(t) {
      assert (ranges + [range])[|ranges|] == range;
    } else {
      var k :| 0 <= k < |ranges| && ranges[k].Contains(t);
      assert (ranges + [range])[k] == ranges[k];
    }
  }

  lemma KeepCover(ranges: seq<TimeRange>, ts: seq<int>, t: int, d: nat)
    requires d > 0 && IsCover(ranges, ts, d) && ranges != [] && ranges[|ranges| - 1].Contains(t)
    ensures IsCover(ranges, ts + [t], d)
  {
    forall k | 0 <= k < |ranges| ensures HasSample(ranges[k], ts + [t]) {
      assert HasSample(ranges[k], ts);
      SampleStays(ranges[k], ts, t);
    }
    forall i | 0 <= i < |ts + [t]| ensures IsHeld((ts + [t])[i], ranges) {
      if i < |ts| {
        assert IsHeld(ts[i], ranges);
      }
    }
  }

  lemma LastRangeEndsBefore(last: TimeRange, ts: seq<int>, t: int, d: nat)
    requires 0 < d && IsBucket(last, d) && HasSample(last, ts) && !last.Contains(t)
    requires IsI64(t) && BucketOf(t, d).Some?
    requires forall i :: 0 <= i < |ts| ==> ts[i] < t
    ensures last.end <= BucketOf(t, d).value.start
  {
    BucketHoldsTimestamp(t, d);
    EndsAreMultiples(last, d);
    FloorsMeet(last.end, BucketOf(t, d).value.start, t, d);
  }

  /** A later timestamp outside the last range lies in a bucket after all ranges. */
  lemma ExtendCover(ranges: seq<TimeRange>, ts: seq<int>, t: int, d: nat)
    requires 0 < d && IsCover(ranges, ts, d) && IsI64(t) && BucketOf(t, d).Some?
    requires forall i :: 0 <= i < |ts| ==> ts[i] < t
    requires ranges != [] ==> !ranges[|ranges| - 1].Contains(t)
    ensures IsCover(ranges + [BucketOf(t, d).value], ts + [t], d)
  {
    var bucket := BucketOf(t, d).value;
    var all := ranges + [bucket];
    BucketHoldsTimestamp(t, d);
    if ranges != [] {
      LastRangeEndsBefore(ranges[|ranges| - 1], ts, t, d);
    }
    assert Disjoint(all);
    forall k | 0 <= k < |all| ensures HasSample(all[k], ts + [t]) {
      assert k < |ranges| ==> HasSample(ranges[k], ts);
      SampleStays(all[k], ts, t);
    }
    forall i | 0 <= i < |ts + [t]| ensures IsHeld((ts + [t])[i], all) {
      assert i < |ts| ==> IsHeld(ts[i], ranges);
      HeldStays((ts + [t])[i], ranges, bucket);
    }
  }

  lemma EndsAreMultiples(range: TimeRange, d: nat)
    requires d > 0 && IsBucket(range, d)
    ensures range.end % d == 0
  {
    assert range.end == (range.start / d + 1) * d;
    MultipleHasNoRemainder(range.start / d + 1, d);
  }

  /** No multiple of d lies strictly inside a bucket. */
  lemma FloorsMeet(m: int, start: int, t: int, d: nat)
    requires d > 0 && m % d == 0 && start % d == 0 && start <= t < start + d && m <= t
    ensures m <= start
  {
    if m > start {
      FloorIsUnique(m, d, start, m);
    }
  }

  // ---------------------------------------------------------------------------
  // The sampler
  // ---------------------------------------------------------------------------

  datatype Suggestion = Suggest(duration: nat) | SuggestPanicked

  method SuggestFor(ts: seq<int>) returns (r: Suggestion)
    requires Ascending(ts)
    ensures r == SuggestPanicked <==> GapOverflows(ts)
    ensures r.Suggest? ==> IsSuggested(ts, r.duration)
  {
    var interval := EvaluateInterval(ts);
    match interval
    case Overflow => r := SuggestPanicked;
    case Selected(n) =>
      var d := PickDuration(n);
      r := Suggest(d);
    case NoInterval => r := Suggest(DEFAULT_SEGMENT_DURATION);
  }

  class DefaultSampler {
    var timestamps: set<int>
    var duration: Option<nat>
    var sortedTimestamps: seq<int>

    /** The cache is empty or equals a fresh recomputation from the collected timestamps. */
    ghost predicate Valid()
      reads this
    {
      && (forall t :: t in timestamps ==> Accepted(t))
      && (duration == None ==> sortedTimestamps == [])
      && (duration.Some? ==> sortedTimestamps == Listing(timestamps) && IsSuggested(sortedTimestamps, duration.value))
    }

    constructor ()
      ensures Valid() && timestamps == {}
    {
      timestamps, duration, sortedTimestamps := {}, None, [];
    }

    method Collect(ts: int) returns (ok: bool)
      requires Valid() && IsI64(ts)
      modifies this
      ensures Valid()
      ensures ok <==> ts < MAX_TIMESTAMP
      ensures timestamps == if ok then old(timestamps) + {ts} else old(timestamps)
      ensures ok ==> duration == None
      ensures !ok ==> unchanged(this)
    {
      if ts >= MAX_TIMESTAMP {
        return false;
      }
      timestamps := timestamps + {ts};
      duration, sortedTimestamps := None, [];
      ok := true;
    }

    /**
     * Returns the duration that the collected timestamps determine, from the cache or by
     * computing it; panics exactly if a gap between neighbouring timestamps is not an i64.
     */
    method SuggestDuration() returns (r: Suggestion)
      requires Valid()
      modifies this
      ensures Valid() && timestamps == old(timestamps)
      ensures r == SuggestPanicked <==> GapOverflows(Listing(timestamps))
      ensures r.Suggest? ==> IsSuggested(Listing(timestamps), r.duration) && duration == Some(r.duration)
    {
      if duration.Some? {
        return Suggest(duration.value);
      }
      var ts := ListSet(timestamps);
      ListingIsUnique(ts, Listing(timestamps), timestamps);
      r := SuggestFor(ts);
      if r.Suggest? {
        duration, sortedTimestamps := Some(r.duration), ts;
      }
    }

    /**
     * Lists the ranges of the suggested duration that hold the collected timestamps; panics
     * exactly if the suggestion panics or the floor of some collected timestamp underflows.
     */
    method ListRanges() returns (r: RangesResult)
      requires Valid()
      modifies this
      ensures Valid() && timestamps == old(timestamps)
      ensures r == Panicked <==> Unplaceable(timestamps)
      ensures r.Ranges? ==> duration.Some? && IsSuggested(Listing(timestamps), duration.value) &&
                            duration.value > 0 && IsCover(r.ranges, Listing(timestamps), duration.value)
    {
      var suggestion := SuggestDuration();
      if suggestion == SuggestPanicked {
        return Panicked;
      }
      var d := suggestion.duration;
      SuggestedIsAvailable(sortedTimestamps, d);
      SuggestionDecides(timestamps, d);
      r := CoverRanges(sortedTimestamps, d);
    }
  }

  /** Some gap overflows, or some timestamp has no bucket of the suggested duration. */
  ghost predicate Unplaceable(timestamps: set<int>) {
    || GapOverflows(Listing(timestamps))
    || exists d: nat :: IsSuggested(Listing(timestamps), d) && UnderflowsIn(Listing(timestamps), d)
  }

  predicate UnderflowsIn(ts: seq<int>, d: nat) { exists i :: 0 <= i < |ts| && FloorUnderflows(ts[i], d) }

  lemma SuggestionDecides(timestamps: set<int>, d: nat)
    requires IsSuggested(Listing(timestamps), d) && forall t :: t in timestamps ==> Accepted(t)
    ensures Unplaceable(timestamps) <==> GapOverflows(Listing(timestamps)) || UnderflowsIn(Listing(timestamps), d)
    ensures forall i :: 0 <= i < |Listing(timestamps)| ==> Accepted(Listing(timestamps)[i])
  {
  }

  /** Non-negative timestamps that were accepted never make the sampler panic. */
  lemma NonNegativeNeverPanics(timestamps: set<int>)
    requires forall t :: t in timestamps ==> 0 <= t && Accepted(t)
    ensures !Unplaceable(timestamps)
  {
    var ts := Listing(timestamps);
    forall i | 0 <= i < |ts| ensures 0 <= ts[i] < MAX_TIMESTAMP { assert ts[i] in ts; }
  }

  /**
   * The sampler accepts timestamps it cannot place: the smallest i64 has no bucket of the default
   * duration, so listing the ranges of this one sample panics.
   */
  lemma SmallestTimestampHasNoBucket()
    ensures Accepted(I64_MIN) && FloorUnderflows(I64_MIN, DEFAULT_SEGMENT_DURATION)
    ensures BucketOf(I64_MIN, DEFAULT_SEGMENT_DURATION) == None
    ensures Unplaceable({I64_MIN})
  {
    ListingIsUnique([I64_MIN], Listing({I64_MIN}), {I64_MIN});
    assert IsSuggested([I64_MIN], DEFAULT_SEGMENT_DURATION);
  }
}
