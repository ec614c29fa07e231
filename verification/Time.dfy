/** Timestamps in milliseconds as i64, with checked arithmetic, and time buckets. */
module Time {
  import opened Common

  const I64_MAX: int := 0x7FFF_FFFF_FFFF_FFFF
  const I64_MIN: int := -0x8000_0000_0000_0000

  predicate IsI64(n: int) { I64_MIN <= n <= I64_MAX }

  function Checked(n: int): Option<int> { if IsI64(n) then Some(n) else None }

  /** Division of i64 rounds toward zero; the divisor is positive wherever it is used here. */
  function TruncDiv(a: int, b: int): int
    requires b > 0
  {
    if a >= 0 then a / b else -((-a) / b)
  }

  /** `Timestamp::checked_floor_by_i64`. */
  function CheckedFloor(ts: int, d: int): Option<int>
    requires IsI64(ts) && 0 < d <= I64_MAX
  {
    var normalized := if ts >= 0 then Some(ts) else Checked(ts - (d - 1));
    if normalized == None then None else Checked(TruncDiv(normalized.value, d) * d)
  }

  function CheckedAdd(ts: int, offset: int): Option<int> { Checked(ts + offset) }

  /** The largest multiple of d that is not above ts. */
  ghost predicate IsFloor(ts: int, d: int, f: int)
    requires d > 0
  {
    f <= ts < f + d && f % d == 0
  }

  lemma MultipleIsLarge(k: int, d: int)
    requires k >= 1 && d > 0
    ensures k * d >= d
  {
  }

  lemma SameQuotient(d: int, q: int, r: int, q': int, r': int)
    requires d > 0 && 0 <= r < d && 0 <= r' < d && q * d + r == q' * d + r'
    ensures q == q' && r == r'
  {
    assert (q - q') * d == q * d - q' * d;
    assert (q' - q) * d == q' * d - q * d;
    if q > q' {
      MultipleIsLarge(q - q', d);
    } else if q < q' {
      MultipleIsLarge(q' - q, d);
    }
  }

  lemma DivisionIsUnique(n: int, d: int, q: int, r: int)
    requires d > 0 && n == q * d + r && 0 <= r < d
    ensures n / d == q && n % d == r
  {
    SameQuotient(d, q, r, n / d, n % d);
  }

  /** A multiple of d is determined by the interval of length d it starts. */
  lemma FloorIsUnique(ts: int, d: int, f: int, g: int)
    requires d > 0 && IsFloor(ts, d, f) && IsFloor(ts, d, g)
    ensures f == g
  {
    assert f == (f / d) * d && g == (g / d) * d;
    DivisionIsUnique(ts, d, f / d, ts - f);
    DivisionIsUnique(ts, d, g / d, ts - g);
  }

  lemma MultipleHasNoRemainder(k: int, d: int)
    requires d > 0
    ensures (k * d) % d == 0
  {
    DivisionIsUnique(k * d, d, k, 0);
  }

  /** Truncating division of the normalized timestamp floors negative timestamps too. */
  lemma NegativeFloor(ts: int, d: int)
    requires d > 0 && ts < 0
    ensures IsFloor(ts, d, TruncDiv(ts - (d - 1), d) * d)
  {
  }

  /**
   * The result is the mathematical floor for negative and non-negative timestamps, and there is
   * no result exactly if the timestamp is negative and `ts - (d - 1)` underflows.
   */
  lemma CheckedFloorExact(ts: int, d: int)
    requires IsI64(ts) && 0 < d <= I64_MAX
    ensures CheckedFloor(ts, d) == None <==> ts < 0 && ts - (d - 1) < I64_MIN
    ensures CheckedFloor(ts, d).Some? ==> IsI64(CheckedFloor(ts, d).value) && IsFloor(ts, d, CheckedFloor(ts, d).value)
  {
    if ts >= 0 {
      assert ts == (ts / d) * d + ts % d;
      MultipleHasNoRemainder(ts / d, d);
    } else {
      NegativeFloor(ts, d);
    }
  }

  // ---------------------------------------------------------------------------
  // Time ranges
  // ---------------------------------------------------------------------------

  /** [start, end) */
  datatype TimeRange = TimeRange(start: int, end: int) {
    predicate Contains(ts: int) { start <= ts < end }
  }

  /** `TimeRange::bucket_of`; the duration is a number of milliseconds of any size. */
  function BucketOf(ts: int, duration: nat): Option<TimeRange>
    requires IsI64(ts)
  {
    if duration > I64_MAX || duration == 0 then None
    else
      match CheckedFloor(ts, duration)
      case None => None
      case Some(start) =>
        match CheckedAdd(start, duration)
        case None => None
        case Some(end) => Some(TimeRange(start, end))
  }

  /** A bucket holds its timestamp, is as long as the duration and starts at a multiple of it. */
  lemma BucketHoldsTimestamp(ts: int, duration: nat)
    requires IsI64(ts) && BucketOf(ts, duration).Some?
    ensures var b := BucketOf(ts, duration).value;
            b.Contains(ts) && b.end == b.start + duration && b.start % duration == 0
  {
    CheckedFloorExact(ts, duration);
  }

  /** There is no bucket exactly for a bad duration, an underflowing floor or an overflowing end. */
  lemma BucketMissingIff(ts: int, duration: nat)
    requires IsI64(ts)
    ensures BucketOf(ts, duration) == None <==>
            || duration == 0 || duration > I64_MAX
            || (ts < 0 && ts - (duration - 1) < I64_MIN)
            || ts - ts % duration + duration > I64_MAX
  {
    if 0 < duration <= I64_MAX {
      CheckedFloorExact(ts, duration);
      if CheckedFloor(ts, duration).Some? {
        assert ts == (ts / duration) * duration + ts % duration;
        MultipleHasNoRemainder(ts / duration, duration);
        FloorIsUnique(ts, duration, CheckedFloor(ts, duration).value, ts - ts % duration);
      }
    }
  }

  /** Buckets of one duration are equal, or one ends before the other starts. */
  lemma BucketsEqualOrDisjoint(a: int, b: int, duration: nat)
    requires IsI64(a) && IsI64(b) && BucketOf(a, duration).Some? && BucketOf(b, duration).Some?
    ensures var x, y := BucketOf(a, duration).value, BucketOf(b, duration).value;
            && (x == y || x.end <= y.start || y.end <= x.start)
            && (a <= b ==> x == y || x.end <= y.start)
  {
    BucketHoldsTimestamp(a, duration);
    BucketHoldsTimestamp(b, duration);
    var x, y := BucketOf(a, duration).value, BucketOf(b, duration).value;
    if x.start <= y.start < x.end {
      FloorIsUnique(y.start, duration, x.start, y.start);
    } else if y.start <= x.start < y.end {
      FloorIsUnique(x.start, duration, y.start, x.start);
    }
  }
}
