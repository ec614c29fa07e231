/**
 * Durations in configuration files: printing as days, hours, minutes, seconds and milliseconds, and
 * the loop that parses them back.
 */
module DurationText {
  import opened Common
  import opened Float

  /** `secs` is a u64, `nanos` a u32 below one second. */
  datatype Duration = Duration(secs: nat, nanos: nat)

  predicate IsDuration(d: Duration) { d.secs <= U64_MAX && d.nanos < 1_000_000_000 }

  datatype ParseError = NotAscii | Malformed | OutOfOrder | Negative

  const MS: nat := 1
  const SECOND: nat := 1000
  const MINUTE: nat := 60 * SECOND
  const HOUR: nat := 60 * MINUTE
  const DAY: nat := 24 * HOUR

  const UNITS: nat := 5

  /** The units from longest to shortest. */
  type Unit = k: nat | k < UNITS

  function UnitMs(k: Unit): Positive {
    if k == 0 then DAY else if k == 1 then HOUR else if k == 2 then MINUTE else if k == 3 then SECOND else MS
  }

  function Suffix(k: Unit): string {
    if k == 0 then "d" else if k == 1 then "h" else if k == 2 then "m" else if k == 3 then "s" else "ms"
  }

  predicate IsUnitChar(c: char) { c == 'd' || c == 'h' || c == 'm' || c == 's' }

  predicate NoUnitChar(s: string) { forall i :: 0 <= i < |s| ==> !IsUnitChar(s[i]) }

  /** How the text before a unit is read, and how a number of units is added to the sum. */
  datatype Arithmetic = Arithmetic(read: string -> Option<F64>, add: (F64, F64, Positive) -> F64)

  /** The arithmetic of the source: trimmed text read as an f64, then `sum + x * unit`. */
  function F64Arithmetic(rnd: Rounding): Arithmetic {
    Arithmetic(s => ParseF64(rnd, Trim(s)), (sum: F64, x: F64, unit: Positive) => Add(rnd, sum, Mul(rnd, x, unit)))
  }

  // ---------------------------------------------------------------------------
  // Parsing
  // ---------------------------------------------------------------------------

  /** Length of the text before the first unit character; the whole length when there is none. */
  function NumberLen(s: string): (n: nat)
    ensures n <= |s| && NoUnitChar(s[..n]) && (n < |s| ==> IsUnitChar(s[n]))
  {
    if s == [] || IsUnitChar(s[0]) then 0
    else
      var n := NumberLen(s[1..]) + 1;
      assert s[..n] == [s[0]] + s[1..][..n - 1];
      n
  }

  /** The unit that starts `s`; "ms" is tried before "m". */
  function UnitAtFront(s: string): (k: Unit)
    requires s != [] && IsUnitChar(s[0])
    ensures Suffix(k) <= s
  {
    if "ms" <= s then 4
    else if s[0] == 'd' then 0 else if s[0] == 'h' then 1 else if s[0] == 'm' then 2 else 3
  }

  /** What is left to parse, the last unit and the sum so far. */
  datatype Progress = Progress(left: string, last: nat, dur: F64)

  /** One round of the parsing loop takes a number and a unit off the remaining text. */
  function Round(a: Arithmetic, p: Progress): (r: Result<Progress, ParseError>)
    requires NumberLen(p.left) < |p.left|
    ensures r.Ok? ==> |r.value.left| < |p.left|
  {
    var n := NumberLen(p.left);
    var k := UnitAtFront(p.left[n..]);
    if UnitMs(k) >= p.last then Err(OutOfOrder)
    else match a.read(p.left[..n])
      case None => Err(Malformed)
      case Some(x) => Ok(Progress(p.left[n + |Suffix(k)|..], UnitMs(k), a.add(p.dur, x, UnitMs(k))))
  }

  /** What the parsing loop makes of the remaining text. */
  function ParseFrom(a: Arithmetic, p: Progress): Result<F64, ParseError>
    decreases |p.left|
  {
    if NumberLen(p.left) == |p.left| then
      if p.left == [] then Ok(p.dur) else Err(Malformed)
    else match Round(a, p)
      case Err(e) => Err(e)
      case Ok(next) => ParseFrom(a, next)
  }

  function FromMillis(ms: nat): Duration { Duration(ms / SECOND, ms % SECOND * 1_000_000) }

  function FromText(a: Arithmetic, text: string): Result<Duration, ParseError> {
    var trimmed := Trim(text);
    if !IsAscii(trimmed) then Err(NotAscii)
    else match ParseFrom(a, Progress(trimmed, DAY + 1, Finite(0.0)))
      case Err(e) => Err(e)
      case Ok(dur) => if IsNegative(dur) then Err(Negative) else Ok(FromMillis(ToU64(dur)))
  }

  /** The parsing loop goes on while a unit is left. */
  method FromStr(a: Arithmetic, text: string) returns (r: Result<Duration, ParseError>)
    ensures r == FromText(a, text)
  {
    var trimmed := Trim(text);
    if !IsAscii(trimmed) {
      return Err(NotAscii);
    }
    var p := Progress(trimmed, DAY + 1, Finite(0.0));
    while NumberLen(p.left) < |p.left|
      invariant ParseFrom(a, p) == ParseFrom(a, Progress(trimmed, DAY + 1, Finite(0.0)))
      decreases |p.left|
    {
      match Round(a, p) {
        case Err(e) => return Err(e);
        case Ok(next) => p := next;
      }
    }
    if p.left != [] {
      return Err(Malformed);
    }
    if IsNegative(p.dur) {
      return Err(Negative);
    }
    return Ok(FromMillis(ToU64(p.dur)));
  }

  // ---------------------------------------------------------------------------
  // The grammar the loop accepts
  // ---------------------------------------------------------------------------

  /** A number and a unit, then the rest; the number is the text before the unit. */
  datatype Segments = Nil | Segment(number: string, unit: Unit, rest: Segments)

  /** Numbers that can be read, with strictly shorter and shorter units, all below `last`. */
  predicate IsList(a: Arithmetic, g: Segments, last: nat) {
    g.Segment? ==>
      && NoUnitChar(g.number)
      && a.read(g.number).Some?
      && UnitMs(g.unit) < last
      && IsList(a, g.rest, UnitMs(g.unit))
  }

  /** The text of the segments one after the other. */
  function Text(g: Segments): string {
    match g
    case Nil => ""
    case Segment(number, unit, rest) => number + (Suffix(unit) + Text(rest))
  }

  /** Sum of the numbers times their units, from left to right. */
  function Total(a: Arithmetic, g: Segments, dur: F64): F64 {
    match g
    case Nil => dur
    case Segment(number, unit, rest) =>
      match a.read(number)
      case None => NaN
      case Some(x) => Total(a, rest, a.add(dur, x, UnitMs(unit)))
  }

  lemma Uncut(number: string, u: string, rest: string)
    ensures var left := number + (u + rest);
      && left[..|number|] == number
      && left[|number|..] == u + rest
      && left[|number| + |u|..] == rest
  {
  }

  lemma {:induction false} NumberLenAt(number: string, rest: string)
    requires NoUnitChar(number) && rest != [] && IsUnitChar(rest[0])
    ensures NumberLen(number + rest) == |number|
  {
    if number == [] {
      assert number + rest == rest;
    } else {
      NumberLenAt(number[1..], rest);
      assert (number + rest)[1..] == number[1..] + rest;
    }
  }

  /** A number is never empty, so no "s" follows the unit "m" of the segment before it. */
  lemma RestStartsWithoutUnit(a: Arithmetic, g: Segments, last: nat)
    requires a.read("").None?
    requires IsList(a, g, last)
    ensures Text(g) == [] || !IsUnitChar(Text(g)[0])
  {
  }

  lemma UnitIsRead(k: Unit, rest: string)
    requires rest == [] || !IsUnitChar(rest[0])
    ensures Suffix(k) + rest != [] && IsUnitChar((Suffix(k) + rest)[0])
    ensures UnitAtFront(Suffix(k) + rest) == k
  {
    var s := Suffix(k) + rest;
    assert s[0] == Suffix(k)[0];
    if k == 4 {
      assert s[..2] == "ms";
    } else {
      assert |s| > 1 ==> s[1] == rest[0] && s[1] != "ms"[1];
    }
  }

  /** A number, a unit and a rest are cut as they were put together. */
  lemma SegmentIsCut(number: string, k: Unit, rest: string)
    requires NoUnitChar(number) && (rest == [] || !IsUnitChar(rest[0]))
    ensures var left := number + (Suffix(k) + rest);
      && NumberLen(left) == |number| < |left|
      && UnitAtFront(left[|number|..]) == k
      && left[..|number|] == number
      && |number| + |Suffix(k)| <= |left|
      && left[|number| + |Suffix(k)|..] == rest
  {
    UnitIsRead(k, rest);
    NumberLenAt(number, Suffix(k) + rest);
    Uncut(number, Suffix(k), rest);
  }

  /** A round takes the segment off the front. */
  lemma RoundTakes(a: Arithmetic, p: Progress, number: string, k: Unit, rest: string)
    requires NumberLen(p.left) == |number| < |p.left| && |number| + |Suffix(k)| <= |p.left|
    requires p.left[..|number|] == number && p.left[|number| + |Suffix(k)|..] == rest
    requires UnitAtFront(p.left[|number|..]) == k && a.read(number).Some? && UnitMs(k) < p.last
    ensures Round(a, p) == Ok(Progress(rest, UnitMs(k), a.add(p.dur, a.read(number).value, UnitMs(k))))
  {
  }

  lemma ParseRound(a: Arithmetic, p: Progress, next: Progress)
    requires NumberLen(p.left) < |p.left| && Round(a, p) == Ok(next)
    ensures ParseFrom(a, p) == ParseFrom(a, next)
  {
  }

  /** Every list of segments is accepted, with the sum of its segments. */
  lemma {:induction false} ListIsAccepted(a: Arithmetic, g: Segments, last: nat, dur: F64)
    requires a.read("").None?
    requires IsList(a, g, last)
    ensures ParseFrom(a, Progress(Text(g), last, dur)) == Ok(Total(a, g, dur))
    decreases g
  {
    if g.Segment? {
      var p, sum := Progress(Text(g), last, dur), a.add(dur, a.read(g.number).value, UnitMs(g.unit));
      ListIsAccepted(a, g.rest, UnitMs(g.unit), sum);
      RestStartsWithoutUnit(a, g.rest, UnitMs(g.unit));
      SegmentIsCut(g.number, g.unit, Text(g.rest));
      RoundTakes(a, p, g.number, g.unit, Text(g.rest));
      ParseRound(a, p, Progress(Text(g.rest), UnitMs(g.unit), sum));
    }
  }

  lemma Cut(left: string, n: nat, u: string, rest: string)
    requires n <= |left| && u <= left[n..] && rest == left[n + |u|..]
    ensures left[..n] + (u + rest) == left
  {
    assert left[n..][..|u|] == u;
    assert left == left[..n] + (left[n..][..|u|] + rest);
  }

  /** A round that succeeds has read a segment. */
  lemma RoundReads(a: Arithmetic, p: Progress, rest: Segments) returns (g: Segments)
    requires NumberLen(p.left) < |p.left| && Round(a, p).Ok?
    requires var next := Round(a, p).value; IsList(a, rest, next.last) && Text(rest) == next.left
    ensures IsList(a, g, p.last) && Text(g) == p.left
    ensures Total(a, g, p.dur) == Total(a, rest, Round(a, p).value.dur)
  {
    var n := NumberLen(p.left);
    var k := UnitAtFront(p.left[n..]);
    g := Segment(p.left[..n], k, rest);
    Cut(p.left, n, Suffix(k), Text(rest));
  }

  /** Whatever is accepted is a list of segments, and the result is their sum. */
  lemma {:induction false} AcceptedIsList(a: Arithmetic, p: Progress) returns (g: Segments)
    requires ParseFrom(a, p).Ok?
    ensures IsList(a, g, p.last) && Text(g) == p.left
    ensures ParseFrom(a, p) == Ok(Total(a, g, p.dur))
    decreases |p.left|
  {
    if NumberLen(p.left) == |p.left| {
      g := Nil;
    } else {
      var next := Round(a, p).value;
      ParseRound(a, p, next);
      var rest := AcceptedIsList(a, next);
      g := RoundReads(a, p, rest);
    }
  }

  // ---------------------------------------------------------------------------
  // Printing
  // ---------------------------------------------------------------------------

  /** None where the multiplication or the addition overflows u64 and panics. */
  function DurationToMs(d: Duration): Option<nat> {
    var ms := d.secs * 1000 + d.nanos / 1_000_000;
    if ms <= U64_MAX then Some(ms) else None
  }

  /** A duration has no length in milliseconds exactly if that exceeds u64. */
  lemma DurationToMsIff(d: Duration)
    ensures DurationToMs(d).None? <==> d.secs * 1000 + d.nanos / 1_000_000 > U64_MAX
    ensures DurationToMs(d).Some? ==> DurationToMs(d).value == d.secs * 1000 + d.nanos / 1_000_000
  {
  }

  /** How often each unit is printed for `ms`, from days to milliseconds. */
  function Counts(ms: nat): (r: seq<nat>)
    ensures |r| == UNITS
  {
    var belowDay := ms % DAY;
    var belowHour := belowDay % HOUR;
    var belowMinute := belowHour % MINUTE;
    [ms / DAY, belowDay / HOUR, belowHour / MINUTE, belowMinute / SECOND, belowMinute % SECOND]
  }

  /** A segment for each unit from `k` on that is not counted zero times. */
  function Pieces(counts: seq<nat>, k: nat): Segments
    requires |counts| == UNITS && k <= UNITS
    decreases UNITS - k
  {
    if k == UNITS then Nil
    else if counts[k] == 0 then Pieces(counts, k + 1)
    else Segment(Decimal(counts[k]), k, Pieces(counts, k + 1))
  }

  /** The segments printed for `ms`; zero is printed as "0s". */
  function Printed(ms: nat): Segments {
    if ms == 0 then Segment("0", 3, Nil) else Pieces(Counts(ms), 0)
  }

  /** After `out` the units from `k` on remain to be written. */
  ghost predicate IsPending(out: string, counts: seq<nat>, k: nat, whole: string)
    requires |counts| == UNITS && k <= UNITS
  {
    whole == out + Text(Pieces(counts, k))
  }

  /** Writing the piece of unit `k` leaves the later pieces to be written. */
  lemma WritePiece(out: string, k: Unit, counts: seq<nat>, whole: string)
    requires |counts| == UNITS && IsPending(out, counts, k, whole)
    ensures IsPending(if counts[k] == 0 then out else out + Decimal(counts[k]) + Suffix(k), counts, k + 1, whole)
  {
  }

  /** One step of printing: the whole units in `dur` are written and taken off it. */
  method WriteUnit(out: string, dur: nat, unit: Positive, k: Unit, ghost counts: seq<nat>, ghost whole: string)
    returns (text: string, left: nat, written: bool)
    requires |counts| == UNITS && counts[k] == dur / unit
    requires IsPending(out, counts, k, whole)
    ensures IsPending(text, counts, k + 1, whole)
    ensures left == dur % unit
    ensures written <==> counts[k] != 0
  {
    WholeUnits(dur, unit);
    WritePiece(out, k, counts, whole);
    text, left, written := out, dur, false;
    if dur >= unit {
      written := true;
      text := out + Decimal(dur / unit) + Suffix(k);
      left := dur % unit;
    }
  }

  lemma WholeUnits(dur: nat, unit: Positive)
    ensures dur / unit == 0 <==> dur < unit
    ensures dur < unit ==> dur % unit == dur
  {
  }

  lemma AllWritten(out: string, counts: seq<nat>, whole: string)
    requires |counts| == UNITS && IsPending(out, counts, UNITS, whole)
    ensures out == whole
  {
  }

  /** The units counted make up the whole time. */
  lemma CountsSumUp(ms: nat)
    ensures var c := Counts(ms); ms == c[0] * DAY + c[1] * HOUR + c[2] * MINUTE + c[3] * SECOND + c[4] * MS
  {
  }

  lemma {:induction false} NothingCounted(counts: seq<nat>, k: nat)
    requires |counts| == UNITS && k <= UNITS && forall i :: 0 <= i < UNITS ==> counts[i] == 0
    ensures Pieces(counts, k) == Nil
    decreases UNITS - k
  {
    if k < UNITS {
      NothingCounted(counts, k + 1);
    }
  }

  lemma TextOfZero()
    ensures Text(Printed(0)) == "0s" && Text(Pieces(Counts(0), 0)) == ""
  {
    assert Text(Pieces(Counts(0), 0)) == "" by {
      NothingCounted(Counts(0), 0);
    }
    assert "0" + "s" + "" == "0s";
  }

  lemma TextOfPrinted(ms: nat)
    ensures ms == 0 ==> Text(Printed(ms)) == "0s" && Text(Pieces(Counts(ms), 0)) == ""
    ensures ms != 0 ==> Text(Printed(ms)) == Text(Pieces(Counts(ms), 0))
  {
    if ms == 0 {
      TextOfZero();
    }
  }

  predicate AreCounts(ms: nat, counts: seq<nat>) {
    && |counts| == UNITS && counts[0] == ms / DAY && counts[1] == ms % DAY / HOUR
    && counts[2] == ms % DAY % HOUR / MINUTE && counts[3] == ms % DAY % HOUR % MINUTE / SECOND
    && counts[4] == ms % DAY % HOUR % MINUTE % SECOND
  }

  /** The counts to print, and the text they make: empty exactly when nothing is counted. */
  lemma ToPrint(ms: nat) returns (counts: seq<nat>, whole: string)
    ensures AreCounts(ms, counts) && IsPending("", counts, 0, whole)
    ensures Text(Printed(ms)) ==
      if forall i :: 0 <= i < UNITS ==> counts[i] == 0 then whole + "0s" else whole
  {
    counts := Counts(ms);
    whole := Text(Pieces(counts, 0));
    CountsSumUp(ms);
    TextOfPrinted(ms);
  }

  /** Writes one unit after the other. */
  method WriteUnits(ms: nat, ghost counts: seq<nat>, ghost whole: string) returns (out: string, written: bool)
    requires AreCounts(ms, counts) && IsPending("", counts, 0, whole)
    ensures out == whole
    ensures written <==> counts[0] != 0 || counts[1] != 0 || counts[2] != 0 || counts[3] != 0 || counts[4] != 0
  {
    var dur, hours, minutes, seconds, millis;
    out, dur, written := WriteUnit("", ms, DAY, 0, counts, whole);
    out, dur, hours := WriteUnit(out, dur, HOUR, 1, counts, whole);
    out, dur, minutes := WriteUnit(out, dur, MINUTE, 2, counts, whole);
    out, dur, seconds := WriteUnit(out, dur, SECOND, 3, counts, whole);
    out, dur, millis := WriteUnit(out, dur, MS, 4, counts, whole);
    AllWritten(out, counts, whole);
    written := written || hours || minutes || seconds || millis;
  }

  /** Writes "0s" when nothing else was written. */
  method DisplayMs(ms: nat) returns (out: string)
    ensures out == Text(Printed(ms))
  {
    ghost var counts, whole := ToPrint(ms);
    var written;
    out, written := WriteUnits(ms, counts, whole);
    if !written {
      out := out + "0s";
    }
  }

  /** None is the overflow panic. */
  method Display(d: Duration) returns (r: Option<string>)
    requires IsDuration(d)
    ensures r.None? <==> DurationToMs(d).None?
    ensures r.Some? ==> r.value == Text(Printed(DurationToMs(d).value))
  {
    var total := DurationToMs(d);
    if total.None? {
      return None;
    }
    var out := DisplayMs(total.value);
    return Some(out);
  }

  // ---------------------------------------------------------------------------
  // Round trip
  // ---------------------------------------------------------------------------

  predicate IsPrinted(c: char) { IsDigit(c) || IsUnitChar(c) }

  lemma DecimalHasNoUnit(n: nat)
    ensures NoUnitChar(Decimal(n)) && Trim(Decimal(n)) == Decimal(n)
  {
  }

  lemma MulRoundsProduct(rnd: Rounding, n: nat, unit: Positive, p: nat)
    requires p == n * unit
    ensures Mul(rnd, Finite(n as real), unit) == rnd(p as real)
  {
    assert n as real * unit as real == p as real;
  }

  lemma SumIsExact(rnd: Rounding, x: nat, p: nat)
    requires IsExact(rnd) && x + p <= EXACT
    ensures Add(rnd, Finite(x as real), rnd(p as real)) == Finite((x + p) as real)
  {
    ExactInteger(rnd, p);
    ExactInteger(rnd, x + p);
  }

  /** Adding `n` units, of length `p` together, to an exact sum is exact below 2^53. */
  lemma PieceIsExact(rnd: Rounding, x: nat, n: nat, unit: Positive, p: nat)
    requires IsExact(rnd) && p == n * unit && x + p <= EXACT
    ensures Add(rnd, Finite(x as real), Mul(rnd, Finite(n as real), unit)) == Finite((x + p) as real)
  {
    MulRoundsProduct(rnd, n, unit, p);
    SumIsExact(rnd, x, p);
  }

  predicate ReadsBack(a: Arithmetic, n: nat) { a.read(Decimal(n)) == Some(Finite(n as real)) }

  predicate AddsExactly(a: Arithmetic, x: nat, n: nat, unit: Positive) {
    a.add(Finite(x as real), Finite(n as real), unit) == Finite((x + n * unit) as real)
  }

  /** Reading and adding whole numbers is exact up to 2^53. */
  ghost predicate IsExactArithmetic(a: Arithmetic) {
    && (forall n: nat {:trigger ReadsBack(a, n)} :: n <= EXACT ==> ReadsBack(a, n))
    && (forall x: nat, n: nat, unit: Positive {:trigger AddsExactly(a, x, n, unit)} ::
          x + n * unit <= EXACT ==> AddsExactly(a, x, n, unit))
  }

  lemma F64IsExact(rnd: Rounding)
    requires IsExact(rnd)
    ensures IsExactArithmetic(F64Arithmetic(rnd))
  {
    var a := F64Arithmetic(rnd);
    forall n: nat | n <= EXACT
      ensures ReadsBack(a, n)
    {
      DecimalHasNoUnit(n);
      ParseDecimal(rnd, n);
    }
    forall x: nat, n: nat, unit: Positive | x + n * unit <= EXACT
      ensures AddsExactly(a, x, n, unit)
    {
      PieceIsExact(rnd, x, n, unit, n * unit);
    }
  }

  lemma F64NeedsDigits(rnd: Rounding)
    ensures F64Arithmetic(rnd).read("").None?
  {
    TrimNothing("");
    EmptyIsNoNumber(rnd);
  }

  /** The time of `n` units. */
  function Time(n: nat, k: Unit): nat {
    if k == 0 then n * DAY else if k == 1 then n * HOUR else if k == 2 then n * MINUTE
    else if k == 3 then n * SECOND else n * MS
  }

  /** The time counted in the units from `k` on. */
  function Counted(counts: seq<nat>, k: nat): nat
    requires |counts| == UNITS && k <= UNITS
    decreases UNITS - k
  {
    if k == UNITS then 0 else Time(counts[k], k) + Counted(counts, k + 1)
  }

  lemma CountedIsAll(ms: nat)
    ensures Counted(Counts(ms), 0) == ms
  {
  }

  /** Segments in order below `last` that take the sum from `x` to `x + t`. */
  predicate SumsTo(a: Arithmetic, g: Segments, last: nat, x: nat, t: nat) {
    IsList(a, g, last) && Total(a, g, Finite(x as real)) == Finite((x + t) as real)
  }

  /** One more segment in front adds its time, exactly. */
  lemma PieceAdds(a: Arithmetic, n: nat, k: Unit, rest: Segments, last: nat, x: nat, t: nat)
    requires IsExactArithmetic(a) && n > 0 && x + Time(n, k) <= EXACT
    requires UnitMs(k) < last && SumsTo(a, rest, UnitMs(k), x + Time(n, k), t)
    ensures SumsTo(a, Segment(Decimal(n), k, rest), last, x, Time(n, k) + t)
  {
    DecimalHasNoUnit(n);
    assert Time(n, k) == n * UnitMs(k);
    assert n <= Time(n, k);
    assert ReadsBack(a, n) && AddsExactly(a, x, n, UnitMs(k));
  }

  lemma UnitsShrink(k: Unit)
    ensures k + 1 < UNITS ==> UnitMs(k + 1) < UnitMs(k)
  {
  }

  /** The pieces are segments in order, and they sum up to the time counted, exactly. */
  lemma {:induction false} PiecesSumUp(a: Arithmetic, counts: seq<nat>, k: nat, last: nat, x: nat)
    requires IsExactArithmetic(a) && |counts| == UNITS && k <= UNITS
    requires x + Counted(counts, k) <= EXACT
    requires k < UNITS ==> UnitMs(k) < last
    ensures SumsTo(a, Pieces(counts, k), last, x, Counted(counts, k))
    decreases UNITS - k
  {
    if k < UNITS {
      var n, rest, t := counts[k], Pieces(counts, k + 1), Counted(counts, k + 1);
      UnitsShrink(k);
      if n == 0 {
        PiecesSumUp(a, counts, k + 1, last, x);
      } else {
        PiecesSumUp(a, counts, k + 1, UnitMs(k), x + Time(n, k));
        PieceAdds(a, n, k, rest, last, x, t);
      }
    }
  }

  lemma PrintedSumsUp(a: Arithmetic, ms: nat)
    requires IsExactArithmetic(a) && ms <= EXACT
    ensures SumsTo(a, Printed(ms), DAY + 1, 0, ms)
  {
    if ms == 0 {
      assert Decimal(0) == "0";
      DecimalHasNoUnit(0);
      assert ReadsBack(a, 0) && AddsExactly(a, 0, 0, SECOND);
    } else {
      CountedIsAll(ms);
      PiecesSumUp(a, Counts(ms), 0, DAY + 1, 0);
    }
  }

  /** Segments with digits for numbers print digits and unit characters only. */
  predicate HasDigits(g: Segments) { g.Segment? ==> AllDigits(g.number) && HasDigits(g.rest) }

  lemma {:induction false} SegmentsPrint(g: Segments)
    requires HasDigits(g)
    ensures forall i :: 0 <= i < |Text(g)| ==> IsPrinted(Text(g)[i])
  {
    if g.Segment? {
      SegmentsPrint(g.rest);
      assert forall i :: 0 <= i < |Suffix(g.unit)| ==> IsUnitChar(Suffix(g.unit)[i]);
    }
  }

  lemma {:induction false} PiecesAreDigits(counts: seq<nat>, k: nat)
    requires |counts| == UNITS && k <= UNITS
    ensures HasDigits(Pieces(counts, k))
    decreases UNITS - k
  {
    if k < UNITS {
      PiecesAreDigits(counts, k + 1);
    }
  }

  /** What is printed has nothing to trim and is ASCII. */
  lemma PrintedIsPlain(ms: nat)
    ensures Trim(Text(Printed(ms))) == Text(Printed(ms)) && IsAscii(Text(Printed(ms)))
  {
    PiecesAreDigits(Counts(ms), 0);
    SegmentsPrint(Printed(ms));
    var s := Text(Printed(ms));
    assert forall i :: 0 <= i < |s| ==> IsPrinted(s[i]) ==> !IsWhitespace(s[i]);
    TrimNothing(s);
  }

  /** Parsing the text printed for `ms` gives `ms` back, in any arithmetic that is exact up to 2^53. */
  lemma PrintedIsParsed(a: Arithmetic, ms: nat)
    requires IsExactArithmetic(a) && a.read("").None? && ms <= EXACT
    ensures FromText(a, Text(Printed(ms))) == Ok(FromMillis(ms))
  {
    PrintedSumsUp(a, ms);
    ListIsAccepted(a, Printed(ms), DAY + 1, Finite(0.0));
    PrintedIsPlain(ms);
    assert ToU64(Finite(ms as real)) == ms;
  }

  /** Below 2^53 milliseconds a printed duration is parsed back, truncated to whole milliseconds. */
  lemma RoundTrip(a: Arithmetic, d: Duration, ms: nat)
    requires IsExactArithmetic(a) && a.read("").None?
    requires IsDuration(d) && DurationToMs(d) == Some(ms) && ms < EXACT
    ensures FromText(a, Text(Printed(ms))) == Ok(Duration(d.secs, d.nanos - d.nanos % 1_000_000))
  {
    PrintedIsParsed(a, ms);
    MillisOfDuration(d, ms);
  }

  lemma MillisOfDuration(d: Duration, ms: nat)
    requires IsDuration(d) && DurationToMs(d) == Some(ms)
    ensures FromMillis(ms) == Duration(d.secs, d.nanos - d.nanos % 1_000_000)
  {
  }

  /** `left` is a list of segments in order, with this sum. */
  ghost predicate IsSumOf(a: Arithmetic, left: string, sum: F64) {
    exists g :: IsList(a, g, DAY + 1) && Text(g) == left && Total(a, g, Finite(0.0)) == sum
  }

  lemma ParsedIff(a: Arithmetic, left: string, sum: F64)
    requires a.read("").None?
    ensures ParseFrom(a, Progress(left, DAY + 1, Finite(0.0))) == Ok(sum) <==> IsSumOf(a, left, sum)
  {
    if ParseFrom(a, Progress(left, DAY + 1, Finite(0.0))) == Ok(sum) {
      var g := AcceptedIsList(a, Progress(left, DAY + 1, Finite(0.0)));
    }
    if IsSumOf(a, left, sum) {
      var g :| IsList(a, g, DAY + 1) && Text(g) == left && Total(a, g, Finite(0.0)) == sum;
      ListIsAccepted(a, g, DAY + 1, Finite(0.0));
    }
  }

  /**
   * A text is accepted exactly when, trimmed, it is an ASCII list of segments in order whose sum is
   * not negative, and the result is that sum.
   */
  lemma AcceptedIff(a: Arithmetic, text: string, d: Duration)
    requires a.read("").None?
    ensures FromText(a, text) == Ok(d) <==>
      IsAscii(Trim(text)) && exists sum :: IsSumOf(a, Trim(text), sum) && !IsNegative(sum) && d == FromMillis(ToU64(sum))
  {
    forall sum
      ensures ParseFrom(a, Progress(Trim(text), DAY + 1, Finite(0.0))) == Ok(sum) <==> IsSumOf(a, Trim(text), sum)
    {
      ParsedIff(a, Trim(text), sum);
    }
  }
}
