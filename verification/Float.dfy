/**
 * 64-bit floating point numbers as far as the configuration parsers use them. Every exact result
 * goes through a rounding `rnd`, which may overflow to an infinity; what is proved holds for every
 * rounding that is exact on integers of up to 53 bits times a power of two. The sign of NaN is not
 * modelled.
 */
module Float {
  import opened Common

  datatype F64 = Finite(value: real) | Infinite(negative: bool) | NaN

  type Rounding = real -> F64

  type Positive = n: nat | n > 0 witness 1

  const EXACT: nat := 0x20_0000_0000_0000

  function Pow2(e: nat): nat { if e == 0 then 1 else 2 * Pow2(e - 1) }

  predicate ExactAt(rnd: Rounding, k: nat, e: nat) {
    rnd((k * Pow2(e)) as real) == Finite((k * Pow2(e)) as real)
  }

  /** Exact on every integer of at most 53 bits times a power of two up to 2^64. */
  ghost predicate IsExact(rnd: Rounding) {
    forall k: nat, e: nat {:trigger ExactAt(rnd, k, e)} :: k <= EXACT && e <= 64 ==> ExactAt(rnd, k, e)
  }

  /** An integer of 54 bits loses its last bit: two times at most 2^53. */
  ghost predicate DropsLastBit(rnd: Rounding, n: nat) {
    exists h: nat :: h <= EXACT && rnd(n as real) == Finite((2 * h) as real)
  }

  ghost predicate Has53Bits(rnd: Rounding) {
    forall n: nat {:trigger DropsLastBit(rnd, n)} :: EXACT <= n < 2 * EXACT ==> DropsLastBit(rnd, n)
  }

  lemma ExactInteger(rnd: Rounding, n: nat)
    requires IsExact(rnd) && n <= EXACT
    ensures rnd(n as real) == Finite(n as real)
  {
    assert ExactAt(rnd, n, 0);
    assert n * Pow2(0) == n;
  }

  /** Times a positive integer. */
  function Mul(rnd: Rounding, x: F64, unit: Positive): F64 {
    match x
    case Finite(r) => rnd(r * unit as real)
    case Infinite(n) => Infinite(n)
    case NaN => NaN
  }

  function Add(rnd: Rounding, x: F64, y: F64): F64 {
    match (x, y)
    case (Finite(a), Finite(b)) => rnd(a + b)
    case (Finite(_), Infinite(n)) => Infinite(n)
    case (Infinite(n), Finite(_)) => Infinite(n)
    case (Infinite(n), Infinite(m)) => if n == m then Infinite(n) else NaN
    case (NaN, _) => NaN
    case (_, NaN) => NaN
  }

  predicate IsNegative(x: F64) {
    match x
    case Finite(r) => r < 0.0
    case Infinite(n) => n
    case NaN => false
  }

  /** `as u64`: truncates and saturates; NaN becomes 0. */
  function ToU64(x: F64): nat {
    match x
    case Finite(r) => if r <= 0.0 then 0 else if r.Floor > U64_MAX then U64_MAX else r.Floor
    case Infinite(negative) => if negative then 0 else U64_MAX
    case NaN => 0
  }

  // ---------------------------------------------------------------------------
  // Parsing
  // ---------------------------------------------------------------------------

  /** The Unicode White_Space characters. */
  predicate IsWhitespace(c: char) {
    var n := c as int;
    || 0x09 <= n <= 0x0D || n == 0x20 || n == 0x85 || n == 0xA0 || n == 0x1680
    || 0x2000 <= n <= 0x200A || n == 0x2028 || n == 0x2029 || n == 0x202F || n == 0x205F || n == 0x3000
  }

  function TrimStart(s: string): string {
    if s != [] && IsWhitespace(s[0]) then TrimStart(s[1..]) else s
  }

  function TrimEnd(s: string): string {
    if s != [] && IsWhitespace(s[|s| - 1]) then TrimEnd(s[..|s| - 1]) else s
  }

  function Trim(s: string): string { TrimEnd(TrimStart(s)) }

  predicate IsAscii(s: string) { forall i :: 0 <= i < |s| ==> s[i] as int < 128 }

  function Lower(c: char): char {
    if 'A' <= c <= 'Z' then c + 32 as char else c
  }

  function LowerAll(s: string): (r: string)
    ensures |r| == |s|
  {
    seq(|s|, i requires 0 <= i < |s| => Lower(s[i]))
  }

  /** Number of leading digits. */
  function DigitCount(s: string): (n: nat)
    ensures n <= |s| && AllDigits(s[..n]) && (n < |s| ==> !IsDigit(s[n]))
  {
    if s != [] && IsDigit(s[0]) then
      var n := DigitCount(s[1..]) + 1;
      assert forall i :: 1 <= i < n ==> s[i] == s[1..][..n - 1][i - 1];
      n
    else 0
  }

  function PowerOfTen(e: int): real
    decreases if e < 0 then -e else e
  {
    if e == 0 then 1.0 else if e > 0 then 10.0 * PowerOfTen(e - 1) else PowerOfTen(e + 1) / 10.0
  }

  /** `e`, an optional sign and at least one digit, to the end of the text; the empty text is 0. */
  function ParseExponent(s: string): Option<int> {
    if s == [] then Some(0)
    else if Lower(s[0]) != 'e' then None
    else
      var negative := |s| > 1 && s[1] == '-';
      var digits := if |s| > 1 && (s[1] == '-' || s[1] == '+') then s[2..] else s[1..];
      if digits == [] || !AllDigits(digits) then None
      else
        var value: int := DigitsValue(digits);
        Some(if negative then -value else value)
  }

  /** Digits times a power of ten. */
  datatype Numeral = Numeral(digits: nat, exponent: int)

  function Value(n: Numeral): real { n.digits as real * PowerOfTen(n.exponent) }

  /** The number with these digits before and after the point and this exponent; at least one digit. */
  function NumberOf(whole: string, fraction: string, tail: string): Option<Numeral>
    requires AllDigits(whole + fraction)
  {
    if whole + fraction == [] then None
    else match ParseExponent(tail)
      case None => None
      case Some(e) => Some(Numeral(DigitsValue(whole + fraction), e - |fraction|))
  }

  /** Digits with an optional point and exponent. */
  function ParseNumber(s: string): Option<Numeral> {
    var i := DigitCount(s);
    var rest := s[i..];
    if rest != [] && rest[0] == '.' then
      var f := DigitCount(rest[1..]);
      NumberOf(s[..i], rest[1..][..f], rest[1..][f..])
    else NumberOf(s[..i], [], rest)
  }

  /** A number or one of the special names, behind the sign. */
  function ParseMagnitude(rnd: Rounding, body: string, negative: bool): Option<F64> {
    var lower := LowerAll(body);
    if lower == "inf" || lower == "infinity" then Some(Infinite(negative))
    else if lower == "nan" then Some(NaN)
    else match ParseNumber(body)
      case None => None
      case Some(n) => Some(rnd(if negative then -Value(n) else Value(n)))
  }

  /** `f64::from_str`. */
  function ParseF64(rnd: Rounding, s: string): Option<F64> {
    if s != [] && s[0] == '-' then ParseMagnitude(rnd, s[1..], true)
    else if s != [] && s[0] == '+' then ParseMagnitude(rnd, s[1..], false)
    else ParseMagnitude(rnd, s, false)
  }

  lemma {:induction false} AllDigitsCount(s: string)
    requires AllDigits(s)
    ensures DigitCount(s) == |s|
  {
  }

  lemma DecimalIsNumber(n: nat)
    ensures ParseNumber(Decimal(n)) == Some(Numeral(n, 0)) && Value(Numeral(n, 0)) == n as real
  {
    var s := Decimal(n);
    AllDigitsCount(s);
    DecimalValue(n);
    assert s[..|s|] == s && s[|s|..] == [] && s + [] == s;
    assert PowerOfTen(0) == 1.0;
  }

  /** The decimal text of an integer is read as the rounded integer. */
  lemma ParseRounds(rnd: Rounding, n: nat)
    ensures ParseF64(rnd, Decimal(n)) == Some(rnd(n as real))
  {
    var s := Decimal(n);
    assert IsDigit(s[0]);
    assert LowerAll(s)[0] == s[0];
    DecimalIsNumber(n);
  }

  /** That of an integer of at most 53 bits is read back exactly. */
  lemma ParseDecimal(rnd: Rounding, n: nat)
    requires IsExact(rnd) && n <= EXACT
    ensures ParseF64(rnd, Decimal(n)) == Some(Finite(n as real))
  {
    ParseRounds(rnd, n);
    ExactInteger(rnd, n);
  }

  lemma EmptyIsNoNumber(rnd: Rounding)
    ensures ParseF64(rnd, "") == None
  {
  }

  /** Text without whitespace at either end is its own trimming. */
  lemma TrimNothing(s: string)
    requires s != [] ==> !IsWhitespace(s[0]) && !IsWhitespace(s[|s| - 1])
    ensures Trim(s) == s
  {
  }

  // ---------------------------------------------------------------------------
  // What the parser and the casts mean
  // ---------------------------------------------------------------------------

  /** Powers of ten multiply by adding exponents. */
  lemma {:induction false} PowersAdd(a: int, b: int)
    ensures PowerOfTen(1) == 10.0 && PowerOfTen(-1) == 0.1 && PowerOfTen(a + b) == PowerOfTen(a) * PowerOfTen(b)
    decreases if b < 0 then -b else b
  {
    if b > 0 {
      PowersAdd(a, b - 1);
      TimesTen(a + b - 1);
      TimesTen(b - 1);
    } else if b < 0 {
      PowersAdd(a, b + 1);
      TimesTen(a + b);
      TimesTen(b);
    }
  }

  lemma TimesTen(e: int)
    ensures PowerOfTen(e + 1) == 10.0 * PowerOfTen(e)
  {
  }

  predicate IsExponentMark(c: char) { c == 'e' || c == 'E' }

  /** The value of an exponent: a mark, an optional sign and digits. */
  lemma ExponentReads(mark: char, digits: string)
    requires IsExponentMark(mark) && digits != [] && AllDigits(digits)
    ensures ParseExponent([mark] + digits) == ParseExponent([mark, '+'] + digits) == Some(DigitsValue(digits) as int)
    ensures ParseExponent([mark, '-'] + digits) == Some(-(DigitsValue(digits) as int))
  {
    assert ([mark] + digits)[1..] == digits && IsDigit(([mark] + digits)[1]);
    assert ([mark, '+'] + digits)[2..] == digits && ([mark, '-'] + digits)[2..] == digits;
  }

  lemma {:induction false} DigitsThen(digits: string, rest: string)
    requires AllDigits(digits) && (rest == [] || !IsDigit(rest[0]))
    ensures DigitCount(digits + rest) == |digits|
  {
    if digits == [] {
      assert digits + rest == rest;
    } else {
      DigitsThen(digits[1..], rest);
      assert (digits + rest)[1..] == digits[1..] + rest;
    }
  }

  /** What may stand behind the digits of a number. */
  predicate IsTail(tail: string) { tail == [] || IsExponentMark(tail[0]) }

  /** The point is found: digits before it, digits after it, and what follows them. */
  lemma FractionSplits(whole: string, fraction: string, tail: string)
    requires AllDigits(whole) && AllDigits(fraction) && IsTail(tail)
    ensures AllDigits(whole + fraction) && ParseNumber(whole + ("." + (fraction + tail))) == NumberOf(whole, fraction, tail)
  {
    var rest := "." + (fraction + tail);
    var s := whole + rest;
    DigitsThen(whole, rest);
    assert s[..|whole|] == whole && s[|whole|..] == rest && rest[1..] == fraction + tail;
    DigitsThen(fraction, tail);
    assert rest[1..][..|fraction|] == fraction && rest[1..][|fraction|..] == tail;
  }

  lemma WholeSplits(whole: string, tail: string)
    requires AllDigits(whole) && IsTail(tail)
    ensures AllDigits(whole + []) && ParseNumber(whole + tail) == NumberOf(whole, [], tail)
  {
    var s := whole + tail;
    DigitsThen(whole, tail);
    assert s[..|whole|] == whole && s[|whole|..] == tail;
  }

  /** Without a point the digits are a whole number, scaled by the exponent. */
  lemma WholeIs(whole: string, tail: string, e: int)
    requires AllDigits(whole) && whole != [] && ParseExponent(tail) == Some(e)
    ensures AllDigits(whole + []) && NumberOf(whole, [], tail) == Some(Numeral(DigitsValue(whole), e))
  {
    assert whole + [] == whole;
  }

  /** One more digit behind the point is put behind the others and moves the exponent down. */
  lemma FractionDigitIs(whole: string, fraction: string, digit: char, tail: string, e: int)
    requires AllDigits(whole) && AllDigits(fraction) && IsDigit(digit) && whole + fraction != [] && ParseExponent(tail) == Some(e)
    ensures AllDigits(whole + fraction) && AllDigits(whole + (fraction + [digit])) && NumberOf(whole, fraction, tail).Some?
    ensures var n := NumberOf(whole, fraction, tail).value;
      NumberOf(whole, fraction + [digit], tail) == Some(Numeral(10 * n.digits + DigitValue(digit), n.exponent - 1))
  {
    var digits := whole + (fraction + [digit]);
    assert digits[..|digits| - 1] == whole + fraction;
  }

  /** So it adds the digit at its place. */
  lemma NextDigitAdds(n: Numeral, d: nat)
    ensures Value(Numeral(10 * n.digits + d, n.exponent - 1)) == Value(n) + d as real * PowerOfTen(n.exponent - 1)
  {
    TimesTen(n.exponent - 1);
    Distribute(n.digits as real, d as real, PowerOfTen(n.exponent - 1));
  }

  lemma Distribute(v: real, d: real, place: real)
    ensures (10.0 * v + d) * place == v * (10.0 * place) + d * place
  {
  }

  /** A sign in front. */
  lemma SignReads(rnd: Rounding, body: string)
    requires body != [] && body[0] != '-' && body[0] != '+'
    ensures ParseF64(rnd, body) == ParseF64(rnd, "+" + body) == ParseMagnitude(rnd, body, false)
    ensures ParseF64(rnd, "-" + body) == ParseMagnitude(rnd, body, true)
  {
    assert ("+" + body)[1..] == body && ("-" + body)[1..] == body;
  }

  /** The magnitude of a number is rounded after the sign is put to it. */
  lemma MagnitudeReads(rnd: Rounding, body: string, n: Numeral, negative: bool)
    requires body != [] && (IsDigit(body[0]) || body[0] == '.') && ParseNumber(body) == Some(n)
    ensures ParseMagnitude(rnd, body, negative) == Some(rnd(if negative then -Value(n) else Value(n)))
  {
    assert LowerAll(body)[0] == body[0];
  }

  /** Letters of either case become the small one. */
  lemma LowerLetters(i: nat)
    requires i < 26
    ensures Lower('A' + i as char) == Lower('a' + i as char) == 'a' + i as char
  {
  }

  /** Infinities and NaN are read in any case. */
  lemma SpecialsRead(rnd: Rounding, body: string, negative: bool)
    ensures LowerAll(body) in ["inf", "infinity"] ==> ParseMagnitude(rnd, body, negative) == Some(Infinite(negative))
    ensures LowerAll(body) == "nan" ==> ParseMagnitude(rnd, body, negative) == Some(NaN)
  {
  }

  /** The cast to u64 rounds down within its range and takes the nearest end outside of it. */
  lemma ToU64Clamps(r: real)
    ensures 0.0 <= r <= U64_MAX as real ==> ToU64(Finite(r)) as real <= r < (ToU64(Finite(r)) + 1) as real
    ensures r < 0.0 ==> ToU64(Finite(r)) == 0
    ensures U64_MAX as real < r ==> ToU64(Finite(r)) == U64_MAX
    ensures ToU64(Infinite(true)) == 0 && ToU64(Infinite(false)) == U64_MAX && ToU64(NaN) == 0
  {
  }

  /** Infinities absorb what is finite; opposite ones have no sum. */
  lemma InfinitiesAdd(rnd: Rounding, x: F64, negative: bool, unit: Positive)
    ensures Add(rnd, Infinite(negative), x) == Add(rnd, x, Infinite(negative)) ==
            if x == NaN || x == Infinite(!negative) then NaN else Infinite(negative)
    ensures Mul(rnd, Infinite(negative), unit) == Infinite(negative) && (IsNegative(Infinite(negative)) <==> negative)
  {
  }
}
