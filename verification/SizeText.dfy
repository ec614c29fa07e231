/** Sizes in configuration files: whole binary units are written as text, anything else as a number. */
module SizeText {
  import opened Common
  import opened Float

  const KIB: Positive := 1024
  const MIB: Positive := 1024 * KIB
  const GIB: Positive := 1024 * MIB
  const TIB: Positive := 1024 * GIB
  const PIB: Positive := 1024 * TIB

  /** What the serializer is handed, and what the deserializer visits. */
  datatype Serialized = Unsigned(n: nat) | Signed(i: int) | Text(s: string)

  datatype SizeError = Empty | NotAscii | UnknownUnit | InvalidNumber | NegativeNumber

  /** How the number is read, and how it is scaled by its unit. */
  datatype Arithmetic = Arithmetic(read: string -> Option<F64>, scale: (F64, Positive) -> F64)

  function F64Arithmetic(rnd: Rounding): Arithmetic {
    Arithmetic(s => ParseF64(rnd, s), (x: F64, unit: Positive) => Mul(rnd, x, unit))
  }

  predicate IsUnit(unit: Positive) { unit == KIB || unit == MIB || unit == GIB || unit == TIB || unit == PIB }

  /** The unit a size is written in; zero is written in KiB. */
  function WrittenUnit(size: nat): Option<Positive> {
    if size == 0 then Some(KIB)
    else if size % PIB == 0 then Some(PIB)
    else if size % TIB == 0 then Some(TIB)
    else if size % GIB == 0 then Some(GIB)
    else if size % MIB == 0 then Some(MIB)
    else if size % KIB == 0 then Some(KIB)
    else None
  }

  function Name(unit: Positive): string
    requires IsUnit(unit)
  {
    if unit == PIB then "PiB" else if unit == TIB then "TiB" else if unit == GIB then "GiB"
    else if unit == MIB then "MiB" else "KiB"
  }

  function Serialize(size: nat): Serialized {
    match WrittenUnit(size)
    case Some(unit) => Text(Decimal(size / unit) + Name(unit))
    case None => Unsigned(size)
  }

  predicate IsSizeChar(c: char) { IsDigit(c) || c == '.' || c == 'e' || c == 'E' || c == '-' || c == '+' }

  /** How many characters belong to the number. */
  function SizeLen(s: string): (n: nat)
    ensures n <= |s|
  {
    if s != [] && IsSizeChar(s[0]) then SizeLen(s[1..]) + 1 else 0
  }

  function UnitOf(s: string): Option<Positive> {
    if s in ["K", "KB", "KiB"] then Some(KIB)
    else if s in ["M", "MB", "MiB"] then Some(MIB)
    else if s in ["G", "GB", "GiB"] then Some(GIB)
    else if s in ["T", "TB", "TiB"] then Some(TIB)
    else if s in ["P", "PB", "PiB"] then Some(PIB)
    else if s in ["B", ""] then Some(1)
    else None
  }

  function FromText(a: Arithmetic, text: string): Result<nat, SizeError> {
    var s := Trim(text);
    if s == [] then Err(Empty)
    else if !IsAscii(s) then Err(NotAscii)
    else
      var n := SizeLen(s);
      match UnitOf(Trim(s[n..]))
      case None => Err(UnknownUnit)
      case Some(unit) =>
        match a.read(s[..n])
        case None => Err(InvalidNumber)
        case Some(x) => Ok(ToU64(a.scale(x, unit)))
  }

  function Deserialize(a: Arithmetic, s: Serialized): Result<nat, SizeError> {
    match s
    case Unsigned(n) => Ok(n)
    case Signed(i) => if i >= 0 then Ok(i) else Err(NegativeNumber)
    case Text(text) => FromText(a, text)
  }

  // ---------------------------------------------------------------------------
  // Round trip
  // ---------------------------------------------------------------------------

  predicate ReadsBack(a: Arithmetic, n: nat) { a.read(Decimal(n)) == Some(Finite(n as real)) }

  predicate ScalesExactly(a: Arithmetic, n: nat, unit: Positive) {
    a.scale(Finite(n as real), unit) == Finite((n * unit) as real)
  }

  /** Whole numbers up to 2^53 are read and scaled by a binary unit exactly. */
  ghost predicate IsExactArithmetic(a: Arithmetic) {
    && (forall n: nat {:trigger ReadsBack(a, n)} :: n <= EXACT ==> ReadsBack(a, n))
    && (forall n: nat, unit: Positive {:trigger ScalesExactly(a, n, unit)} ::
          n <= EXACT && (IsUnit(unit) || unit == 1) ==> ScalesExactly(a, n, unit))
  }

  lemma UnitIsPower(unit: Positive) returns (e: nat)
    requires IsUnit(unit) || unit == 1
    ensures e <= 50 && unit == Pow2(e)
  {
    if unit == 1 {
      return 0;
    }
    assert Pow2(10) == KIB && Pow2(20) == MIB && Pow2(30) == GIB && Pow2(40) == TIB && Pow2(50) == PIB;
    e := if unit == KIB then 10 else if unit == MIB then 20 else if unit == GIB then 30 else if unit == TIB then 40 else 50;
  }

  lemma F64IsExact(rnd: Rounding)
    requires IsExact(rnd)
    ensures IsExactArithmetic(F64Arithmetic(rnd))
  {
    var a := F64Arithmetic(rnd);
    forall n: nat | n <= EXACT
      ensures ReadsBack(a, n)
    {
      ParseDecimal(rnd, n);
    }
    forall n: nat, unit: Positive | n <= EXACT && (IsUnit(unit) || unit == 1)
      ensures ScalesExactly(a, n, unit)
    {
      var e := UnitIsPower(unit);
      assert ExactAt(rnd, n, e);
      assert n as real * unit as real == (n * unit) as real;
    }
  }

  lemma {:induction false} SizeLenAt(digits: string, unit: string)
    requires AllDigits(digits) && (unit == [] || !IsSizeChar(unit[0]))
    ensures SizeLen(digits + unit) == |digits|
  {
    if digits == [] {
      assert digits + unit == unit;
    } else {
      SizeLenAt(digits[1..], unit);
      assert (digits + unit)[1..] == digits[1..] + unit;
    }
  }

  /** The name of a unit has no character of a number in front and no space around it. */
  predicate IsPlainName(s: string) {
    IsAscii(s) && (s != [] ==> !IsSizeChar(s[0]) && !IsWhitespace(s[0]) && !IsWhitespace(s[|s| - 1]))
  }

  lemma UnitNameIsPlain(name: string)
    requires UnitOf(name).Some?
    ensures IsPlainName(name)
  {
  }

  lemma NumberWithUnitIsPlain(n: nat, name: string)
    requires IsPlainName(name)
    ensures var s := Decimal(n) + name;
      Trim(s) == s && IsAscii(s) && s != [] && SizeLen(s) == |Decimal(n)| && Trim(name) == name
  {
    var s := Decimal(n) + name;
    assert IsDigit(s[0]) && s[|s| - 1] == if name == [] then Decimal(n)[|s| - 1] else name[|name| - 1];
    TrimNothing(s);
    TrimNothing(name);
    SizeLenAt(Decimal(n), name);
  }

  /** Number and unit are told apart. */
  lemma SplitsAtUnit(a: Arithmetic, n: nat, name: string, unit: Positive)
    requires UnitOf(name) == Some(unit)
    ensures FromText(a, Decimal(n) + name) ==
            match a.read(Decimal(n)) case None => Err(InvalidNumber) case Some(x) => Ok(ToU64(a.scale(x, unit)))
  {
    var s := Decimal(n) + name;
    UnitNameIsPlain(name);
    NumberWithUnitIsPlain(n, name);
    assert s[..|Decimal(n)|] == Decimal(n) && s[|Decimal(n)|..] == name;
  }

  lemma KnownUnits(name: string, unit: Positive)
    requires UnitOf(name) == Some(unit)
    ensures IsUnit(unit) || unit == 1
  {
  }

  lemma ScaledExactly(a: Arithmetic, n: nat, unit: Positive)
    requires IsExactArithmetic(a) && n <= EXACT && n * unit <= U64_MAX && (IsUnit(unit) || unit == 1)
    ensures a.read(Decimal(n)) == Some(Finite(n as real)) && ToU64(a.scale(Finite(n as real), unit)) == n * unit
  {
    assert ReadsBack(a, n) && ScalesExactly(a, n, unit);
  }

  /** A number of whole units is read back exactly. */
  lemma WholeUnits(a: Arithmetic, n: nat, name: string, unit: Positive)
    requires IsExactArithmetic(a) && n <= EXACT && n * unit <= U64_MAX
    requires UnitOf(name) == Some(unit)
    ensures FromText(a, Decimal(n) + name) == Ok(n * unit)
  {
    KnownUnits(name, unit);
    ScaledExactly(a, n, unit);
    SplitsAtUnit(a, n, name, unit);
  }

  lemma QuotientIsSmall(size: nat, unit: Positive)
    requires size < TWO_63 && size % unit == 0 && unit >= KIB
    ensures size / unit * unit == size && size / unit <= EXACT
  {
  }

  lemma MultipleIsReadBack(a: Arithmetic, size: nat, name: string, unit: Positive)
    requires IsExactArithmetic(a) && size < TWO_63 && size % unit == 0
    requires UnitOf(name) == Some(unit) && IsUnit(unit)
    ensures FromText(a, Decimal(size / unit) + name) == Ok(size)
  {
    QuotientIsSmall(size, unit);
    WholeUnits(a, size / unit, name, unit);
  }

  lemma NameIsKnown(unit: Positive)
    requires IsUnit(unit)
    ensures UnitOf(Name(unit)) == Some(unit)
  {
  }

  /** What a format hands back: what was written, or a plain number as a signed one. */
  predicate IsHandedBack(written: Serialized, visited: Serialized) {
    visited == written || (written.Unsigned? && visited == Signed(written.n))
  }

  /** Below 2^63 every size survives serializing and deserializing, with signed or unsigned numbers. */
  lemma RoundTrip(a: Arithmetic, size: nat, visited: Serialized)
    requires IsExactArithmetic(a) && size < TWO_63 && IsHandedBack(Serialize(size), visited)
    ensures Deserialize(a, visited) == Ok(size)
  {
    if WrittenUnit(size).Some? {
      var unit := WrittenUnit(size).value;
      NameIsKnown(unit);
      MultipleIsReadBack(a, size, Name(unit), unit);
    }
  }

  /** Written as text are exactly the whole KiB, in the largest unit that leaves no rest; zero in KiB. */
  lemma WrittenInLargestUnit(size: nat)
    ensures Serialize(size).Text? <==> size % 1024 == 0
    ensures match WrittenUnit(size)
      case None => Serialize(size) == Unsigned(size)
      case Some(unit) =>
        && IsUnit(unit) && Serialize(size) == Text(Decimal(size / unit) + Name(unit))
        && size % unit == 0 && (forall larger: Positive :: IsUnit(larger) && larger > unit ==> size == 0 || size % larger != 0)
        && (size == 0 ==> unit == KIB)
  {
    MultiplesOfUnits(size);
  }

  lemma RestIsZero(q: int, k: int, rest: int, unit: int)
    requires q * unit == k * unit + rest && 0 <= rest < unit
    ensures rest == 0
  {
    var d := q - k;
    assert d * unit == rest;
  }

  lemma ProductIsMultiple(q: nat, unit: Positive, p: nat)
    requires p == q * unit
    ensures p % unit == 0
  {
    RestIsZero(q, p / unit, p % unit, unit);
  }

  lemma LargerMultiple(size: nat, unit: Positive)
    requires size % (1024 * unit) == 0
    ensures size % unit == 0
  {
    var q := size / (1024 * unit);
    assert size == q * 1024 * unit;
    ProductIsMultiple(q * 1024, unit, size);
  }

  lemma MultiplesOfUnits(size: nat)
    ensures size % PIB == 0 ==> size % TIB == 0
    ensures size % TIB == 0 ==> size % GIB == 0
    ensures size % GIB == 0 ==> size % MIB == 0
    ensures size % MIB == 0 ==> size % KIB == 0
  {
    if size % PIB == 0 { LargerMultiple(size, TIB); }
    if size % TIB == 0 { LargerMultiple(size, GIB); }
    if size % GIB == 0 { LargerMultiple(size, MIB); }
    if size % MIB == 0 { LargerMultiple(size, KIB); }
  }

  /** Plain numbers are read as they are; negative ones are refused. */
  lemma PlainNumbers(a: Arithmetic, n: nat, i: int)
    ensures Deserialize(a, Unsigned(n)) == Ok(n)
    ensures Deserialize(a, Signed(n)) == Ok(n)
    ensures i < 0 ==> Deserialize(a, Signed(i)) == Err(NegativeNumber)
  {
  }

  // ---------------------------------------------------------------------------
  // Spellings of units
  // ---------------------------------------------------------------------------

  function Power1024(e: nat): Positive { if e == 0 then 1 else 1024 * Power1024(e - 1) }

  /** The letter of the unit, with or without B or iB behind it; bytes have none. */
  predicate IsSpelling(name: string, e: nat) {
    if e == 0 then name == "" || name == "B"
    else e <= 5 && (var c := "KMGTP"[e - 1]; name == [c] || name == [c, 'B'] || name == [c, 'i', 'B'])
  }

  lemma Powers()
    ensures Power1024(0) == 1 && Power1024(1) == KIB && Power1024(2) == MIB && Power1024(3) == GIB
    ensures Power1024(4) == TIB && Power1024(5) == PIB
  {
  }

  lemma SpellingIsKnown(name: string, e: nat)
    requires IsSpelling(name, e)
    ensures UnitOf(name) == Some(Power1024(e))
  {
    Powers();
  }

  /** Whole numbers with a unit in any spelling are read as the product with the power of 1024. */
  lemma AnySpelling(a: Arithmetic, n: nat, name: string, e: nat)
    requires IsExactArithmetic(a) && IsSpelling(name, e) && n <= EXACT && n * Power1024(e) <= U64_MAX
    ensures FromText(a, Decimal(n) + name) == Ok(n * Power1024(e))
  {
    SpellingIsKnown(name, e);
    WholeUnits(a, n, name, Power1024(e));
  }

  /** Any other unit behind a number is refused. */
  lemma OtherUnitsAreRefused(a: Arithmetic, n: nat, name: string)
    requires IsPlainName(name) && forall e :: 0 <= e <= 5 ==> !IsSpelling(name, e)
    ensures FromText(a, Decimal(n) + name) == Err(UnknownUnit)
  {
    var s := Decimal(n) + name;
    NumberWithUnitIsPlain(n, name);
    assert s[..|Decimal(n)|] == Decimal(n) && s[|Decimal(n)|..] == name;
    assert !IsSpelling(name, 0) && !IsSpelling(name, 1) && !IsSpelling(name, 2);
    assert !IsSpelling(name, 3) && !IsSpelling(name, 4) && !IsSpelling(name, 5);
  }

  // ---------------------------------------------------------------------------
  // From 2^63 on
  // ---------------------------------------------------------------------------

  /** Written as an odd number of KiB that needs 54 bits. */
  predicate LosesLastBit(size: nat) { size >= TWO_63 && WrittenUnit(size) == Some(KIB) && size / KIB % 2 == 1 }

  lemma KibAreScaled(rnd: Rounding, h: nat)
    requires IsExact(rnd) && h <= EXACT
    ensures Mul(rnd, Finite((2 * h) as real), KIB) == Finite((h * 2048) as real)
  {
    assert Pow2(11) == 2048;
    assert ExactAt(rnd, h, 11);
    assert (2 * h) as real * KIB as real == (h * 2048) as real;
  }

  /** An integer of 54 bits is read as twice another one, exactly if it is even. */
  lemma WideIsHalved(rnd: Rounding, n: nat) returns (h: nat)
    requires IsExact(rnd) && Has53Bits(rnd) && EXACT <= n < 2 * EXACT
    ensures h <= EXACT && rnd(n as real) == Finite((2 * h) as real) && (n % 2 == 0 ==> 2 * h == n)
  {
    if n % 2 == 0 {
      h := n / 2;
      assert Pow2(1) == 2;
      assert ExactAt(rnd, h, 1);
    } else {
      assert DropsLastBit(rnd, n);
      h :| h <= EXACT && rnd(n as real) == Finite((2 * h) as real);
    }
  }

  lemma Saturates(n: nat)
    ensures ToU64(Finite(n as real)) == if n > U64_MAX then U64_MAX else n
  {
  }

  /** 54 bits of KiB are scaled to their product exactly if their number is even. */
  lemma WideKibExactIff(rnd: Rounding, n: nat)
    requires IsExact(rnd) && Has53Bits(rnd) && EXACT <= n < 2 * EXACT
    ensures ToU64(Mul(rnd, rnd(n as real), KIB)) == n * KIB <==> n % 2 == 0
  {
    var h := WideIsHalved(rnd, n);
    KibAreScaled(rnd, h);
    Saturates(h * 2048);
  }

  lemma NumberIsScaled(rnd: Rounding, n: nat, name: string, unit: Positive)
    requires UnitOf(name) == Some(unit)
    ensures FromText(F64Arithmetic(rnd), Decimal(n) + name) == Ok(ToU64(Mul(rnd, rnd(n as real), unit)))
  {
    SplitsAtUnit(F64Arithmetic(rnd), n, name, unit);
    ParseRounds(rnd, n);
  }

  lemma WideQuotient(size: nat, unit: Positive)
    requires TWO_63 <= size <= U64_MAX && WrittenUnit(size) == Some(unit)
    ensures size / unit * unit == size && (unit == KIB ==> EXACT <= size / KIB < 2 * EXACT)
    ensures unit != KIB ==> size / unit <= EXACT
  {
  }

  /** Every u64 size survives, except those from 2^63 on that are an odd number of KiB. */
  lemma RoundTripIff(rnd: Rounding, size: nat)
    requires IsExact(rnd) && Has53Bits(rnd) && size <= U64_MAX
    ensures Deserialize(F64Arithmetic(rnd), Serialize(size)) == Ok(size) <==> !LosesLastBit(size)
  {
    var a := F64Arithmetic(rnd);
    F64IsExact(rnd);
    if size < TWO_63 {
      RoundTrip(a, size, Serialize(size));
    } else if WrittenUnit(size).Some? {
      var unit := WrittenUnit(size).value;
      WideQuotient(size, unit);
      NameIsKnown(unit);
      if unit == KIB {
        NumberIsScaled(rnd, size / KIB, Name(unit), unit);
        WideKibExactIff(rnd, size / KIB);
      } else {
        WholeUnits(a, size / unit, Name(unit), unit);
      }
    }
  }

  /** The least such size, 2^63 and one KiB, comes back as another one. */
  lemma LargeSizeIsLost(rnd: Rounding, size: nat)
    requires IsExact(rnd) && Has53Bits(rnd) && size == TWO_63 + KIB
    ensures Deserialize(F64Arithmetic(rnd), Serialize(size)) != Ok(size)
  {
    assert LosesLastBit(size);
    RoundTripIff(rnd, size);
  }
}
