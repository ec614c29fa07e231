/** The compact encoding of datums, and the rows of the write-ahead log made of it. */
module Compact {
  import opened Common
  import opened Schema
  import opened Rows
  import opened MemKey
  import opened Float
  import opened WriteCompat

  const COMPACT_BYTES_FLAG: nat := 2
  const VARINT_FLAG: nat := 8
  const UVARINT_FLAG: nat := 9

  datatype DecodeError = Insufficient | Overflow | WrongFlag
    | ShiftPanic // the shift count exceeds 63

  /** A value and the bytes behind it. */
  datatype Decoded<+T> = Decoded(value: T, rest: seq<int>)

  // ---------------------------------------------------------------------------
  // Variable length numbers
  // ---------------------------------------------------------------------------

  /** Seven bits a byte, least significant first; the top bit says that more follow. */
  function Uvarint(x: nat): (r: seq<int>)
    ensures r != []
  {
    if x < 0x80 then [x] else [x % 0x80 + 0x80] + Uvarint(x / 0x80)
  }

  method PutUvarint(buf: seq<int>, value: nat) returns (r: seq<int>)
    ensures r == buf + Uvarint(value)
  {
    var x := value;
    r := buf;
    while x >= 0x80
      invariant r + Uvarint(x) == buf + Uvarint(value)
    {
      var byte := x % 0x80 + 0x80;
      assert r + ([byte] + Uvarint(x / 0x80)) == r + [byte] + Uvarint(x / 0x80);
      r := r + [byte];
      x := x / 0x80;
    }
    r := r + [x];
  }

  function Pow128(n: nat): (p: nat)
    ensures p > 0
  {
    if n == 0 then 1 else 0x80 * Pow128(n - 1)
  }

  /** Decoding from byte `i` on, with `x` read so far; the bits that are or-ed in are disjoint from `x`. */
  function DecodeUvarintFrom(b: seq<int>, i: nat, x: nat): Result<Decoded<nat>, DecodeError>
    requires IsBytes(b)
    decreases |b|
  {
    if b == [] then Err(Insufficient)
    else if b[0] < 0x80 then
      if i > 9 || (i == 9 && b[0] > 1) then Err(Overflow)
      else Ok(Decoded(x + b[0] * Pow128(i), b[1..]))
    else if i > 9 then Err(ShiftPanic)
    else DecodeUvarintFrom(b[1..], i + 1, x + (b[0] - 0x80) * Pow128(i) % TWO_64)
  }

  function DecodeUvarint(b: seq<int>): Result<Decoded<nat>, DecodeError>
    requires IsBytes(b)
  {
    DecodeUvarintFrom(b, 0, 0)
  }

  lemma {:induction false} UvarintIsBytes(x: nat)
    ensures IsBytes(Uvarint(x))
  {
    if x >= 0x80 {
      UvarintIsBytes(x / 0x80);
    }
  }

  lemma Powers()
    ensures Pow128(9) == TWO_63 && Pow128(10) == 0x80 * TWO_63
  {
  }

  lemma {:induction false} PowersGrow(i: nat, j: nat)
    requires i <= j
    ensures Pow128(i) <= Pow128(j)
  {
    if i < j {
      PowersGrow(i, j - 1);
    }
  }

  /** Splitting off the low seven bits. */
  lemma SevenBits(y: nat, p: nat)
    requires p > 0
    ensures y * p == y % 0x80 * p + y / 0x80 * (0x80 * p)
    ensures y / 0x80 * (0x80 * p) <= y * p && y % 0x80 * p <= y * p
    ensures y >= 0x80 ==> 0x80 * p <= y * p
  {
  }

  lemma InLimit(y: nat, i: nat)
    requires y * Pow128(i) < TWO_64 && y >= 0x80
    ensures i < 9
  {
    SevenBits(y, Pow128(i));
    Powers();
    if i >= 9 {
      PowersGrow(9, i);
    }
  }

  lemma LastByte(y: nat, i: nat)
    requires y * Pow128(i) < TWO_64 && i <= 9
    ensures i == 9 ==> y <= 1
  {
  }

  /** Reading on from byte `i` adds what is left of the number at its place. */
  lemma {:induction false} UvarintReads(y: nat, i: nat, x: nat, rest: seq<int>)
    requires IsBytes(rest) && i <= 9 && y * Pow128(i) < TWO_64
    ensures IsBytes(Uvarint(y) + rest)
    ensures DecodeUvarintFrom(Uvarint(y) + rest, i, x) == Ok(Decoded(x + y * Pow128(i), rest))
  {
    UvarintIsBytes(y);
    var b := Uvarint(y) + rest;
    if y < 0x80 {
      LastByte(y, i);
      assert b[1..] == rest;
    } else {
      InLimit(y, i);
      var p := Pow128(i);
      SevenBits(y, p);
      assert b[1..] == Uvarint(y / 0x80) + rest;
      assert b[0] - 0x80 == y % 0x80;
      assert y % 0x80 * p % TWO_64 == y % 0x80 * p;
      UvarintReads(y / 0x80, i + 1, x + y % 0x80 * p, rest);
    }
  }

  lemma UvarintRoundTrip(x: nat, rest: seq<int>)
    requires x < TWO_64 && IsBytes(rest)
    ensures IsBytes(Uvarint(x) + rest)
    ensures DecodeUvarint(Uvarint(x) + rest) == Ok(Decoded(x, rest))
  {
    UvarintReads(x, 0, 0, rest);
  }

  /** The decoding loop. */
  method GetUvarint(b: seq<int>) returns (r: Result<Decoded<nat>, DecodeError>)
    requires IsBytes(b)
    ensures r == DecodeUvarint(b)
  {
    var x: nat := 0;
    assert b[0..] == b;
    for i := 0 to |b|
      invariant DecodeUvarintFrom(b[i..], i, x) == DecodeUvarint(b)
    {
      assert b[i..][0] == b[i] && b[i..][1..] == b[i + 1..];
      if b[i] < 0x80 {
        if i > 9 || (i == 9 && b[i] > 1) {
          return Err(Overflow);
        }
        return Ok(Decoded(x + b[i] * Pow128(i), b[i + 1..]));
      }
      if i > 9 {
        return Err(ShiftPanic);
      }
      x := x + (b[i] - 0x80) * Pow128(i) % TWO_64;
    }
    return Err(Insufficient);
  }

  /** Signed numbers alternate: 0, -1, 1, -2, and so on. */
  function ZigZag(v: int): nat { if v >= 0 then 2 * v else -2 * v - 1 }

  function UnZigZag(u: nat): int { if u % 2 == 0 then u / 2 else -(u / 2) - 1 }

  lemma ZigZagRoundTrip(v: int)
    ensures UnZigZag(ZigZag(v)) == v
    ensures -TWO_63 <= v < TWO_63 ==> ZigZag(v) < TWO_64
  {
  }

  function Varint(v: int): seq<int> { Uvarint(ZigZag(v)) }

  function DecodeVarint(b: seq<int>): Result<Decoded<int>, DecodeError>
    requires IsBytes(b)
  {
    match DecodeUvarint(b)
    case Err(e) => Err(e)
    case Ok(d) => Ok(Decoded(UnZigZag(d.value), d.rest))
  }

  lemma VarintRoundTrip(v: int, rest: seq<int>)
    requires -TWO_63 <= v < TWO_63 && IsBytes(rest)
    ensures IsBytes(Varint(v) + rest)
    ensures DecodeVarint(Varint(v) + rest) == Ok(Decoded(v, rest))
  {
    ZigZagRoundTrip(v);
    UvarintRoundTrip(ZigZag(v), rest);
  }

  // ---------------------------------------------------------------------------
  // Datums
  // ---------------------------------------------------------------------------

  /** The bytes of floating point numbers, and back. */
  datatype FloatCodec = FloatCodec(
    put64: F64 -> seq<int>, get64: seq<int> -> F64, put32: F64 -> seq<int>, get32: seq<int> -> F64)

  const FLOAT_FLAG: nat := 5

  /** The datum has the values of its type; a floating point number is one its codec gives back. */
  predicate IsEncodable(c: FloatCodec, d: Datum) {
    && InDomain(d)
    && (d.Double? ==> |c.put64(d.d)| == 8 && IsBytes(c.put64(d.d)) && c.get64(c.put64(d.d)) == d.d)
    && (d.Float? ==> |c.put32(d.f)| == 4 && IsBytes(c.put32(d.f)) && c.get32(c.put32(d.f)) == d.f)
    && (d.Varbinary? || d.String? ==> |d.bytes| < TWO_63)
  }

  function EncodeCompact(c: FloatCodec, d: Datum): (r: seq<int>)
    ensures r != []
  {
    match d
    case Null => [NULL_FLAG]
    case Double(x) => [FLOAT_FLAG] + c.put64(x)
    case Float(x) => [FLOAT_FLAG] + c.put32(x)
    case Varbinary(b) => [COMPACT_BYTES_FLAG] + (Varint(|b|) + b)
    case String(b) => [COMPACT_BYTES_FLAG] + (Varint(|b|) + b)
    case UInt64(u) => [UVARINT_FLAG] + Uvarint(u)
    case UInt32(u) => [UVARINT_FLAG] + Uvarint(u)
    case UInt16(u) => [UVARINT_FLAG] + Uvarint(u)
    case UInt8(u) => [UVARINT_FLAG] + Uvarint(u)
    case Boolean(v) => [UVARINT_FLAG] + Uvarint(if v then 1 else 0)
    case Timestamp(i) => [VARINT_FLAG] + Varint(i)
    case Int64(i) => [VARINT_FLAG] + Varint(i)
    case Int32(i) => [VARINT_FLAG] + Varint(i)
    case Int16(i) => [VARINT_FLAG] + Varint(i)
    case Int8(i) => [VARINT_FLAG] + Varint(i)
    case Date(i) => [VARINT_FLAG] + Varint(i)
    case Time(i) => [VARINT_FLAG] + Varint(i)
  }

  /** Truncating casts of decoded numbers. */
  function CastUnsigned(u: nat, modulus: nat): nat
    requires modulus > 0
  {
    if u < modulus then u else u % modulus
  }

  function CastSigned(v: int, half: int): int
    requires half > 0
  {
    if -half <= v < half then v else (v + half) % (2 * half) - half
  }

  /** Casts keep the low bits: the result is in the range of the type, a multiple of its size away. */
  lemma CastsTruncate(u: nat, v: int, modulus: nat, half: int)
    requires modulus > 0 && half > 0
    ensures CastUnsigned(u, modulus) == u % modulus < modulus
    ensures -half <= CastSigned(v, half) < half && CastSigned(v, half) + half == (v + half) % (2 * half)
  {
    if u < modulus { SmallRemainder(u, modulus); }
    if -half <= v < half { SmallRemainder(v + half, 2 * half); }
  }

  lemma SmallRemainder(x: nat, modulus: nat)
    requires x < modulus
    ensures x % modulus == x
  {
  }

  function DecodeBytes(b: seq<int>): Result<Decoded<seq<int>>, DecodeError>
    requires IsBytes(b)
  {
    match DecodeVarint(b)
    case Err(e) => Err(e)
    case Ok(n) =>
      if n.value < 0 || n.value > |n.rest| then Err(Insufficient)
      else Ok(Decoded(n.rest[..n.value], n.rest[n.value..]))
  }

  function MapUnsigned(r: Result<Decoded<nat>, DecodeError>, f: nat -> Datum): Result<Decoded<Datum>, DecodeError> {
    match r case Err(e) => Err(e) case Ok(d) => Ok(Decoded(f(d.value), d.rest))
  }

  function MapSigned(r: Result<Decoded<int>, DecodeError>, f: int -> Datum): Result<Decoded<Datum>, DecodeError> {
    match r case Err(e) => Err(e) case Ok(d) => Ok(Decoded(f(d.value), d.rest))
  }

  function MapBytes(r: Result<Decoded<seq<int>>, DecodeError>, f: seq<int> -> Datum): Result<Decoded<Datum>, DecodeError> {
    match r case Err(e) => Err(e) case Ok(d) => Ok(Decoded(f(d.value), d.rest))
  }

  /** The flag the encoder writes before a datum of the kind. */
  function FlagOf(k: DatumKind): nat {
    match k
    case NullKind => NULL_FLAG
    case DoubleKind => FLOAT_FLAG
    case FloatKind => FLOAT_FLAG
    case VarbinaryKind => COMPACT_BYTES_FLAG
    case StringKind => COMPACT_BYTES_FLAG
    case UInt64Kind => UVARINT_FLAG
    case UInt32Kind => UVARINT_FLAG
    case UInt16Kind => UVARINT_FLAG
    case UInt8Kind => UVARINT_FLAG
    case BooleanKind => UVARINT_FLAG
    case _ => VARINT_FLAG
  }

  /** Decoding behind the flag of the kind. */
  function DecodePayload(c: FloatCodec, k: DatumKind, b: seq<int>): Result<Decoded<Datum>, DecodeError>
    requires IsBytes(b) && !k.NullKind?
  {
    match k
    case DoubleKind => if |b| < 8 then Err(Insufficient) else Ok(Decoded(Double(c.get64(b[..8])), b[8..]))
    case FloatKind => if |b| < 4 then Err(Insufficient) else Ok(Decoded(Float(c.get32(b[..4])), b[4..]))
    case VarbinaryKind => MapBytes(DecodeBytes(b), v => Varbinary(v))
    case StringKind => MapBytes(DecodeBytes(b), v => String(v))
    case UInt64Kind => MapUnsigned(DecodeUvarint(b), (u: nat) => UInt64(u))
    case UInt32Kind => MapUnsigned(DecodeUvarint(b), (u: nat) => UInt32(CastUnsigned(u, 0x1_0000_0000)))
    case UInt16Kind => MapUnsigned(DecodeUvarint(b), (u: nat) => UInt16(CastUnsigned(u, 0x1_0000)))
    case UInt8Kind => MapUnsigned(DecodeUvarint(b), (u: nat) => UInt8(CastUnsigned(u, 0x100)))
    case BooleanKind => MapUnsigned(DecodeUvarint(b), (u: nat) => Boolean(u != 0))
    case TimestampKind => MapSigned(DecodeVarint(b), v => Timestamp(v))
    case Int64Kind => MapSigned(DecodeVarint(b), v => Int64(v))
    case Int32Kind => MapSigned(DecodeVarint(b), v => Int32(CastSigned(v, 0x8000_0000)))
    case Int16Kind => MapSigned(DecodeVarint(b), v => Int16(CastSigned(v, 0x8000)))
    case Int8Kind => MapSigned(DecodeVarint(b), v => Int8(CastSigned(v, 0x80)))
    case DateKind => MapSigned(DecodeVarint(b), v => Date(CastSigned(v, 0x8000_0000)))
    case TimeKind => MapSigned(DecodeVarint(b), v => Time(v))
  }

  /** Decoding a datum of a known kind; the null flag is accepted for every kind. */
  function DecodeCompact(c: FloatCodec, k: DatumKind, b: seq<int>): Result<Decoded<Datum>, DecodeError>
    requires IsBytes(b)
  {
    if b == [] then Err(Insufficient)
    else if b[0] == NULL_FLAG then Ok(Decoded(Null, b[1..]))
    else if k.NullKind? || b[0] != FlagOf(k) then Err(WrongFlag)
    else DecodePayload(c, k, b[1..])
  }

  lemma BytesRoundTrip(v: seq<int>, rest: seq<int>)
    requires IsBytes(v) && IsBytes(rest) && |v| < TWO_63
    ensures IsBytes(Varint(|v|) + v + rest)
    ensures DecodeBytes(Varint(|v|) + v + rest) == Ok(Decoded(v, rest))
  {
    VarintRoundTrip(|v|, v + rest);
    assert Varint(|v|) + v + rest == Varint(|v|) + (v + rest);
    assert (v + rest)[..|v|] == v && (v + rest)[|v|..] == rest;
  }

  /** What the encoder writes behind the flag. */
  function Payload(c: FloatCodec, d: Datum): seq<int> { EncodeCompact(c, d)[1..] }

  lemma UnsignedPayload(c: FloatCodec, d: Datum, rest: seq<int>)
    requires IsEncodable(c, d) && IsBytes(rest) && FlagOf(KindOf(d)) == UVARINT_FLAG
    ensures IsBytes(Payload(c, d) + rest)
    ensures DecodePayload(c, KindOf(d), Payload(c, d) + rest) == Ok(Decoded(d, rest))
  {
    UvarintRoundTrip(Content(d)[0], rest);
    assert Payload(c, d) == Uvarint(Content(d)[0]);
  }

  lemma SignedPayload(c: FloatCodec, d: Datum, rest: seq<int>)
    requires IsEncodable(c, d) && IsBytes(rest) && FlagOf(KindOf(d)) == VARINT_FLAG
    ensures IsBytes(Payload(c, d) + rest)
    ensures DecodePayload(c, KindOf(d), Payload(c, d) + rest) == Ok(Decoded(d, rest))
  {
    VarintRoundTrip(Content(d)[0], rest);
    assert Payload(c, d) == Varint(Content(d)[0]);
  }

  lemma PayloadRoundTrip(c: FloatCodec, d: Datum, rest: seq<int>)
    requires IsEncodable(c, d) && IsBytes(rest) && !d.Null?
    ensures IsBytes(Payload(c, d) + rest)
    ensures DecodePayload(c, KindOf(d), Payload(c, d) + rest) == Ok(Decoded(d, rest))
  {
    if d.Varbinary? || d.String? {
      BytesRoundTrip(d.bytes, rest);
      assert Payload(c, d) == Varint(|d.bytes|) + d.bytes;
    } else if d.Double? {
      assert Payload(c, d) == c.put64(d.d);
      assert (c.put64(d.d) + rest)[..8] == c.put64(d.d) && (c.put64(d.d) + rest)[8..] == rest;
    } else if d.Float? {
      assert Payload(c, d) == c.put32(d.f);
      assert (c.put32(d.f) + rest)[..4] == c.put32(d.f) && (c.put32(d.f) + rest)[4..] == rest;
    } else if FlagOf(KindOf(d)) == UVARINT_FLAG {
      UnsignedPayload(c, d, rest);
    } else {
      SignedPayload(c, d, rest);
    }
  }

  /** A datum, null or of the expected kind, is read back, and what follows is left alone. */
  lemma DatumRoundTrip(c: FloatCodec, k: DatumKind, d: Datum, rest: seq<int>)
    requires IsEncodable(c, d) && IsBytes(rest) && (d.Null? || KindOf(d) == k)
    ensures IsBytes(EncodeCompact(c, d) + rest)
    ensures DecodeCompact(c, k, EncodeCompact(c, d) + rest) == Ok(Decoded(d, rest))
  {
    var b := EncodeCompact(c, d) + rest;
    if d.Null? {
      assert b[1..] == rest;
    } else {
      PayloadRoundTrip(c, d, rest);
      FlagIsFirst(c, d);
      assert b[1..] == Payload(c, d) + rest;
    }
  }

  /** A byte in front that is neither the null flag nor the flag of the kind is refused. */
  lemma OtherFlagsAreRefused(c: FloatCodec, k: DatumKind, d: Datum, rest: seq<int>)
    requires IsEncodable(c, d) && IsBytes(rest) && IsBytes(EncodeCompact(c, d) + rest)
    requires !d.Null? && (k.NullKind? || FlagOf(KindOf(d)) != FlagOf(k))
    ensures DecodeCompact(c, k, EncodeCompact(c, d) + rest) == Err(WrongFlag)
  {
    FlagIsFirst(c, d);
  }

  lemma FlagIsFirst(c: FloatCodec, d: Datum)
    ensures EncodeCompact(c, d)[0] == FlagOf(KindOf(d))
  {
  }

  /** Of two datums of one kind the encoding tells where the first ends and which it is. */
  lemma PrefixIsUnique(c: FloatCodec, d: Datum, e: Datum, x: seq<int>, y: seq<int>)
    requires IsEncodable(c, d) && IsEncodable(c, e) && KindOf(d) == KindOf(e) && IsBytes(x) && IsBytes(y)
    requires EncodeCompact(c, d) + x == EncodeCompact(c, e) + y
    ensures d == e && x == y
  {
    DatumRoundTrip(c, KindOf(d), d, x);
    DatumRoundTrip(c, KindOf(d), e, y);
  }

  // ---------------------------------------------------------------------------
  // Rows of the write-ahead log
  // ---------------------------------------------------------------------------

  predicate MapsInto(m: seq<Option<nat>>, row: Row) {
    forall i :: 0 <= i < |m| && m[i].Some? ==> m[i].value < |row|
  }

  /** The writer's row in the columns of the table; null where the writer has no column. */
  function InTable(m: seq<Option<nat>>, row: Row): (r: Row)
    requires MapsInto(m, row)
    ensures |r| == |m| && forall i :: 0 <= i < |m| ==> r[i] == (match m[i] case None => Null case Some(j) => row[j])
  {
    seq(|m|, i requires 0 <= i < |m| => match m[i] case None => Null case Some(j) => row[j])
  }

  /** How datums are put into bytes and taken out of them, by kind. */
  datatype DatumCodec = DatumCodec(
    put: Datum -> seq<int>, get: (DatumKind, seq<int>) -> Result<Decoded<Datum>, DecodeError>)

  function CompactCodec(c: FloatCodec): DatumCodec {
    DatumCodec(d => EncodeCompact(c, d),
               (k: DatumKind, b: seq<int>) => if IsBytes(b) then DecodeCompact(c, k, b) else Err(Insufficient))
  }

  /** Datum after datum. */
  function EncodeRow(codec: DatumCodec, row: Row): seq<int> {
    if row == [] then [] else EncodeRow(codec, row[..|row| - 1]) + codec.put(row[|row| - 1])
  }

  /** The writer's row is written in the table's columns. */
  method PutWalRow(codec: DatumCodec, m: seq<Option<nat>>, row: Row) returns (buf: seq<int>)
    requires MapsInto(m, row)
    ensures buf == EncodeRow(codec, InTable(m, row))
  {
    buf := [];
    ghost var r := InTable(m, row);
    for i := 0 to |m|
      invariant buf == EncodeRow(codec, r[..i])
    {
      assert r[..i + 1][..i] == r[..i];
      match m[i] {
        case Some(j) => buf := buf + codec.put(row[j]);
        case None => buf := buf + codec.put(Null);
      }
    }
    assert r[..|m|] == r;
  }

  /** Decoding from column `i` on. */
  function DecodeRowFrom(codec: DatumCodec, columns: seq<Column>, i: nat, b: seq<int>): Result<Row, DecodeError>
    requires i <= |columns|
    decreases |columns| - i
  {
    if i == |columns| then Ok([])
    else match codec.get(columns[i].kind, b)
      case Err(e) => Err(e)
      case Ok(d) =>
        match DecodeRowFrom(codec, columns, i + 1, d.rest)
        case Err(e) => Err(e)
        case Ok(r) => Ok([d.value] + r)
  }

  /** Reads a datum for every column, by the kind of the column. */
  method GetWalRow(codec: DatumCodec, columns: seq<Column>, b: seq<int>) returns (r: Result<Row, DecodeError>)
    ensures r == DecodeRowFrom(codec, columns, 0, b)
  {
    var datums: Row := [];
    var rest := b;
    ghost var result := DecodeRowFrom(codec, columns, 0, b);
    assert result.Ok? ==> [] + result.value == result.value;
    for i := 0 to |columns|
      invariant result == match DecodeRowFrom(codec, columns, i, rest) case Err(e) => Err(e) case Ok(r) => Ok(datums + r)
    {
      match codec.get(columns[i].kind, rest) {
        case Err(e) => return Err(e);
        case Ok(d) =>
          ghost var later := DecodeRowFrom(codec, columns, i + 1, d.rest);
          assert later.Ok? ==> datums + ([d.value] + later.value) == datums + [d.value] + later.value;
          datums := datums + [d.value];
          rest := d.rest;
      }
    }
    assert datums + [] == datums;
    return Ok(datums);
  }

  /** A datum is read back and what follows is left alone. */
  predicate ReadsBackAs(codec: DatumCodec, k: DatumKind, d: Datum, rest: seq<int>) {
    codec.get(k, codec.put(d) + rest) == Ok(Decoded(d, rest))
  }

  ghost predicate RowReads(codec: DatumCodec, columns: seq<Column>, row: Row) {
    && |row| == |columns|
    && (forall i :: 0 <= i < |row| ==> IsBytes(codec.put(row[i])))
    && (forall i, rest {:trigger ReadsBackAs(codec, columns[i].kind, row[i], rest)} ::
          0 <= i < |row| && IsBytes(rest) ==> ReadsBackAs(codec, columns[i].kind, row[i], rest))
  }

  /** The encoding of the datums from `i` on. */
  function EncodeFrom(codec: DatumCodec, row: Row, i: nat): seq<int>
    requires i <= |row|
    decreases |row| - i
  {
    if i == |row| then [] else codec.put(row[i]) + EncodeFrom(codec, row, i + 1)
  }

  lemma {:induction false} EncodeRowSplits(codec: DatumCodec, row: Row, i: nat)
    requires i <= |row|
    ensures EncodeRow(codec, row) == EncodeRow(codec, row[..i]) + EncodeFrom(codec, row, i)
    decreases |row| - i
  {
    if i == |row| {
      assert row[..i] == row;
    } else {
      EncodeRowSplits(codec, row, i + 1);
      assert row[..i + 1][..i] == row[..i];
    }
  }

  lemma {:induction false} RowReadsBack(codec: DatumCodec, columns: seq<Column>, row: Row, i: nat)
    requires RowReads(codec, columns, row) && i <= |row|
    ensures IsBytes(EncodeFrom(codec, row, i))
    ensures DecodeRowFrom(codec, columns, i, EncodeFrom(codec, row, i)) == Ok(row[i..])
    decreases |row| - i
  {
    if i < |row| {
      RowReadsBack(codec, columns, row, i + 1);
      assert ReadsBackAs(codec, columns[i].kind, row[i], EncodeFrom(codec, row, i + 1));
      assert row[i..] == [row[i]] + row[i + 1..];
    } else {
      assert row[i..] == [];
    }
  }

  lemma DatumReads(c: FloatCodec, k: DatumKind, d: Datum, rest: seq<int>)
    requires IsEncodable(c, d) && IsBytes(rest) && (d.Null? || KindOf(d) == k)
    ensures ReadsBackAs(CompactCodec(c), k, d, rest) && IsBytes(CompactCodec(c).put(d))
  {
    DatumRoundTrip(c, k, d, rest);
    DatumRoundTrip(c, k, d, []);
    assert EncodeCompact(c, d) + [] == EncodeCompact(c, d);
  }

  predicate RowIsEncodable(c: FloatCodec, row: Row) { forall i :: 0 <= i < |row| ==> IsEncodable(c, row[i]) }

  /** The writer's row in the table's columns fits the table. */
  lemma InTableFits(c: FloatCodec, table: Schema, writer: Schema, m: seq<Option<nat>>, row: Row)
    requires Compatible(table, writer) && |m| == |table.columns| && IsIndexMap(table.columns, writer.columns, m)
    requires Fits(writer.columns, row) && RowIsEncodable(c, row)
    ensures MapsInto(m, row) && Fits(table.columns, InTable(m, row)) && RowIsEncodable(c, InTable(m, row))
  {
    var r := InTable(m, row);
    forall i | 0 <= i < |r|
      ensures DatumFits(r[i], table.columns[i]) && IsEncodable(c, r[i])
    {
      ServedValuesFit(table, writer, m, i);
      if m[i].Some? {
        assert DatumFits(row[m[i].value], writer.columns[m[i].value]);
      }
    }
  }

  lemma FittingRowReads(c: FloatCodec, columns: seq<Column>, row: Row)
    requires Fits(columns, row) && RowIsEncodable(c, row)
    ensures RowReads(CompactCodec(c), columns, row)
  {
    forall i, rest | 0 <= i < |row| && IsBytes(rest)
      ensures ReadsBackAs(CompactCodec(c), columns[i].kind, row[i], rest)
    {
      assert DatumFits(row[i], columns[i]);
      DatumReads(c, columns[i].kind, row[i], rest);
    }
    forall i | 0 <= i < |row|
      ensures IsBytes(CompactCodec(c).put(row[i]))
    {
      assert DatumFits(row[i], columns[i]);
      DatumReads(c, columns[i].kind, row[i], []);
    }
  }

  /**
   * A row of a compatible writer, written to the log in the table's columns, is decoded with the
   * table's schema to the same values, null where the writer has no column; it fits the table.
   */
  lemma WalRoundTrip(c: FloatCodec, table: Schema, writer: Schema, m: seq<Option<nat>>, row: Row)
    requires Compatible(table, writer) && |m| == |table.columns| && IsIndexMap(table.columns, writer.columns, m)
    requires Fits(writer.columns, row) && RowIsEncodable(c, row)
    ensures MapsInto(m, row) && Fits(table.columns, InTable(m, row))
    ensures DecodeRowFrom(CompactCodec(c), table.columns, 0, EncodeRow(CompactCodec(c), InTable(m, row))) == Ok(InTable(m, row))
  {
    InTableFits(c, table, writer, m, row);
    FittingRowReads(c, table.columns, InTable(m, row));
    RowDecodes(CompactCodec(c), table.columns, InTable(m, row));
  }

  lemma RowDecodes(codec: DatumCodec, columns: seq<Column>, row: Row)
    requires RowReads(codec, columns, row)
    ensures DecodeRowFrom(codec, columns, 0, EncodeRow(codec, row)) == Ok(row)
  {
    EncodeRowSplits(codec, row, 0);
    assert row[..0] == [] && row[0..] == row;
    assert [] + EncodeFrom(codec, row, 0) == EncodeFrom(codec, row, 0);
    RowReadsBack(codec, columns, row, 0);
  }
}
