/** Decoding of the byte-comparable forms of byte strings and key datums. */
module MemDecode {
  import opened Common
  import opened Schema
  import opened Rows
  import opened MemKey
  import opened Compact

  datatype KeyError = DecodeValueGroup | DecodeValueMarker | DecodeValuePadding
    | DecodeValue | DecodeKey | InvalidKeyFlag | UnsupportedKind

  // ---------------------------------------------------------------------------
  // Bytes in groups
  // ---------------------------------------------------------------------------

  predicate IsPadding(b: seq<int>) { forall i :: 0 <= i < |b| ==> b[i] == 0 }

  function Prepend(a: seq<int>, r: Result<Decoded<seq<int>>, KeyError>): Result<Decoded<seq<int>>, KeyError> {
    match r case Err(e) => Err(e) case Ok(d) => Ok(Decoded(a + d.value, d.rest))
  }

  /** Group after group, up to the first that is not full. */
  function DecodeGroups(b: seq<int>): Result<Decoded<seq<int>>, KeyError> {
    var n := ENC_GROUP_SIZE;
    if |b| <= n then Err(DecodeValueGroup)
    else
      var padCount := ENC_MARKER - b[n];
      if padCount == 0 then Prepend(b[..n], DecodeGroups(b[n + 1..]))
      else if !(0 < padCount <= n) then Err(DecodeValueMarker)
      else if !IsPadding(b[n - padCount..n]) then Err(DecodeValuePadding)
      else Ok(Decoded(b[..n - padCount], b[n + 1..]))
  }

  lemma PrependTwice(a: seq<int>, b: seq<int>, r: Result<Decoded<seq<int>>, KeyError>)
    ensures Prepend(a, Prepend(b, r)) == Prepend(a + b, r)
  {
    if r.Ok? {
      assert a + (b + r.value.value) == a + b + r.value.value;
    }
  }

  /** The loop over the groups of a buffer. */
  method GetBytes(buf: seq<int>) returns (r: Result<Decoded<seq<int>>, KeyError>)
    requires IsBytes(buf)
    ensures r == DecodeGroups(buf)
  {
    var b, value := buf, [];
    ghost var whole := DecodeGroups(buf);
    assert Prepend([], whole) == whole by {
      if whole.Ok? {
        assert [] + whole.value.value == whole.value.value;
      }
    }
    while true
      invariant IsBytes(b) && Prepend(value, DecodeGroups(b)) == whole
      decreases |b|
    {
      if |b| <= ENC_GROUP_SIZE {
        return Err(DecodeValueGroup);
      }
      var padCount := ENC_MARKER - b[ENC_GROUP_SIZE];
      if padCount > ENC_GROUP_SIZE {
        return Err(DecodeValueMarker);
      }
      var size := ENC_GROUP_SIZE - padCount;
      PrependTwice(value, b[..size], DecodeGroups(b[ENC_GROUP_SIZE + 1..]));
      value := value + b[..size];
      if padCount != 0 {
        for i := size to ENC_GROUP_SIZE
          invariant forall k :: size <= k < i ==> b[k] == 0
        {
          if b[i] != 0 {
            assert b[size..ENC_GROUP_SIZE][i - size] != 0;
            return Err(DecodeValuePadding);
          }
        }
        return Ok(Decoded(value, b[ENC_GROUP_SIZE + 1..]));
      }
      b := b[ENC_GROUP_SIZE + 1..];
    }
  }

  /** What follows the first group with its marker. */
  lemma GroupAndRest(group: seq<int>, marker: int, rest: seq<int>, b: seq<int>)
    requires |group| == ENC_GROUP_SIZE && b == group + [marker] + rest
    ensures |b| > ENC_GROUP_SIZE && b[..ENC_GROUP_SIZE] == group && b[ENC_GROUP_SIZE] == marker && b[ENC_GROUP_SIZE + 1..] == rest
  {
  }

  lemma LastGroupDecodes(a: seq<int>, rest: seq<int>)
    requires |a| < ENC_GROUP_SIZE
    ensures DecodeGroups(EncodeBytes(a) + rest) == Ok(Decoded(a, rest))
  {
    var padCount := ENC_GROUP_SIZE - |a|;
    var group, b := a + Repeat(0, padCount), EncodeBytes(a) + rest;
    LastGroup(a);
    GroupAndRest(group, ENC_MARKER - padCount, rest, b);
    assert b[..|a|] == b[..ENC_GROUP_SIZE][..|a|] == a;
    assert b[|a|..ENC_GROUP_SIZE] == b[..ENC_GROUP_SIZE][|a|..] == Repeat(0, padCount);
  }

  lemma FullGroupDecodes(group: seq<int>, rest: seq<int>, b: seq<int>)
    requires |group| == ENC_GROUP_SIZE && b == group + [ENC_MARKER] + rest
    ensures DecodeGroups(b) == Prepend(group, DecodeGroups(rest))
  {
    GroupAndRest(group, ENC_MARKER, rest, b);
  }

  lemma WholeIsFullGroup(a: seq<int>)
    requires |a| >= ENC_GROUP_SIZE
    ensures EncodeBytes(a) == a[..ENC_GROUP_SIZE] + [ENC_MARKER] + EncodeBytes(a[ENC_GROUP_SIZE..])
  {
    FullGroup(a, 0);
    assert a[0..] == a;
  }

  lemma Reassociate(group: seq<int>, marker: int, tail: seq<int>, rest: seq<int>)
    ensures group + [marker] + tail + rest == group + [marker] + (tail + rest)
  {
  }

  lemma FirstGroup(a: seq<int>, rest: seq<int>)
    requires |a| >= ENC_GROUP_SIZE
    ensures EncodeBytes(a) + rest == a[..ENC_GROUP_SIZE] + [ENC_MARKER] + (EncodeBytes(a[ENC_GROUP_SIZE..]) + rest)
  {
    WholeIsFullGroup(a);
    Reassociate(a[..ENC_GROUP_SIZE], ENC_MARKER, EncodeBytes(a[ENC_GROUP_SIZE..]), rest);
  }

  /** A byte string is read back, and what follows is left alone. */
  lemma {:induction false} BytesDecode(a: seq<int>, rest: seq<int>)
    ensures DecodeGroups(EncodeBytes(a) + rest) == Ok(Decoded(a, rest))
    decreases |a|
  {
    var n := ENC_GROUP_SIZE;
    if |a| < n {
      LastGroupDecodes(a, rest);
    } else {
      BytesDecode(a[n..], rest);
      FirstGroup(a, rest);
      FullGroupDecodes(a[..n], EncodeBytes(a[n..]) + rest, EncodeBytes(a) + rest);
      assert a == a[..n] + a[n..];
    }
  }

  lemma LastGroupIsEncoded(b: seq<int>, a: seq<int>, rest: seq<int>)
    requires |b| > ENC_GROUP_SIZE > |a| && a == b[..|a|] && IsPadding(b[|a|..ENC_GROUP_SIZE])
    requires b[ENC_GROUP_SIZE] == ENC_MARKER - (ENC_GROUP_SIZE - |a|) && rest == b[ENC_GROUP_SIZE + 1..]
    ensures b == EncodeBytes(a) + rest
  {
    LastGroup(a);
    assert b[|a|..ENC_GROUP_SIZE] == Repeat(0, ENC_GROUP_SIZE - |a|);
    assert b == b[..|a|] + b[|a|..ENC_GROUP_SIZE] + [b[ENC_GROUP_SIZE]] + rest;
  }

  lemma FullGroupIsEncoded(b: seq<int>, tail: seq<int>, rest: seq<int>)
    requires |b| > ENC_GROUP_SIZE && b[ENC_GROUP_SIZE] == ENC_MARKER && b[ENC_GROUP_SIZE + 1..] == EncodeBytes(tail) + rest
    ensures b == EncodeBytes(b[..ENC_GROUP_SIZE] + tail) + rest
  {
    var n, a := ENC_GROUP_SIZE, b[..ENC_GROUP_SIZE] + tail;
    assert a[..n] == b[..n] && a[n..] == tail;
    FirstGroup(a, rest);
    assert b == b[..n] + [ENC_MARKER] + b[n + 1..];
  }

  /** Nothing but the encoding of a byte string is accepted. */
  lemma {:induction false} DecodedWasEncoded(b: seq<int>)
    requires DecodeGroups(b).Ok?
    ensures b == EncodeBytes(DecodeGroups(b).value.value) + DecodeGroups(b).value.rest
    decreases |b|
  {
    var n, d := ENC_GROUP_SIZE, DecodeGroups(b).value;
    if b[n] == ENC_MARKER {
      DecodedWasEncoded(b[n + 1..]);
      FullGroupIsEncoded(b, DecodeGroups(b[n + 1..]).value.value, d.rest);
    } else {
      LastGroupIsEncoded(b, d.value, d.rest);
    }
  }

  /** Decoding inverts encoding, on exactly the buffers that start with an encoding. */
  lemma DecodesIff(b: seq<int>, a: seq<int>, rest: seq<int>)
    ensures DecodeGroups(b) == Ok(Decoded(a, rest)) <==> b == EncodeBytes(a) + rest
  {
    BytesDecode(a, rest);
    if DecodeGroups(b).Ok? {
      DecodedWasEncoded(b);
    }
  }

  // ---------------------------------------------------------------------------
  // Datums
  // ---------------------------------------------------------------------------

  /** The flag before a key datum of the kind. */
  function KeyFlag(k: DatumKind): nat {
    match k
    case NullKind => NULL_FLAG
    case VarbinaryKind => BYTES_FLAG
    case StringKind => BYTES_FLAG
    case UInt64Kind => UINT_FLAG
    case UInt32Kind => UINT_FLAG
    case UInt16Kind => UINT_FLAG
    case UInt8Kind => UINT_FLAG
    case BooleanKind => UINT_FLAG
    case _ => INT_FLAG
  }

  /** The datum of the kind made of a u64, with truncating casts; signed ones have their sign bit flipped back. */
  function FromNumber(k: DatumKind, u: nat): Datum {
    match k
    case UInt64Kind => UInt64(u)
    case UInt32Kind => UInt32(CastUnsigned(u, 0x1_0000_0000))
    case UInt16Kind => UInt16(CastUnsigned(u, 0x1_0000))
    case UInt8Kind => UInt8(CastUnsigned(u, 0x100))
    case BooleanKind => Boolean(u != 0)
    case TimestampKind => Timestamp(u - TWO_63)
    case Int64Kind => Int64(u - TWO_63)
    case Int32Kind => Int32(CastSigned(u - TWO_63, 0x8000_0000))
    case Int16Kind => Int16(CastSigned(u - TWO_63, 0x8000))
    case Int8Kind => Int8(CastSigned(u - TWO_63, 0x80))
    case DateKind => Date(CastSigned(u - TWO_63, 0x8000_0000))
    case TimeKind => Time(u - TWO_63)
    case _ => Null
  }

  /** What follows the flag of the kind. */
  function DecodeContent(k: DatumKind, b: seq<int>): Result<Decoded<Datum>, KeyError>
    requires IsBytes(b)
  {
    match k
    case NullKind => Ok(Decoded(Null, b))
    case VarbinaryKind => (match DecodeGroups(b) case Err(e) => Err(e) case Ok(d) => Ok(Decoded(Varbinary(d.value), d.rest)))
    case StringKind => (match DecodeGroups(b) case Err(e) => Err(e) case Ok(d) => Ok(Decoded(String(d.value), d.rest)))
    case _ =>
      if |b| < 8 then Err(DecodeValue) else Ok(Decoded(FromNumber(k, FromBigEndian(b[..8])), b[8..]))
  }

  function DecodeDatum(k: DatumKind, b: seq<int>): Result<Decoded<Datum>, KeyError>
    requires IsBytes(b)
  {
    if k.DoubleKind? || k.FloatKind? then Err(UnsupportedKind)
    else if b == [] then Err(DecodeKey)
    else if b[0] != KeyFlag(k) then Err(InvalidKeyFlag)
    else DecodeContent(k, b[1..])
  }

  lemma NumberRoundTrip(d: Datum)
    requires InDomain(d) && IsKeyKind(KindOf(d)) && !d.Varbinary? && !d.String?
    ensures FromNumber(KindOf(d), Number(d)) == d
  {
  }

  lemma NumberDecodes(d: Datum, rest: seq<int>)
    requires InDomain(d) && IsKeyKind(KindOf(d)) && !d.Varbinary? && !d.String?
    requires IsBytes(BigEndian(Number(d), 8) + rest)
    ensures DecodeContent(KindOf(d), BigEndian(Number(d), 8) + rest) == Ok(Decoded(d, rest))
  {
    var b := BigEndian(Number(d), 8) + rest;
    NumberIsEncoded(d);
    Widths();
    BigEndianRoundTrip(Number(d), 8);
    assert b[..8] == BigEndian(Number(d), 8) && b[8..] == rest;
    NumberRoundTrip(d);
  }

  /** What the encoder writes behind the flag. */
  function KeyContent(d: Datum): seq<int>
    requires InDomain(d) && !d.Double? && !d.Float?
  {
    EncodeDatum(d).value[1..]
  }

  lemma FlagAndContent(d: Datum)
    requires InDomain(d) && !d.Double? && !d.Float?
    ensures EncodeDatum(d).value == [KeyFlag(KindOf(d))] + KeyContent(d)
  {
  }

  lemma ContentDecodes(d: Datum, rest: seq<int>)
    requires InDomain(d) && !d.Double? && !d.Float? && IsBytes(KeyContent(d) + rest)
    ensures DecodeContent(KindOf(d), KeyContent(d) + rest) == Ok(Decoded(d, rest))
  {
    if d.Null? {
      assert KeyContent(d) + rest == rest;
    } else if d.Varbinary? || d.String? {
      assert KeyContent(d) == EncodeBytes(d.bytes);
      BytesDecode(d.bytes, rest);
    } else {
      NumberIsEncoded(d);
      assert KeyContent(d) == BigEndian(Number(d), 8);
      NumberDecodes(d, rest);
    }
  }

  lemma {:induction false} BigEndianIsBytes(v: nat, n: nat)
    ensures IsBytes(BigEndian(v, n))
  {
    if n > 0 {
      BigEndianIsBytes(v / 256, n - 1);
    }
  }

  lemma {:induction false} EncodedIsBytes(a: seq<int>)
    requires IsBytes(a)
    ensures IsBytes(EncodeBytes(a))
    decreases |a|
  {
    if |a| < ENC_GROUP_SIZE {
      LastGroup(a);
    } else {
      WholeIsFullGroup(a);
      EncodedIsBytes(a[ENC_GROUP_SIZE..]);
    }
  }

  lemma ContentIsBytes(d: Datum)
    requires InDomain(d) && !d.Double? && !d.Float?
    ensures IsBytes(KeyContent(d))
  {
    if d.Varbinary? || d.String? {
      assert KeyContent(d) == EncodeBytes(d.bytes);
      EncodedIsBytes(d.bytes);
    } else if !d.Null? {
      NumberIsEncoded(d);
      assert KeyContent(d) == BigEndian(Number(d), 8);
      BigEndianIsBytes(Number(d), 8);
    }
  }

  lemma FlagDecodes(k: DatumKind, content: seq<int>)
    requires !k.DoubleKind? && !k.FloatKind? && IsBytes(content)
    ensures IsBytes([KeyFlag(k)] + content)
    ensures DecodeDatum(k, [KeyFlag(k)] + content) == DecodeContent(k, content)
  {
    assert ([KeyFlag(k)] + content)[1..] == content;
  }

  /** Every datum that can be encoded is read back, and what follows is left alone. */
  lemma DatumDecodes(d: Datum, rest: seq<int>)
    requires InDomain(d) && EncodeDatum(d).Some? && IsBytes(rest)
    ensures IsBytes(EncodeDatum(d).value + rest)
    ensures DecodeDatum(KindOf(d), EncodeDatum(d).value + rest) == Ok(Decoded(d, rest))
  {
    var flag, content := KeyFlag(KindOf(d)), KeyContent(d);
    assert EncodeDatum(d).value + rest == [flag] + (content + rest) by {
      FlagAndContent(d);
    }
    ContentIsBytes(d);
    ContentDecodes(d, rest);
    FlagDecodes(KindOf(d), content + rest);
  }

  /** Floating point kinds are neither encoded nor decoded; all others are encoded. */
  lemma FloatsAreRefused(d: Datum, k: DatumKind, b: seq<int>)
    requires InDomain(d) && IsBytes(b)
    ensures EncodeDatum(d) == None <==> d.Double? || d.Float?
    ensures k.DoubleKind? || k.FloatKind? ==> DecodeDatum(k, b) == Err(UnsupportedKind)
  {
  }
}
