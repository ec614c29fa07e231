/**
 * Keys of the memtable: the key columns of a row in a form that compares byte by byte, followed by
 * the reversed sequence of the write.
 */
module MemKey {
  import opened Common
  import opened Schema
  import opened Rows

  const ENC_GROUP_SIZE: nat := 8
  const ENC_MARKER: nat := 0xFF
  const NULL_FLAG: nat := 0
  const BYTES_FLAG: nat := 1
  const INT_FLAG: nat := 3
  const UINT_FLAG: nat := 4
  const TWO_32: int := 0x1_0000_0000
  const TWO_64: int := 0x1_0000_0000_0000_0000

  // ---------------------------------------------------------------------------
  // Fixed width numbers
  // ---------------------------------------------------------------------------

  /** The `n` low bytes of `v`, most significant first. */
  function BigEndian(v: nat, n: nat): (r: seq<int>)
    ensures |r| == n
  {
    if n == 0 then [] else BigEndian(v / 256, n - 1) + [v % 256]
  }

  function Pow256(n: nat): nat { if n == 0 then 1 else 256 * Pow256(n - 1) }

  lemma QuotientOrder(v: nat, w: nat)
    ensures CompareInt(v, w) == if v / 256 == w / 256 then CompareInt(v % 256, w % 256) else CompareInt(v / 256, w / 256)
  {
  }

  /** Numbers that fit compare like their bytes. */
  lemma {:induction false} BigEndianOrder(v: nat, w: nat, n: nat)
    requires v < Pow256(n) && w < Pow256(n)
    ensures CompareBytes(BigEndian(v, n), BigEndian(w, n)) == CompareInt(v, w)
  {
    if n > 0 {
      BigEndianOrder(v / 256, w / 256, n - 1);
      CompareBytesSnoc(BigEndian(v / 256, n - 1), BigEndian(w / 256, n - 1), v % 256, w % 256);
      QuotientOrder(v, w);
    }
  }

  function FromBigEndian(b: seq<int>): (v: int)
    ensures IsBytes(b) ==> v >= 0
  {
    if b == [] then 0 else 256 * FromBigEndian(b[..|b| - 1]) + b[|b| - 1]
  }

  lemma {:induction false} BigEndianRoundTrip(v: nat, n: nat)
    requires v < Pow256(n)
    ensures FromBigEndian(BigEndian(v, n)) == v
  {
    if n > 0 {
      var b := BigEndian(v, n);
      BigEndianRoundTrip(v / 256, n - 1);
      assert b[..n - 1] == BigEndian(v / 256, n - 1);
    }
  }

  lemma Widths()
    ensures Pow256(8) == TWO_64 && Pow256(4) == TWO_32
  {
  }

  // ---------------------------------------------------------------------------
  // Bytes in groups
  // ---------------------------------------------------------------------------

  predicate IsBytes(a: seq<int>) { forall i :: 0 <= i < |a| ==> 0 <= a[i] < 256 }

  /** The first `n` bytes, padded with zeros. */
  function Padded(a: seq<int>, n: nat): (r: seq<int>)
    ensures |r| == n
  {
    if |a| >= n then a[..n] else a + Repeat(0, n - |a|)
  }

  /** The same, byte by byte. */
  function Group(a: seq<int>, n: nat): (r: seq<int>)
    ensures |r| == n
  {
    if n == 0 then []
    else if a == [] then [0] + Group([], n - 1)
    else [a[0]] + Group(a[1..], n - 1)
  }

  /** How many bytes of the group are not padding. */
  function Filled(a: seq<int>, n: nat): nat { if |a| < n then |a| else n }

  /** Groups of eight bytes, each with a marker that says how much of it is padding. */
  function EncodeBytes(a: seq<int>): seq<int> {
    var head := Padded(a, ENC_GROUP_SIZE) + [ENC_MARKER - (ENC_GROUP_SIZE - Filled(a, ENC_GROUP_SIZE))];
    if |a| < ENC_GROUP_SIZE then head else head + EncodeBytes(a[ENC_GROUP_SIZE..])
  }

  lemma PaddedStep(a: seq<int>, n: nat)
    requires n > 0
    ensures Padded(a, n) == if a == [] then [0] + Padded([], n - 1) else [a[0]] + Padded(a[1..], n - 1)
  {
    if a == [] {
      assert [] + Repeat(0, n) == [0] + ([] + Repeat(0, n - 1));
    } else if |a| >= n {
      assert a[..n] == [a[0]] + a[1..][..n - 1];
    } else {
      assert a + Repeat(0, n - |a|) == [a[0]] + (a[1..] + Repeat(0, n - |a|));
    }
  }

  lemma {:induction false} GroupIs(a: seq<int>, n: nat)
    ensures Group(a, n) == Padded(a, n)
  {
    if n > 0 {
      PaddedStep(a, n);
      GroupIs(if a == [] then [] else a[1..], n - 1);
    }
  }

  lemma {:induction false} FullGroup(value: seq<int>, idx: nat)
    requires idx + ENC_GROUP_SIZE <= |value|
    ensures EncodeBytes(value[idx..])
         == value[idx..idx + ENC_GROUP_SIZE] + [ENC_MARKER] + EncodeBytes(value[idx + ENC_GROUP_SIZE..])
  {
    assert value[idx..][..ENC_GROUP_SIZE] == value[idx..idx + ENC_GROUP_SIZE];
    assert value[idx..][ENC_GROUP_SIZE..] == value[idx + ENC_GROUP_SIZE..];
  }

  lemma {:induction false} LastGroup(a: seq<int>)
    requires |a| < ENC_GROUP_SIZE
    ensures EncodeBytes(a) == a + Repeat(0, ENC_GROUP_SIZE - |a|) + [ENC_MARKER - (ENC_GROUP_SIZE - |a|)]
  {
  }

  /** What is left to encode from `idx` on. */
  function EncodedFrom(value: seq<int>, idx: nat): seq<int> { if idx <= |value| then EncodeBytes(value[idx..]) else [] }

  /** The group at `idx` with its padding and marker. */
  function MarkedGroup(value: seq<int>, idx: nat): seq<int>
    requires idx <= |value|
  {
    var remain := |value| - idx;
    if remain >= ENC_GROUP_SIZE then value[idx..idx + ENC_GROUP_SIZE] + [ENC_MARKER]
    else value[idx..] + Repeat(0, ENC_GROUP_SIZE - remain) + [ENC_MARKER - (ENC_GROUP_SIZE - remain)]
  }

  lemma NextGroup(value: seq<int>, idx: nat)
    requires idx <= |value|
    ensures EncodedFrom(value, idx) == MarkedGroup(value, idx) + EncodedFrom(value, idx + ENC_GROUP_SIZE)
  {
    if |value| - idx >= ENC_GROUP_SIZE {
      FullGroup(value, idx);
    } else {
      LastGroup(value[idx..]);
    }
  }

  lemma Put(buf: seq<int>, group: seq<int>, left: seq<int>)
    ensures buf + (group + left) == buf + group + left
  {
  }

  /** The loop over the groups; the last one is never full. */
  method PutBytes(buf: seq<int>, value: seq<int>) returns (r: seq<int>)
    ensures r == buf + EncodeBytes(value)
  {
    r := buf;
    var idx := 0;
    assert value[0..] == value;
    while idx <= |value|
      invariant 0 <= idx && r + EncodedFrom(value, idx) == buf + EncodeBytes(value)
      decreases |value| - idx
    {
      NextGroup(value, idx);
      Put(r, MarkedGroup(value, idx), EncodedFrom(value, idx + ENC_GROUP_SIZE));
      r := PutGroup(r, value, idx);
      idx := idx + ENC_GROUP_SIZE;
    }
    assert r + [] == r;
  }

  /** The body of the loop. */
  method PutGroup(buf: seq<int>, value: seq<int>, idx: nat) returns (r: seq<int>)
    requires idx <= |value|
    ensures r == buf + MarkedGroup(value, idx)
  {
    var remain := |value| - idx;
    var padCount := 0;
    if remain >= ENC_GROUP_SIZE {
      r := buf + value[idx..idx + ENC_GROUP_SIZE];
    } else {
      padCount := ENC_GROUP_SIZE - remain;
      r := buf + value[idx..];
      r := r + Repeat(0, padCount);
    }
    r := r + [ENC_MARKER - padCount];
  }

  /** Groups that differ compare like the bytes they were made from. */
  lemma {:induction false} GroupsDiffer(a: seq<int>, b: seq<int>, n: nat)
    requires IsBytes(a) && IsBytes(b) && CompareBytes(Group(a, n), Group(b, n)) != Equal
    ensures CompareBytes(Group(a, n), Group(b, n)) == CompareBytes(a, b)
  {
    if n > 0 {
      var ta, tb := if a == [] then [] else a[1..], if b == [] then [] else b[1..];
      assert Group(a, n)[1..] == Group(ta, n - 1) && Group(b, n)[1..] == Group(tb, n - 1);
      if Group(a, n)[0] == Group(b, n)[0] {
        GroupsDiffer(ta, tb, n - 1);
      }
    }
  }

  /** Groups that are equal leave the decision to how much of them is filled. */
  lemma {:induction false} GroupsEqual(a: seq<int>, b: seq<int>, n: nat)
    requires IsBytes(a) && IsBytes(b) && Group(a, n) == Group(b, n)
    ensures Filled(a, n) < Filled(b, n) ==> CompareBytes(a, b) == Less
    ensures Filled(a, n) > Filled(b, n) ==> CompareBytes(a, b) == Greater
    ensures Filled(a, n) == Filled(b, n) < n ==> a == b
    ensures Filled(a, n) == Filled(b, n) == n ==> a[..n] == b[..n]
  {
    if n > 0 && a != [] && b != [] {
      assert Group(a, n)[1..] == Group(a[1..], n - 1) && Group(b, n)[1..] == Group(b[1..], n - 1);
      assert Group(a, n)[0] == a[0] && Group(b, n)[0] == b[0];
      GroupsEqual(a[1..], b[1..], n - 1);
      assert a == [a[0]] + a[1..] && b == [b[0]] + b[1..];
    }
  }

  /** The encoding keeps the order and ends itself: what follows decides only between equals. */
  ghost predicate DecidesLike(ea: seq<int>, eb: seq<int>, o: Ordering, x: seq<int>, y: seq<int>) {
    CompareBytes(ea + x, eb + y) == if o == Equal then CompareBytes(x, y) else o
  }

  lemma {:induction false} FirstDifferenceDecides(a: seq<int>, b: seq<int>, x: seq<int>, y: seq<int>)
    requires |a| == |b|
    ensures DecidesLike(a, b, CompareBytes(a, b), x, y)
  {
    if a == [] {
      assert a + x == x && b + y == y;
    } else {
      assert (a + x)[1..] == a[1..] + x && (b + y)[1..] == b[1..] + y;
      FirstDifferenceDecides(a[1..], b[1..], x, y);
    }
  }

  function Head(a: seq<int>): (r: seq<int>)
    ensures |r| == ENC_GROUP_SIZE + 1
  {
    Padded(a, ENC_GROUP_SIZE) + [ENC_MARKER - (ENC_GROUP_SIZE - Filled(a, ENC_GROUP_SIZE))]
  }

  function Tail(a: seq<int>): seq<int> { if |a| < ENC_GROUP_SIZE then [] else EncodeBytes(a[ENC_GROUP_SIZE..]) }

  lemma HeadAndTail(a: seq<int>, x: seq<int>)
    ensures EncodeBytes(a) + x == Head(a) + (Tail(a) + x)
  {
  }

  /** Groups with markers decide, unless both are full and equal or the values are equal. */
  lemma MarkedGroups(a: seq<int>, b: seq<int>, n: nat, ma: int, mb: int)
    requires IsBytes(a) && IsBytes(b) && ma - mb == Filled(a, n) - Filled(b, n)
    ensures var o := CompareBytes(Padded(a, n) + [ma], Padded(b, n) + [mb]);
      && (o != Equal ==> o == CompareBytes(a, b))
      && (o == Equal ==> a == b || (|a| >= n && |b| >= n && a[..n] == b[..n]))
  {
    GroupIs(a, n);
    GroupIs(b, n);
    CompareBytesSnoc(Group(a, n), Group(b, n), ma, mb);
    if CompareBytes(Group(a, n), Group(b, n)) != Equal {
      GroupsDiffer(a, b, n);
    } else {
      CompareBytesEqual(Group(a, n), Group(b, n));
      GroupsEqual(a, b, n);
    }
  }

  lemma HeadsDecide(a: seq<int>, b: seq<int>)
    requires IsBytes(a) && IsBytes(b)
    ensures var o, n := CompareBytes(Head(a), Head(b)), ENC_GROUP_SIZE;
      && (o != Equal ==> o == CompareBytes(a, b))
      && (o == Equal ==> a == b || (|a| >= n && |b| >= n && a[..n] == b[..n]))
  {
    var n := ENC_GROUP_SIZE;
    MarkedGroups(a, b, n, ENC_MARKER - (n - Filled(a, n)), ENC_MARKER - (n - Filled(b, n)));
  }

  lemma {:induction false} BytesOrder(a: seq<int>, b: seq<int>, x: seq<int>, y: seq<int>)
    requires IsBytes(a) && IsBytes(b)
    ensures DecidesLike(EncodeBytes(a), EncodeBytes(b), CompareBytes(a, b), x, y)
    decreases |a|
  {
    HeadAndTail(a, x);
    HeadAndTail(b, y);
    FirstDifferenceDecides(Head(a), Head(b), Tail(a) + x, Tail(b) + y);
    HeadsDecide(a, b);
    CompareBytesEqual(a, b);
    if CompareBytes(Head(a), Head(b)) == Equal {
      if a == b {
        CompareBytesCommonPrefix(Tail(a), x, y);
      } else {
        var n := ENC_GROUP_SIZE;
        BytesOrder(a[n..], b[n..], x, y);
        CompareBytesCommonPrefix(a[..n], a[n..], b[n..]);
        assert a == a[..n] + a[n..] && b == b[..n] + b[n..];
      }
    }
  }

  // ---------------------------------------------------------------------------
  // Datums
  // ---------------------------------------------------------------------------

  /** Datums hold values of their types. */
  predicate InDomain(d: Datum) {
    match d
    case Varbinary(b) => IsBytes(b)
    case String(b) => IsBytes(b)
    case UInt64(u) => u < TWO_64
    case UInt32(u) => u < TWO_32
    case UInt16(u) => u < 0x1_0000
    case UInt8(u) => u < 0x100
    case Timestamp(i) => -TWO_63 <= i < TWO_63
    case Int64(i) => -TWO_63 <= i < TWO_63
    case Int32(i) => -0x8000_0000 <= i < 0x8000_0000
    case Int16(i) => -0x8000 <= i < 0x8000
    case Int8(i) => -0x80 <= i < 0x80
    case Date(i) => -0x8000_0000 <= i < 0x8000_0000
    case Time(i) => -TWO_63 <= i < TWO_63
    case _ => true
  }

  /** Flipping the sign bit moves the i64 range to the u64 range. */
  function EncodeInt(i: int): seq<int>
    requires -TWO_63 <= i < TWO_63
  {
    [INT_FLAG] + BigEndian(i + TWO_63, 8)
  }

  function EncodeUint(u: nat): seq<int> { [UINT_FLAG] + BigEndian(u, 8) }

  /** None is the error for kinds that cannot be keys. */
  function EncodeDatum(d: Datum): Option<seq<int>>
    requires InDomain(d)
  {
    match d
    case Null => Some([NULL_FLAG])
    case Timestamp(i) => Some(EncodeInt(i))
    case Varbinary(b) => Some([BYTES_FLAG] + EncodeBytes(b))
    case String(b) => Some([BYTES_FLAG] + EncodeBytes(b))
    case UInt64(u) => Some(EncodeUint(u))
    case UInt32(u) => Some(EncodeUint(u))
    case UInt16(u) => Some(EncodeUint(u))
    case UInt8(u) => Some(EncodeUint(u))
    case Int64(i) => Some(EncodeInt(i))
    case Int32(i) => Some(EncodeInt(i))
    case Int16(i) => Some(EncodeInt(i))
    case Int8(i) => Some(EncodeInt(i))
    case Boolean(v) => Some(EncodeUint(if v then 1 else 0))
    case Date(i) => Some(EncodeInt(i))
    case Time(i) => Some(EncodeInt(i))
    case Double(_) => None
    case Float(_) => None
  }

  /** The kinds that can be keys are those that can be encoded, other than null. */
  lemma KeyKindIff(d: Datum)
    requires InDomain(d)
    ensures IsKeyKind(KindOf(d)) <==> EncodeDatum(d).Some? && !d.Null?
  {
  }

  /** Bytes behind equal flags decide. */
  lemma FlagIsSkipped(flag: int, ea: seq<int>, eb: seq<int>, o: Ordering, x: seq<int>, y: seq<int>)
    requires DecidesLike(ea, eb, o, x, y)
    ensures DecidesLike([flag] + ea, [flag] + eb, o, x, y)
  {
    assert [flag] + ea + x == [flag] + (ea + x) && [flag] + eb + y == [flag] + (eb + y);
    CompareBytesCommonPrefix([flag], ea + x, eb + y);
  }

  lemma NumbersOrder(v: nat, w: nat, flag: int, x: seq<int>, y: seq<int>)
    requires v < TWO_64 && w < TWO_64
    ensures DecidesLike([flag] + BigEndian(v, 8), [flag] + BigEndian(w, 8), CompareInt(v, w), x, y)
  {
    Widths();
    BigEndianOrder(v, w, 8);
    FirstDifferenceDecides(BigEndian(v, 8), BigEndian(w, 8), x, y);
    FlagIsSkipped(flag, BigEndian(v, 8), BigEndian(w, 8), CompareInt(v, w), x, y);
  }

  lemma SingleContent(v: int, w: int)
    ensures CompareBytes([v], [w]) == CompareInt(v, w)
  {
  }

  /** The number a datum is encoded by, as u64; the order of the numbers is the order of the datums. */
  function Number(d: Datum): nat
    requires InDomain(d) && IsKeyKind(KindOf(d)) && !d.Varbinary? && !d.String?
  {
    var c := Content(d)[0];
    if d.UInt64? || d.UInt32? || d.UInt16? || d.UInt8? || d.Boolean? then c else c + TWO_63
  }

  lemma NumberIsEncoded(d: Datum)
    requires InDomain(d) && IsKeyKind(KindOf(d)) && !d.Varbinary? && !d.String?
    ensures Number(d) < TWO_64
    ensures EncodeDatum(d) == Some([if Number(d) == Content(d)[0] then UINT_FLAG else INT_FLAG] + BigEndian(Number(d), 8))
    ensures |Content(d)| == 1
  {
  }

  /** Key datums of one kind compare like their encodings. */
  lemma DatumsOrder(a: Datum, b: Datum, x: seq<int>, y: seq<int>)
    requires SameKeyKind(a, b) && InDomain(a) && InDomain(b)
    ensures EncodeDatum(a).Some? && EncodeDatum(b).Some? && PartialCmp(a, b).Some?
    ensures DecidesLike(EncodeDatum(a).value, EncodeDatum(b).value, PartialCmp(a, b).value, x, y)
  {
    DatumsCompare(a, b);
    if a.Varbinary? || a.String? {
      BytesOrder(Content(a), Content(b), x, y);
      FlagIsSkipped(BYTES_FLAG, EncodeBytes(Content(a)), EncodeBytes(Content(b)), CompareBytes(Content(a), Content(b)), x, y);
    } else {
      NumberIsEncoded(a);
      NumberIsEncoded(b);
      SingleContent(Content(a)[0], Content(b)[0]);
      NumbersOrder(Number(a), Number(b), EncodeDatum(a).value[0], x, y);
    }
  }

  // ---------------------------------------------------------------------------
  // Rows
  // ---------------------------------------------------------------------------

  predicate RowInDomain(row: Row) { forall i :: 0 <= i < |row| ==> InDomain(row[i]) }

  function Then(a: Option<seq<int>>, b: Option<seq<int>>): Option<seq<int>> {
    if a.Some? && b.Some? then Some(a.value + b.value) else None
  }

  /** The user key: the key columns, one after the other. */
  function UserKey(keys: seq<nat>, row: Row): Option<seq<int>>
    requires InRange(keys, row) && RowInDomain(row)
  {
    if keys == [] then Some([]) else Then(EncodeDatum(row[keys[0]]), UserKey(keys[1..], row))
  }

  lemma DecideInTurn(ea: seq<int>, eb: seq<int>, o: Ordering, ka: seq<int>, kb: seq<int>, p: Ordering, x: seq<int>, y: seq<int>)
    requires DecidesLike(ea, eb, o, ka + x, kb + y) && DecidesLike(ka, kb, p, x, y)
    ensures DecidesLike(ea + ka, eb + kb, if o == Equal then p else o, x, y)
  {
    assert ea + ka + x == ea + (ka + x) && eb + kb + y == eb + (kb + y);
  }

  /** The bytes of user keys compare like the rows they were made from. */
  lemma {:induction false} UserKeysOrder(keys: seq<nat>, l: Row, r: Row, x: seq<int>, y: seq<int>)
    requires InRange(keys, l) && InRange(keys, r) && RowInDomain(l) && RowInDomain(r) && Comparable(keys, l, r)
    ensures UserKey(keys, l).Some? && UserKey(keys, r).Some? && CompareRow(keys, l, r).Some?
    ensures DecidesLike(UserKey(keys, l).value, UserKey(keys, r).value, CompareRow(keys, l, r).value, x, y)
  {
    if keys == [] {
      assert [] + x == x && [] + y == y;
    } else {
      var a, b := l[keys[0]], r[keys[0]];
      assert SameKeyKind(a, b);
      UserKeysOrder(keys[1..], l, r, x, y);
      var ka, kb := UserKey(keys[1..], l).value, UserKey(keys[1..], r).value;
      DatumsOrder(a, b, ka + x, kb + y);
      DecideInTurn(EncodeDatum(a).value, EncodeDatum(b).value, PartialCmp(a, b).value,
                   ka, kb, CompareRow(keys[1..], l, r).value, x, y);
    }
  }

  // ---------------------------------------------------------------------------
  // Internal keys
  // ---------------------------------------------------------------------------

  /** The sequence number of a write and the index of the row in it. */
  datatype KeySequence = KeySequence(sequence: nat, index: nat)

  predicate IsSequence(s: KeySequence) { s.sequence < TWO_64 && s.index < TWO_32 }

  /** Both parts count down, so that newer rows come first. */
  function EncodeSequence(s: KeySequence): (r: seq<int>)
    requires IsSequence(s)
    ensures |r| == 12
  {
    BigEndian(TWO_64 - 1 - s.sequence, 8) + BigEndian(TWO_32 - 1 - s.index, 4)
  }

  function InternalKey(keys: seq<nat>, row: Row, s: KeySequence): Option<seq<int>>
    requires InRange(keys, row) && RowInDomain(row) && IsSequence(s)
  {
    Then(UserKey(keys, row), Some(EncodeSequence(s)))
  }

  lemma KeyStep(keys: seq<nat>, row: Row, i: nat)
    requires InRange(keys, row) && RowInDomain(row) && i < |keys|
    ensures UserKey(keys[i..], row) == Then(EncodeDatum(row[keys[i]]), UserKey(keys[i + 1..], row))
  {
  }

  lemma ThenIsAssociative(a: Option<seq<int>>, b: Option<seq<int>>, c: Option<seq<int>>)
    ensures Then(Then(a, b), c) == Then(a, Then(b, c))
  {
    if a.Some? && b.Some? && c.Some? {
      assert a.value + b.value + c.value == a.value + (b.value + c.value);
    }
  }

  /** Appends key column after key column, then the sequence. */
  method PutInternalKey(buf: seq<int>, keys: seq<nat>, row: Row, s: KeySequence) returns (r: Option<seq<int>>)
    requires InRange(keys, row) && RowInDomain(row) && IsSequence(s)
    ensures r == Then(Some(buf), InternalKey(keys, row, s))
  {
    var out := buf;
    ghost var whole := Then(Some(buf), UserKey(keys, row));
    assert keys[0..] == keys;
    for i := 0 to |keys|
      invariant Then(Some(out), UserKey(keys[i..], row)) == whole
    {
      KeyStep(keys, row, i);
      ThenIsAssociative(Some(out), EncodeDatum(row[keys[i]]), UserKey(keys[i + 1..], row));
      var datum := EncodeDatum(row[keys[i]]);
      if datum.None? {
        return None;
      }
      out := out + datum.value;
    }
    assert out + [] == out;
    ThenIsAssociative(Some(buf), UserKey(keys, row), Some(EncodeSequence(s)));
    return Some(out + EncodeSequence(s));
  }

  /** Newer first: by sequence, then by index. */
  function CompareSequence(s: KeySequence, t: KeySequence): Ordering {
    if s.sequence != t.sequence then CompareInt(t.sequence, s.sequence) else CompareInt(t.index, s.index)
  }

  lemma SequencesOrder(s: KeySequence, t: KeySequence)
    requires IsSequence(s) && IsSequence(t)
    ensures CompareBytes(EncodeSequence(s), EncodeSequence(t)) == CompareSequence(s, t)
  {
    Widths();
    var v, w := TWO_64 - 1 - s.sequence, TWO_64 - 1 - t.sequence;
    var x, y := TWO_32 - 1 - s.index, TWO_32 - 1 - t.index;
    BigEndianOrder(v, w, 8);
    BigEndianOrder(x, y, 4);
    FirstDifferenceDecides(BigEndian(v, 8), BigEndian(w, 8), BigEndian(x, 4), BigEndian(y, 4));
  }

  /**
   * For rows that fit a builder-made schema the bytes of internal keys compare by the key columns
   * first, and among rows with equal keys the newer row comes first.
   */
  lemma InternalKeyOrder(schema: Schema, l: Row, s: KeySequence, r: Row, t: KeySequence)
    requires WellFormed(schema) && Fits(schema.columns, l) && Fits(schema.columns, r)
    requires RowInDomain(l) && RowInDomain(r) && IsSequence(s) && IsSequence(t)
    ensures InRange(schema.keys, l) && InRange(schema.keys, r) && CompareRow(schema.keys, l, r).Some?
    ensures InternalKey(schema.keys, l, s).Some? && InternalKey(schema.keys, r, t).Some?
    ensures CompareBytes(InternalKey(schema.keys, l, s).value, InternalKey(schema.keys, r, t).value) ==
      if CompareRow(schema.keys, l, r) == Some(Equal) then CompareSequence(s, t) else CompareRow(schema.keys, l, r).value
  {
    FittingRowsAreComparable(schema, l, r);
    UserKeysOrder(schema.keys, l, r, EncodeSequence(s), EncodeSequence(t));
    SequencesOrder(s, t);
  }

  /** The key to seek from: the user key and the newest sequence that may be seen. */
  function SeekKey(userKey: seq<int>, sequence: nat): seq<int>
    requires sequence < TWO_64
  {
    userKey + BigEndian(TWO_64 - 1 - sequence, 8)
  }

  lemma SeekSuffixOrder(sequence: nat, s: KeySequence)
    requires sequence < TWO_64 && IsSequence(s)
    ensures CompareBytes(BigEndian(TWO_64 - 1 - sequence, 8), EncodeSequence(s)) ==
      if s.sequence <= sequence then Less else Greater
  {
    Widths();
    var v, w := BigEndian(TWO_64 - 1 - sequence, 8), BigEndian(TWO_64 - 1 - s.sequence, 8);
    var index := BigEndian(TWO_32 - 1 - s.index, 4);
    BigEndianOrder(TWO_64 - 1 - sequence, TWO_64 - 1 - s.sequence, 8);
    FirstDifferenceDecides(v, w, [], index);
    assert v + [] == v;
  }

  /** Of the rows with one user key, a seek comes before exactly those no newer than its sequence. */
  lemma SeekSeesNoNewer(userKey: seq<int>, sequence: nat, s: KeySequence)
    requires sequence < TWO_64 && IsSequence(s)
    ensures CompareBytes(SeekKey(userKey, sequence), userKey + EncodeSequence(s)) ==
      if s.sequence <= sequence then Less else Greater
  {
    SeekSuffixOrder(sequence, s);
    CompareBytesCommonPrefix(userKey, BigEndian(TWO_64 - 1 - sequence, 8), EncodeSequence(s));
  }

  /**
   * Among the rows of a table, a seek from the key of `from` comes after every row with a smaller key
   * and every newer row with its key, and before all others.
   */
  lemma SeekAmongRows(schema: Schema, from: Row, sequence: nat, row: Row, s: KeySequence)
    requires WellFormed(schema) && Fits(schema.columns, from) && Fits(schema.columns, row)
    requires RowInDomain(from) && RowInDomain(row) && sequence < TWO_64 && IsSequence(s)
    ensures InRange(schema.keys, from) && InRange(schema.keys, row) && CompareRow(schema.keys, from, row).Some?
    ensures UserKey(schema.keys, from).Some? && InternalKey(schema.keys, row, s).Some?
    ensures CompareBytes(SeekKey(UserKey(schema.keys, from).value, sequence), InternalKey(schema.keys, row, s).value) ==
      if CompareRow(schema.keys, from, row) != Some(Equal) then CompareRow(schema.keys, from, row).value
      else if s.sequence <= sequence then Less else Greater
  {
    FittingRowsAreComparable(schema, from, row);
    UserKeysOrder(schema.keys, from, row, BigEndian(TWO_64 - 1 - sequence, 8), EncodeSequence(s));
    SeekSuffixOrder(sequence, s);
  }

  /** Splits an internal key; None when it is too short to hold a user key. */
  function SplitInternalKey(key: seq<int>): Option<(seq<int>, int, int)> {
    if |key| <= 12 then None
    else
      var n := |key| - 12;
      Some((key[..n], TWO_64 - 1 - FromBigEndian(key[n..n + 8]), TWO_32 - 1 - FromBigEndian(key[n + 8..])))
  }

  /** Splitting gives back what was put together. */
  lemma SplitRoundTrip(userKey: seq<int>, s: KeySequence)
    requires IsSequence(s) && userKey != []
    ensures SplitInternalKey(userKey + EncodeSequence(s)) == Some((userKey, s.sequence, s.index))
  {
    Widths();
    var key, n := userKey + EncodeSequence(s), |userKey|;
    BigEndianRoundTrip(TWO_64 - 1 - s.sequence, 8);
    BigEndianRoundTrip(TWO_32 - 1 - s.index, 4);
    assert key[..n] == userKey;
    assert key[n..n + 8] == BigEndian(TWO_64 - 1 - s.sequence, 8);
    assert key[n + 8..] == BigEndian(TWO_32 - 1 - s.index, 4);
  }

  /** Only keys too short for a user key are refused. */
  lemma SplitFailsIff(key: seq<int>)
    ensures SplitInternalKey(key) == None <==> |key| <= 12
  {
  }
}
