/** Datums, rows and their order on the key columns. */
module Rows {
  import opened Common
  import opened Float
  import opened Schema

  /** Strings and binaries are their bytes; times and dates are the integers they are stored as. */
  datatype Datum =
    | Null | Timestamp(ms: int) | Double(d: F64) | Float(f: F64) | Varbinary(bytes: seq<int>) | String(bytes: seq<int>)
    | UInt64(u: nat) | UInt32(u: nat) | UInt16(u: nat) | UInt8(u: nat)
    | Int64(i: int) | Int32(i: int) | Int16(i: int) | Int8(i: int)
    | Boolean(b: bool) | Date(i: int) | Time(i: int)

  type Row = seq<Datum>

  function NullRow(n: nat): (r: Row)
    ensures |r| == n && forall i :: 0 <= i < n ==> r[i] == Null
  {
    seq(n, _ => Null)
  }

  function KindOf(d: Datum): DatumKind {
    match d
    case Null => NullKind
    case Timestamp(_) => TimestampKind
    case Double(_) => DoubleKind
    case Float(_) => FloatKind
    case Varbinary(_) => VarbinaryKind
    case String(_) => StringKind
    case UInt64(_) => UInt64Kind
    case UInt32(_) => UInt32Kind
    case UInt16(_) => UInt16Kind
    case UInt8(_) => UInt8Kind
    case Int64(_) => Int64Kind
    case Int32(_) => Int32Kind
    case Int16(_) => Int16Kind
    case Int8(_) => Int8Kind
    case Boolean(_) => BooleanKind
    case Date(_) => DateKind
    case Time(_) => TimeKind
  }

  /** Position of the variant in the enumeration; it decides between datums of different kinds. */
  function Rank(k: DatumKind): nat {
    match k
    case NullKind => 0
    case TimestampKind => 1
    case DoubleKind => 2
    case FloatKind => 3
    case VarbinaryKind => 4
    case StringKind => 5
    case UInt64Kind => 6
    case UInt32Kind => 7
    case UInt16Kind => 8
    case UInt8Kind => 9
    case Int64Kind => 10
    case Int32Kind => 11
    case Int16Kind => 12
    case Int8Kind => 13
    case BooleanKind => 14
    case DateKind => 15
    case TimeKind => 16
  }

  /** What is compared between datums of one kind other than the floating point kinds. */
  function Content(d: Datum): seq<int>
    requires !d.Double? && !d.Float?
  {
    match d
    case Null => []
    case Timestamp(ms) => [ms]
    case Varbinary(bytes) => bytes
    case String(bytes) => bytes
    case Boolean(b) => [if b then 1 else 0]
    case UInt64(u) => [u]
    case UInt32(u) => [u]
    case UInt16(u) => [u]
    case UInt8(u) => [u]
    case Int64(i) => [i]
    case Int32(i) => [i]
    case Int16(i) => [i]
    case Int8(i) => [i]
    case Date(i) => [i]
    case Time(i) => [i]
  }

  /** None when a NaN is involved. */
  function CompareF64(a: F64, b: F64): Option<Ordering> {
    match (a, b)
    case (NaN, _) => None
    case (_, NaN) => None
    case (Infinite(m), Infinite(n)) => Some(if m == n then Equal else if m then Less else Greater)
    case (Infinite(m), Finite(_)) => Some(if m then Less else Greater)
    case (Finite(_), Infinite(n)) => Some(if n then Greater else Less)
    case (Finite(x), Finite(y)) => Some(if x < y then Less else if x == y then Equal else Greater)
  }

  /** The derived `partial_cmp`. */
  function PartialCmp(a: Datum, b: Datum): Option<Ordering> {
    if KindOf(a) != KindOf(b) then Some(CompareInt(Rank(KindOf(a)), Rank(KindOf(b))))
    else if a.Double? then CompareF64(a.d, b.d)
    else if a.Float? then CompareF64(a.f, b.f)
    else Some(CompareBytes(Content(a), Content(b)))
  }

  predicate InRange(keys: seq<nat>, row: Row) { forall i :: 0 <= i < |keys| ==> keys[i] < |row| }

  /** Key by key, the first difference decides; None is the panic on datums that cannot be compared. */
  function CompareRow(keys: seq<nat>, l: Row, r: Row): Option<Ordering>
    requires InRange(keys, l) && InRange(keys, r)
  {
    if keys == [] then Some(Equal)
    else
      match PartialCmp(l[keys[0]], r[keys[0]])
      case None => None
      case Some(Equal) => CompareRow(keys[1..], l, r)
      case Some(o) => Some(o)
  }

  // ---------------------------------------------------------------------------
  // Rows that fit a schema
  // ---------------------------------------------------------------------------

  predicate DatumFits(d: Datum, c: Column) { KindOf(d) == c.kind || (d.Null? && c.nullable) }

  predicate Fits(columns: seq<Column>, row: Row) {
    |row| == |columns| && forall i :: 0 <= i < |row| ==> DatumFits(row[i], columns[i])
  }

  /** Both rows hold datums of one comparable kind under every key. */
  predicate Comparable(keys: seq<nat>, l: Row, r: Row)
    requires InRange(keys, l) && InRange(keys, r)
  {
    forall i :: 0 <= i < |keys| ==> KindOf(l[keys[i]]) == KindOf(r[keys[i]]) && IsKeyKind(KindOf(l[keys[i]]))
  }

  lemma FittingRowsAreComparable(s: Schema, l: Row, r: Row)
    requires WellFormed(s) && Fits(s.columns, l) && Fits(s.columns, r)
    ensures InRange(s.keys, l) && InRange(s.keys, r) && Comparable(s.keys, l, r)
  {
  }

  // ---------------------------------------------------------------------------
  // The order
  // ---------------------------------------------------------------------------

  predicate SameKeyKind(a: Datum, b: Datum) { KindOf(a) == KindOf(b) && IsKeyKind(KindOf(a)) }

  lemma DatumsCompare(a: Datum, b: Datum)
    requires SameKeyKind(a, b)
    ensures PartialCmp(a, b) == Some(CompareBytes(Content(a), Content(b)))
    ensures Content(a) == Content(b) <==> a == b
  {
  }

  /** Equal datums, the opposite order and transitivity, for datums of one key kind. */
  lemma DatumOrder(a: Datum, b: Datum, c: Datum)
    requires SameKeyKind(a, b) && SameKeyKind(b, c)
    ensures PartialCmp(a, b).Some? && PartialCmp(b, c).Some? && PartialCmp(a, c).Some?
    ensures PartialCmp(a, b).value == Equal <==> a == b
    ensures PartialCmp(b, a) == Some(Flip(PartialCmp(a, b).value))
    ensures PartialCmp(a, b).value != Greater && PartialCmp(b, c).value != Greater ==> PartialCmp(a, c).value != Greater
    ensures PartialCmp(a, b).value != Greater && PartialCmp(b, c).value != Greater && PartialCmp(a, c).value == Equal
            ==> PartialCmp(a, b).value == Equal && PartialCmp(b, c).value == Equal
  {
    DatumsCompare(a, b);
    DatumsCompare(b, a);
    DatumsCompare(b, c);
    DatumsCompare(a, c);
    var x, y, z := Content(a), Content(b), Content(c);
    CompareBytesEqual(x, y);
    CompareBytesFlip(x, y);
    if CompareBytes(x, y) != Greater && CompareBytes(y, z) != Greater {
      CompareBytesTransitive(x, y, z);
    }
  }

  predicate EqualOn(keys: seq<nat>, l: Row, r: Row)
    requires InRange(keys, l) && InRange(keys, r)
  {
    forall i :: 0 <= i < |keys| ==> l[keys[i]] == r[keys[i]]
  }

  /** Never a panic; equal exactly when all key columns are equal; the opposite order from the other side. */
  lemma {:induction false} RowsCompare(keys: seq<nat>, l: Row, r: Row)
    requires InRange(keys, l) && InRange(keys, r) && Comparable(keys, l, r)
    ensures CompareRow(keys, l, r).Some?
    ensures CompareRow(keys, l, r).value == Equal <==> EqualOn(keys, l, r)
    ensures CompareRow(keys, r, l) == Some(Flip(CompareRow(keys, l, r).value))
  {
    if keys != [] {
      var a, b := l[keys[0]], r[keys[0]];
      assert SameKeyKind(a, b);
      DatumOrder(a, b, b);
      RowsCompare(keys[1..], l, r);
      assert EqualOn(keys, l, r) <==> a == b && EqualOn(keys[1..], l, r) by {
        assert forall i :: 1 <= i < |keys| ==> keys[i] == keys[1..][i - 1];
      }
    }
  }

  lemma {:induction false} RowsTransitive(keys: seq<nat>, l: Row, m: Row, r: Row)
    requires InRange(keys, l) && InRange(keys, m) && InRange(keys, r)
    requires Comparable(keys, l, m) && Comparable(keys, m, r)
    requires CompareRow(keys, l, m) in {Some(Less), Some(Equal)} && CompareRow(keys, m, r) in {Some(Less), Some(Equal)}
    ensures CompareRow(keys, l, r) in {Some(Less), Some(Equal)}
  {
    if keys != [] {
      var a, b, c := l[keys[0]], m[keys[0]], r[keys[0]];
      assert SameKeyKind(a, b) && SameKeyKind(b, c);
      DatumOrder(a, b, c);
      DatumOrder(b, c, c);
      DatumOrder(a, c, c);
      if a == b && b == c {
        RowsTransitive(keys[1..], l, m, r);
      }
    }
  }

  /** On rows that fit a builder-made schema the comparison is a total preorder and never panics. */
  lemma RowOrderIsTotal(s: Schema, l: Row, m: Row, r: Row)
    requires WellFormed(s) && Fits(s.columns, l) && Fits(s.columns, m) && Fits(s.columns, r)
    ensures InRange(s.keys, l) && InRange(s.keys, m) && InRange(s.keys, r)
    ensures CompareRow(s.keys, l, r).Some?
    ensures CompareRow(s.keys, l, r).value == Equal <==> EqualOn(s.keys, l, r)
    ensures CompareRow(s.keys, r, l) == Some(Flip(CompareRow(s.keys, l, r).value))
    ensures CompareRow(s.keys, l, m) != Some(Greater) && CompareRow(s.keys, m, r) != Some(Greater)
            ==> CompareRow(s.keys, l, r) != Some(Greater)
  {
    FittingRowsAreComparable(s, l, r);
    FittingRowsAreComparable(s, l, m);
    FittingRowsAreComparable(s, m, r);
    RowsCompare(s.keys, l, r);
    RowsCompare(s.keys, l, m);
    RowsCompare(s.keys, m, r);
    if CompareRow(s.keys, l, m) != Some(Greater) && CompareRow(s.keys, m, r) != Some(Greater) {
      RowsTransitive(s.keys, l, m, r);
    }
  }

  /** Only the datums under the keys matter, wherever the keys point. */
  lemma {:induction false} SameKeysSameOrder(keys: seq<nat>, l: Row, r: Row, keys': seq<nat>, l': Row, r': Row)
    requires InRange(keys, l) && InRange(keys, r) && InRange(keys', l') && InRange(keys', r') && |keys| == |keys'|
    requires forall i :: 0 <= i < |keys| ==> l'[keys'[i]] == l[keys[i]] && r'[keys'[i]] == r[keys[i]]
    ensures CompareRow(keys', l', r') == CompareRow(keys, l, r)
  {
    if keys != [] {
      assert forall i :: 0 <= i < |keys| - 1 ==> keys[1..][i] == keys[i + 1] && keys'[1..][i] == keys'[i + 1];
      SameKeysSameOrder(keys[1..], l, r, keys'[1..], l', r');
    }
  }

  /** A floating point column could not be a key: NaN does not compare. */
  lemma NanDoesNotCompare()
    ensures CompareRow([0], [Double(NaN)], [Double(NaN)]) == None
  {
  }

  /** Floating point numbers other than NaN are totally ordered, from one infinity to the other. */
  lemma FloatsCompare(a: F64, b: F64, c: F64, x: real, y: real)
    ensures CompareF64(a, b) == None <==> a == NaN || b == NaN
    ensures a != NaN ==> (CompareF64(a, b) == Some(Equal) <==> a == b)
    ensures CompareF64(a, b).Some? ==> CompareF64(b, a) == Some(Flip(CompareF64(a, b).value))
    ensures CompareF64(a, b) == Some(Less) && CompareF64(b, c) == Some(Less) ==> CompareF64(a, c) == Some(Less)
    ensures CompareF64(Finite(x), Finite(y)) == Some(Less) <==> x < y
    ensures CompareF64(Infinite(true), Finite(x)) == CompareF64(Finite(x), Infinite(false)) == Some(Less)
    ensures CompareF64(Infinite(true), Infinite(false)) == Some(Less)
  {
  }

  lemma RanksDiffer(k: DatumKind, l: DatumKind)
    requires k != l
    ensures Rank(k) != Rank(l) && (k.NullKind? ==> Rank(k) < Rank(l))
  {
  }

  /** Datums of different kinds compare by the rank of their kinds, never as equal. */
  lemma KindsCompare(a: Datum, b: Datum)
    requires KindOf(a) != KindOf(b)
    ensures PartialCmp(a, b) == Some(if Rank(KindOf(a)) < Rank(KindOf(b)) then Less else Greater)
  {
    RanksDiffer(KindOf(a), KindOf(b));
  }
}
