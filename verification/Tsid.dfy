/** The time series id of a row: a hash over its tags, written into the row on insert. */
module Tsid {
  import opened Common
  import opened Schema
  import opened Rows
  import opened AlterTable
  import opened MemKey
  import opened Compact

  /** Encodes a datum; None is an encoding error. */
  type Encoder = Datum -> Option<seq<int>>

  type Hash = seq<int> -> nat

  /** A tag column: its index and its id. */
  datatype Tag = Tag(index: nat, id: nat)

  /** The tag columns in the order of the columns. */
  function Tags(columns: seq<Column>): (r: seq<Tag>)
    ensures forall i :: 0 <= i < |r| ==> r[i].index < |columns|
  {
    if columns == [] then []
    else
      var n := |columns| - 1;
      Tags(columns[..n]) + (if columns[n].tag then [Tag(n, columns[n].id)] else [])
  }

  /** What one tag adds to the bytes: nothing for null, else its id and its datum. */
  function TagBytes(encode: Encoder, tag: Tag, d: Datum): Option<seq<int>> {
    if d.Null? then Some([])
    else match (encode(UInt64(tag.id)), encode(d))
      case (Some(id), Some(bytes)) => Some(id + bytes)
      case _ => None
  }

  /** The bytes that are hashed. */
  function HashBytes(encode: Encoder, tags: seq<Tag>, row: Row): Option<seq<int>>
    requires forall i :: 0 <= i < |tags| ==> tags[i].index < |row|
  {
    if tags == [] then Some([])
    else
      var n := |tags| - 1;
      Then(HashBytes(encode, tags[..n], row), TagBytes(encode, tags[n], row[tags[n].index]))
  }

  // ---------------------------------------------------------------------------
  // Writing the ids into the rows
  // ---------------------------------------------------------------------------

  predicate RowsFit(n: nat, rows: seq<Row>) { forall r :: 0 <= r < |rows| ==> |rows[r]| == n }

  function WithTsid(row: Row, index: nat, id: nat): Row
    requires index < |row|
  {
    row[index := UInt64(id)]
  }

  /** The bytes of a row, appended tag by tag to a cleared buffer. */
  method BuildBytes(encode: Encoder, tags: seq<Tag>, row: Row) returns (bytes: Option<seq<int>>)
    requires forall i :: 0 <= i < |tags| ==> tags[i].index < |row|
    ensures bytes == HashBytes(encode, tags, row)
  {
    var buffer := [];
    for t := 0 to |tags|
      invariant HashBytes(encode, tags[..t], row) == Some(buffer)
    {
      assert tags[..t + 1][..t] == tags[..t];
      var d := row[tags[t].index];
      ghost var was := buffer;
      assert was + [] == was;
      if !d.Null? {
        var id := encode(UInt64(tags[t].id));
        if id.None? {
          FailsOn(encode, tags, row, t + 1);
          return None;
        }
        buffer := buffer + id.value;
        var datum := encode(d);
        if datum.None? {
          FailsOn(encode, tags, row, t + 1);
          return None;
        }
        buffer := buffer + datum.value;
        assert buffer == was + (id.value + datum.value);
      }
    }
    assert tags[..|tags|] == tags;
    return Some(buffer);
  }

  lemma {:induction false} FailsOn(encode: Encoder, tags: seq<Tag>, row: Row, t: nat)
    requires forall i :: 0 <= i < |tags| ==> tags[i].index < |row|
    requires t <= |tags| && HashBytes(encode, tags[..t], row).None?
    ensures HashBytes(encode, tags, row).None?
    decreases |tags|
  {
    if t < |tags| {
      var n := |tags| - 1;
      assert tags[..n][..t] == tags[..t];
      FailsOn(encode, tags[..n], row, t);
    } else {
      assert tags[..t] == tags;
    }
  }

  /** Gives every row its id, up to the first row that cannot be encoded. */
  method MaybeGenerateTsid(s: Schema, rows: array<Row>, encode: Encoder, hash: Hash) returns (ok: bool)
    requires s.tsidIndex.Some? ==> s.tsidIndex.value < |s.columns|
    requires RowsFit(|s.columns|, rows[..])
    modifies rows
    ensures s.tsidIndex.None? ==> ok && rows[..] == old(rows[..])
    ensures s.tsidIndex.Some? && ok ==> forall r :: 0 <= r < rows.Length ==>
      && HashBytes(encode, Tags(s.columns), old(rows[r])).Some?
      && rows[r] == WithTsid(old(rows[r]), s.tsidIndex.value, hash(HashBytes(encode, Tags(s.columns), old(rows[r])).value))
    ensures !ok ==> exists r :: 0 <= r < rows.Length && HashBytes(encode, Tags(s.columns), old(rows[r])).None?
  {
    match s.tsidIndex {
      case None => return true;
      case Some(index) =>
        var tags := Tags(s.columns);
        assert forall r :: 0 <= r < rows.Length ==> |rows[r]| == |rows[..][r]|;
        for i := 0 to rows.Length
          invariant forall r :: i <= r < rows.Length ==> rows[r] == old(rows[r])
          invariant forall r :: 0 <= r < i ==>
            && HashBytes(encode, tags, old(rows[r])).Some?
            && rows[r] == WithTsid(old(rows[r]), index, hash(HashBytes(encode, tags, old(rows[r])).value))
        {
          var bytes := BuildBytes(encode, tags, rows[i]);
          if bytes.None? {
            return false;
          }
          rows[i] := rows[i][index := UInt64(hash(bytes.value))];
        }
        return true;
    }
  }

  // ---------------------------------------------------------------------------
  // Adding columns does not change the id
  // ---------------------------------------------------------------------------

  /** The tags of a longer schema on a row padded with nulls give the same bytes. */
  lemma {:induction false} PaddingKeepsBytes(encode: Encoder, cs: seq<Column>, ts: seq<Column>, row: Row)
    requires cs <= ts && |row| == |cs|
    ensures HashBytes(encode, Tags(ts), row + NullRow(|ts| - |cs|)) == HashBytes(encode, Tags(cs), row)
    decreases |ts|
  {
    var padded := row + NullRow(|ts| - |cs|);
    if |ts| == |cs| {
      assert ts == cs && padded == row;
    } else {
      var n := |ts| - 1;
      var shorter := row + NullRow(n - |cs|);
      PaddingKeepsBytes(encode, cs, ts[..n], row);
      SameBytes(encode, Tags(ts[..n]), shorter, padded);
      if ts[n].tag {
        var tags := Tags(ts);
        assert tags[..|tags| - 1] == Tags(ts[..n]) && tags[|tags| - 1].index == n;
        assert padded[n] == Null;
        var bytes := HashBytes(encode, Tags(ts[..n]), padded);
        assert bytes.Some? ==> bytes.value + [] == bytes.value;
      } else {
        assert Tags(ts) == Tags(ts[..n]);
      }
    }
  }

  lemma {:induction false} SameBytes(encode: Encoder, tags: seq<Tag>, a: Row, b: Row)
    requires a <= b && forall i :: 0 <= i < |tags| ==> tags[i].index < |a|
    ensures HashBytes(encode, tags, a) == HashBytes(encode, tags, b)
  {
    if tags != [] {
      SameBytes(encode, tags[..|tags| - 1], a, b);
    }
  }

  lemma {:induction false} FindInLonger(cs: seq<Column>, ts: seq<Column>, name: string)
    requires cs <= ts && FindName(cs, name).Some?
    ensures FindName(ts, name) == FindName(cs, name)
    decreases |ts|
  {
  }

  /**
   * Along any chain of alters the id column stays where it is, and a row padded with nulls for the added
   * columns, tags among them, is hashed over the same bytes.
   */
  lemma AltersKeepTsid(schemas: seq<Schema>, i: nat, j: nat, encode: Encoder, row: Row)
    requires IsChain(schemas) && i <= j < |schemas| && |row| == |schemas[i].columns|
    ensures |schemas[i].columns| <= |schemas[j].columns|
    ensures schemas[i].tsidIndex.Some? ==> schemas[j].tsidIndex == schemas[i].tsidIndex
    ensures HashBytes(encode, Tags(schemas[j].columns), row + NullRow(|schemas[j].columns| - |row|))
         == HashBytes(encode, Tags(schemas[i].columns), row)
  {
    ChainExtends(schemas, i, j);
    PaddingKeepsBytes(encode, schemas[i].columns, schemas[j].columns, row);
    if schemas[i].tsidIndex.Some? {
      FindInLonger(schemas[i].columns, schemas[j].columns, TSID_COLUMN);
    }
  }

  // ---------------------------------------------------------------------------
  // The bytes identify the tags
  // ---------------------------------------------------------------------------

  /** An encoder that cannot fail, and the datums it is good for. */
  datatype PrefixCode = PrefixCode(put: Datum -> seq<int>, ok: Datum -> bool)

  predicate SameText(p: PrefixCode, a: Datum, b: Datum, x: seq<int>, y: seq<int>) { p.put(a) + x == p.put(b) + y }

  /** Of datums of one kind the bytes tell which comes first and where it ends. */
  ghost predicate IsPrefixCode(p: PrefixCode) {
    && (forall d :: p.ok(d) ==> IsBytes(p.put(d)) && p.put(d) != [])
    && (forall id: nat :: id <= U32_MAX ==> p.ok(UInt64(id)))
    && (forall a, b, x, y {:trigger SameText(p, a, b, x, y)} ::
          p.ok(a) && p.ok(b) && KindOf(a) == KindOf(b) && IsBytes(x) && IsBytes(y) && SameText(p, a, b, x, y)
          ==> a == b && x == y)
  }

  function EncoderOf(p: PrefixCode): Encoder { d => Some(p.put(d)) }

  /** The compact encoder on the values of the types. */
  function CompactCode(c: FloatCodec): PrefixCode { PrefixCode(d => EncodeCompact(c, d), d => IsEncodable(c, d)) }

  lemma CompactIsPrefixCode(c: FloatCodec)
    ensures IsPrefixCode(CompactCode(c))
  {
    var p := CompactCode(c);
    forall d | p.ok(d)
      ensures IsBytes(p.put(d)) && p.put(d) != []
    {
      DatumRoundTrip(c, KindOf(d), d, []);
      assert EncodeCompact(c, d) + [] == EncodeCompact(c, d);
    }
    forall a, b, x, y | p.ok(a) && p.ok(b) && KindOf(a) == KindOf(b) && IsBytes(x) && IsBytes(y) && SameText(p, a, b, x, y)
      ensures a == b && x == y
    {
      PrefixIsUnique(c, a, b, x, y);
    }
  }

  /** What one tag adds, without errors. */
  function Part(p: PrefixCode, tag: Tag, d: Datum): seq<int> {
    if d.Null? then [] else p.put(UInt64(tag.id)) + p.put(d)
  }

  predicate TagsInRange(tags: seq<Tag>, row: Row) { forall i :: 0 <= i < |tags| ==> tags[i].index < |row| }

  /** The parts from the first tag on. */
  function Parts(p: PrefixCode, tags: seq<Tag>, row: Row): seq<int>
    requires TagsInRange(tags, row)
  {
    if tags == [] then [] else Part(p, tags[0], row[tags[0].index]) + Parts(p, tags[1..], row)
  }

  lemma {:induction false} PartsSnoc(p: PrefixCode, tags: seq<Tag>, row: Row)
    requires TagsInRange(tags, row) && tags != []
    ensures var n := |tags| - 1; Parts(p, tags, row) == Parts(p, tags[..n], row) + Part(p, tags[n], row[tags[n].index])
  {
    var n := |tags| - 1;
    if n > 0 {
      PartsSnoc(p, tags[1..], row);
      assert tags[..n][1..] == tags[1..][..n - 1];
    } else {
      assert tags[1..] == [] && tags[..0] == [];
    }
  }

  lemma {:induction false} HashBytesAreParts(p: PrefixCode, tags: seq<Tag>, row: Row)
    requires TagsInRange(tags, row)
    ensures HashBytes(EncoderOf(p), tags, row) == Some(Parts(p, tags, row))
  {
    if tags != [] {
      HashBytesAreParts(p, tags[..|tags| - 1], row);
      PartsSnoc(p, tags, row);
    }
  }

  predicate DistinctTags(tags: seq<Tag>) {
    && (forall i :: 0 <= i < |tags| ==> tags[i].id <= U32_MAX)
    && forall i, j :: 0 <= i < j < |tags| ==> tags[i].id != tags[j].id
  }

  predicate EncodableOn(p: PrefixCode, tags: seq<Tag>, row: Row)
    requires TagsInRange(tags, row)
  {
    forall i :: 0 <= i < |tags| ==> p.ok(row[tags[i].index])
  }

  /** Under every tag both rows hold null or a datum of one kind. */
  predicate SameKinds(tags: seq<Tag>, l: Row, r: Row)
    requires TagsInRange(tags, l) && TagsInRange(tags, r)
  {
    forall i :: 0 <= i < |tags| ==>
      var a, b := l[tags[i].index], r[tags[i].index]; a.Null? || b.Null? || KindOf(a) == KindOf(b)
  }

  lemma {:induction false} PartsAreBytes(p: PrefixCode, tags: seq<Tag>, row: Row)
    requires TagsInRange(tags, row) && EncodableOn(p, tags, row) && DistinctTags(tags) && IsPrefixCode(p)
    ensures IsBytes(Parts(p, tags, row))
  {
    if tags != [] {
      PartsAreBytes(p, tags[1..], row);
    }
  }

  lemma PartsOfNull(p: PrefixCode, tags: seq<Tag>, row: Row)
    requires tags != [] && TagsInRange(tags, row) && row[tags[0].index].Null?
    ensures Parts(p, tags, row) == Parts(p, tags[1..], row)
  {
  }

  /** What follows the id of a tag that is not null. */
  function Behind(p: PrefixCode, tags: seq<Tag>, row: Row): seq<int>
    requires tags != [] && TagsInRange(tags, row)
  {
    p.put(row[tags[0].index]) + Parts(p, tags[1..], row)
  }

  lemma PartsOfDatum(p: PrefixCode, tags: seq<Tag>, row: Row)
    requires tags != [] && TagsInRange(tags, row) && !row[tags[0].index].Null?
    requires EncodableOn(p, tags, row) && DistinctTags(tags) && IsPrefixCode(p)
    ensures Parts(p, tags, row) == p.put(UInt64(tags[0].id)) + Behind(p, tags, row) && IsBytes(Behind(p, tags, row))
  {
    var id, d, rest := p.put(UInt64(tags[0].id)), p.put(row[tags[0].index]), Parts(p, tags[1..], row);
    assert id + d + rest == id + (d + rest);
    PartsAreBytes(p, tags[1..], row);
  }

  /** If anything is written, the id of some tag comes first. */
  lemma {:induction false} FirstIsAnId(p: PrefixCode, tags: seq<Tag>, row: Row) returns (k: nat, rest: seq<int>)
    requires TagsInRange(tags, row) && EncodableOn(p, tags, row) && DistinctTags(tags) && IsPrefixCode(p)
    requires Parts(p, tags, row) != []
    ensures k < |tags| && IsBytes(rest) && Parts(p, tags, row) == p.put(UInt64(tags[k].id)) + rest
  {
    if row[tags[0].index].Null? {
      PartsOfNull(p, tags, row);
      k, rest := FirstIsAnId(p, tags[1..], row);
      k := k + 1;
    } else {
      PartsOfDatum(p, tags, row);
      k, rest := 0, Behind(p, tags, row);
    }
  }

  /** A tag that is null on one side only shows in the bytes. */
  lemma NullShows(p: PrefixCode, tags: seq<Tag>, l: Row, r: Row)
    requires tags != [] && TagsInRange(tags, l) && TagsInRange(tags, r) && DistinctTags(tags) && IsPrefixCode(p)
    requires EncodableOn(p, tags, l) && EncodableOn(p, tags, r)
    requires l[tags[0].index].Null? && !r[tags[0].index].Null?
    ensures Parts(p, tags, l) != Parts(p, tags, r)
  {
    var id := UInt64(tags[0].id);
    PartsOfDatum(p, tags, r);
    PartsOfNull(p, tags, l);
    if Parts(p, tags, l) == Parts(p, tags, r) {
      var k, rest := FirstIsAnId(p, tags[1..], l);
      assert SameText(p, UInt64(tags[k + 1].id), id, rest, Behind(p, tags, r));
    }
  }

  predicate EqualTags(tags: seq<Tag>, l: Row, r: Row)
    requires TagsInRange(tags, l) && TagsInRange(tags, r)
  {
    forall i :: 0 <= i < |tags| ==> l[tags[i].index] == r[tags[i].index]
  }

  lemma {:induction false} PartsIdentify(p: PrefixCode, tags: seq<Tag>, l: Row, r: Row)
    requires TagsInRange(tags, l) && TagsInRange(tags, r) && DistinctTags(tags) && IsPrefixCode(p)
    requires EncodableOn(p, tags, l) && EncodableOn(p, tags, r) && SameKinds(tags, l, r)
    requires Parts(p, tags, l) == Parts(p, tags, r)
    ensures EqualTags(tags, l, r)
  {
    if tags != [] {
      var a, b := l[tags[0].index], r[tags[0].index];
      if a.Null? != b.Null? {
        if a.Null? {
          NullShows(p, tags, l, r);
        } else {
          NullShows(p, tags, r, l);
        }
      } else {
        HeadIsEqual(p, tags, l, r);
        PartsIdentify(p, tags[1..], l, r);
        assert forall i :: 1 <= i < |tags| ==> tags[i] == tags[1..][i - 1];
      }
    }
  }

  lemma CancelPrefix(a: seq<int>, u: seq<int>, v: seq<int>)
    requires a + u == a + v
    ensures u == v
  {
    assert (a + u)[|a|..] == u && (a + v)[|a|..] == v;
  }

  /** Behind one id, the datum and what follows it are determined. */
  lemma PartIsUnique(p: PrefixCode, id: seq<int>, a: Datum, b: Datum, x: seq<int>, y: seq<int>)
    requires IsPrefixCode(p)
    requires p.ok(a) && p.ok(b) && KindOf(a) == KindOf(b) && IsBytes(x) && IsBytes(y)
    requires id + p.put(a) + x == id + p.put(b) + y
    ensures a == b && x == y
  {
    var ea, eb := p.put(a), p.put(b);
    assert id + ea + x == id + (ea + x) && id + eb + y == id + (eb + y);
    CancelPrefix(id, ea + x, eb + y);
    assert SameText(p, a, b, x, y);
  }

  lemma HeadIsEqual(p: PrefixCode, tags: seq<Tag>, l: Row, r: Row)
    requires tags != [] && TagsInRange(tags, l) && TagsInRange(tags, r) && DistinctTags(tags) && IsPrefixCode(p)
    requires EncodableOn(p, tags, l) && EncodableOn(p, tags, r) && SameKinds(tags, l, r)
    requires Parts(p, tags, l) == Parts(p, tags, r) && l[tags[0].index].Null? == r[tags[0].index].Null?
    ensures l[tags[0].index] == r[tags[0].index] && Parts(p, tags[1..], l) == Parts(p, tags[1..], r)
  {
    var a, b := l[tags[0].index], r[tags[0].index];
    var x, y := Parts(p, tags[1..], l), Parts(p, tags[1..], r);
    PartsAreBytes(p, tags[1..], l);
    PartsAreBytes(p, tags[1..], r);
    if a.Null? {
      assert [] + x == x && [] + y == y;
    } else {
      PartIsUnique(p, p.put(UInt64(tags[0].id)), a, b, x, y);
    }
  }

  lemma {:induction false} TagsOfColumns(columns: seq<Column>)
    requires DistinctIds(columns) && SmallIds(columns)
    ensures DistinctTags(Tags(columns))
    ensures forall k :: 0 <= k < |Tags(columns)| ==>
      var t := Tags(columns)[k]; columns[t.index].tag && columns[t.index].id == t.id
    ensures forall i :: 0 <= i < |columns| && columns[i].tag ==> Tag(i, columns[i].id) in Tags(columns)
  {
    if columns != [] {
      var n := |columns| - 1;
      TagsOfColumns(columns[..n]);
      assert forall i :: 0 <= i < n ==> columns[..n][i] == columns[i];
    }
  }

  /** The rows agree on every tag column. */
  predicate SameSeries(columns: seq<Column>, l: Row, r: Row)
    requires |l| == |columns| && |r| == |columns|
  {
    forall i :: 0 <= i < |columns| && columns[i].tag ==> l[i] == r[i]
  }

  lemma SameSeriesIsEqualTags(columns: seq<Column>, l: Row, r: Row)
    requires DistinctIds(columns) && SmallIds(columns) && |l| == |columns| && |r| == |columns|
    ensures SameSeries(columns, l, r) <==> EqualTags(Tags(columns), l, r)
  {
    TagsOfColumns(columns);
    var tags := Tags(columns);
    if EqualTags(tags, l, r) {
      forall i | 0 <= i < |columns| && columns[i].tag
        ensures l[i] == r[i]
      {
        var k :| 0 <= k < |tags| && tags[k] == Tag(i, columns[i].id);
        assert l[tags[k].index] == r[tags[k].index];
      }
    }
  }

  lemma {:induction false} EqualTagsEqualParts(p: PrefixCode, tags: seq<Tag>, l: Row, r: Row)
    requires TagsInRange(tags, l) && TagsInRange(tags, r) && EqualTags(tags, l, r)
    ensures Parts(p, tags, l) == Parts(p, tags, r)
  {
    if tags != [] {
      EqualTagsEqualParts(p, tags[1..], l, r);
    }
  }

  lemma TagKinds(columns: seq<Column>, l: Row, r: Row)
    requires Fits(columns, l) && Fits(columns, r)
    ensures SameKinds(Tags(columns), l, r)
  {
  }

  /** Two rows of one schema are hashed over the same bytes exactly when they agree on every tag column. */
  lemma BytesIdentifySeries(c: FloatCodec, s: Schema, l: Row, r: Row)
    requires WellFormed(s) && Fits(s.columns, l) && Fits(s.columns, r)
    requires RowIsEncodable(c, l) && RowIsEncodable(c, r)
    ensures var encode := EncoderOf(CompactCode(c));
      HashBytes(encode, Tags(s.columns), l) == HashBytes(encode, Tags(s.columns), r) <==> SameSeries(s.columns, l, r)
  {
    CompactIsPrefixCode(c);
    SeriesIdentified(CompactCode(c), s.columns, l, r);
  }

  lemma SeriesIdentified(p: PrefixCode, columns: seq<Column>, l: Row, r: Row)
    requires IsPrefixCode(p) && DistinctIds(columns) && SmallIds(columns) && Fits(columns, l) && Fits(columns, r)
    requires forall i :: 0 <= i < |columns| ==> p.ok(l[i]) && p.ok(r[i])
    ensures HashBytes(EncoderOf(p), Tags(columns), l) == HashBytes(EncoderOf(p), Tags(columns), r) <==> SameSeries(columns, l, r)
  {
    var tags := Tags(columns);
    HashBytesAreParts(p, tags, l);
    HashBytesAreParts(p, tags, r);
    SameSeriesIsEqualTags(columns, l, r);
    TagsOfColumns(columns);
    TagKinds(columns, l, r);
    if Parts(p, tags, l) == Parts(p, tags, r) {
      PartsIdentify(p, tags, l, r);
    }
    if EqualTags(tags, l, r) {
      EqualTagsEqualParts(p, tags, l, r);
    }
  }
}
