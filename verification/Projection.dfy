/** Reading rows of one schema of a table through another one, restricted to some columns. */
module Projection {
  import opened Common
  import opened Schema
  import opened Rows
  import opened AlterTable
  import WriteCompat

  datatype RecordSchemaWithKey = RecordSchemaWithKey(columns: seq<Column>, keys: seq<nat>)

  datatype ProjectedSchema = ProjectedSchema(
    original: Schema, projection: Option<seq<nat>>, withKey: RecordSchemaWithKey, record: seq<Column>)

  // ---------------------------------------------------------------------------
  // Which columns are read
  // ---------------------------------------------------------------------------

  predicate Within(indexes: seq<nat>, n: nat) { forall i :: 0 <= i < |indexes| ==> indexes[i] < n }

  function Pick(cs: seq<Column>, indexes: seq<nat>): (r: seq<Column>)
    requires Within(indexes, |cs|)
    ensures |r| == |indexes| && forall i :: 0 <= i < |r| ==> r[i] == cs[indexes[i]]
  {
    seq(|indexes|, i requires 0 <= i < |indexes| => cs[indexes[i]])
  }

  /** The columns below `n` that are keys or asked for, in order. */
  function Selected(keys: seq<nat>, projection: seq<nat>, n: nat): (r: seq<nat>)
    ensures Within(r, n)
  {
    if n == 0 then []
    else
      var r := Selected(keys, projection, n - 1);
      if n - 1 in keys || n - 1 in projection then r + [n - 1] else r
  }

  /** Where the keys below `n` end up among the selected columns. */
  function KeyPositions(keys: seq<nat>, projection: seq<nat>, n: nat): seq<nat> {
    if n == 0 then []
    else
      var r := KeyPositions(keys, projection, n - 1);
      if n - 1 in keys then r + [|Selected(keys, projection, n - 1)|] else r
  }

  lemma {:induction false} SelectedAscends(keys: seq<nat>, projection: seq<nat>, n: nat)
    ensures Ascending(Selected(keys, projection, n))
    ensures forall x: nat :: x in Selected(keys, projection, n) <==> x < n && (x in keys || x in projection)
  {
    if n > 0 {
      SelectedAscends(keys, projection, n - 1);
    }
  }

  /** The key positions point at the keys, one after the other. */
  lemma {:induction false} KeyPositionsPoint(keys: seq<nat>, projection: seq<nat>, n: nat)
    ensures var selected, positions := Selected(keys, projection, n), KeyPositions(keys, projection, n);
      && Within(positions, |selected|) && |positions| == |KeysBelow(keys, n)|
      && forall i :: 0 <= i < |positions| ==> selected[positions[i]] == KeysBelow(keys, n)[i]
  {
    if n > 0 {
      KeyPositionsPoint(keys, projection, n - 1);
    }
  }

  function WithKeyOf(s: Schema, projection: seq<nat>): RecordSchemaWithKey {
    var n := |s.columns|;
    RecordSchemaWithKey(Pick(s.columns, Selected(s.keys, projection, n)), KeyPositions(s.keys, projection, n))
  }

  /** Keeps every key column and every column asked for, in the order of the schema. */
  method ProjectRecordSchemaWithKey(s: Schema, projection: seq<nat>) returns (r: RecordSchemaWithKey)
    ensures r == WithKeyOf(s, projection)
  {
    var keys: seq<nat>, columns: seq<Column> := [], [];
    for i := 0 to |s.columns|
      invariant keys == KeyPositions(s.keys, projection, i)
      invariant columns == Pick(s.columns, Selected(s.keys, projection, i))
    {
      if i in s.keys {
        keys := keys + [|columns|];
        columns := columns + [s.columns[i]];
      } else if i in projection {
        columns := columns + [s.columns[i]];
      }
    }
    return RecordSchemaWithKey(columns, keys);
  }

  method ProjectRecordSchema(s: Schema, projection: seq<nat>) returns (columns: seq<Column>)
    requires Within(projection, |s.columns|)
    ensures columns == Pick(s.columns, projection)
  {
    columns := [];
    for i := 0 to |projection|
      invariant |columns| == i && forall k :: 0 <= k < i ==> columns[k] == s.columns[projection[k]]
    {
      columns := columns + [s.columns[projection[i]]];
    }
  }

  /** The largest index, if there is any. */
  method MaxIndex(projection: seq<nat>) returns (m: Option<nat>)
    ensures m.None? <==> projection == []
    ensures m.Some? ==> m.value in projection && forall i :: 0 <= i < |projection| ==> projection[i] <= m.value
  {
    m := None;
    for k := 0 to |projection|
      invariant m.None? <==> k == 0
      invariant m.Some? ==> m.value in projection && forall i :: 0 <= i < k ==> projection[i] <= m.value
    {
      if m.None? || m.value <= projection[k] {
        m := Some(projection[k]);
      }
    }
  }

  /** The projection all of whose indexes are in range is accepted, any other refused with its largest index. */
  method NewProjectedSchema(s: Schema, projection: Option<seq<nat>>) returns (r: Result<ProjectedSchema, nat>)
    ensures r.Ok? <==> projection.None? || Within(projection.value, |s.columns|)
    ensures r.Ok? ==> r.value == Projected(s, projection)
    ensures r.Err? ==> projection.Some? && r.error in projection.value && r.error >= |s.columns|
  {
    match projection {
      case None =>
        return Ok(ProjectedSchema(s, None, RecordSchemaWithKey(s.columns, s.keys), s.columns));
      case Some(p) =>
        var max := MaxIndex(p);
        if max.Some? {
          if max.value >= |s.columns| {
            return Err(max.value);
          }
        }
        var withKey := ProjectRecordSchemaWithKey(s, p);
        var record := ProjectRecordSchema(s, p);
        return Ok(ProjectedSchema(s, projection, withKey, record));
    }
  }

  predicate InRangeOf(s: Schema, projection: Option<seq<nat>>) {
    projection.Some? ==> Within(projection.value, |s.columns|)
  }

  function Projected(s: Schema, projection: Option<seq<nat>>): ProjectedSchema
    requires InRangeOf(s, projection)
  {
    match projection
    case None => ProjectedSchema(s, None, RecordSchemaWithKey(s.columns, s.keys), s.columns)
    case Some(p) => ProjectedSchema(s, projection, WithKeyOf(s, p), Pick(s.columns, p))
  }

  function Range(n: nat): (r: seq<nat>)
    ensures |r| == n && forall i :: 0 <= i < n ==> r[i] == i
  {
    seq(n, i => i)
  }

  /** The columns of the schema that are read, in order. */
  function Wanted(s: Schema, projection: Option<seq<nat>>): (r: seq<nat>)
    ensures Within(r, |s.columns|)
  {
    match projection
    case None => Range(|s.columns|)
    case Some(p) => Selected(s.keys, p, |s.columns|)
  }

  /** Every key and every column asked for is read once, in the order of the schema. */
  lemma WantedIsRead(s: Schema, projection: Option<seq<nat>>)
    requires WellFormed(s) && InRangeOf(s, projection)
    ensures var w, withKey := Wanted(s, projection), Projected(s, projection).withKey;
      && Ascending(w)
      && withKey.columns == Pick(s.columns, w)
      && |withKey.keys| == |s.keys|
      && (forall i :: 0 <= i < |s.keys| ==> withKey.keys[i] < |w| && w[withKey.keys[i]] == s.keys[i])
      && (forall x :: x in s.keys ==> x in w)
      && (projection.Some? ==> forall x :: x in projection.value ==> x in w)
  {
    var n := |s.columns|;
    match projection {
      case None =>
        assert Pick(s.columns, Range(n)) == s.columns;
        assert forall x: nat :: x < n ==> Range(n)[x] == x;
      case Some(p) =>
        SelectedAscends(s.keys, p, n);
        KeyPositionsPoint(s.keys, p, n);
        AllKeysBelow(s);
    }
  }

  // ---------------------------------------------------------------------------
  // Finding the columns in the source
  // ---------------------------------------------------------------------------

  datatype ReadError = NotNullable(name: string) | MissingReadColumn(name: string)

  datatype ReadOp = Exact | FillNull

  /** Whether the reader's column can be read from the source's column. */
  function CompatibleForRead(reader: Column, source: Column): Result<ReadOp, ReadError> {
    if reader.nullable then
      if reader.id == source.id then Ok(Exact) else Ok(FillNull)
    else if reader.id == source.id && !source.nullable then Ok(Exact)
    else Err(NotNullable(source.name))
  }

  /** The index of a column in the source; None is to be filled by null. */
  function TryProjectColumn(c: Column, source: seq<Column>, sameVersion: bool): Result<Option<nat>, ReadError> {
    match IndexOf(source, c.name)
    case Some(i) =>
      if sameVersion then Ok(Some(i))
      else (match CompatibleForRead(c, source[i])
            case Err(e) => Err(e)
            case Ok(Exact) => Ok(Some(i))
            case Ok(FillNull) => Ok(None))
    case None => if c.nullable then Ok(None) else Err(MissingReadColumn(c.name))
  }

  /** Every column projects, to these indexes. */
  predicate AllProject(columns: seq<Column>, source: seq<Column>, same: bool, sp: seq<Option<nat>>) {
    && |sp| == |columns|
    && forall q :: 0 <= q < |sp| ==> TryProjectColumn(columns[q], source, same) == Ok(sp[q])
  }

  /** Some column fails to project, with this error. */
  predicate SomeFails(columns: seq<Column>, source: seq<Column>, same: bool, e: ReadError) {
    exists q :: 0 <= q < |columns| && TryProjectColumn(columns[q], source, same) == Err(e)
  }

  /** Column by column; the first that cannot be read is the error. */
  method TryProjectWithKey(projected: ProjectedSchema, source: Schema) returns (r: Result<seq<Option<nat>>, ReadError>)
    ensures var columns, same := projected.withKey.columns, projected.original.version == source.version;
      match r
      case Ok(sp) => AllProject(columns, source.columns, same, sp)
      case Err(e) => SomeFails(columns, source.columns, same, e)
  {
    var columns, same := projected.withKey.columns, projected.original.version == source.version;
    var sp: seq<Option<nat>> := [];
    for q := 0 to |columns|
      invariant AllProject(columns[..q], source.columns, same, sp)
    {
      match TryProjectColumn(columns[q], source.columns, same) {
        case Err(e) => return Err(e);
        case Ok(index) => sp := sp + [index];
      }
      assert columns[..q + 1] == columns[..q] + [columns[q]];
    }
    assert columns[..|columns|] == columns;
    return Ok(sp);
  }

  lemma OneOutcome(columns: seq<Column>, source: seq<Column>, same: bool, sp: seq<Option<nat>>)
    requires AllProject(columns, source, same, sp)
    ensures forall e :: !SomeFails(columns, source, same, e)
    ensures forall sp' :: AllProject(columns, source, same, sp') ==> sp' == sp
  {
  }

  /** The source's column of the same name and the same id. */
  function SameColumn(c: Column, source: seq<Column>): (r: Option<nat>)
    ensures r.Some? ==> r.value < |source| && source[r.value].name == c.name && source[r.value].id == c.id
  {
    match IndexOf(source, c.name)
    case None => None
    case Some(i) => if source[i].id == c.id then Some(i) else None
  }

  /** What a column is in a row of another version: the value of the same column, else null. */
  function ReadValue(c: Column, source: seq<Column>, row: Row): Datum
    requires |row| == |source|
  {
    match SameColumn(c, source) case None => Null case Some(i) => row[i]
  }

  ghost predicate EveryValueFits(c: Column, source: seq<Column>) {
    forall row :: Fits(source, row) ==> DatumFits(ReadValue(c, source, row), c)
  }

  lemma ProjectsToSame(c: Column, source: seq<Column>)
    ensures var r := TryProjectColumn(c, source, false);
      && (r.Ok? ==> r.value == SameColumn(c, source))
      && (r.Ok? <==> c.nullable || (SameColumn(c, source).Some? && !source[SameColumn(c, source).value].nullable))
  {
  }

  /**
   * A column projects from a source of another version exactly if what it reads there always fits it. Columns
   * keep their kind as long as they keep their id.
   */
  lemma ColumnReadableIff(c: Column, source: seq<Column>)
    requires !c.kind.NullKind?
    requires SameColumn(c, source).Some? ==> source[SameColumn(c, source).value].kind == c.kind
    ensures TryProjectColumn(c, source, false).Ok? <==> EveryValueFits(c, source)
    ensures TryProjectColumn(c, source, false).Ok? ==> TryProjectColumn(c, source, false).value == SameColumn(c, source)
  {
    ProjectsToSame(c, source);
    var sample := WriteCompat.SampleRow(source);
    assert Fits(source, sample);
    match SameColumn(c, source)
    case None => assert EveryValueFits(c, source) ==> DatumFits(ReadValue(c, source, sample), c);
    case Some(i) =>
      if source[i].nullable && !c.nullable {
        var row := sample[i := Null];
        assert Fits(source, row) && ReadValue(c, source, row) == Null;
      }
  }

  /** In a source of the same version a column is taken where its name is, unchecked. */
  lemma SameVersionIsTaken(c: Column, source: seq<Column>, x: nat)
    requires DistinctNames(source) && x < |source| && source[x].name == c.name
    ensures TryProjectColumn(c, source, true) == Ok(Some(x))
  {
    IndexOfOwn(source, x);
  }

  /** A column that does not project says whether it is missing or may be null in the source. */
  lemma UnreadableColumnSays(c: Column, source: seq<Column>)
    requires TryProjectColumn(c, source, false).Err?
    ensures TryProjectColumn(c, source, false).error ==
            if forall i :: 0 <= i < |source| ==> source[i].name != c.name then MissingReadColumn(c.name) else NotNullable(c.name)
  {
  }

  /** A column the source has is found at its place. */
  lemma IndexOfOwn(cs: seq<Column>, x: nat)
    requires DistinctNames(cs) && x < |cs|
    ensures IndexOf(cs, cs[x].name) == Some(x)
  {
  }

  /** What a column of one schema of a chain becomes in another one. */
  function InSource(x: nat, source: seq<Column>): Option<nat> { if x < |source| then Some(x) else None }

  /** Reader and source agree on the columns both have, and what only the reader has is nullable. */
  predicate Related(reader: seq<Column>, source: seq<Column>) {
    ColumnsExtend(reader, source) || ColumnsExtend(source, reader)
  }

  lemma ChainIsRelated(schemas: seq<Schema>, i: nat, j: nat)
    requires IsChain(schemas) && i < |schemas| && j < |schemas|
    ensures WellFormed(schemas[i]) && WellFormed(schemas[j])
    ensures Related(schemas[j].columns, schemas[i].columns) && schemas[i].keys == schemas[j].keys
    ensures schemas[i].version == schemas[j].version <==> i == j
    ensures schemas[i].timestampIndex == schemas[j].timestampIndex
  {
    if i <= j {
      ChainExtends(schemas, i, j);
    } else {
      ChainExtends(schemas, j, i);
    }
  }

  // ---------------------------------------------------------------------------
  // Reading across a chain of alters
  // ---------------------------------------------------------------------------

  /** The source index of every wanted column. */
  function SourceProjection(wanted: seq<nat>, source: seq<Column>): (r: seq<Option<nat>>)
    ensures |r| == |wanted| && forall q :: 0 <= q < |r| ==> r[q] == InSource(wanted[q], source)
  {
    seq(|wanted|, q requires 0 <= q < |wanted| => InSource(wanted[q], source))
  }

  /**
   * Whatever two schemas of one chain are the reader's and the source's: no column fails to project,
   * shared columns are found in place, and columns added later are filled by null.
   */
  lemma ChainProjects(schemas: seq<Schema>, i: nat, j: nat, projection: Option<seq<nat>>)
    requires IsChain(schemas) && i < |schemas| && j < |schemas| && InRangeOf(schemas[j], projection)
    ensures AllProject(Projected(schemas[j], projection).withKey.columns, schemas[i].columns,
                       schemas[j].version == schemas[i].version,
                       SourceProjection(Wanted(schemas[j], projection), schemas[i].columns))
  {
    var reader, source := schemas[j].columns, schemas[i].columns;
    var same := schemas[j].version == schemas[i].version;
    ChainIsRelated(schemas, i, j);
    WantedIsRead(schemas[j], projection);
    ColumnsAreFound(reader, source, Wanted(schemas[j], projection), same);
  }

  lemma ColumnsAreFound(reader: seq<Column>, source: seq<Column>, wanted: seq<nat>, same: bool)
    requires DistinctNames(reader) && DistinctNames(source) && Related(reader, source) && Within(wanted, |reader|)
    ensures AllProject(Pick(reader, wanted), source, same, SourceProjection(wanted, source))
  {
  }

  /** The row projector for a source schema of the chain. */
  method ProjectorOnChain(ghost schemas: seq<Schema>, ghost i: nat, ghost j: nat, source: Schema, projected: ProjectedSchema)
    returns (r: Result<seq<Option<nat>>, ReadError>)
    requires IsChain(schemas) && i < |schemas| && j < |schemas| && source == schemas[i]
    requires InRangeOf(schemas[j], projected.projection) && projected == Projected(schemas[j], projected.projection)
    ensures r == Ok(SourceProjection(Wanted(schemas[j], projected.projection), source.columns))
  {
    ChainProjects(schemas, i, j, projected.projection);
    OneOutcome(projected.withKey.columns, source.columns, projected.original.version == source.version,
               SourceProjection(Wanted(schemas[j], projected.projection), source.columns));
    r := TryProjectWithKey(projected, source);
  }

  // ---------------------------------------------------------------------------
  // Rows
  // ---------------------------------------------------------------------------

  predicate IsSourceProjection(sp: seq<Option<nat>>, n: nat) {
    forall q :: 0 <= q < |sp| && sp[q].Some? ==> sp[q].value < n
  }

  function DatumAt(row: Row, index: Option<nat>): Datum
    requires index.Some? ==> index.value < |row|
  {
    match index case None => Null case Some(x) => row[x]
  }

  method ProjectRow(sp: seq<Option<nat>>, row: Row) returns (r: Row)
    requires IsSourceProjection(sp, |row|)
    ensures |r| == |sp| && forall q :: 0 <= q < |r| ==> r[q] == DatumAt(row, sp[q])
  {
    r := [];
    for q := 0 to |sp|
      invariant |r| == q && forall k :: 0 <= k < q ==> r[k] == DatumAt(row, sp[k])
    {
      match sp[q] {
        case Some(x) => r := r + [row[x]];
        case None => r := r + [Null];
      }
    }
  }

  /** The old value of a column the row has, null for any other. */
  function ReadDatum(row: Row, x: nat): Datum { if x < |row| then row[x] else Null }

  /** What a row of an old or newer schema is read as. */
  function ReadRow(row: Row, wanted: seq<nat>): (r: Row)
    ensures |r| == |wanted| && forall q :: 0 <= q < |r| ==> r[q] == ReadDatum(row, wanted[q])
  {
    seq(|wanted|, q requires 0 <= q < |wanted| => ReadDatum(row, wanted[q]))
  }

  /** Reading a row of any schema of the chain through any other one, restricted to any columns. */
  method ReadAcrossAlters(ghost schemas: seq<Schema>, ghost i: nat, ghost j: nat,
                          source: Schema, projected: ProjectedSchema, row: Row)
    returns (r: Row)
    requires IsChain(schemas) && i < |schemas| && j < |schemas| && source == schemas[i]
    requires InRangeOf(schemas[j], projected.projection) && projected == Projected(schemas[j], projected.projection)
    requires |row| == |source.columns|
    ensures r == ReadRow(row, Wanted(schemas[j], projected.projection))
  {
    var projector := ProjectorOnChain(schemas, i, j, source, projected);
    r := ProjectRow(projector.value, row);
  }

  /** A row that fits its schema is read as a row that fits the reader's columns. */
  lemma ReadRowFits(schemas: seq<Schema>, i: nat, j: nat, projection: Option<seq<nat>>, row: Row)
    requires IsChain(schemas) && i < |schemas| && j < |schemas| && InRangeOf(schemas[j], projection)
    requires Fits(schemas[i].columns, row)
    ensures Fits(Projected(schemas[j], projection).withKey.columns, ReadRow(row, Wanted(schemas[j], projection)))
  {
    ChainIsRelated(schemas, i, j);
    WantedIsRead(schemas[j], projection);
    var w, cs := Wanted(schemas[j], projection), Projected(schemas[j], projection).withKey.columns;
    forall q | 0 <= q < |w|
      ensures DatumFits(ReadDatum(row, w[q]), cs[q])
    {
      if w[q] < |row| {
        assert schemas[j].columns[w[q]] == schemas[i].columns[w[q]];
        assert DatumFits(row[w[q]], schemas[i].columns[w[q]]);
      }
    }
  }

  /** Rows keep their order under the keys of the schema they are read through. */
  lemma ReadRowsKeepOrder(schemas: seq<Schema>, i: nat, j: nat, projection: Option<seq<nat>>, l: Row, r: Row)
    requires IsChain(schemas) && i < |schemas| && j < |schemas| && InRangeOf(schemas[j], projection)
    requires Fits(schemas[i].columns, l) && Fits(schemas[i].columns, r)
    ensures var w, keys := Wanted(schemas[j], projection), Projected(schemas[j], projection).withKey.keys;
      && InRange(schemas[i].keys, l) && InRange(schemas[i].keys, r)
      && InRange(keys, ReadRow(l, w)) && InRange(keys, ReadRow(r, w))
      && CompareRow(keys, ReadRow(l, w), ReadRow(r, w)) == CompareRow(schemas[i].keys, l, r)
  {
    ChainIsRelated(schemas, i, j);
    WantedIsRead(schemas[j], projection);
    FittingRowsAreComparable(schemas[i], l, r);
    var w, keys := Wanted(schemas[j], projection), Projected(schemas[j], projection).withKey.keys;
    SameKeysSameOrder(schemas[i].keys, l, r, keys, ReadRow(l, w), ReadRow(r, w));
  }

  // ---------------------------------------------------------------------------
  // The source columns that exist
  // ---------------------------------------------------------------------------

  function Existing(sp: seq<Option<nat>>): seq<nat> {
    if sp == [] then []
    else
      var r := Existing(sp[..|sp| - 1]);
      match sp[|sp| - 1] case None => r case Some(x) => r + [x]
  }

  /** The wanted columns the source has. */
  function Below(wanted: seq<nat>, n: nat): seq<nat> {
    if wanted == [] then []
    else
      var x := wanted[|wanted| - 1];
      Below(wanted[..|wanted| - 1], n) + (if x < n then [x] else [])
  }

  lemma {:induction false} BelowIs(wanted: seq<nat>, n: nat)
    ensures forall x :: x in Below(wanted, n) <==> x in wanted && x < n
  {
    if wanted != [] {
      var k := |wanted| - 1;
      BelowIs(wanted[..k], n);
      assert wanted == wanted[..k] + [wanted[k]];
    }
  }

  lemma {:induction false} BelowAscends(wanted: seq<nat>, n: nat)
    requires Ascending(wanted)
    ensures Ascending(Below(wanted, n))
  {
    if wanted != [] {
      var k := |wanted| - 1;
      BelowAscends(wanted[..k], n);
      BelowIs(wanted[..k], n);
      var b := Below(wanted[..k], n);
      forall i | 0 <= i < |b|
        ensures b[i] < wanted[k]
      {
        assert b[i] in wanted[..k];
      }
    }
  }

  lemma {:induction false} ExistingIsBelow(wanted: seq<nat>, source: seq<Column>)
    ensures Existing(SourceProjection(wanted, source)) == Below(wanted, |source|)
  {
    if wanted != [] {
      var k := |wanted| - 1;
      ExistingIsBelow(wanted[..k], source);
      assert SourceProjection(wanted, source)[..k] == SourceProjection(wanted[..k], source);
    }
  }

  /** The columns read from the source are in ascending order, each once. */
  lemma ExistingAscends(schemas: seq<Schema>, i: nat, j: nat, projection: Option<seq<nat>>)
    requires IsChain(schemas) && i < |schemas| && j < |schemas| && InRangeOf(schemas[j], projection)
    ensures var w := Wanted(schemas[j], projection);
      && Ascending(Existing(SourceProjection(w, schemas[i].columns)))
      && forall x :: x in Existing(SourceProjection(w, schemas[i].columns)) <==> x in w && x < |schemas[i].columns|
  {
    ChainIsRelated(schemas, i, j);
    WantedIsRead(schemas[j], projection);
    var w, n := Wanted(schemas[j], projection), |schemas[i].columns|;
    ExistingIsBelow(w, schemas[i].columns);
    BelowIs(w, n);
    BelowAscends(w, n);
  }

  // ---------------------------------------------------------------------------
  // What the debug assertions demand
  // ---------------------------------------------------------------------------

  /** The key columns in the order of the columns. */
  function KeyColumns(cs: seq<Column>, keys: seq<nat>): seq<Column> {
    if cs == [] then []
    else
      var n := |cs| - 1;
      KeyColumns(cs[..n], keys) + (if n in keys then [cs[n]] else [])
  }

  lemma {:induction false} KeyColumnsAre(cs: seq<Column>, keys: seq<nat>, k: nat)
    requires Ascending(keys) && k <= |cs|
    ensures Within(KeysBelow(keys, k), |cs|)
    ensures KeyColumns(cs[..k], keys) == Pick(cs, KeysBelow(keys, k))
  {
    if k > 0 {
      KeyColumnsAre(cs, keys, k - 1);
      assert cs[..k][..k - 1] == cs[..k - 1];
    }
  }

  /** Ascending keys in range give their columns in order. */
  lemma KeyColumnsArePicked(cs: seq<Column>, keys: seq<nat>)
    requires Ascending(keys) && Within(keys, |cs|)
    ensures KeyColumns(cs, keys) == Pick(cs, keys)
  {
    KeyColumnsAre(cs, keys, |cs|);
    assert cs[..|cs|] == cs;
    var n := KeysBelowIsPrefix(keys, |cs|);
    assert keys != [] ==> keys[|keys| - 1] < |cs|;
    assert keys[..n] == keys;
  }

  /** The key columns after projection are the key columns of the source. */
  lemma KeyColumnsAgree(schemas: seq<Schema>, i: nat, j: nat, projection: Option<seq<nat>>)
    requires IsChain(schemas) && i < |schemas| && j < |schemas| && InRangeOf(schemas[j], projection)
    ensures var withKey := Projected(schemas[j], projection).withKey;
      KeyColumns(withKey.columns, withKey.keys) == KeyColumns(schemas[i].columns, schemas[i].keys)
  {
    var s, t := schemas[i], schemas[j];
    var withKey := Projected(t, projection).withKey;
    ChainIsRelated(schemas, i, j);
    WantedIsRead(t, projection);
    PositionsAscend(t, projection);
    KeyColumnsArePicked(s.columns, s.keys);
    KeyColumnsArePicked(withKey.columns, withKey.keys);
    assert Pick(withKey.columns, withKey.keys) == Pick(s.columns, s.keys);
  }

  lemma PositionsAscend(s: Schema, projection: Option<seq<nat>>)
    requires WellFormed(s) && InRangeOf(s, projection)
    ensures Ascending(Projected(s, projection).withKey.keys)
  {
    WantedIsRead(s, projection);
    var w, keys := Wanted(s, projection), Projected(s, projection).withKey.keys;
    forall a, b | 0 <= a < b < |keys|
      ensures keys[a] < keys[b]
    {
      assert w[keys[a]] == s.keys[a] && w[keys[b]] == s.keys[b] && s.keys[a] < s.keys[b];
    }
  }
}
