/** Whether rows of one schema can be written to a table with another. */
module WriteCompat {
  import opened Common
  import opened Schema
  import opened Rows
  import Float

  datatype ColumnError = IncompatDataType | NotNullable

  datatype CompatError =
    | IncompatWriteColumn(name: string, source: ColumnError)
    | MissingWriteColumn(name: string)
    | WriteMoreColumn(names: seq<string>)

  /** Column against column: the same type, and no null for a column that has none. */
  function ColumnCompatible(table: Column, writer: Column): Option<ColumnError> {
    if table.kind != writer.kind then Some(IncompatDataType)
    else if !table.nullable && writer.nullable then Some(NotNullable)
    else None
  }

  // ---------------------------------------------------------------------------
  // What compatible means
  // ---------------------------------------------------------------------------

  predicate SameName(ts: seq<Column>, ws: seq<Column>, i: nat, j: nat)
    requires i < |ts| && j < |ws|
  {
    ts[i].name == ws[j].name
  }

  predicate HasName(cs: seq<Column>, name: string) { exists j :: 0 <= j < |cs| && cs[j].name == name }

  /** Column `i` of the table is matched by a compatible column, or may be left out. */
  predicate ColumnServed(ts: seq<Column>, ws: seq<Column>, i: nat)
    requires i < |ts|
  {
    && (forall j :: 0 <= j < |ws| && SameName(ts, ws, i, j) ==> ColumnCompatible(ts[i], ws[j]).None?)
    && (!HasName(ws, ts[i].name) ==> ts[i].nullable)
  }

  predicate AllServed(ts: seq<Column>, ws: seq<Column>) {
    forall i {:trigger ColumnServed(ts, ws, i)} :: 0 <= i < |ts| ==> ColumnServed(ts, ws, i)
  }

  /** The first `k` columns of the table are served. */
  predicate ServedUpTo(ts: seq<Column>, ws: seq<Column>, k: nat)
    requires k <= |ts|
  {
    forall i {:trigger ColumnServed(ts, ws, i)} :: 0 <= i < k ==> ColumnServed(ts, ws, i)
  }

  predicate NoExtra(ts: seq<Column>, ws: seq<Column>) {
    forall j :: 0 <= j < |ws| ==> HasName(ts, ws[j].name)
  }

  predicate Compatible(table: Schema, writer: Schema) {
    AllServed(table.columns, writer.columns) && NoExtra(table.columns, writer.columns)
  }

  /** The table and the writer have a column of this name, and they do not go together. */
  predicate IsConflict(ts: seq<Column>, ws: seq<Column>, name: string, e: ColumnError) {
    exists i, j :: 0 <= i < |ts| && 0 <= j < |ws| && SameName(ts, ws, i, j) && ts[i].name == name
      && ColumnCompatible(ts[i], ws[j]) == Some(e)
  }

  /** The table needs a column of this name and the writer has none. */
  predicate IsMissing(ts: seq<Column>, ws: seq<Column>, name: string) {
    !HasName(ws, name) && exists i :: 0 <= i < |ts| && ts[i].name == name && !ts[i].nullable
  }

  /** `m` sends every table column to the writer column of the same name. */
  predicate IsIndexMap(ts: seq<Column>, ws: seq<Column>, m: seq<Option<nat>>) {
    && |m| <= |ts|
    && (forall i :: 0 <= i < |m| && m[i].Some? ==> m[i].value < |ws| && SameName(ts, ws, i, m[i].value))
    && (forall i :: 0 <= i < |m| && m[i].None? ==> !HasName(ws, ts[i].name))
  }

  predicate Injective(m: seq<Option<nat>>) {
    forall i, k :: 0 <= i < k < |m| && m[i].Some? ==> m[i] != m[k]
  }

  predicate IsHit(m: seq<Option<nat>>, j: nat) { exists i :: 0 <= i < |m| && m[i] == Some(j) }

  predicate Onto(m: seq<Option<nat>>, n: nat) { forall j :: 0 <= j < n ==> IsHit(m, j) }

  // ---------------------------------------------------------------------------
  // The count of matched columns
  // ---------------------------------------------------------------------------

  function Hits(m: seq<Option<nat>>): set<nat> { set i | 0 <= i < |m| && m[i].Some? :: m[i].value }

  function CountSome(m: seq<Option<nat>>): nat {
    if m == [] then 0
    else CountSome(m[..|m| - 1]) + (if m[|m| - 1].Some? then 1 else 0)
  }

  lemma HitsAre(m: seq<Option<nat>>, j: nat)
    ensures j in Hits(m) <==> IsHit(m, j)
  {
  }

  lemma HitsSnoc(m: seq<Option<nat>>, x: Option<nat>)
    ensures Hits(m + [x]) == match x case None => Hits(m) case Some(j) => Hits(m) + {j}
  {
    forall j: nat
      ensures j in Hits(m + [x]) <==> j in Hits(m) || x == Some(j)
    {
      HitsAre(m, j);
      HitsAre(m + [x], j);
      assert (m + [x])[|m|] == x && forall i :: 0 <= i < |m| ==> (m + [x])[i] == m[i];
    }
  }

  lemma {:induction false} CountIsHits(m: seq<Option<nat>>)
    requires Injective(m)
    ensures CountSome(m) == |Hits(m)|
  {
    if m != [] {
      var n := |m| - 1;
      CountIsHits(m[..n]);
      HitsSnoc(m[..n], m[n]);
      assert m == m[..n] + [m[n]];
      if m[n].Some? {
        HitsAre(m[..n], m[n].value);
        assert forall i :: 0 <= i < n ==> m[..n][i] == m[i] != m[n];
      }
    }
  }

  lemma {:induction false} SubsetOfRange(s: set<nat>, n: nat)
    requires forall x :: x in s ==> x < n
    ensures |s| <= n
    ensures |s| == n <==> forall x: nat :: x < n ==> x in s
  {
    if n > 0 {
      SubsetOfRange(s - {n - 1}, n - 1);
      if n - 1 in s {
        assert s == (s - {n - 1}) + {n - 1};
      } else {
        assert s == s - {n - 1};
      }
    } else if exists x :: x in s {
      assert false;
    } else {
      assert s == {};
    }
  }

  /** All writer columns are counted exactly when each of them is matched. */
  lemma CountDecides(m: seq<Option<nat>>, n: nat)
    requires Injective(m) && forall i :: 0 <= i < |m| && m[i].Some? ==> m[i].value < n
    ensures CountSome(m) == n <==> Onto(m, n)
  {
    CountIsHits(m);
    SubsetOfRange(Hits(m), n);
    forall j: nat
      ensures j in Hits(m) <==> IsHit(m, j)
    {
      HitsAre(m, j);
    }
  }

  lemma MapIsInjective(ts: seq<Column>, ws: seq<Column>, m: seq<Option<nat>>)
    requires DistinctNames(ts) && IsIndexMap(ts, ws, m)
    ensures Injective(m)
  {
  }

  /** Every writer column is matched exactly when its name is known to the table. */
  lemma OntoIffNoExtra(ts: seq<Column>, ws: seq<Column>, m: seq<Option<nat>>)
    requires DistinctNames(ws) && IsIndexMap(ts, ws, m) && |m| == |ts|
    ensures Onto(m, |ws|) <==> NoExtra(ts, ws)
  {
    forall j | 0 <= j < |ws|
      ensures IsHit(m, j) <==> HasName(ts, ws[j].name)
    {
      if IsHit(m, j) {
        var i :| 0 <= i < |m| && m[i] == Some(j);
        assert SameName(ts, ws, i, j);
      }
      if HasName(ts, ws[j].name) {
        var i :| 0 <= i < |ts| && ts[i].name == ws[j].name;
        assert HasName(ws, ts[i].name);
        assert m[i].Some? && SameName(ts, ws, i, m[i].value);
        assert ws[m[i].value].name == ws[j].name;
        assert m[i].value == j;
      }
    }
  }

  /** The names of the writer's columns the table does not have. */
  function ExtraNames(ts: seq<Column>, ws: seq<Column>): seq<string> {
    if ws == [] then []
    else
      var n := |ws| - 1;
      ExtraNames(ts, ws[..n]) + (if IndexOf(ts, ws[n].name).None? then [ws[n].name] else [])
  }

  lemma {:induction false} ExtraNamesAre(ts: seq<Column>, ws: seq<Column>, name: string)
    ensures name in ExtraNames(ts, ws) <==> HasName(ws, name) && !HasName(ts, name)
  {
    if ws != [] {
      var n := |ws| - 1;
      ExtraNamesAre(ts, ws[..n], name);
      assert HasName(ws, name) <==> HasName(ws[..n], name) || ws[n].name == name by {
        if HasName(ws[..n], name) {
          var j :| 0 <= j < n && ws[..n][j].name == name;
          assert ws[j].name == name;
        }
        if j :| 0 <= j < n && ws[j].name == name {
          assert ws[..n][j].name == name;
        }
      }
    }
  }

  lemma ConflictAt(ts: seq<Column>, ws: seq<Column>, k: nat, j: nat, e: ColumnError)
    requires k < |ts| && j < |ws| && SameName(ts, ws, k, j) && ColumnCompatible(ts[k], ws[j]) == Some(e)
    ensures IsConflict(ts, ws, ts[k].name, e) && !AllServed(ts, ws)
  {
    assert !ColumnServed(ts, ws, k);
  }

  lemma MissingAt(ts: seq<Column>, ws: seq<Column>, k: nat)
    requires k < |ts| && IndexOf(ws, ts[k].name).None? && !ts[k].nullable
    ensures IsMissing(ts, ws, ts[k].name) && !AllServed(ts, ws)
  {
    assert !ColumnServed(ts, ws, k);
  }

  /** Names are distinct, so the column found is the only one to compare with. */
  lemma ServedBy(ts: seq<Column>, ws: seq<Column>, k: nat, index: Option<nat>)
    requires k < |ts| && DistinctNames(ws) && index == IndexOf(ws, ts[k].name)
    requires match index case None => ts[k].nullable case Some(j) => ColumnCompatible(ts[k], ws[j]).None?
    requires ServedUpTo(ts, ws, k)
    ensures ServedUpTo(ts, ws, k + 1)
  {
  }

  lemma Extend(ts: seq<Column>, ws: seq<Column>, m: seq<Option<nat>>, index: Option<nat>)
    requires |m| < |ts| && IsIndexMap(ts, ws, m) && index == IndexOf(ws, ts[|m|].name)
    ensures IsIndexMap(ts, ws, m + [index])
    ensures CountSome(m + [index]) == CountSome(m) + (if index.Some? then 1 else 0)
  {
  }

  // ---------------------------------------------------------------------------
  // The check
  // ---------------------------------------------------------------------------

  /**
   * Ok exactly when the schemas are compatible; then the index map is injective and onto the
   * writer's columns. An error names what is wrong.
   */
  method CompatibleForWrite(table: Schema, writer: Schema) returns (r: Result<seq<Option<nat>>, CompatError>)
    requires DistinctNames(table.columns) && DistinctNames(writer.columns)
    ensures r.Ok? <==> Compatible(table, writer)
    ensures r.Ok? ==> |r.value| == |table.columns| && IsIndexMap(table.columns, writer.columns, r.value)
    ensures r.Ok? ==> Injective(r.value) && Onto(r.value, |writer.columns|)
    ensures r.Err? && r.error.IncompatWriteColumn? ==>
      IsConflict(table.columns, writer.columns, r.error.name, r.error.source)
    ensures r.Err? && r.error.MissingWriteColumn? ==> IsMissing(table.columns, writer.columns, r.error.name)
    ensures r.Err? && r.error.WriteMoreColumn? ==>
      AllServed(table.columns, writer.columns) && r.error.names == ExtraNames(table.columns, writer.columns)
  {
    var ts, ws := table.columns, writer.columns;
    var indexes := [];
    var found := 0;
    for k := 0 to |ts|
      invariant |indexes| == k && IsIndexMap(ts, ws, indexes)
      invariant found == CountSome(indexes)
      invariant ServedUpTo(ts, ws, k)
    {
      var column := ts[k];
      var index := IndexOf(ws, column.name);
      match index {
        case Some(j) =>
          found := found + 1;
          var error := ColumnCompatible(column, ws[j]);
          if error.Some? {
            ConflictAt(ts, ws, k, j, error.value);
            return Err(IncompatWriteColumn(column.name, error.value));
          }
        case None =>
          if !column.nullable {
            MissingAt(ts, ws, k);
            return Err(MissingWriteColumn(column.name));
          }
      }
      ServedBy(ts, ws, k, index);
      Extend(ts, ws, indexes, index);
      indexes := indexes + [index];
    }
    MapIsInjective(ts, ws, indexes);
    CountDecides(indexes, |ws|);
    OntoIffNoExtra(ts, ws, indexes);
    if found != |ws| {
      return Err(WriteMoreColumn(ExtraNames(ts, ws)));
    }
    return Ok(indexes);
  }

  /** The writer column a compatible table column is served from never needs a null it cannot take. */
  lemma ServedValuesFit(table: Schema, writer: Schema, m: seq<Option<nat>>, i: nat)
    requires Compatible(table, writer) && |m| == |table.columns| && IsIndexMap(table.columns, writer.columns, m)
    requires i < |m|
    ensures m[i].None? ==> table.columns[i].nullable
    ensures m[i].Some? ==>
      && writer.columns[m[i].value].kind == table.columns[i].kind
      && (writer.columns[m[i].value].nullable ==> table.columns[i].nullable)
  {
    assert ColumnServed(table.columns, writer.columns, i);
    if m[i].Some? {
      assert SameName(table.columns, writer.columns, i, m[i].value);
    }
  }

  // ---------------------------------------------------------------------------
  // What the check is for: every row of the writer fits the table
  // ---------------------------------------------------------------------------

  /** Some datum of the kind. */
  function Sample(k: DatumKind): (d: Datum)
    ensures KindOf(d) == k
  {
    match k
    case NullKind => Null
    case TimestampKind => Timestamp(0)
    case DoubleKind => Double(Float.NaN)
    case FloatKind => Datum.Float(Float.NaN)
    case VarbinaryKind => Varbinary([])
    case StringKind => String([])
    case UInt64Kind => UInt64(0)
    case UInt32Kind => UInt32(0)
    case UInt16Kind => UInt16(0)
    case UInt8Kind => UInt8(0)
    case Int64Kind => Int64(0)
    case Int32Kind => Int32(0)
    case Int16Kind => Int16(0)
    case Int8Kind => Int8(0)
    case BooleanKind => Boolean(false)
    case DateKind => Date(0)
    case TimeKind => Time(0)
  }

  /** Every datum of the writer's column fits the table's. */
  ghost predicate TakesAll(table: Column, writer: Column) { forall d :: DatumFits(d, writer) ==> DatumFits(d, table) }

  /** So does every datum other than null. */
  ghost predicate TakesValues(table: Column, writer: Column) {
    forall d: Datum :: !d.Null? && DatumFits(d, writer) ==> DatumFits(d, table)
  }

  /**
   * Column against column, no error exactly if every datum fits; the type is to blame exactly if a value
   * does not fit, and nullability if nothing but a null does not.
   */
  lemma ColumnCompatibleIff(table: Column, writer: Column)
    requires !writer.kind.NullKind?
    ensures ColumnCompatible(table, writer).None? <==> TakesAll(table, writer)
    ensures ColumnCompatible(table, writer) == Some(IncompatDataType) <==> !TakesValues(table, writer)
    ensures ColumnCompatible(table, writer) == Some(NotNullable) <==> TakesValues(table, writer) && !TakesAll(table, writer)
  {
    assert DatumFits(Sample(writer.kind), writer);
    assert writer.nullable ==> DatumFits(Null, writer);
  }

  /** The row as the table sees it: columns by name, and null for those the writer does not have. */
  function Adapted(ts: seq<Column>, ws: seq<Column>, row: Row): (r: Row)
    requires |row| == |ws|
    ensures |r| == |ts|
    ensures forall i :: 0 <= i < |ts| ==>
              r[i] == match IndexOf(ws, ts[i].name) case None => Null case Some(j) => row[j]
  {
    seq(|ts|, i requires 0 <= i < |ts| => match IndexOf(ws, ts[i].name) case None => Null case Some(j) => row[j])
  }

  /** Every row of the writer fits the table. */
  ghost predicate EveryRowFits(ts: seq<Column>, ws: seq<Column>) {
    forall row :: Fits(ws, row) ==> Fits(ts, Adapted(ts, ws, row))
  }

  predicate NoNullKind(cs: seq<Column>) { forall i :: 0 <= i < |cs| ==> !cs[i].kind.NullKind? }

  function SampleRow(ws: seq<Column>): (row: Row)
    ensures Fits(ws, row)
  {
    seq(|ws|, j requires 0 <= j < |ws| => Sample(ws[j].kind))
  }

  lemma ServedFits(ts: seq<Column>, ws: seq<Column>, row: Row, i: nat)
    requires i < |ts| && ColumnServed(ts, ws, i) && NoNullKind(ws) && Fits(ws, row)
    ensures DatumFits(Adapted(ts, ws, row)[i], ts[i])
  {
    match IndexOf(ws, ts[i].name)
    case None =>
    case Some(j) =>
      assert SameName(ts, ws, i, j);
      ColumnCompatibleIff(ts[i], ws[j]);
  }

  lemma UnservedDoesNotFit(ts: seq<Column>, ws: seq<Column>, i: nat) returns (row: Row)
    requires i < |ts| && !ColumnServed(ts, ws, i) && NoNullKind(ts) && NoNullKind(ws) && DistinctNames(ws)
    ensures Fits(ws, row) && !DatumFits(Adapted(ts, ws, row)[i], ts[i])
  {
    row := SampleRow(ws);
    match IndexOf(ws, ts[i].name) {
      case None =>
      case Some(j) =>
        ColumnCompatibleIff(ts[i], ws[j]);
        var d :| DatumFits(d, ws[j]) && !DatumFits(d, ts[i]);
        row := row[j := d];
    }
  }

  /** A writer is accepted exactly if the table knows its columns and every row it can write fits the table. */
  lemma CompatibleIffRowsFit(table: Schema, writer: Schema)
    requires DistinctNames(table.columns) && DistinctNames(writer.columns)
    requires NoNullKind(table.columns) && NoNullKind(writer.columns)
    ensures Compatible(table, writer) <==>
            NoExtra(table.columns, writer.columns) && EveryRowFits(table.columns, writer.columns)
  {
    var ts, ws := table.columns, writer.columns;
    if AllServed(ts, ws) {
      forall row | Fits(ws, row)
        ensures Fits(ts, Adapted(ts, ws, row))
      {
        forall i | 0 <= i < |ts|
          ensures DatumFits(Adapted(ts, ws, row)[i], ts[i])
        {
          assert ColumnServed(ts, ws, i);
          ServedFits(ts, ws, row, i);
        }
      }
    } else {
      var i :| 0 <= i < |ts| && !ColumnServed(ts, ws, i);
      var row := UnservedDoesNotFit(ts, ws, i);
      assert !Fits(ts, Adapted(ts, ws, row));
    }
  }
}
