/** Column schemas, table schemas and the builder that makes them. */
module Schema {
  import opened Common

  const U32_MAX: nat := 0xFFFF_FFFF
  const COLUMN_ID_UNINIT: nat := 0
  const TSID_COLUMN: string := "tsid"

  datatype DatumKind =
    | NullKind | TimestampKind | DoubleKind | FloatKind | VarbinaryKind | StringKind
    | UInt64Kind | UInt32Kind | UInt16Kind | UInt8Kind | Int64Kind | Int32Kind | Int16Kind | Int8Kind
    | BooleanKind | DateKind | TimeKind

  /** Null, double and float columns cannot be key columns. */
  predicate IsKeyKind(k: DatumKind) { !k.NullKind? && !k.DoubleKind? && !k.FloatKind? }

  /** A default value expression, known by its text only. */
  datatype Expr = Expr(text: string)

  /** The escaped name is left out: it is always computed from the name. */
  datatype Column = Column(
    id: nat, name: string, kind: DatumKind, nullable: bool, tag: bool, dictionary: bool, comment: string,
    defaultValue: Option<Expr>)

  datatype Schema = Schema(
    columns: seq<Column>, keys: seq<nat>, timestampIndex: nat, tsidIndex: Option<nat>, version: nat)

  datatype BuildError =
    | ColumnNameExists | KeyColumnType | ColumnIdExists | NullKeyColumn | TimestampKeyExists
    | TimestampNotInPrimaryKey | InvalidPrimaryKeyWithTsid
    | Panicked // the column id or the schema version overflows u32

  // ---------------------------------------------------------------------------
  // What a schema is
  // ---------------------------------------------------------------------------

  predicate DistinctNames(cs: seq<Column>) {
    forall i, j :: 0 <= i < j < |cs| ==> cs[i].name != cs[j].name
  }

  predicate DistinctIds(cs: seq<Column>) {
    forall i, j :: 0 <= i < j < |cs| ==> cs[i].id != cs[j].id
  }

  predicate SmallIds(cs: seq<Column>) { forall i :: 0 <= i < |cs| ==> cs[i].id <= U32_MAX }

  predicate KeysInRange(cs: seq<Column>, keys: seq<nat>) { forall i :: 0 <= i < |keys| ==> keys[i] < |cs| }

  /** Key columns are not nullable and can be compared. */
  predicate KeyColumnsOk(cs: seq<Column>, keys: seq<nat>)
    requires KeysInRange(cs, keys)
  {
    forall i :: 0 <= i < |keys| ==> !cs[keys[i]].nullable && IsKeyKind(cs[keys[i]].kind)
  }

  /** `t` is the one key column that is a timestamp. */
  predicate IsTimestampKey(cs: seq<Column>, keys: seq<nat>, t: nat)
    requires KeysInRange(cs, keys)
  {
    && t in keys
    && forall i :: 0 <= i < |keys| ==> (cs[keys[i]].kind.TimestampKind? <==> keys[i] == t)
  }

  /** The first column with the name, as `find_map` gives it. */
  function FindName(cs: seq<Column>, name: string): (r: Option<nat>)
    ensures r.Some? ==> r.value < |cs| && cs[r.value].name == name
    ensures r.Some? ==> forall i :: 0 <= i < r.value ==> cs[i].name != name
    ensures r.None? ==> forall i :: 0 <= i < |cs| ==> cs[i].name != name
  {
    if cs == [] then None
    else
      var n := |cs| - 1;
      match FindName(cs[..n], name)
      case Some(i) => Some(i)
      case None => if cs[n].name == name then Some(n) else None
  }

  /** The last column with the name, as the map from names to indexes keeps it. */
  function IndexOf(cs: seq<Column>, name: string): (r: Option<nat>)
    ensures r.Some? ==> r.value < |cs| && cs[r.value].name == name
    ensures r.Some? ==> forall i :: r.value < i < |cs| ==> cs[i].name != name
    ensures r.None? ==> forall i :: 0 <= i < |cs| ==> cs[i].name != name
  {
    if cs == [] then None
    else
      var n := |cs| - 1;
      if cs[n].name == name then Some(n) else IndexOf(cs[..n], name)
  }

  predicate TsidOk(cs: seq<Column>, keys: seq<nat>, tsid: Option<nat>) {
    tsid == FindName(cs, TSID_COLUMN) && (tsid.Some? ==> |keys| == 2)
  }

  /** Exactly the schemas the builder can make. */
  predicate WellFormed(s: Schema) {
    && DistinctNames(s.columns) && DistinctIds(s.columns) && SmallIds(s.columns)
    && Ascending(s.keys) && KeysInRange(s.columns, s.keys) && KeyColumnsOk(s.columns, s.keys)
    && IsTimestampKey(s.columns, s.keys, s.timestampIndex)
    && TsidOk(s.columns, s.keys, s.tsidIndex)
    && s.version <= U32_MAX
  }

  // ---------------------------------------------------------------------------
  // The builder's steps on values
  // ---------------------------------------------------------------------------

  /** The fields of a builder. */
  datatype Draft = Draft(
    columns: seq<Column>, keys: seq<nat>, timestamp: Option<nat>, names: set<string>, ids: set<nat>,
    version: nat, autoIncrement: bool, maxId: nat)

  const DEFAULT_SCHEMA_VERSION: nat := 1

  const EMPTY: Draft := Draft([], [], None, {}, {}, DEFAULT_SCHEMA_VERSION, false, COLUMN_ID_UNINIT)

  /** The id a column gets; None where the increment overflows. */
  function AllocId(d: Draft, id: nat): Option<nat> {
    if d.autoIncrement && id == COLUMN_ID_UNINIT then
      if d.maxId + 1 > U32_MAX then None else Some(d.maxId + 1)
    else Some(id)
  }

  function Max(a: nat, b: nat): nat { if a < b then b else a }

  function Inserted(d: Draft, c: Column): Draft {
    d.(columns := d.columns + [c], names := d.names + {c.name}, ids := d.ids + {c.id}, maxId := Max(d.maxId, c.id))
  }

  function AddKey(d: Draft, c: Column): Result<Draft, BuildError> {
    var isTimestamp := c.kind.TimestampKind?;
    if c.name in d.names then Err(ColumnNameExists)
    else if !IsKeyKind(c.kind) then Err(KeyColumnType)
    else if c.id in d.ids then Err(ColumnIdExists)
    else if c.nullable then Err(NullKeyColumn)
    else if isTimestamp && d.timestamp.Some? then Err(TimestampKeyExists)
    else
      Ok(Inserted(d, c).(keys := d.keys + [|d.columns|],
                         timestamp := if isTimestamp then Some(|d.columns|) else d.timestamp))
  }

  function AddNormal(d: Draft, c: Column): Result<Draft, BuildError> {
    if c.name in d.names then Err(ColumnNameExists)
    else if c.id in d.ids then Err(ColumnIdExists)
    else Ok(Inserted(d, c))
  }

  function Add(d: Draft, c: Column, isKey: bool): Result<Draft, BuildError> {
    match AllocId(d, c.id)
    case None => Err(Panicked)
    case Some(id) => if isKey then AddKey(d, c.(id := id)) else AddNormal(d, c.(id := id))
  }

  function Build(d: Draft): Result<Schema, BuildError> {
    var tsid := FindName(d.columns, TSID_COLUMN);
    if d.timestamp.None? then Err(TimestampNotInPrimaryKey)
    else if tsid.Some? && |d.keys| != 2 then Err(InvalidPrimaryKeyWithTsid)
    else Ok(Schema(d.columns, d.keys, d.timestamp.value, tsid, d.version))
  }

  function Names(cs: seq<Column>): (r: set<string>)
    ensures forall i :: 0 <= i < |cs| ==> cs[i].name in r
  {
    if cs == [] then {} else Names(cs[..|cs| - 1]) + {cs[|cs| - 1].name}
  }

  function Ids(cs: seq<Column>): (r: set<nat>)
    ensures forall i :: 0 <= i < |cs| ==> cs[i].id in r
  {
    if cs == [] then {} else Ids(cs[..|cs| - 1]) + {cs[|cs| - 1].id}
  }

  lemma {:induction false} NameOf(cs: seq<Column>, name: string) returns (i: nat)
    requires name in Names(cs)
    ensures i < |cs| && cs[i].name == name
  {
    var n := |cs| - 1;
    if cs[n].name == name {
      i := n;
    } else {
      i := NameOf(cs[..n], name);
    }
  }

  lemma {:induction false} IdOf(cs: seq<Column>, id: nat) returns (i: nat)
    requires id in Ids(cs)
    ensures i < |cs| && cs[i].id == id
  {
    var n := |cs| - 1;
    if cs[n].id == id {
      i := n;
    } else {
      i := IdOf(cs[..n], id);
    }
  }

  function MaxId(cs: seq<Column>): (m: nat)
    ensures forall i :: 0 <= i < |cs| ==> cs[i].id <= m
  {
    if cs == [] then COLUMN_ID_UNINIT else Max(MaxId(cs[..|cs| - 1]), cs[|cs| - 1].id)
  }

  predicate TimestampOk(cs: seq<Column>, keys: seq<nat>, timestamp: Option<nat>)
    requires KeysInRange(cs, keys)
  {
    match timestamp
    case None => forall i :: 0 <= i < |keys| ==> !cs[keys[i]].kind.TimestampKind?
    case Some(t) => IsTimestampKey(cs, keys, t)
  }

  predicate KeysOk(cs: seq<Column>, keys: seq<nat>, timestamp: Option<nat>) {
    && Ascending(keys) && KeysInRange(cs, keys) && KeyColumnsOk(cs, keys)
    && TimestampOk(cs, keys, timestamp)
  }

  predicate ColumnsOk(cs: seq<Column>) { DistinctNames(cs) && DistinctIds(cs) && SmallIds(cs) }

  /** What holds of the fields of every builder. */
  predicate ValidDraft(d: Draft) {
    && ColumnsOk(d.columns)
    && d.names == Names(d.columns) && d.ids == Ids(d.columns) && d.maxId == MaxId(d.columns)
    && KeysOk(d.columns, d.keys, d.timestamp)
    && d.version <= U32_MAX
  }

  lemma SetsSnoc(cs: seq<Column>, c: Column)
    ensures Names(cs + [c]) == Names(cs) + {c.name}
    ensures Ids(cs + [c]) == Ids(cs) + {c.id}
    ensures MaxId(cs + [c]) == Max(MaxId(cs), c.id)
  {
    assert (cs + [c])[..|cs|] == cs;
  }

  lemma ColumnsSnoc(cs: seq<Column>, c: Column)
    requires ColumnsOk(cs) && c.name !in Names(cs) && c.id !in Ids(cs) && c.id <= U32_MAX
    ensures ColumnsOk(cs + [c])
  {
  }

  /** A column that is not a key leaves the keys as they were. */
  lemma KeysStay(cs: seq<Column>, c: Column, keys: seq<nat>, timestamp: Option<nat>)
    requires KeysOk(cs, keys, timestamp)
    ensures KeysOk(cs + [c], keys, timestamp)
  {
  }

  /** A key column that may be added becomes the last key. */
  lemma KeysSnoc(cs: seq<Column>, c: Column, keys: seq<nat>, timestamp: Option<nat>)
    requires KeysOk(cs, keys, timestamp)
    requires !c.nullable && IsKeyKind(c.kind) && (c.kind.TimestampKind? ==> timestamp.None?)
    ensures KeysOk(cs + [c], keys + [|cs|], if c.kind.TimestampKind? then Some(|cs|) else timestamp)
  {
  }

  lemma AddKeyKeepsValid(d: Draft, c: Column)
    requires ValidDraft(d) && c.id <= U32_MAX && AddKey(d, c).Ok?
    ensures ValidDraft(AddKey(d, c).value)
  {
    SetsSnoc(d.columns, c);
    ColumnsSnoc(d.columns, c);
    KeysSnoc(d.columns, c, d.keys, d.timestamp);
  }

  lemma AddNormalKeepsValid(d: Draft, c: Column)
    requires ValidDraft(d) && c.id <= U32_MAX && AddNormal(d, c).Ok?
    ensures ValidDraft(AddNormal(d, c).value)
  {
    SetsSnoc(d.columns, c);
    ColumnsSnoc(d.columns, c);
    KeysStay(d.columns, c, d.keys, d.timestamp);
  }

  lemma AddKeepsValid(d: Draft, c: Column, isKey: bool)
    requires ValidDraft(d) && c.id <= U32_MAX && Add(d, c, isKey).Ok?
    ensures ValidDraft(Add(d, c, isKey).value)
  {
    var e := c.(id := AllocId(d, c.id).value);
    if isKey {
      AddKeyKeepsValid(d, e);
    } else {
      AddNormalKeepsValid(d, e);
    }
  }

  /** Whatever is built is well formed. */
  lemma BuiltIsWellFormed(d: Draft)
    requires ValidDraft(d)
    ensures Build(d).Ok? ==> WellFormed(Build(d).value)
  {
  }

  // ---------------------------------------------------------------------------
  // Rebuilding a schema column by column
  // ---------------------------------------------------------------------------

  /** The keys among the first `k` columns. */
  function KeysBelow(keys: seq<nat>, k: nat): seq<nat> {
    if k == 0 then []
    else if k - 1 in keys then KeysBelow(keys, k - 1) + [k - 1]
    else KeysBelow(keys, k - 1)
  }

  /** The builder after the first `k` columns of the schema were added to it. */
  function DraftOf(s: Schema, k: nat): Draft
    requires k <= |s.columns|
  {
    Draft(s.columns[..k], KeysBelow(s.keys, k), if s.timestampIndex < k then Some(s.timestampIndex) else None,
          Names(s.columns[..k]), Ids(s.columns[..k]), s.version, false, MaxId(s.columns[..k]))
  }

  /** Every next column of a well-formed schema is accepted. */
  lemma RebuildStep(s: Schema, k: nat)
    requires WellFormed(s) && k < |s.columns|
    ensures Add(DraftOf(s, k), s.columns[k], k in s.keys) == Ok(DraftOf(s, k + 1))
  {
    var cs, c := s.columns[..k], s.columns[k];
    assert s.columns[..k + 1] == cs + [c];
    SetsSnoc(cs, c);
    if c.name in Names(cs) {
      var i := NameOf(cs, c.name);
    }
    if c.id in Ids(cs) {
      var i := IdOf(cs, c.id);
    }
    if k in s.keys {
      var i :| 0 <= i < |s.keys| && s.keys[i] == k;
      assert !s.columns[s.keys[i]].nullable && IsKeyKind(s.columns[s.keys[i]].kind);
      assert c.kind.TimestampKind? <==> k == s.timestampIndex;
    }
  }

  /** The keys below `k` are a prefix of ascending keys. */
  lemma {:induction false} KeysBelowIsPrefix(keys: seq<nat>, k: nat) returns (n: nat)
    requires Ascending(keys)
    ensures n <= |keys| && KeysBelow(keys, k) == keys[..n]
    ensures forall i :: 0 <= i < |keys| ==> (keys[i] < k <==> i < n)
  {
    if k == 0 {
      n := 0;
    } else {
      n := KeysBelowIsPrefix(keys, k - 1);
      if k - 1 in keys {
        var i :| 0 <= i < |keys| && keys[i] == k - 1;
        assert k - 1 <= keys[n] <= keys[i];
        assert keys[..n + 1] == keys[..n] + [k - 1];
        n := n + 1;
      }
    }
  }

  lemma AllKeysBelow(s: Schema)
    requires WellFormed(s)
    ensures KeysBelow(s.keys, |s.columns|) == s.keys
  {
    var n := KeysBelowIsPrefix(s.keys, |s.columns|);
    assert s.keys != [] && s.keys[|s.keys| - 1] < |s.columns|;
    assert s.keys[..|s.keys|] == s.keys;
  }

  /** The builder that was given all columns of a well-formed schema builds that schema. */
  lemma RebuiltIsSame(s: Schema)
    requires WellFormed(s)
    ensures Build(DraftOf(s, |s.columns|)) == Ok(s)
  {
    AllKeysBelow(s);
    assert s.columns[..|s.columns|] == s.columns;
    var i :| 0 <= i < |s.keys| && s.keys[i] == s.timestampIndex;
    assert s.keys[i] < |s.columns|;
  }

  // ---------------------------------------------------------------------------
  // The builder itself
  // ---------------------------------------------------------------------------

  class Builder {
    var columns: seq<Column>
    var keys: seq<nat>
    var timestamp: Option<nat>
    var names: set<string>
    var ids: set<nat>
    var version: nat
    var autoIncrement: bool
    var maxId: nat

    function Contents(): Draft
      reads this
    {
      Draft(columns, keys, timestamp, names, ids, version, autoIncrement, maxId)
    }

    ghost predicate Valid()
      reads this
    {
      ValidDraft(Contents())
    }

    constructor ()
      ensures Valid() && Contents() == EMPTY
    {
      columns, keys, timestamp, names, ids := [], [], None, {}, {};
      version, autoIncrement, maxId := DEFAULT_SCHEMA_VERSION, false, COLUMN_ID_UNINIT;
    }

    method SetVersion(v: nat)
      requires Valid() && v <= U32_MAX
      modifies `version
      ensures Valid() && Contents() == old(Contents()).(version := v)
    {
      version := v;
    }

    method SetAutoIncrement(auto: bool)
      requires Valid()
      modifies `autoIncrement
      ensures Valid() && Contents() == old(Contents()).(autoIncrement := auto)
    {
      autoIncrement := auto;
    }

    /** Gives the column an id if it has none; None is the overflow panic. */
    method MayAllocColumnId(c: Column) returns (r: Option<Column>)
      requires c.id <= U32_MAX
      modifies `maxId
      ensures r == match AllocId(old(Contents()), c.id) case None => None case Some(id) => Some(c.(id := id))
      ensures maxId == if r.Some? then Max(old(maxId), r.value.id) else old(maxId)
    {
      var id := c.id;
      if autoIncrement && id == COLUMN_ID_UNINIT {
        if maxId + 1 > U32_MAX {
          return None;
        }
        id := maxId + 1;
      }
      maxId := if maxId < id then id else maxId;
      return Some(c.(id := id));
    }

    method ValidateColumn(c: Column, isKey: bool) returns (error: Option<BuildError>)
      ensures error.None? <==> c.name !in names && (isKey ==> IsKeyKind(c.kind)) && c.id !in ids
      ensures c.name in names ==> error == Some(ColumnNameExists)
      ensures c.name !in names && isKey && !IsKeyKind(c.kind) ==> error == Some(KeyColumnType)
      ensures c.name !in names && (isKey ==> IsKeyKind(c.kind)) && c.id in ids ==> error == Some(ColumnIdExists)
    {
      if c.name in names {
        return Some(ColumnNameExists);
      }
      if isKey && !IsKeyKind(c.kind) {
        return Some(KeyColumnType);
      }
      if c.id in ids {
        return Some(ColumnIdExists);
      }
      return None;
    }

    /** An error consumes the builder, so nothing is promised about it then. */
    method AddKeyColumn(column: Column) returns (error: Option<BuildError>)
      requires Valid() && column.id <= U32_MAX
      modifies this
      ensures match Add(old(Contents()), column, true)
        case Err(e) => error == Some(e)
        case Ok(d) => error.None? && Valid() && Contents() == d
    {
      ghost var was := Contents();
      var given := MayAllocColumnId(column);
      if given.None? {
        return Some(Panicked);
      }
      var c := given.value;
      error := ValidateColumn(c, true);
      if error.Some? {
        return;
      }
      if c.nullable {
        return Some(NullKeyColumn);
      }
      if c.kind.TimestampKind? {
        if timestamp.Some? {
          return Some(TimestampKeyExists);
        }
        timestamp := Some(|columns|);
      }
      keys := keys + [|columns|];
      InsertNewColumn(c);
      assert Contents() == Add(was, column, true).value;
      AddKeepsValid(was, column, true);
    }

    method AddNormalColumn(column: Column) returns (error: Option<BuildError>)
      requires Valid() && column.id <= U32_MAX
      modifies this
      ensures match Add(old(Contents()), column, false)
        case Err(e) => error == Some(e)
        case Ok(d) => error.None? && Valid() && Contents() == d
    {
      ghost var was := Contents();
      var given := MayAllocColumnId(column);
      if given.None? {
        return Some(Panicked);
      }
      error := ValidateColumn(given.value, false);
      if error.Some? {
        return;
      }
      InsertNewColumn(given.value);
      assert Contents() == Add(was, column, false).value;
      AddKeepsValid(was, column, false);
    }

    method InsertNewColumn(c: Column)
      modifies `columns, `names, `ids
      ensures columns == old(columns) + [c] && names == old(names) + {c.name} && ids == old(ids) + {c.id}
    {
      names := names + {c.name};
      ids := ids + {c.id};
      columns := columns + [c];
    }

    /** Whatever comes out is well formed. */
    method Finish() returns (r: Result<Schema, BuildError>)
      requires Valid()
      ensures r == Build(Contents())
      ensures r.Ok? ==> WellFormed(r.value)
    {
      if timestamp.None? {
        return Err(TimestampNotInPrimaryKey);
      }
      var tsid := FindName(columns, TSID_COLUMN);
      if tsid.Some? {
        if |keys| != 2 {
          return Err(InvalidPrimaryKeyWithTsid);
        }
      }
      BuiltIsWellFormed(Contents());
      return Ok(Schema(columns, keys, timestamp.value, tsid, version));
    }
  }
}
