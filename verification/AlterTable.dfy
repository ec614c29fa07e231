/** ALTER TABLE ADD COLUMN: the next schema of a table, and chains of such steps. */
module AlterTable {
  import opened Common
  import opened Schema

  datatype AlterError = AddNotNull | AddColumnSchema(e: BuildError) | BuildSchema(e: BuildError) | VersionOverflow

  /** The added columns with the ids that follow `last`. */
  function Numbered(added: seq<Column>, last: nat): (r: seq<Column>)
    ensures |r| == |added|
    ensures forall i :: 0 <= i < |r| ==> r[i] == added[i].(id := last + 1 + i)
  {
    seq(|added|, i requires 0 <= i < |added| => added[i].(id := last + 1 + i))
  }

  /** The columns of the next schema. */
  function NextColumns(s: Schema, added: seq<Column>): seq<Column> {
    s.columns + Numbered(added, MaxId(s.columns))
  }

  /** The next schema: old columns, keys and timestamp kept, the version one up. */
  function Next(s: Schema, added: seq<Column>): Schema {
    var columns := NextColumns(s, added);
    Schema(columns, s.keys, s.timestampIndex, FindName(columns, TSID_COLUMN), s.version + 1)
  }

  predicate AllNullable(cs: seq<Column>) { forall i :: 0 <= i < |cs| ==> cs[i].nullable }

  /** When columns can be added. */
  predicate CanAdd(s: Schema, added: seq<Column>) {
    && s.version + 1 <= U32_MAX
    && AllNullable(added)
    && MaxId(s.columns) + |added| <= U32_MAX
    && DistinctNames(NextColumns(s, added))
    && (FindName(NextColumns(s, added), TSID_COLUMN).Some? ==> |s.keys| == 2)
  }

  // ---------------------------------------------------------------------------
  // One step
  // ---------------------------------------------------------------------------

  /** A builder that allocates ids and holds these columns. */
  function DraftAt(s: Schema, columns: seq<Column>): Draft {
    Draft(columns, s.keys, Some(s.timestampIndex), Names(columns), Ids(columns), s.version, true, MaxId(columns))
  }

  /** The builder after all old columns and the first `k` added ones. */
  function DraftWith(s: Schema, added: seq<Column>, k: nat): Draft
    requires k <= |added|
  {
    DraftAt(s, NextColumns(s, added[..k]))
  }

  lemma NextColumnsSnoc(s: Schema, added: seq<Column>, k: nat)
    requires k < |added|
    ensures NextColumns(s, added[..k + 1])
         == NextColumns(s, added[..k]) + [added[k].(id := MaxId(s.columns) + 1 + k)]
  {
  }

  lemma {:induction false} NextMaxId(s: Schema, added: seq<Column>, k: nat)
    requires k <= |added|
    ensures MaxId(NextColumns(s, added[..k])) == MaxId(s.columns) + k
  {
    if k == 0 {
      assert NextColumns(s, added[..0]) == s.columns;
    } else {
      NextMaxId(s, added, k - 1);
      NextColumnsSnoc(s, added, k - 1);
      SetsSnoc(NextColumns(s, added[..k - 1]), added[k - 1].(id := MaxId(s.columns) + k));
    }
  }

  /** With ids allocated, the overflow of the id or a name that exists stops a column. */
  lemma AddIsRefused(d: Draft, c: Column)
    requires d.autoIncrement && (d.maxId + 1 > U32_MAX || c.name in d.names)
    ensures Add(d, c.(id := COLUMN_ID_UNINIT), false) == Err(if d.maxId + 1 > U32_MAX then Panicked else ColumnNameExists)
  {
  }

  /** Nothing else does, and the column gets the next id. */
  lemma AddIsAccepted(d: Draft, c: Column)
    requires d.autoIncrement && d.maxId + 1 <= U32_MAX && c.name !in d.names && d.maxId + 1 !in d.ids
    ensures Add(d, c.(id := COLUMN_ID_UNINIT), false) == Ok(Inserted(d, c.(id := d.maxId + 1)))
  {
  }

  lemma NextIdIsFresh(columns: seq<Column>)
    ensures MaxId(columns) + 1 !in Ids(columns)
  {
    if MaxId(columns) + 1 in Ids(columns) {
      var i := IdOf(columns, MaxId(columns) + 1);
    }
  }

  lemma InsertedAt(s: Schema, columns: seq<Column>, c: Column)
    ensures Inserted(DraftAt(s, columns), c) == DraftAt(s, columns + [c])
  {
    SetsSnoc(columns, c);
  }

  /** What becomes of adding a column to these columns, with `next` the columns if it is added. */
  function Outcome(s: Schema, columns: seq<Column>, c: Column, next: seq<Column>): Result<Draft, BuildError> {
    if MaxId(columns) + 1 > U32_MAX then Err(Panicked)
    else if c.name in Names(columns) then Err(ColumnNameExists)
    else Ok(DraftAt(s, next))
  }

  /** An added column gets the next id, and only its name or the overflow of the id stops it. */
  lemma AddStep(s: Schema, columns: seq<Column>, c: Column, next: seq<Column>)
    requires next == columns + [c.(id := MaxId(columns) + 1)]
    ensures Add(DraftAt(s, columns), c.(id := COLUMN_ID_UNINIT), false) == Outcome(s, columns, c, next)
  {
    if MaxId(columns) + 1 > U32_MAX || c.name in Names(columns) {
      AddIsRefused(DraftAt(s, columns), c);
    } else {
      NextIdIsFresh(columns);
      AddIsAccepted(DraftAt(s, columns), c);
      InsertedAt(s, columns, c.(id := MaxId(columns) + 1));
    }
  }

  /** Some added column stands in the way of all. */
  predicate CannotAddColumns(s: Schema, added: seq<Column>) {
    || !AllNullable(added) || MaxId(s.columns) + |added| > U32_MAX || !DistinctNames(NextColumns(s, added))
  }

  lemma NameExists(s: Schema, added: seq<Column>, k: nat)
    requires k < |added| && added[k].name in Names(NextColumns(s, added[..k]))
    ensures !DistinctNames(NextColumns(s, added))
  {
    var before, all := NextColumns(s, added[..k]), NextColumns(s, added);
    var i := NameOf(before, added[k].name);
    assert all[i].name == before[i].name && all[|s.columns| + k].name == added[k].name;
  }

  lemma NextOf(s: Schema, added: seq<Column>, k: nat)
    requires k < |added|
    ensures var columns := NextColumns(s, added[..k]);
      NextColumns(s, added[..k + 1]) == columns + [added[k].(id := MaxId(columns) + 1)]
  {
    NextMaxId(s, added, k);
    NextColumnsSnoc(s, added, k);
  }

  lemma NullableSnoc(added: seq<Column>, k: nat)
    requires k < |added| && added[k].nullable && AllNullable(added[..k])
    ensures AllNullable(added[..k + 1])
  {
    assert added[..k + 1] == added[..k] + [added[k]];
  }

  /** One more column is added, or the columns cannot all be added. */
  predicate AddedOrRefused(s: Schema, added: seq<Column>, k: nat, o: Result<Draft, BuildError>)
    requires k < |added|
  {
    match o
    case Err(_) => CannotAddColumns(s, added)
    case Ok(d) => d == DraftWith(s, added, k + 1) && MaxId(s.columns) + k + 1 <= U32_MAX
  }

  lemma OutcomeDecides(s: Schema, added: seq<Column>, k: nat, columns: seq<Column>)
    requires k < |added| && columns == NextColumns(s, added[..k])
    ensures AddedOrRefused(s, added, k, Outcome(s, columns, added[k], NextColumns(s, added[..k + 1])))
  {
    NextMaxId(s, added, k);
    if added[k].name in Names(columns) {
      NameExists(s, added, k);
    }
  }

  lemma AddDecides(s: Schema, added: seq<Column>, k: nat)
    requires k < |added|
    ensures AddedOrRefused(s, added, k, Add(DraftWith(s, added, k), added[k].(id := COLUMN_ID_UNINIT), false))
  {
    var columns, next := NextColumns(s, added[..k]), NextColumns(s, added[..k + 1]);
    NextOf(s, added, k);
    AddStep(s, columns, added[k], next);
    OutcomeDecides(s, added, k, columns);
  }

  lemma AllAdded(s: Schema, added: seq<Column>)
    requires AllNullable(added[..|added|]) && MaxId(s.columns) + |added| <= U32_MAX
    requires ValidDraft(DraftWith(s, added, |added|))
    ensures !CannotAddColumns(s, added)
  {
    assert added[..|added|] == added;
  }

  lemma CannotAdd(s: Schema, added: seq<Column>)
    requires CannotAddColumns(s.(version := s.version + 1), added)
    ensures !CanAdd(s, added)
  {
  }

  /** With all columns added, only a tsid column without the right keys can still fail. */
  lemma BuildDecides(s: Schema, added: seq<Column>)
    requires s.version + 1 <= U32_MAX && !CannotAddColumns(s.(version := s.version + 1), added)
    ensures match Build(DraftWith(s.(version := s.version + 1), added, |added|))
      case Err(_) => !CanAdd(s, added)
      case Ok(t) => CanAdd(s, added) && t == Next(s, added)
  {
    assert added[..|added|] == added;
  }

  lemma NothingCopied(s: Schema)
    ensures DraftOf(s, 0) == EMPTY.(version := s.version)
  {
  }

  /** Building on from all old columns, with ids allocated. */
  lemma FirstDraft(s: Schema, added: seq<Column>)
    requires WellFormed(s)
    ensures DraftWith(s, added, 0) == DraftOf(s, |s.columns|).(autoIncrement := true)
  {
    AllKeysBelow(s);
    assert NextColumns(s, added[..0]) == s.columns == s.columns[..|s.columns|];
    var i :| 0 <= i < |s.keys| && s.keys[i] == s.timestampIndex;
    assert s.keys[i] < |s.columns|;
  }

  lemma NextVersionIsWellFormed(s: Schema)
    requires WellFormed(s) && s.version + 1 <= U32_MAX
    ensures WellFormed(s.(version := s.version + 1))
  {
  }

  /** Adds the columns of `base` to an empty builder of its version; none is refused. */
  method CopyColumns(builder: Builder, base: Schema)
    requires WellFormed(base) && builder.Valid() && builder.Contents() == DraftOf(base, 0)
    modifies builder
    ensures builder.Valid() && builder.Contents() == DraftOf(base, |base.columns|)
  {
    for i := 0 to |base.columns|
      invariant builder.Valid() && builder.Contents() == DraftOf(base, i)
    {
      RebuildStep(base, i);
      var error;
      if i in base.keys {
        error := builder.AddKeyColumn(base.columns[i]);
      } else {
        error := builder.AddNormalColumn(base.columns[i]);
      }
      assert error.None?;
    }
  }

  /** Adds the new columns, each with its id reset. */
  method AddColumns(builder: Builder, base: Schema, added: seq<Column>) returns (error: Option<AlterError>)
    requires builder.Valid() && builder.Contents() == DraftWith(base, added, 0) && MaxId(base.columns) <= U32_MAX
    modifies builder
    ensures error.Some? ==> CannotAddColumns(base, added) && error.value != VersionOverflow
    ensures error.None? ==> !CannotAddColumns(base, added)
    ensures error.None? ==> builder.Valid() && builder.Contents() == DraftWith(base, added, |added|)
  {
    for k := 0 to |added|
      invariant builder.Valid() && builder.Contents() == DraftWith(base, added, k)
      invariant AllNullable(added[..k]) && MaxId(base.columns) + k <= U32_MAX
    {
      var column := added[k].(id := COLUMN_ID_UNINIT);
      if !column.nullable {
        return Some(AddNotNull);
      }
      NullableSnoc(added, k);
      AddDecides(base, added, k);
      var refused := builder.AddNormalColumn(column);
      if refused.Some? {
        return Some(AddColumnSchema(refused.value));
      }
    }
    AllAdded(base, added);
    return None;
  }

  lemma {:induction false} MaxIdIsSmall(cs: seq<Column>)
    requires SmallIds(cs)
    ensures MaxId(cs) <= U32_MAX
  {
    if cs != [] {
      MaxIdIsSmall(cs[..|cs| - 1]);
    }
  }

  /** The new schema, or an error exactly when the columns cannot be added. */
  method BuildNewSchema(current: Schema, added: seq<Column>) returns (r: Result<Schema, AlterError>)
    requires WellFormed(current)
    ensures r.Ok? <==> CanAdd(current, added)
    ensures r.Ok? ==> r.value == Next(current, added) && WellFormed(r.value)
    ensures r == Err(VersionOverflow) <==> current.version + 1 > U32_MAX
  {
    if current.version + 1 > U32_MAX {
      return Err(VersionOverflow);
    }
    var base := current.(version := current.version + 1);
    NextVersionIsWellFormed(current);
    var builder := new Builder();
    builder.SetVersion(base.version);
    NothingCopied(base);
    CopyColumns(builder, base);
    builder.SetAutoIncrement(true);
    FirstDraft(base, added);
    MaxIdIsSmall(base.columns);
    var error := AddColumns(builder, base, added);
    if error.Some? {
      CannotAdd(current, added);
      return Err(error.value);
    }
    BuildDecides(current, added);
    var built := builder.Finish();
    match built {
      case Err(e) => return Err(BuildSchema(e));
      case Ok(schema) => return Ok(schema);
    }
  }

  // ---------------------------------------------------------------------------
  // Chains of steps
  // ---------------------------------------------------------------------------

  ghost predicate IsStep(s: Schema, t: Schema) {
    exists added :: CanAdd(s, added) && t == Next(s, added)
  }

  /** The schemas of a table from its creation on. */
  ghost predicate IsChain(schemas: seq<Schema>) {
    && schemas != [] && WellFormed(schemas[0])
    && forall i :: 0 <= i < |schemas| - 1 ==> IsStep(schemas[i], schemas[i + 1])
  }

  /** `ts` starts with `cs`, and what is new is nullable. */
  predicate ColumnsExtend(cs: seq<Column>, ts: seq<Column>) {
    cs <= ts && forall i :: |cs| <= i < |ts| ==> ts[i].nullable
  }

  predicate Extends(s: Schema, t: Schema) {
    ColumnsExtend(s.columns, t.columns) && t.keys == s.keys && t.timestampIndex == s.timestampIndex
  }

  lemma NextColumnsOk(s: Schema, added: seq<Column>)
    requires ColumnsOk(s.columns) && CanAdd(s, added)
    ensures ColumnsOk(NextColumns(s, added)) && ColumnsExtend(s.columns, NextColumns(s, added))
  {
  }

  lemma KeysOfLonger(cs: seq<Column>, ts: seq<Column>, keys: seq<nat>, t: nat)
    requires cs <= ts && KeysInRange(cs, keys) && KeyColumnsOk(cs, keys) && IsTimestampKey(cs, keys, t)
    ensures KeysInRange(ts, keys) && KeyColumnsOk(ts, keys) && IsTimestampKey(ts, keys, t)
  {
  }

  lemma StepExtends(s: Schema, t: Schema)
    requires WellFormed(s) && IsStep(s, t)
    ensures WellFormed(t) && Extends(s, t) && t.version == s.version + 1
  {
    var added :| CanAdd(s, added) && t == Next(s, added);
    NextColumnsOk(s, added);
    KeysOfLonger(s.columns, t.columns, s.keys, s.timestampIndex);
  }

  lemma ExtendsTransitive(r: Schema, s: Schema, t: Schema)
    requires Extends(r, s) && Extends(s, t)
    ensures Extends(r, t)
  {
  }

  lemma {:induction false} ChainIsWellFormed(schemas: seq<Schema>, i: nat)
    requires IsChain(schemas) && i < |schemas|
    ensures WellFormed(schemas[i]) && schemas[i].version == schemas[0].version + i
  {
    if i > 0 {
      ChainIsWellFormed(schemas, i - 1);
      assert IsStep(schemas[i - 1], schemas[i - 1 + 1]);
      StepExtends(schemas[i - 1], schemas[i]);
    }
  }

  lemma StepAt(schemas: seq<Schema>, j: nat)
    requires IsChain(schemas) && 0 < j < |schemas|
    ensures Extends(schemas[j - 1], schemas[j])
  {
  }

  lemma {:induction false} LaterExtends(schemas: seq<Schema>, i: nat, j: nat)
    requires IsChain(schemas) && i <= j < |schemas|
    ensures Extends(schemas[i], schemas[j])
    decreases j
  {
    if i < j {
      LaterExtends(schemas, i, j - 1);
      StepAt(schemas, j);
      ExtendsTransitive(schemas[i], schemas[j - 1], schemas[j]);
    }
  }

  /** Along a chain columns are only added at the end, keys stay, and versions count the steps. */
  lemma ChainExtends(schemas: seq<Schema>, i: nat, j: nat)
    requires IsChain(schemas) && i <= j < |schemas|
    ensures WellFormed(schemas[i]) && WellFormed(schemas[j])
    ensures Extends(schemas[i], schemas[j]) && schemas[j].version == schemas[i].version + (j - i)
  {
    ChainIsWellFormed(schemas, i);
    ChainIsWellFormed(schemas, j);
    LaterExtends(schemas, i, j);
  }
}
