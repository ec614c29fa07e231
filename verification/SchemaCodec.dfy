/** Schemas as protobuf messages and as arrow schemas, and back. */
module SchemaCodec {
  import opened Common
  import opened Schema
  import opened AlterTable

  // ---------------------------------------------------------------------------
  // Protobuf
  // ---------------------------------------------------------------------------

  datatype PbColumn = PbColumn(
    id: nat, name: string, kind: DatumKind, nullable: bool, tag: bool, dictionary: bool, comment: string,
    defaultValue: Option<seq<int>>)

  datatype PbSchema = PbSchema(timestampId: nat, version: nat, columns: seq<PbColumn>, keyIds: seq<nat>)

  /** How default value expressions are written and read. */
  datatype ExprCodec = ExprCodec(encode: Expr -> seq<int>, decode: seq<int> -> Option<Expr>)

  datatype PbError = DecodeDefaultValue | Invalid(e: BuildError)

  function ToPbColumn(x: ExprCodec, c: Column): PbColumn {
    PbColumn(c.id, c.name, c.kind, c.nullable, c.tag, c.dictionary, c.comment,
             match c.defaultValue case None => None case Some(e) => Some(x.encode(e)))
  }

  function FromPbColumn(x: ExprCodec, c: PbColumn): Option<Column> {
    match c.defaultValue
    case None => Some(Column(c.id, c.name, c.kind, c.nullable, c.tag, c.dictionary, c.comment, None))
    case Some(bytes) =>
      match x.decode(bytes)
      case None => None
      case Some(e) => Some(Column(c.id, c.name, c.kind, c.nullable, c.tag, c.dictionary, c.comment, Some(e)))
  }

  /** A column is refused exactly if it has a default value that cannot be decoded. */
  lemma ColumnRefusedIff(x: ExprCodec, c: PbColumn)
    ensures FromPbColumn(x, c) == None <==> c.defaultValue.Some? && x.decode(c.defaultValue.value).None?
  {
  }

  function ToPb(x: ExprCodec, s: Schema): PbSchema
    requires s.timestampIndex < |s.columns| && KeysInRange(s.columns, s.keys)
  {
    PbSchema(s.columns[s.timestampIndex].id, s.version,
             seq(|s.columns|, i requires 0 <= i < |s.columns| => ToPbColumn(x, s.columns[i])),
             seq(|s.keys|, i requires 0 <= i < |s.keys| => s.columns[s.keys[i]].id))
  }

  predicate PbInRange(pb: PbSchema) {
    pb.version <= U32_MAX && forall i :: 0 <= i < |pb.columns| ==> pb.columns[i].id <= U32_MAX
  }

  /** The builder after the first `k` columns of the message. */
  function DraftOfPb(x: ExprCodec, pb: PbSchema, k: nat): Result<Draft, PbError>
    requires k <= |pb.columns|
  {
    if k == 0 then Ok(EMPTY.(version := pb.version))
    else match DraftOfPb(x, pb, k - 1)
      case Err(e) => Err(e)
      case Ok(d) => AddPb(x, d, pb.columns[k - 1], pb.keyIds)
  }

  /** Adds a column of the message, as a key if its id is among the key ids. */
  function AddPb(x: ExprCodec, d: Draft, column: PbColumn, keyIds: seq<nat>): Result<Draft, PbError> {
    match FromPbColumn(x, column)
    case None => Err(DecodeDefaultValue)
    case Some(c) => match Add(d, c, c.id in keyIds) case Err(e) => Err(Invalid(e)) case Ok(e) => Ok(e)
  }

  function FromPb(x: ExprCodec, pb: PbSchema): Result<Schema, PbError> {
    match DraftOfPb(x, pb, |pb.columns|)
    case Err(e) => Err(e)
    case Ok(d) => match Build(d) case Err(e) => Err(Invalid(e)) case Ok(s) => Ok(s)
  }

  lemma {:induction false} FailsForGood(x: ExprCodec, pb: PbSchema, k: nat, n: nat)
    requires k <= n <= |pb.columns| && DraftOfPb(x, pb, k).Err?
    ensures DraftOfPb(x, pb, n) == DraftOfPb(x, pb, k)
  {
    if k < n {
      FailsForGood(x, pb, k, n - 1);
    }
  }

  /** One more column, or the error that ends it all. */
  lemma NextDraft(x: ExprCodec, pb: PbSchema, k: nat, d: Draft)
    requires k < |pb.columns| && DraftOfPb(x, pb, k) == Ok(d)
    ensures match AddPb(x, d, pb.columns[k], pb.keyIds)
      case Err(e) => DraftOfPb(x, pb, |pb.columns|) == Err(e)
      case Ok(d') => DraftOfPb(x, pb, k + 1) == Ok(d')
  {
    assert DraftOfPb(x, pb, k + 1) == AddPb(x, d, pb.columns[k], pb.keyIds);
    if DraftOfPb(x, pb, k + 1).Err? {
      FailsForGood(x, pb, k + 1, |pb.columns|);
    }
  }

  method AddPbColumn(x: ExprCodec, builder: Builder, pb: PbColumn, keyIds: seq<nat>) returns (error: Option<PbError>)
    requires builder.Valid() && pb.id <= U32_MAX
    modifies builder
    ensures match AddPb(x, old(builder.Contents()), pb, keyIds)
      case Err(e) => error == Some(e)
      case Ok(d) => error.None? && builder.Valid() && builder.Contents() == d
  {
    var column := FromPbColumn(x, pb);
    if column.None? {
      return Some(DecodeDefaultValue);
    }
    var refused;
    if column.value.id in keyIds {
      refused := builder.AddKeyColumn(column.value);
    } else {
      refused := builder.AddNormalColumn(column.value);
    }
    return if refused.Some? then Some(Invalid(refused.value)) else None;
  }

  /** Adds the columns one by one. */
  method AddPbColumns(x: ExprCodec, builder: Builder, pb: PbSchema) returns (error: Option<PbError>)
    requires PbInRange(pb) && builder.Valid() && builder.Contents() == EMPTY.(version := pb.version)
    modifies builder
    ensures match DraftOfPb(x, pb, |pb.columns|)
      case Err(e) => error == Some(e)
      case Ok(d) => error.None? && builder.Valid() && builder.Contents() == d
  {
    for k := 0 to |pb.columns|
      invariant builder.Valid() && DraftOfPb(x, pb, k) == Ok(builder.Contents())
    {
      NextDraft(x, pb, k, builder.Contents());
      error := AddPbColumn(x, builder, pb.columns[k], pb.keyIds);
      if error.Some? {
        return;
      }
    }
    return None;
  }

  /** Builds the schema of a message; whatever comes out is well formed. */
  method DecodePb(x: ExprCodec, pb: PbSchema) returns (r: Result<Schema, PbError>)
    requires PbInRange(pb)
    ensures r == FromPb(x, pb)
    ensures r.Ok? ==> WellFormed(r.value)
  {
    var builder := new Builder();
    builder.SetVersion(pb.version);
    var error := AddPbColumns(x, builder, pb);
    if error.Some? {
      return Err(error.value);
    }
    var built := builder.Finish();
    match built {
      case Err(e) => return Err(Invalid(e));
      case Ok(s) => return Ok(s);
    }
  }

  /** The codec gives back the default values of the columns. */
  predicate ReadsDefaults(x: ExprCodec, cs: seq<Column>) {
    forall i :: 0 <= i < |cs| && cs[i].defaultValue.Some? ==>
      x.decode(x.encode(cs[i].defaultValue.value)) == Some(cs[i].defaultValue.value)
  }

  lemma ColumnRoundTrip(x: ExprCodec, c: Column)
    requires c.defaultValue.Some? ==> x.decode(x.encode(c.defaultValue.value)) == Some(c.defaultValue.value)
    ensures FromPbColumn(x, ToPbColumn(x, c)) == Some(c)
  {
  }

  /** Ids are distinct, so a column is a key exactly when its id is a key id. */
  lemma KeysById(x: ExprCodec, s: Schema, k: nat)
    requires WellFormed(s) && k < |s.columns| && s.timestampIndex < |s.columns|
    ensures s.columns[k].id in ToPb(x, s).keyIds <==> k in s.keys
  {
    var ids := ToPb(x, s).keyIds;
    if k in s.keys {
      var i :| 0 <= i < |s.keys| && s.keys[i] == k;
      assert ids[i] == s.columns[k].id;
    }
    if s.columns[k].id in ids {
      var i :| 0 <= i < |ids| && ids[i] == s.columns[k].id;
      assert s.columns[s.keys[i]].id == s.columns[k].id;
      assert s.keys[i] == k;
    }
  }

  lemma TimestampInRange(s: Schema)
    requires WellFormed(s)
    ensures s.timestampIndex < |s.columns|
  {
  }

  lemma AgreeStep(x: ExprCodec, s: Schema, k: nat)
    requires WellFormed(s) && s.timestampIndex < |s.columns| && ReadsDefaults(x, s.columns) && k < |s.columns|
    ensures AddPb(x, DraftOf(s, k), ToPb(x, s).columns[k], ToPb(x, s).keyIds) == Ok(DraftOf(s, k + 1))
  {
    ColumnRoundTrip(x, s.columns[k]);
    KeysById(x, s, k);
    RebuildStep(s, k);
  }

  /** The builder goes through these states. */
  predicate AreDrafts(x: ExprCodec, pb: PbSchema, drafts: seq<Draft>) {
    && |drafts| == |pb.columns| + 1 && drafts[0] == EMPTY.(version := pb.version)
    && forall k :: 0 <= k < |pb.columns| ==> AddPb(x, drafts[k], pb.columns[k], pb.keyIds) == Ok(drafts[k + 1])
  }

  lemma {:induction false} DraftsFollow(x: ExprCodec, pb: PbSchema, drafts: seq<Draft>, k: nat)
    requires AreDrafts(x, pb, drafts) && k <= |pb.columns|
    ensures DraftOfPb(x, pb, k) == Ok(drafts[k])
  {
    if k > 0 {
      DraftsFollow(x, pb, drafts, k - 1);
      assert AddPb(x, drafts[k - 1], pb.columns[k - 1], pb.keyIds) == Ok(drafts[k - 1 + 1]);
    }
  }

  function DraftsOf(s: Schema): (r: seq<Draft>)
    ensures |r| == |s.columns| + 1 && forall k :: 0 <= k <= |s.columns| ==> r[k] == DraftOf(s, k)
  {
    seq(|s.columns| + 1, k requires 0 <= k <= |s.columns| => DraftOf(s, k))
  }

  lemma DraftsAgree(x: ExprCodec, s: Schema)
    requires WellFormed(s) && s.timestampIndex < |s.columns| && ReadsDefaults(x, s.columns)
    ensures DraftOfPb(x, ToPb(x, s), |s.columns|) == Ok(DraftOf(s, |s.columns|))
  {
    var pb, drafts := ToPb(x, s), DraftsOf(s);
    NothingCopied(s);
    forall k | 0 <= k < |s.columns|
      ensures AddPb(x, drafts[k], pb.columns[k], pb.keyIds) == Ok(drafts[k + 1])
    {
      AgreeStep(x, s, k);
    }
    DraftsFollow(x, pb, drafts, |s.columns|);
  }

  /** Every builder-made schema survives the way to protobuf and back. */
  lemma PbRoundTrip(x: ExprCodec, s: Schema)
    requires WellFormed(s) && ReadsDefaults(x, s.columns)
    ensures s.timestampIndex < |s.columns| && FromPb(x, ToPb(x, s)) == Ok(s)
  {
    TimestampInRange(s);
    DraftsAgree(x, s);
    RebuiltIsSame(s);
  }

  // ---------------------------------------------------------------------------
  // Text in the arrow metadata
  // ---------------------------------------------------------------------------

  const USIZE_MAX: nat := 0xFFFF_FFFF_FFFF_FFFF

  /** Unsigned integers as Rust reads them: an optional plus sign, digits, and no overflow. */
  function ParseUnsigned(s: string, max: nat): Option<nat> {
    var digits := if s != [] && s[0] == '+' then s[1..] else s;
    if digits == [] || !AllDigits(digits) || DigitsValue(digits) > max then None else Some(DigitsValue(digits))
  }

  lemma UnsignedRoundTrip(n: nat, max: nat)
    requires n <= max
    ensures ParseUnsigned(Decimal(n), max) == Some(n)
  {
    DecimalValue(n);
    assert IsDigit(Decimal(n)[0]);
  }

  function PrintBool(b: bool): string { if b then "true" else "false" }

  function ParseBool(s: string): Option<bool> {
    if s == "true" then Some(true) else if s == "false" then Some(false) else None
  }

  lemma BoolRoundTrip(b: bool)
    ensures ParseBool(PrintBool(b)) == Some(b)
  {
  }

  /** The numbers with commas between them. */
  function PrintIndexes(keys: seq<nat>): string {
    if keys == [] then ""
    else if |keys| == 1 then Decimal(keys[0])
    else Decimal(keys[0]) + "," + PrintIndexes(keys[1..])
  }

  /** The parts between the commas; there is always at least one. */
  function Split(s: string): (r: seq<string>)
    ensures r != []
  {
    if s == [] then [""]
    else
      var rest := Split(s[1..]);
      if s[0] == ',' then [""] + rest else [[s[0]] + rest[0]] + rest[1..]
  }

  function ParseAll(parts: seq<string>): Option<seq<nat>> {
    if parts == [] then Some([])
    else match (ParseUnsigned(parts[0], USIZE_MAX), ParseAll(parts[1..]))
      case (Some(n), Some(rest)) => Some([n] + rest)
      case _ => None
  }

  function ParseIndexes(s: string): Option<seq<nat>> { if s == "" then Some([]) else ParseAll(Split(s)) }

  predicate NoComma(s: string) { forall i :: 0 <= i < |s| ==> s[i] != ',' }

  /** Splitting stops at the first comma. */
  lemma {:induction false} SplitAt(a: string, rest: string)
    requires NoComma(a)
    ensures Split(a + "," + rest) == [a] + Split(rest)
  {
    var s := a + "," + rest;
    if a == [] {
      assert s[0] == ',' && s[1..] == rest;
    } else {
      SplitAt(a[1..], rest);
      assert s[1..] == a[1..] + "," + rest && s[0] == a[0];
      assert [a[0]] + a[1..] == a;
    }
  }

  lemma {:induction false} SplitNone(a: string)
    requires NoComma(a)
    ensures Split(a) == [a]
  {
    if a != [] {
      SplitNone(a[1..]);
      assert [a[0]] + a[1..] == a;
    }
  }

  predicate AreIndexes(keys: seq<nat>) { forall i :: 0 <= i < |keys| ==> keys[i] <= USIZE_MAX }

  lemma ParseAllCons(n: nat, parts: seq<string>, keys: seq<nat>)
    requires n <= USIZE_MAX && ParseAll(parts) == Some(keys)
    ensures ParseAll([Decimal(n)] + parts) == Some([n] + keys)
  {
    UnsignedRoundTrip(n, USIZE_MAX);
    assert ([Decimal(n)] + parts)[1..] == parts;
  }

  lemma DecimalHasNoComma(n: nat)
    ensures NoComma(Decimal(n))
  {
  }

  lemma {:induction false} IndexesParse(keys: seq<nat>)
    requires keys != [] && AreIndexes(keys)
    ensures PrintIndexes(keys) != "" && ParseAll(Split(PrintIndexes(keys))) == Some(keys)
  {
    DecimalHasNoComma(keys[0]);
    assert keys == [keys[0]] + keys[1..];
    if |keys| == 1 {
      SplitNone(Decimal(keys[0]));
      ParseAllCons(keys[0], [], []);
      assert [Decimal(keys[0])] + [] == [Decimal(keys[0])];
    } else {
      IndexesParse(keys[1..]);
      SplitAt(Decimal(keys[0]), PrintIndexes(keys[1..]));
      ParseAllCons(keys[0], Split(PrintIndexes(keys[1..])), keys[1..]);
    }
  }

  /** Printed key indexes are read back. */
  lemma IndexesRoundTrip(keys: seq<nat>)
    requires AreIndexes(keys)
    ensures ParseIndexes(PrintIndexes(keys)) == Some(keys)
  {
    if keys != [] {
      IndexesParse(keys);
    }
  }

  // ---------------------------------------------------------------------------
  // Arrow fields
  // ---------------------------------------------------------------------------

  datatype ArrowType =
    | ArrowNull | TimestampMillisecond | TimestampNanosecond | Float64 | Float32 | Binary | Utf8
    | ArrowUInt64 | ArrowUInt32 | ArrowUInt16 | ArrowUInt8 | ArrowInt64 | ArrowInt32 | ArrowInt16 | ArrowInt8
    | ArrowBoolean | Date32 | Time64Nanosecond | Dictionary | Unsupported

  function ToArrowType(k: DatumKind): ArrowType {
    match k
    case NullKind => ArrowNull
    case TimestampKind => TimestampMillisecond
    case DoubleKind => Float64
    case FloatKind => Float32
    case VarbinaryKind => Binary
    case StringKind => Utf8
    case UInt64Kind => ArrowUInt64
    case UInt32Kind => ArrowUInt32
    case UInt16Kind => ArrowUInt16
    case UInt8Kind => ArrowUInt8
    case Int64Kind => ArrowInt64
    case Int32Kind => ArrowInt32
    case Int16Kind => ArrowInt16
    case Int8Kind => ArrowInt8
    case BooleanKind => ArrowBoolean
    case DateKind => Date32
    case TimeKind => Time64Nanosecond
  }

  function FromArrowType(t: ArrowType): Option<DatumKind> {
    match t
    case ArrowNull => Some(NullKind)
    case TimestampMillisecond => Some(TimestampKind)
    case TimestampNanosecond => Some(TimestampKind)
    case Float64 => Some(DoubleKind)
    case Float32 => Some(FloatKind)
    case Binary => Some(VarbinaryKind)
    case Utf8 => Some(StringKind)
    case ArrowUInt64 => Some(UInt64Kind)
    case ArrowUInt32 => Some(UInt32Kind)
    case ArrowUInt16 => Some(UInt16Kind)
    case ArrowUInt8 => Some(UInt8Kind)
    case ArrowInt64 => Some(Int64Kind)
    case ArrowInt32 => Some(Int32Kind)
    case ArrowInt16 => Some(Int16Kind)
    case ArrowInt8 => Some(Int8Kind)
    case ArrowBoolean => Some(BooleanKind)
    case Date32 => Some(DateKind)
    case Time64Nanosecond => Some(TimeKind)
    case Dictionary => Some(StringKind)
    case Unsupported => None
  }

  /** A type is read as the kind that is written as it; nanoseconds are timestamps too, and dictionaries strings. */
  lemma TypesReadAs(t: ArrowType)
    ensures FromArrowType(t) == None <==> t == Unsupported
    ensures FromArrowType(t).Some? ==>
            || ToArrowType(FromArrowType(t).value) == t
            || (t == TimestampNanosecond && FromArrowType(t).value == TimestampKind)
            || (t == Dictionary && FromArrowType(t).value == StringKind)
  {
  }

  type Meta = map<string, string>

  datatype Field = Field(name: string, dataType: ArrowType, nullable: bool, meta: Meta)

  datatype ArrowSchema = ArrowSchema(fields: seq<Field>, meta: Meta)

  datatype ArrowError = KeyNotFound | InvalidValue | UnsupportedDataType

  const FIELD_ID: string := "field::id"
  const FIELD_IS_TAG: string := "field::is_tag"
  const FIELD_IS_DICTIONARY: string := "field::is_dictionary"
  const FIELD_COMMENT: string := "field::comment"

  function ToField(c: Column): Field {
    Field(c.name, if c.dictionary then Dictionary else ToArrowType(c.kind), c.nullable,
          map[FIELD_ID := Decimal(c.id), FIELD_IS_TAG := PrintBool(c.tag),
              FIELD_IS_DICTIONARY := PrintBool(c.dictionary), FIELD_COMMENT := c.comment])
  }

  /** A metadata value, parsed. */
  function Lookup<T>(meta: Meta, key: string, parse: string -> Option<T>): Result<T, ArrowError> {
    if key !in meta then Err(KeyNotFound)
    else match parse(meta[key]) case None => Err(InvalidValue) case Some(v) => Ok(v)
  }

  datatype FieldMeta = FieldMeta(id: nat, tag: bool, dictionary: bool, comment: string)

  function ParseId(s: string): Option<nat> { ParseUnsigned(s, U32_MAX) }

  function ParseComment(s: string): Option<string> { Some(s) }

  /** Empty metadata stands for the defaults. */
  function DecodeFieldMeta(meta: Meta): Result<FieldMeta, ArrowError> {
    if meta == map[] then Ok(FieldMeta(0, false, false, ""))
    else match Lookup(meta, FIELD_ID, ParseId)
      case Err(e) => Err(e)
      case Ok(id) =>
        match Lookup(meta, FIELD_IS_TAG, ParseBool)
        case Err(e) => Err(e)
        case Ok(tag) =>
          match Lookup(meta, FIELD_IS_DICTIONARY, ParseBool)
          case Err(e) => Err(e)
          case Ok(dictionary) =>
            match Lookup(meta, FIELD_COMMENT, ParseComment)
            case Err(e) => Err(e)
            case Ok(comment) => Ok(FieldMeta(id, tag, dictionary, comment))
  }

  function FromField(f: Field): Result<Column, ArrowError> {
    match DecodeFieldMeta(f.meta)
    case Err(e) => Err(e)
    case Ok(m) =>
      match FromArrowType(f.dataType)
      case None => Err(UnsupportedDataType)
      case Some(k) => Ok(Column(m.id, f.name, k, f.nullable, m.tag, m.dictionary, m.comment, None))
  }

  /** What arrow keeps of a column: no default value, and a dictionary is one of strings. */
  function Kept(c: Column): Column {
    c.(defaultValue := None, kind := if c.dictionary then StringKind else c.kind)
  }

  lemma FieldMetaRoundTrip(c: Column)
    requires c.id <= U32_MAX
    ensures DecodeFieldMeta(ToField(c).meta) == Ok(FieldMeta(c.id, c.tag, c.dictionary, c.comment))
  {
    var meta := ToField(c).meta;
    assert |FIELD_ID| == 9 && |FIELD_IS_TAG| == 13 && |FIELD_IS_DICTIONARY| == 20 && |FIELD_COMMENT| == 14;
    assert FIELD_ID in meta;
    UnsignedRoundTrip(c.id, U32_MAX);
    BoolRoundTrip(c.tag);
    BoolRoundTrip(c.dictionary);
  }

  lemma KindRoundTrip(k: DatumKind)
    ensures FromArrowType(ToArrowType(k)) == Some(k)
  {
  }

  lemma FieldRoundTrip(c: Column)
    requires c.id <= U32_MAX
    ensures FromField(ToField(c)) == Ok(Kept(c))
  {
    FieldMetaRoundTrip(c);
    KindRoundTrip(c.kind);
  }

  // ---------------------------------------------------------------------------
  // Arrow schemas
  // ---------------------------------------------------------------------------

  const SCHEMA_KEYS: string := "schema::primary_key_indexes"
  const SCHEMA_TIMESTAMP: string := "schema::timestamp_index"
  const SCHEMA_VERSION: string := "schema::version"

  function ToFields(cs: seq<Column>): (r: seq<Field>)
    ensures |r| == |cs| && forall i :: 0 <= i < |cs| ==> r[i] == ToField(cs[i])
  {
    seq(|cs|, i requires 0 <= i < |cs| => ToField(cs[i]))
  }

  function ToArrow(s: Schema): ArrowSchema {
    ArrowSchema(ToFields(s.columns),
                map[SCHEMA_KEYS := PrintIndexes(s.keys), SCHEMA_TIMESTAMP := Decimal(s.timestampIndex),
                    SCHEMA_VERSION := Decimal(s.version)])
  }

  datatype SchemaMeta = SchemaMeta(keys: seq<nat>, timestampIndex: nat, version: nat)

  function ParseIndex(s: string): Option<nat> { ParseUnsigned(s, USIZE_MAX) }

  function DecodeSchemaMeta(meta: Meta): Result<SchemaMeta, ArrowError> {
    match Lookup(meta, SCHEMA_KEYS, ParseIndexes)
    case Err(e) => Err(e)
    case Ok(keys) =>
      match Lookup(meta, SCHEMA_TIMESTAMP, ParseIndex)
      case Err(e) => Err(e)
      case Ok(timestampIndex) =>
        match Lookup(meta, SCHEMA_VERSION, ParseId)
        case Err(e) => Err(e)
        case Ok(version) => Ok(SchemaMeta(keys, timestampIndex, version))
  }

  /** A missing key stands for the defaults, a bad value is an error. */
  function SchemaMetaOrDefault(meta: Meta): Result<SchemaMeta, ArrowError> {
    match DecodeSchemaMeta(meta)
    case Ok(m) => Ok(m)
    case Err(KeyNotFound) => Ok(SchemaMeta([], 0, 0))
    case Err(e) => Err(e)
  }

  function FromFields(fields: seq<Field>): Result<seq<Column>, ArrowError> {
    if fields == [] then Ok([])
    else
      var n := |fields| - 1;
      match FromFields(fields[..n])
      case Err(e) => Err(e)
      case Ok(cs) => match FromField(fields[n]) case Err(e) => Err(e) case Ok(c) => Ok(cs + [c])
  }

  function FromArrow(a: ArrowSchema): Result<Schema, ArrowError> {
    match FromFields(a.fields)
    case Err(e) => Err(e)
    case Ok(cs) =>
      match SchemaMetaOrDefault(a.meta)
      case Err(e) => Err(e)
      case Ok(m) => Ok(Schema(cs, m.keys, m.timestampIndex, FindName(cs, TSID_COLUMN), m.version))
  }

  lemma {:induction false} FieldsFail(fields: seq<Field>, k: nat)
    requires k <= |fields| && FromFields(fields[..k]).Err?
    ensures FromFields(fields) == FromFields(fields[..k])
  {
    if k < |fields| {
      assert fields[..|fields| - 1][..k] == fields[..k];
      FieldsFail(fields[..|fields| - 1], k);
    } else {
      assert fields[..k] == fields;
    }
  }

  /** Field by field, then the metadata; nothing is validated. */
  method BuildFromArrowSchema(a: ArrowSchema) returns (r: Result<Schema, ArrowError>)
    ensures r == FromArrow(a)
  {
    var columns := [];
    for i := 0 to |a.fields|
      invariant FromFields(a.fields[..i]) == Ok(columns)
    {
      assert a.fields[..i + 1][..i] == a.fields[..i];
      var column := FromField(a.fields[i]);
      match column {
        case Err(e) =>
          FieldsFail(a.fields, i + 1);
          return Err(e);
        case Ok(c) => columns := columns + [c];
      }
    }
    assert a.fields[..|a.fields|] == a.fields;
    var meta := SchemaMetaOrDefault(a.meta);
    match meta {
      case Err(e) => return Err(e);
      case Ok(m) =>
        return Ok(Schema(columns, m.keys, m.timestampIndex, FindName(columns, TSID_COLUMN), m.version));
    }
  }

  function AllKept(cs: seq<Column>): (r: seq<Column>)
    ensures |r| == |cs| && forall i :: 0 <= i < |cs| ==> r[i] == Kept(cs[i])
  {
    seq(|cs|, i requires 0 <= i < |cs| => Kept(cs[i]))
  }

  predicate ReadsAs(f: Field, c: Column) { FromField(f) == Ok(c) }

  lemma FieldsSnoc(fields: seq<Field>, f: Field, cs: seq<Column>, c: Column)
    requires FromFields(fields) == Ok(cs) && ReadsAs(f, c)
    ensures FromFields(fields + [f]) == Ok(cs + [c])
  {
    assert (fields + [f])[..|fields|] == fields;
  }

  lemma {:induction false} FieldsAre(fields: seq<Field>, cs: seq<Column>)
    requires |fields| == |cs| && forall i :: 0 <= i < |cs| ==> ReadsAs(fields[i], cs[i])
    ensures FromFields(fields) == Ok(cs)
  {
    if cs != [] {
      var n := |cs| - 1;
      FieldsAre(fields[..n], cs[..n]);
      FieldsSnoc(fields[..n], fields[n], cs[..n], cs[n]);
      assert fields == fields[..n] + [fields[n]] && cs == cs[..n] + [cs[n]];
    }
  }

  lemma FieldsRoundTrip(cs: seq<Column>)
    requires SmallIds(cs)
    ensures FromFields(ToFields(cs)) == Ok(AllKept(cs))
  {
    forall i | 0 <= i < |cs|
      ensures ReadsAs(ToFields(cs)[i], AllKept(cs)[i])
    {
      FieldRoundTrip(cs[i]);
    }
    FieldsAre(ToFields(cs), AllKept(cs));
  }

  lemma SchemaMetaRoundTrip(s: Schema)
    requires AreIndexes(s.keys) && s.timestampIndex <= USIZE_MAX && s.version <= U32_MAX
    ensures SchemaMetaOrDefault(ToArrow(s).meta) == Ok(SchemaMeta(s.keys, s.timestampIndex, s.version))
  {
    var meta := ToArrow(s).meta;
    assert |SCHEMA_KEYS| == 27 && |SCHEMA_TIMESTAMP| == 23 && |SCHEMA_VERSION| == 15;
    assert SCHEMA_KEYS in meta && SCHEMA_TIMESTAMP in meta && SCHEMA_VERSION in meta;
    IndexesRoundTrip(s.keys);
    UnsignedRoundTrip(s.timestampIndex, USIZE_MAX);
    UnsignedRoundTrip(s.version, U32_MAX);
  }

  lemma {:induction false} SameNamesSameFind(cs: seq<Column>, ds: seq<Column>, name: string)
    requires |cs| == |ds| && forall i :: 0 <= i < |cs| ==> cs[i].name == ds[i].name
    ensures FindName(cs, name) == FindName(ds, name)
  {
  }

  /** What comes back from arrow: every column as far as arrow keeps it, and the rest of the schema. */
  lemma ArrowReturns(s: Schema)
    requires WellFormed(s) && |s.columns| <= USIZE_MAX
    ensures FromArrow(ToArrow(s)) == Ok(s.(columns := AllKept(s.columns)))
  {
    TimestampInRange(s);
    assert AreIndexes(s.keys) by {
      assert forall i :: 0 <= i < |s.keys| ==> s.keys[i] < |s.columns|;
    }
    FieldsRoundTrip(s.columns);
    SchemaMetaRoundTrip(s);
    SameNamesSameFind(s.columns, AllKept(s.columns), TSID_COLUMN);
  }

  /** Nothing of the columns is lost in arrow. */
  predicate IsKept(cs: seq<Column>) {
    forall i :: 0 <= i < |cs| ==> cs[i].defaultValue.None? && (cs[i].dictionary ==> cs[i].kind.StringKind?)
  }

  /** A builder-made schema survives arrow exactly when it has no default values and only string dictionaries. */
  lemma ArrowRoundTripIff(s: Schema)
    requires WellFormed(s) && |s.columns| <= USIZE_MAX
    ensures FromArrow(ToArrow(s)) == Ok(s) <==> IsKept(s.columns)
  {
    ArrowReturns(s);
    if IsKept(s.columns) {
      assert AllKept(s.columns) == s.columns;
    }
    if AllKept(s.columns) == s.columns {
      forall i | 0 <= i < |s.columns|
        ensures s.columns[i].defaultValue.None? && (s.columns[i].dictionary ==> s.columns[i].kind.StringKind?)
      {
        assert Kept(s.columns[i]) == s.columns[i];
      }
    }
  }

  // ---------------------------------------------------------------------------
  // Arrow schemas that were not written by the schema itself
  // ---------------------------------------------------------------------------

  /** A field without metadata is a plain column without an id. */
  lemma PlainFieldReads(f: Field, k: DatumKind)
    requires f.meta == map[] && FromArrowType(f.dataType) == Some(k)
    ensures FromField(f) == Ok(Column(COLUMN_ID_UNINIT, f.name, k, f.nullable, false, false, "", None))
  {
  }

  /** A schema without metadata has no keys, its first column as timestamp and version 0. */
  lemma PlainSchemaReads(a: ArrowSchema, cs: seq<Column>)
    requires a.meta == map[] && FromFields(a.fields) == Ok(cs)
    ensures FromArrow(a) == Ok(Schema(cs, [], 0, FindName(cs, TSID_COLUMN), 0))
  {
  }

  /** Metadata that is there but cannot be parsed is an error, of the field before that of its type. */
  lemma BadMetadataIsRefused(f: Field, meta: Meta)
    ensures FIELD_ID in f.meta && ParseId(f.meta[FIELD_ID]) == None ==> FromField(f) == Err(InvalidValue)
    ensures SCHEMA_KEYS in meta && ParseIndexes(meta[SCHEMA_KEYS]) == None ==> SchemaMetaOrDefault(meta) == Err(InvalidValue)
  {
    assert FIELD_ID in f.meta ==> f.meta != map[];
  }
}
