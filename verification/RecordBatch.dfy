/** Record batches: columns of datums, and the two stages that restrict them to the columns asked for. */
module RecordBatch {
  import opened Common
  import opened Schema
  import opened Rows
  import opened AlterTable
  import opened Projection

  /** A column of datums; a dictionary block holds strings. */
  datatype Block = Block(kind: DatumKind, dictionary: bool, data: seq<Datum>)

  datatype BatchError = ColumnNotInSchemaWithKey(name: string) | OutOfIndexProjection | CreateColumnBlock | CreateArrow

  function NullBlock(rows: nat): Block { Block(NullKind, false, NullRow(rows)) }

  // ---------------------------------------------------------------------------
  // What arrow accepts
  // ---------------------------------------------------------------------------

  /** The type of the arrow field of a column: a dictionary column is a dictionary of strings. */
  predicate TypeMatches(c: Column, b: Block) {
    if c.dictionary then b.kind.StringKind? && b.dictionary else b.kind == c.kind && !b.dictionary
  }

  /** A column of strings takes dictionaries or plain strings, never both. */
  lemma DictionaryOrPlain(c: Column, dictionary: bool, data: seq<Datum>)
    requires c.kind.StringKind?
    ensures TypeMatches(c, Block(StringKind, dictionary, data)) <==> dictionary == c.dictionary
  {
  }

  /** Blocks of another kind are never taken. */
  lemma OtherKindsAreRefused(c: Column, b: Block)
    requires b.kind != c.kind && (c.dictionary ==> c.kind.StringKind?)
    ensures !TypeMatches(c, b)
  {
  }

  predicate NoNull(b: Block) { forall i :: 0 <= i < |b.data| ==> !b.data[i].Null? }

  predicate FieldAccepts(c: Column, b: Block, rows: nat) {
    TypeMatches(c, b) && |b.data| == rows && (!c.nullable ==> NoNull(b))
  }

  function RowsOf(blocks: seq<Block>): nat { if blocks == [] then 0 else |blocks[0].data| }

  /** `emptyOk` is whether the arrow library makes a batch of no columns. */
  predicate ArrowAccepts(fields: seq<Column>, blocks: seq<Block>, emptyOk: bool) {
    && |fields| == |blocks| && (blocks != [] || emptyOk)
    && forall q :: 0 <= q < |blocks| ==> FieldAccepts(fields[q], blocks[q], RowsOf(blocks))
  }

  /** Blocks that are accepted are equally long, of the types of their fields, and without null where none may be. */
  lemma AcceptedIsRegular(fields: seq<Column>, blocks: seq<Block>, emptyOk: bool, p: nat, q: nat)
    requires ArrowAccepts(fields, blocks, emptyOk) && p < |blocks| && q < |blocks|
    ensures |fields| == |blocks| && |blocks[p].data| == |blocks[q].data| && TypeMatches(fields[q], blocks[q])
    ensures !fields[q].nullable ==> NoNull(blocks[q])
  {
  }

  /** A batch whose blocks belong to the columns. */
  predicate BlocksFit(columns: seq<Column>, blocks: seq<Block>, rows: nat) {
    && |blocks| == |columns|
    && (forall q :: 0 <= q < |blocks| ==> FieldAccepts(columns[q], blocks[q], rows))
    && (forall q, r :: 0 <= q < |blocks| && 0 <= r < rows ==> DatumFits(blocks[q].data[r], columns[q]))
  }

  // ---------------------------------------------------------------------------
  // Taking columns out of a batch
  // ---------------------------------------------------------------------------

  class RecordBatchData {
    var blocks: seq<Block>

    constructor (blocks: seq<Block>)
      ensures this.blocks == blocks
    {
      this.blocks := blocks;
    }

    /** Leaves a block of nulls in place of the one that is taken. */
    method TakeColumnBlock(index: nat) returns (b: Block)
      requires index < |blocks|
      modifies this
      ensures b == old(blocks[index])
      ensures blocks == old(blocks)[index := NullBlock(RowsOf(old(blocks)))]
    {
      var rows := RowsOf(blocks);
      b := blocks[index];
      blocks := blocks[index := NullBlock(rows)];
    }
  }

  /** Every column asked for is a column of the batch. */
  predicate IsPartOf(record: seq<Column>, columns: seq<Column>) {
    forall q :: 0 <= q < |record| ==>
      IndexOf(columns, record[q].name).Some? && columns[IndexOf(columns, record[q].name).value] == record[q]
  }

  predicate IsFirst(record: seq<Column>, q: nat)
    requires q < |record|
  {
    forall k :: 0 <= k < q ==> record[k].name != record[q].name
  }

  /** What is taken for column `q`: its block, unless it was taken before. */
  function Taken(record: seq<Column>, columns: seq<Column>, blocks: seq<Block>, q: nat): Block
    requires q < |record| && |blocks| == |columns|
    requires IndexOf(columns, record[q].name).Some?
  {
    if IsFirst(record, q) then blocks[IndexOf(columns, record[q].name).value] else NullBlock(RowsOf(blocks))
  }

  predicate IsTaken(record: seq<Column>, name: string, q: nat)
    requires q <= |record|
  {
    exists k :: 0 <= k < q && record[k].name == name
  }

  /** A block is gone once its name was asked for. */
  predicate Remaining(record: seq<Column>, columns: seq<Column>, was: seq<Block>, now: seq<Block>, q: nat)
    requires q <= |record|
  {
    && |was| == |now| == |columns| && RowsOf(now) == RowsOf(was)
    && forall x :: 0 <= x < |now| ==>
         now[x] == if IsTaken(record, columns[x].name, q) then NullBlock(RowsOf(was)) else was[x]
  }

  lemma TakeStep(record: seq<Column>, columns: seq<Column>, was: seq<Block>, now: seq<Block>, q: nat, y: nat)
    requires DistinctNames(columns) && q < |record| && Remaining(record, columns, was, now, q)
    requires IndexOf(columns, record[q].name) == Some(y)
    ensures Remaining(record, columns, was, now[y := NullBlock(RowsOf(now))], q + 1)
    ensures now[y] == Taken(record, columns, was, q)
  {
  }

  predicate AreTaken(record: seq<Column>, columns: seq<Column>, blocks: seq<Block>, taken: seq<Block>)
    requires |blocks| == |columns|
  {
    && |taken| <= |record|
    && forall q :: 0 <= q < |taken| ==>
         IndexOf(columns, record[q].name).Some? && taken[q] == Taken(record, columns, blocks, q)
  }

  /** Takes the blocks of the columns asked for, in their order, and makes a batch of them. */
  method TryProject(columns: seq<Column>, data: RecordBatchData, record: seq<Column>, emptyOk: bool)
    returns (r: Result<seq<Block>, BatchError>)
    requires DistinctNames(columns) && |data.blocks| == |columns|
    modifies data
    ensures (exists q :: 0 <= q < |record| && IndexOf(columns, record[q].name).None?) ==> r.Err?
    ensures r.Ok? ==> |r.value| == |record| && AreTaken(record, columns, old(data.blocks), r.value)
    ensures r.Ok? ==> ArrowAccepts(record, r.value, emptyOk)
    ensures r == Err(CreateArrow) ==>
      exists taken :: |taken| == |record| && AreTaken(record, columns, old(data.blocks), taken) && !ArrowAccepts(record, taken, emptyOk)
    ensures r.Err? && r != Err(CreateArrow) ==> exists q :: 0 <= q < |record| && IndexOf(columns, record[q].name).None?
  {
    var taken: seq<Block> := [];
    for q := 0 to |record|
      invariant |taken| == q && AreTaken(record, columns, old(data.blocks), taken)
      invariant Remaining(record, columns, old(data.blocks), data.blocks, q)
    {
      match IndexOf(columns, record[q].name) {
        case None =>
          return Err(ColumnNotInSchemaWithKey(record[q].name));
        case Some(y) =>
          TakeStep(record, columns, old(data.blocks), data.blocks, q, y);
          var block := data.TakeColumnBlock(y);
          taken := taken + [block];
      }
    }
    if !ArrowAccepts(record, taken, emptyOk) {
      return Err(CreateArrow);
    }
    return Ok(taken);
  }

  // ---------------------------------------------------------------------------
  // When a batch can be restricted, and what comes out
  // ---------------------------------------------------------------------------

  /** A column asked for again has the null type, which the block left behind has too. */
  predicate RepeatsAreNull(record: seq<Column>) {
    forall q :: 0 <= q < |record| && !IsFirst(record, q) ==> record[q].kind.NullKind? && !record[q].dictionary
  }

  lemma TakenFits(record: seq<Column>, columns: seq<Column>, blocks: seq<Block>, rows: nat, q: nat)
    requires IsPartOf(record, columns) && BlocksFit(columns, blocks, rows) && RowsOf(blocks) == rows && q < |record|
    ensures FieldAccepts(record[q], Taken(record, columns, blocks, q), rows) <==>
      IsFirst(record, q) || (record[q].kind.NullKind? && !record[q].dictionary)
    ensures FieldAccepts(record[q], Taken(record, columns, blocks, q), rows) ==>
      Taken(record, columns, blocks, q).data == blocks[IndexOf(columns, record[q].name).value].data
  {
    var y := IndexOf(columns, record[q].name).value;
    assert FieldAccepts(columns[y], blocks[y], rows);
    if record[q].kind.NullKind? {
      forall r | 0 <= r < rows
        ensures blocks[y].data[r] == Null
      {
        assert DatumFits(blocks[y].data[r], columns[y]);
      }
      assert blocks[y].data == NullRow(rows);
    }
  }

  lemma RowsOfTaken(record: seq<Column>, columns: seq<Column>, blocks: seq<Block>, rows: nat, taken: seq<Block>)
    requires IsPartOf(record, columns) && BlocksFit(columns, blocks, rows) && RowsOf(blocks) == rows
    requires |taken| == |record| && AreTaken(record, columns, blocks, taken)
    ensures taken != [] ==> RowsOf(taken) == rows
  {
  }

  /** Exactly the projections that repeat no column other than one of the null type are accepted. */
  lemma AcceptedIff(record: seq<Column>, columns: seq<Column>, blocks: seq<Block>, rows: nat, taken: seq<Block>, emptyOk: bool)
    requires IsPartOf(record, columns) && BlocksFit(columns, blocks, rows) && RowsOf(blocks) == rows
    requires |taken| == |record| && AreTaken(record, columns, blocks, taken)
    ensures ArrowAccepts(record, taken, emptyOk) <==> (record != [] || emptyOk) && RepeatsAreNull(record)
    ensures ArrowAccepts(record, taken, emptyOk) ==>
      forall q :: 0 <= q < |record| ==> taken[q].data == blocks[IndexOf(columns, record[q].name).value].data
  {
    RowsOfTaken(record, columns, blocks, rows, taken);
    forall q | 0 <= q < |record|
      ensures FieldAccepts(record[q], taken[q], rows) <==>
                IsFirst(record, q) || (record[q].kind.NullKind? && !record[q].dictionary)
      ensures FieldAccepts(record[q], taken[q], rows) ==>
                taken[q].data == blocks[IndexOf(columns, record[q].name).value].data
    {
      TakenFits(record, columns, blocks, rows, q);
    }
  }

  // ---------------------------------------------------------------------------
  // From the arrow batch of a source to a batch with key columns
  // ---------------------------------------------------------------------------

  /** An array read as a column of a kind; a null column keeps only the number of rows. */
  function FromArrow(kind: DatumKind, arr: Block): Option<Block> {
    if kind.NullKind? then Some(NullBlock(|arr.data|))
    else if arr.kind == kind then Some(arr)
    else None
  }

  function NullsOfType(c: Column, rows: nat): Block { Block(c.kind, c.kind.StringKind? && c.dictionary, NullRow(rows)) }

  /** Column `q` of the result: the next array of the batch if the source has the column, else nulls. */
  function BlockAt(sp: seq<Option<nat>>, columns: seq<Column>, arrow: seq<Block>, rows: nat, q: nat): Result<Block, BatchError>
    requires q < |sp| && |sp| == |columns|
  {
    var next := |Existing(sp[..q])|;
    if sp[q].None? then Ok(NullsOfType(columns[q], rows))
    else if next >= |arrow| then Err(OutOfIndexProjection)
    else match FromArrow(columns[q].kind, arrow[next])
      case None => Err(CreateColumnBlock)
      case Some(b) => Ok(b)
  }

  /** These are the first blocks of the result. */
  predicate AreProjected(sp: seq<Option<nat>>, columns: seq<Column>, arrow: seq<Block>, rows: nat, blocks: seq<Block>)
    requires |sp| == |columns|
  {
    && |blocks| <= |sp|
    && forall q :: 0 <= q < |blocks| ==> BlockAt(sp, columns, arrow, rows, q) == Ok(blocks[q])
  }

  lemma ExistingSnoc(sp: seq<Option<nat>>, q: nat)
    requires q < |sp|
    ensures Existing(sp[..q + 1]) == Existing(sp[..q]) + (match sp[q] case None => [] case Some(x) => [x])
  {
    assert sp[..q + 1][..q] == sp[..q];
  }

  /** Walks the source projection with a running index into the arrays. */
  method ProjectToRecordBatchWithKey(sp: seq<Option<nat>>, columns: seq<Column>, arrow: seq<Block>, rows: nat, emptyOk: bool)
    returns (r: Result<seq<Block>, BatchError>)
    requires |sp| == |columns|
    ensures r.Ok? ==> |r.value| == |sp| && AreProjected(sp, columns, arrow, rows, r.value) && ArrowAccepts(columns, r.value, emptyOk)
    ensures r == Err(CreateArrow) ==>
      exists blocks :: |blocks| == |sp| && AreProjected(sp, columns, arrow, rows, blocks) && !ArrowAccepts(columns, blocks, emptyOk)
    ensures r.Err? && r != Err(CreateArrow) ==> exists q :: 0 <= q < |sp| && BlockAt(sp, columns, arrow, rows, q) == Err(r.error)
  {
    var blocks: seq<Block> := [];
    var next := 0;
    assert sp[..0] == [];
    for q := 0 to |sp|
      invariant |blocks| == q && AreProjected(sp, columns, arrow, rows, blocks)
      invariant next == |Existing(sp[..q])|
    {
      ExistingSnoc(sp, q);
      match sp[q] {
        case Some(_) =>
          if next >= |arrow| {
            assert BlockAt(sp, columns, arrow, rows, q) == Err(OutOfIndexProjection);
            return Err(OutOfIndexProjection);
          }
          var block := FromArrow(columns[q].kind, arrow[next]);
          next := next + 1;
          if block.None? {
            assert BlockAt(sp, columns, arrow, rows, q) == Err(CreateColumnBlock);
            return Err(CreateColumnBlock);
          }
          blocks := blocks + [block.value];
        case None =>
          blocks := blocks + [NullsOfType(columns[q], rows)];
      }
    }
    if !ArrowAccepts(columns, blocks, emptyOk) {
      return Err(CreateArrow);
    }
    return Ok(blocks);
  }

  // ---------------------------------------------------------------------------
  // The arrow path and the row path agree
  // ---------------------------------------------------------------------------

  /** The arrays of a source batch for these of its columns. */
  function SourceBlock(c: Column, rows: seq<Row>, x: nat): Block
    requires forall r :: 0 <= r < |rows| ==> x < |rows[r]|
  {
    Block(c.kind, c.dictionary, seq(|rows|, r requires 0 <= r < |rows| => rows[r][x]))
  }

  /** The values read for column `x`, row by row. */
  function ReadColumn(rows: seq<Row>, x: nat): (d: seq<Datum>)
    ensures |d| == |rows| && forall r :: 0 <= r < |rows| ==> d[r] == ReadDatum(rows[r], x)
  {
    seq(|rows|, r requires 0 <= r < |rows| => ReadDatum(rows[r], x))
  }

  function ReadBlock(c: Column, rows: seq<Row>, x: nat): Block { Block(c.kind, c.dictionary, ReadColumn(rows, x)) }

  predicate AllFit(columns: seq<Column>, rows: seq<Row>) {
    forall r :: 0 <= r < |rows| ==> Fits(columns, rows[r])
  }

  /** Dictionaries are of strings, as the column builder sees to, and columns of the null type take nulls. */
  predicate AreStorable(columns: seq<Column>) {
    forall i :: 0 <= i < |columns| ==>
      (columns[i].dictionary ==> columns[i].kind.StringKind?) && (columns[i].kind.NullKind? ==> columns[i].nullable)
  }

  /** The arrow batch holds the source's columns at the given indexes. */
  predicate IsSourceBatch(source: seq<Column>, rows: seq<Row>, indexes: seq<nat>, arrow: seq<Block>)
    requires AllFit(source, rows) && Within(indexes, |source|)
  {
    && |arrow| == |indexes|
    && forall e :: 0 <= e < |arrow| ==> arrow[e] == SourceBlock(source[indexes[e]], rows, indexes[e])
  }

  lemma {:induction false} RunningIndex(sp: seq<Option<nat>>, q: nat)
    requires q < |sp| && sp[q].Some?
    ensures |Existing(sp[..q])| < |Existing(sp)| && Existing(sp)[|Existing(sp[..q])|] == sp[q].value
    decreases |sp|
  {
    var n := |sp| - 1;
    ExistingSnoc(sp, n);
    assert sp[..n + 1] == sp;
    if q < n {
      RunningIndex(sp[..n], q);
      assert sp[..n][..q] == sp[..q];
    }
  }

  /** One column: the block the arrow path makes holds what the row path reads. */
  lemma BlockAgrees(reader: seq<Column>, source: seq<Column>, wanted: seq<nat>, rows: seq<Row>, arrow: seq<Block>, q: nat)
    requires Related(reader, source) && Ascending(wanted) && Within(wanted, |reader|) && AreStorable(reader)
    requires AllFit(source, rows)
    requires Within(Existing(SourceProjection(wanted, source)), |source|)
    requires IsSourceBatch(source, rows, Existing(SourceProjection(wanted, source)), arrow)
    requires q < |wanted|
    ensures BlockAt(SourceProjection(wanted, source), Pick(reader, wanted), arrow, |rows|, q)
         == Ok(ReadBlock(reader[wanted[q]], rows, wanted[q]))
  {
    var sp, x := SourceProjection(wanted, source), wanted[q];
    var b := ReadBlock(reader[x], rows, x);
    if x < |source| {
      RunningIndex(sp, q);
      assert reader[x] == source[x];
      assert SourceBlock(source[x], rows, x).data == b.data;
      if reader[x].kind.NullKind? {
        forall r | 0 <= r < |rows|
          ensures rows[r][x] == Null
        {
          assert DatumFits(rows[r][x], source[x]);
        }
        assert b.data == NullRow(|rows|);
      }
    } else {
      assert b.data == NullRow(|rows|);
    }
  }

  /** The blocks of the batch with key columns. */
  function ReadBlocks(reader: seq<Column>, rows: seq<Row>, wanted: seq<nat>): (r: seq<Block>)
    requires Within(wanted, |reader|)
    ensures |r| == |wanted| && forall q :: 0 <= q < |r| ==> r[q] == ReadBlock(reader[wanted[q]], rows, wanted[q])
  {
    seq(|wanted|, q requires 0 <= q < |wanted| => ReadBlock(reader[wanted[q]], rows, wanted[q]))
  }

  /** What the row projector makes of a row. */
  predicate IsProjectedRow(sp: seq<Option<nat>>, row: Row, out: Row)
    requires IsSourceProjection(sp, |row|)
  {
    |out| == |sp| && forall q :: 0 <= q < |out| ==> out[q] == DatumAt(row, sp[q])
  }

  /** Columns of the null type are read from columns of the null type. */
  predicate NullsComeFromNulls(sp: seq<Option<nat>>, source: seq<Column>, columns: seq<Column>)
    requires IsSourceProjection(sp, |source|) && |sp| == |columns|
  {
    forall q :: 0 <= q < |sp| && sp[q].Some? && columns[q].kind.NullKind? ==> source[sp[q].value].kind.NullKind?
  }

  lemma ArrayHoldsRows(kind: DatumKind, c: Column, rows: seq<Row>, x: nat, b: Block, r: nat)
    requires r < |rows| && forall k :: 0 <= k < |rows| ==> x < |rows[k]|
    requires DatumFits(rows[r][x], c) && (kind.NullKind? ==> c.kind.NullKind?)
    requires FromArrow(kind, SourceBlock(c, rows, x)) == Some(b)
    ensures |b.data| == |rows| && b.data[r] == rows[r][x]
  {
  }

  /**
   * Whatever the source projection: where the column projector succeeds, row `r` of its blocks is
   * what the row projector makes of row `r`, although one looks up arrays by a running index.
   */
  lemma PathsAgree(sp: seq<Option<nat>>, source: seq<Column>, columns: seq<Column>, rows: seq<Row>,
                   arrow: seq<Block>, blocks: seq<Block>, out: Row, q: nat, r: nat)
    requires AllFit(source, rows) && IsSourceProjection(sp, |source|) && |sp| == |columns|
    requires Within(Existing(sp), |source|) && IsSourceBatch(source, rows, Existing(sp), arrow)
    requires NullsComeFromNulls(sp, source, columns)
    requires |blocks| == |sp| && AreProjected(sp, columns, arrow, |rows|, blocks)
    requires q < |sp| && r < |rows| && Fits(source, rows[r]) && IsProjectedRow(sp, rows[r], out)
    ensures |blocks[q].data| == |rows| && blocks[q].data[r] == out[q]
  {
    assert BlockAt(sp, columns, arrow, |rows|, q) == Ok(blocks[q]);
    if sp[q].Some? {
      RunningIndex(sp, q);
      var x := sp[q].value;
      ArrayHoldsRows(columns[q].kind, source[x], rows, x, blocks[q], r);
    }
  }

  lemma ReadBlocksFit(reader: seq<Column>, source: seq<Column>, rows: seq<Row>, wanted: seq<nat>)
    requires Related(reader, source) && Within(wanted, |reader|) && AllFit(source, rows) && AreStorable(reader)
    ensures BlocksFit(Pick(reader, wanted), ReadBlocks(reader, rows, wanted), |rows|)
  {
  }

  predicate IsArrowBatch(wanted: seq<nat>, source: seq<Column>, rows: seq<Row>, arrow: seq<Block>) {
    && Ascending(wanted) && AllFit(source, rows)
    && Within(Existing(SourceProjection(wanted, source)), |source|)
    && IsSourceBatch(source, rows, Existing(SourceProjection(wanted, source)), arrow)
  }

  /** The first stage on columns: never an error, and row by row what the row projector gives. */
  method ReadWithKey(sp: seq<Option<nat>>, columns: seq<Column>, arrow: seq<Block>, numRows: nat, emptyOk: bool,
                     ghost reader: seq<Column>, ghost source: seq<Column>, ghost wanted: seq<nat>, ghost rows: seq<Row>)
    returns (r: Result<seq<Block>, BatchError>)
    requires Related(reader, source) && Within(wanted, |reader|) && AreStorable(reader) && wanted != []
    requires sp == SourceProjection(wanted, source) && columns == Pick(reader, wanted)
    requires IsArrowBatch(wanted, source, rows, arrow) && numRows == |rows|
    ensures r == Ok(ReadBlocks(reader, rows, wanted))
  {
    r := ProjectToRecordBatchWithKey(sp, columns, arrow, numRows, emptyOk);
    ghost var blocks := ReadBlocks(reader, rows, wanted);
    forall q | 0 <= q < |wanted|
      ensures BlockAt(sp, columns, arrow, numRows, q) == Ok(blocks[q])
    {
      BlockAgrees(reader, source, wanted, rows, arrow, q);
    }
    ReadBlocksFit(reader, source, rows, wanted);
    OneResult(sp, columns, arrow, numRows, blocks);
  }

  lemma OneResult(sp: seq<Option<nat>>, columns: seq<Column>, arrow: seq<Block>, rows: nat, blocks: seq<Block>)
    requires |sp| == |columns| == |blocks| && AreProjected(sp, columns, arrow, rows, blocks)
    ensures forall other :: |other| == |sp| && AreProjected(sp, columns, arrow, rows, other) ==> other == blocks
  {
  }

  // ---------------------------------------------------------------------------
  // Both stages
  // ---------------------------------------------------------------------------

  predicate NoRepeat(p: seq<nat>) { forall i, j :: 0 <= i < j < |p| ==> p[i] != p[j] }

  /** The columns asked for are found among those read, each at its place. */
  lemma AskedIsRead(reader: seq<Column>, wanted: seq<nat>, p: seq<nat>)
    requires DistinctNames(reader) && Ascending(wanted) && Within(wanted, |reader|) && Within(p, |reader|)
    requires forall x :: x in p ==> x in wanted
    ensures DistinctNames(Pick(reader, wanted)) && IsPartOf(Pick(reader, p), Pick(reader, wanted))
    ensures forall q :: 0 <= q < |p| ==> wanted[IndexOf(Pick(reader, wanted), reader[p[q]].name).value] == p[q]
  {
    var columns, record := Pick(reader, wanted), Pick(reader, p);
    forall q | 0 <= q < |p|
      ensures IndexOf(columns, record[q].name).Some?
      ensures wanted[IndexOf(columns, record[q].name).value] == p[q]
    {
      assert p[q] in wanted;
      var y :| 0 <= y < |wanted| && wanted[y] == p[q];
      IndexOfOwn(columns, y);
    }
  }

  lemma NoRepeatIsFirst(reader: seq<Column>, p: seq<nat>)
    requires DistinctNames(reader) && Within(p, |reader|) && NoRepeat(p)
    ensures RepeatsAreNull(Pick(reader, p))
  {
  }

  /** The second stage: exactly the projections that repeat nothing but null columns give a batch. */
  method Restrict(columns: seq<Column>, blocks: seq<Block>, record: seq<Column>, emptyOk: bool,
                  ghost reader: seq<Column>, ghost wanted: seq<nat>, ghost asked: seq<nat>, ghost rows: seq<Row>)
    returns (r: Result<seq<Block>, BatchError>)
    requires DistinctNames(reader) && Ascending(wanted) && Within(wanted, |reader|) && Within(asked, |reader|)
    requires wanted != [] && forall x :: x in asked ==> x in wanted
    requires columns == Pick(reader, wanted) && record == Pick(reader, asked) && blocks == ReadBlocks(reader, rows, wanted)
    requires BlocksFit(columns, blocks, |rows|)
    ensures r.Ok? <==> (record != [] || emptyOk) && RepeatsAreNull(record)
    ensures r.Ok? ==> IsResult(asked, rows, r.value)
  {
    AskedIsRead(reader, wanted, asked);
    var data := new RecordBatchData(blocks);
    r := TryProject(columns, data, record, emptyOk);
    forall taken | |taken| == |record| && AreTaken(record, columns, blocks, taken)
      ensures ArrowAccepts(record, taken, emptyOk) <==> (record != [] || emptyOk) && RepeatsAreNull(record)
      ensures ArrowAccepts(record, taken, emptyOk) ==> IsResult(asked, rows, taken)
    {
      AcceptedIff(record, columns, blocks, |rows|, taken, emptyOk);
    }
  }

  /** Every column asked for, with the values read for it. */
  predicate IsResult(asked: seq<nat>, rows: seq<Row>, blocks: seq<Block>) {
    |blocks| == |asked| && forall q :: 0 <= q < |asked| ==> blocks[q].data == ReadColumn(rows, asked[q])
  }

  /** The columns asked for: all, if there is no projection. */
  function Asked(s: Schema, projection: Option<seq<nat>>): seq<nat> {
    match projection case None => Range(|s.columns|) case Some(p) => p
  }

  lemma AskedOf(s: Schema, projection: Option<seq<nat>>)
    requires WellFormed(s) && InRangeOf(s, projection)
    ensures Within(Asked(s, projection), |s.columns|)
    ensures Projected(s, projection).record == Pick(s.columns, Asked(s, projection))
    ensures Wanted(s, projection) != [] && forall x :: x in Asked(s, projection) ==> x in Wanted(s, projection)
  {
    WantedIsRead(s, projection);
    assert s.keys[0] in s.keys;
    assert Pick(s.columns, Range(|s.columns|)) == s.columns;
  }

  /**
   * Reading a batch of any schema of a chain through any other one, in both stages: every column asked
   * for comes out with the source's value, or null where the source lacks it, row by row.
   */
  method ReadBatch(ghost schemas: seq<Schema>, ghost i: nat, ghost j: nat, source: Schema, projected: ProjectedSchema,
                   ghost rows: seq<Row>, arrow: seq<Block>, numRows: nat, emptyOk: bool)
    returns (r: Result<seq<Block>, BatchError>)
    requires IsChain(schemas) && i < |schemas| && j < |schemas| && source == schemas[i]
    requires InRangeOf(schemas[j], projected.projection) && projected == Projected(schemas[j], projected.projection)
    requires AreStorable(schemas[j].columns) && numRows == |rows|
    requires IsArrowBatch(Wanted(schemas[j], projected.projection), source.columns, rows, arrow)
    ensures r.Ok? <==> (projected.record != [] || emptyOk) && RepeatsAreNull(projected.record)
    ensures r.Ok? ==> IsResult(Asked(schemas[j], projected.projection), rows, r.value)
    ensures NoRepeat(Asked(schemas[j], projected.projection)) && projected.record != [] ==> r.Ok?
  {
    ghost var reader, projection := schemas[j], projected.projection;
    ghost var wanted, asked := Wanted(reader, projection), Asked(reader, projection);
    ChainIsRelated(schemas, i, j);
    WantedIsRead(reader, projection);
    AskedOf(reader, projection);
    ReadBlocksFit(reader.columns, source.columns, rows, wanted);
    var projector := ProjectorOnChain(schemas, i, j, source, projected);
    var withKey := ReadWithKey(projector.value, projected.withKey.columns, arrow, numRows, emptyOk,
                               reader.columns, source.columns, wanted, rows);
    r := Restrict(projected.withKey.columns, withKey.value, projected.record, emptyOk,
                  reader.columns, wanted, asked, rows);
    if NoRepeat(asked) {
      NoRepeatIsFirst(reader.columns, asked);
    }
  }

  /** A column asked for twice in a row is in range, but cannot be read unless it has the null type. */
  lemma AskedTwice(s: Schema, x: nat)
    requires x < |s.columns| && !s.columns[x].kind.NullKind?
    ensures InRangeOf(s, Some([x, x])) && !RepeatsAreNull(Projected(s, Some([x, x])).record)
  {
    var record := Projected(s, Some([x, x])).record;
    assert record[0].name == record[1].name;
  }

  /** A table of one column. */
  const ONE_COLUMN := Schema([Column(1, "t", TimestampKind, false, false, false, "", None)], [0], 0, None, 1)

  /** Its column asked for twice: the projection is accepted, and one row cannot be read through it. */
  method ReadTwice() returns (projected: Result<ProjectedSchema, nat>, r: Result<seq<Block>, BatchError>)
    ensures projected.Ok? && r.Err?
  {
    ghost var rows := [[Timestamp(5)]];
    projected := NewProjectedSchema(ONE_COLUMN, Some([0, 0]));
    AskedTwice(ONE_COLUMN, 0);
    var arrow := [Block(TimestampKind, false, [Timestamp(5)])];
    r := ReadBatch([ONE_COLUMN], 0, 0, ONE_COLUMN, projected.value, rows, arrow, 1, false);
  }
}
