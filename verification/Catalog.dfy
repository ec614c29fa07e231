/**
 * One schema of the table-based catalog: concurrent create and drop requests that check, lock,
 * check again and then call the table engine and the system catalog table in a fixed order.
 *
 * Every awaited call may be acknowledged, fail without effect, or fail after taking effect, and
 * the process may crash at any await and restart from the system catalog table. Table ids are
 * given by their sequence number, since the schema id is fixed.
 */
module Catalog {
  import opened Common

  // ---------------------------------------------------------------------------
  // Table ids: 24 bits of schema id, 40 bits of sequence
  // ---------------------------------------------------------------------------

  const SEQ_LIMIT: nat := 0x100_0000_0000
  const SCHEMA_LIMIT: nat := 0x100_0000

  /** `TableId::with_seq`: none if the schema id does not survive the shift. */
  function TableId(schemaId: nat, tableSeq: nat): Option<nat> {
    if schemaId < SCHEMA_LIMIT then Some(schemaId * SEQ_LIMIT + tableSeq) else None
  }

  function SeqOf(tableId: nat): nat { tableId % SEQ_LIMIT }

  /** Schema id and sequence are read back from an id, and ids order as sequences within a schema. */
  lemma TableIdRoundTrip(schemaId: nat, a: nat, b: nat)
    requires schemaId < SCHEMA_LIMIT && a < SEQ_LIMIT && b < SEQ_LIMIT
    ensures SeqOf(TableId(schemaId, a).value) == a
    ensures TableId(schemaId, a).value / SEQ_LIMIT == schemaId
    ensures TableId(schemaId, a).value < 0x1_0000_0000_0000_0000
    ensures TableId(schemaId, a).value < TableId(schemaId, b).value <==> a < b
  {
  }

  /** There is an id exactly if schema id and sequence fit 64 bits together. */
  lemma TableIdFitsIff(schemaId: nat, seq': nat)
    requires seq' < SEQ_LIMIT
    ensures TableId(schemaId, seq').Some? <==> schemaId * SEQ_LIMIT + seq' <= U64_MAX
  {
  }

  // ---------------------------------------------------------------------------
  // Tables in memory
  // ---------------------------------------------------------------------------

  datatype Table = Table(name: string, id: nat)

  datatype Tables = Tables(byName: map<string, Table>, byId: map<nat, Table>)

  function InsertTable(m: Tables, t: Table): Tables {
    Tables(m.byName[t.name := t], m.byId[t.id := t])
  }

  function RemoveTable(m: Tables, name: string): Tables {
    if name in m.byName then Tables(m.byName - {name}, m.byId - {m.byName[name].id}) else m
  }

  /** Both maps hold the same tables, each under its own name and its own id. */
  ghost predicate Mirror(m: Tables) {
    && (forall n :: n in m.byName ==>
          m.byName[n].name == n && m.byName[n].id in m.byId && m.byId[m.byName[n].id] == m.byName[n])
    && (forall i :: i in m.byId ==>
          m.byId[i].id == i && m.byId[i].name in m.byName && m.byName[m.byId[i].name] == m.byId[i])
  }

  /** Inserting keeps the maps mirrored exactly if name and id are both new, or the table is already there. */
  lemma InsertKeepsMirrorIff(m: Tables, t: Table)
    requires Mirror(m)
    ensures Mirror(InsertTable(m, t)) <==>
            (t.name !in m.byName && t.id !in m.byId) || (t.name in m.byName && m.byName[t.name] == t)
  {
    var m' := InsertTable(m, t);
    if t.name in m.byName {
      var old' := m.byName[t.name];
      if old' != t && old'.id != t.id {
        assert m'.byId[old'.id] == old' && m'.byName[old'.name] == t;
      }
    } else if t.id in m.byId {
      var other := m.byId[t.id];
      assert m'.byName[other.name] == other && m'.byId[other.id] == t;
    }
  }

  lemma RemoveKeepsMirror(m: Tables, name: string)
    requires Mirror(m)
    ensures Mirror(RemoveTable(m, name)) && name !in RemoveTable(m, name).byName
  {
  }

  class SchemaTables {
    var tablesByName: map<string, Table>
    var tablesById: map<nat, Table>

    function Value(): Tables reads this { Tables(tablesByName, tablesById) }

    constructor () ensures Value() == Tables(map[], map[]) && Mirror(Value()) {
      tablesByName, tablesById := map[], map[];
    }

    method Insert(table: Table)
      modifies this
      ensures Value() == InsertTable(old(Value()), table)
      ensures old(Mirror(Value())) && table.name !in old(tablesByName) && table.id !in old(tablesById) ==> Mirror(Value())
    {
      if Mirror(Value()) { InsertKeepsMirrorIff(Value(), table); }
      tablesByName := tablesByName[table.name := table];
      tablesById := tablesById[table.id := table];
    }

    method Remove(name: string)
      modifies this
      ensures Value() == RemoveTable(old(Value()), name)
      ensures old(Mirror(Value())) ==> Mirror(Value())
    {
      if name in tablesByName {
        var table := tablesByName[name];
        tablesByName := tablesByName - {name};
        tablesById := tablesById - {table.id};
      }
    }
  }

  // ---------------------------------------------------------------------------
  // System catalog records and the visitor that reads them back
  // ---------------------------------------------------------------------------

  datatype TableState = Stable | Dropping | Dropped

  datatype Record = Record(id: nat, state: TableState)

  /** `TableState::validate`. */
  predicate CanTransit(from: TableState, to: TableState) {
    match from
    case Stable => to == Stable || to == Dropping
    case Dropping => to == Dropped
    case Dropped => false
  }

  /** How far a table is on its way out. */
  function Progress(state: TableState): nat { match state case Stable => 0 case Dropping => 1 case Dropped => 2 }

  /** A stable table may stay as it is; otherwise a record moves one step on, and never back or past a step. */
  lemma TransitsOneStep(from: TableState, to: TableState)
    ensures CanTransit(from, to) <==> Progress(to) == Progress(from) + 1 || (from == Stable && to == Stable)
  {
  }

  datatype TableInfo = TableInfo(name: string, record: Record)

  /** The last sequence after visiting the infos in order, starting from `last`. */
  function VisitedSeq(infos: seq<TableInfo>, last: nat): nat {
    if infos == [] then last
    else VisitedSeq(infos[1..], if infos[0].record.id >= last then infos[0].record.id else last)
  }

  /** Visiting computes the largest sequence, whatever the order. */
  lemma {:induction false} VisitedSeqIsMax(infos: seq<TableInfo>, last: nat)
    ensures last <= VisitedSeq(infos, last)
    ensures forall i :: 0 <= i < |infos| ==> infos[i].record.id <= VisitedSeq(infos, last)
    ensures VisitedSeq(infos, last) == last || exists i :: 0 <= i < |infos| && infos[i].record.id == VisitedSeq(infos, last)
  {
    if infos != [] {
      var next := if infos[0].record.id >= last then infos[0].record.id else last;
      VisitedSeqIsMax(infos[1..], next);
      assert forall i :: 1 <= i < |infos| ==> infos[i] == infos[1..][i - 1];
    }
  }

  /** `visit_tables` over a scan: the sequence generator and the tables to open. */
  method VisitTables(infos: seq<TableInfo>) returns (lastSeq: nat, toOpen: seq<TableInfo>)
    ensures lastSeq == VisitedSeq(infos, 0)
    ensures forall t :: t in toOpen <==> t in infos && t.record.state == Stable
  {
    lastSeq, toOpen := 0, [];
    for i := 0 to |infos|
      invariant VisitedSeq(infos, 0) == VisitedSeq(infos[i..], lastSeq)
      invariant forall t :: t in toOpen <==> t in infos[..i] && t.record.state == Stable
    {
      assert infos[i..][0] == infos[i] && infos[i..][1..] == infos[i + 1..];
      assert infos[..i + 1] == infos[..i] + [infos[i]];
      if infos[i].record.id >= lastSeq {
        lastSeq := infos[i].record.id;
      }
      if infos[i].record.state == Stable {
        toOpen := toOpen + [infos[i]];
      }
    }
  }

  // ---------------------------------------------------------------------------
  // The state machine
  // ---------------------------------------------------------------------------

  type TaskId = nat

  /** Where a request waits; all but the `Wait` positions hold the schema's mutex. */
  datatype Position =
    | CreateWait(name: string, ifNotExists: bool)
    | CreateEngine(name: string, id: nat)
    | CreateRecord(name: string, id: nat)
    | DropWait(name: string)
    | DropPrepare(name: string)
    | DropEngine(name: string)
    | DropRecord(name: string)

  datatype Outcome = Acked | FailedWithoutEffect | FailedWithEffect

  /** Results of requests and the events between them, in the order in which they take effect. */
  datatype Event =
    | Created(name: string, id: nat)
    | SawTable(name: string, id: nat)
    | SawExisting(name: string)
    | CreateFailed(name: string)
    | RemovedTable(name: string)
    | SawMissing(name: string)
    | DropFailed(name: string)
    | OpenedTable(name: string, id: nat)
    | Crashed

  datatype State = State(
    // lost in a crash
    tables: Tables,
    lastSeq: nat,
    mutex: Option<TaskId>,
    tasks: map<TaskId, Position>,
    toOpen: map<string, nat>,
    serving: bool,
    // durable
    schemaId: nat,
    records: map<string, Record>,
    engine: map<nat, string>,
    // history
    log: seq<Event>,
    recorded: seq<nat>)

  datatype Action =
    | CreateBegin(task: TaskId, name: string, ifNotExists: bool)
    | CreateLock(task: TaskId)
    | EngineCreated(task: TaskId, outcome: Outcome)
    | RecordCreated(task: TaskId, outcome: Outcome)
    | DropBegin(task: TaskId, name: string)
    | DropLock(task: TaskId)
    | DropPrepared(task: TaskId, outcome: Outcome)
    | EngineDropped(task: TaskId, ids: set<nat>, outcome: Outcome)
    | RecordDropped(task: TaskId, outcome: Outcome)
    | Crash(scan: seq<TableInfo>)
    | OpenTable(name: string)
    | Serve

  predicate At(s: State, t: TaskId) { t in s.tasks }

  /** The scan returns every record once, in any order. */
  ghost predicate IsScan(scan: seq<TableInfo>, records: map<string, Record>) {
    && (forall i :: 0 <= i < |scan| ==> scan[i].name in records && records[scan[i].name] == scan[i].record)
    && (forall n :: n in records ==> TableInfo(n, records[n]) in scan)
  }

  ghost predicate Guard(s: State, a: Action) {
    match a
    case CreateBegin(t, _, _) => s.serving && t !in s.tasks
    case CreateLock(t) => At(s, t) && s.tasks[t].CreateWait? && s.mutex == None
    case EngineCreated(t, _) => At(s, t) && s.tasks[t].CreateEngine?
    case RecordCreated(t, _) => At(s, t) && s.tasks[t].CreateRecord?
    case DropBegin(t, _) => s.serving && t !in s.tasks
    case DropLock(t) => At(s, t) && s.tasks[t].DropWait? && s.mutex == None
    case DropPrepared(t, _) => At(s, t) && s.tasks[t].DropPrepare?
    case EngineDropped(t, ids, _) =>
      At(s, t) && s.tasks[t].DropEngine? && forall i :: i in ids ==> i in s.engine && s.engine[i] == s.tasks[t].name
    case RecordDropped(t, _) => At(s, t) && s.tasks[t].DropRecord?
    case Crash(scan) => IsScan(scan, s.records)
    case OpenTable(n) => !s.serving && n in s.toOpen
    case Serve => !s.serving
  }

  function Emit(s: State, e: Event): State { s.(log := s.log + [e]) }

  /** The request returns: its task is gone and the mutex, if held by it, is released. */
  function Finish(s: State, t: TaskId, e: Event): State {
    Emit(s, e).(tasks := s.tasks - {t}, mutex := if s.mutex == Some(t) then None else s.mutex)
  }

  /** `check_create_table_read` on a table that exists. */
  function ExistingAnswer(s: State, name: string, ifNotExists: bool): Event
    requires name in s.tables.byName
  {
    if ifNotExists then SawTable(name, s.tables.byName[name].id) else SawExisting(name)
  }

  /** Moving the record of `name` to another state, if the transition is allowed. */
  function Transit(s: State, name: string, to: TableState, o: Outcome): State
    requires name in s.records
  {
    if o == FailedWithoutEffect then s else s.(records := s.records[name := s.records[name].(state := to)])
  }

  function DoCreateBegin(s: State, t: TaskId, name: string, ine: bool): State {
    if name in s.tables.byName then Emit(s, ExistingAnswer(s, name, ine))
    else s.(tasks := s.tasks[t := CreateWait(name, ine)])
  }

  function DoCreateLock(s: State, t: TaskId, name: string, ine: bool): State {
    if name in s.tables.byName then Finish(s, t, ExistingAnswer(s, name, ine))
    else
      var next := s.lastSeq + 1;
      if next < SEQ_LIMIT && s.schemaId < SCHEMA_LIMIT
      then s.(lastSeq := next, mutex := Some(t), tasks := s.tasks[t := CreateEngine(name, next)])
      else Finish(s.(lastSeq := next), t, CreateFailed(name))
  }

  function DoEngineCreated(s: State, t: TaskId, name: string, id: nat, o: Outcome): State {
    var s' := if o == FailedWithoutEffect then s else s.(engine := s.engine[id := name]);
    if o == Acked then s'.(tasks := s.tasks[t := CreateRecord(name, id)]) else Finish(s', t, CreateFailed(name))
  }

  function DoRecordCreated(s: State, t: TaskId, name: string, id: nat, o: Outcome): State {
    var s' := if o == FailedWithoutEffect then s
              else s.(records := s.records[name := Record(id, Stable)], recorded := s.recorded + [id]);
    if o == Acked
    then Finish(s'.(tables := InsertTable(s.tables, Table(name, id))), t, Created(name, id))
    else Finish(s', t, CreateFailed(name))
  }

  function DoDropBegin(s: State, t: TaskId, name: string): State {
    if name in s.tables.byName then s.(tasks := s.tasks[t := DropWait(name)]) else Emit(s, SawMissing(name))
  }

  function DoDropLock(s: State, t: TaskId, name: string): State {
    if name in s.tables.byName then s.(mutex := Some(t), tasks := s.tasks[t := DropPrepare(name)])
    else Finish(s, t, SawMissing(name))
  }

  function DoDropPrepared(s: State, t: TaskId, name: string, o: Outcome): State {
    if name in s.records && !CanTransit(s.records[name].state, Dropping) then Finish(s, t, DropFailed(name))
    else
      var s' := if name in s.records then Transit(s, name, Dropping, o) else s;
      if o == Acked then s'.(tasks := s.tasks[t := DropEngine(name)]) else Finish(s', t, DropFailed(name))
  }

  function DoEngineDropped(s: State, t: TaskId, name: string, ids: set<nat>, o: Outcome): State {
    var s' := if o == FailedWithoutEffect then s else s.(engine := s.engine - ids);
    if o == Acked then s'.(tasks := s.tasks[t := DropRecord(name)]) else Finish(s', t, DropFailed(name))
  }

  function DoRecordDropped(s: State, t: TaskId, name: string, o: Outcome): State {
    if name in s.records && !CanTransit(s.records[name].state, Dropped) then Finish(s, t, DropFailed(name))
    else
      var s' := if name in s.records then Transit(s, name, Dropped, o) else s;
      if o == Acked
      then Finish(s'.(tables := RemoveTable(s.tables, name)), t, RemovedTable(name))
      else Finish(s', t, DropFailed(name))
  }

  /** Memory is lost; the visitor reads the records back. */
  function DoCrash(s: State, scan: seq<TableInfo>): State {
    Emit(s, Crashed).(tables := Tables(map[], map[]), lastSeq := VisitedSeq(scan, 0), mutex := None, tasks := map[],
                      toOpen := map n | n in s.records && s.records[n].state == Stable :: s.records[n].id,
                      serving := false)
  }

  function DoOpenTable(s: State, n: string): State
    requires n in s.toOpen
  {
    Emit(s, OpenedTable(n, s.toOpen[n])).(tables := InsertTable(s.tables, Table(n, s.toOpen[n])), toOpen := s.toOpen - {n})
  }

  ghost function Exec(s: State, a: Action): State
    requires Guard(s, a)
  {
    match a
    case CreateBegin(t, name, ine) => DoCreateBegin(s, t, name, ine)
    case CreateLock(t) => DoCreateLock(s, t, s.tasks[t].name, s.tasks[t].ifNotExists)
    case EngineCreated(t, o) => DoEngineCreated(s, t, s.tasks[t].name, s.tasks[t].id, o)
    case RecordCreated(t, o) => DoRecordCreated(s, t, s.tasks[t].name, s.tasks[t].id, o)
    case DropBegin(t, name) => DoDropBegin(s, t, name)
    case DropLock(t) => DoDropLock(s, t, s.tasks[t].name)
    case DropPrepared(t, o) => DoDropPrepared(s, t, s.tasks[t].name, o)
    case EngineDropped(t, ids, o) => DoEngineDropped(s, t, s.tasks[t].name, ids, o)
    case RecordDropped(t, o) => DoRecordDropped(s, t, s.tasks[t].name, o)
    case Crash(scan) => DoCrash(s, scan)
    case OpenTable(n) => DoOpenTable(s, n)
    case Serve => s.(serving := true, toOpen := map[])
  }

  ghost predicate Init(s: State) {
    s == State(Tables(map[], map[]), 0, None, map[], map[], true, s.schemaId, map[], map[], [], [])
  }

  ghost predicate IsRun(s: State, run: seq<Action>)
    decreases |run|
  {
    run == [] || (Guard(s, run[0]) && IsRun(Exec(s, run[0]), run[1..]))
  }

  ghost function After(s: State, run: seq<Action>): State
    requires IsRun(s, run)
    decreases |run|
  {
    if run == [] then s else After(Exec(s, run[0]), run[1..])
  }

  // ---------------------------------------------------------------------------
  // The sequential catalog that the log must follow
  // ---------------------------------------------------------------------------

  /** The table visible under a name after the events of the log. */
  function Visible(log: seq<Event>, name: string): Option<nat> {
    if log == [] then None
    else
      var before := log[..|log| - 1];
      match log[|log| - 1]
      case Created(n, id) => if n == name then Some(id) else Visible(before, name)
      case OpenedTable(n, id) => if n == name then Some(id) else Visible(before, name)
      case RemovedTable(n) => if n == name then None else Visible(before, name)
      case Crashed => None
      case _ => Visible(before, name)
  }

  /** An event is legal after a log: only absent names are created, only visible ones are seen or dropped. */
  predicate Legal(before: seq<Event>, e: Event) {
    match e
    case Created(n, _) => Visible(before, n) == None
    case OpenedTable(n, _) => Visible(before, n) == None
    case SawTable(n, id) => Visible(before, n) == Some(id)
    case SawExisting(n) => Visible(before, n) != None
    case RemovedTable(n) => Visible(before, n) != None
    case SawMissing(n) => Visible(before, n) == None
    case _ => true
  }

  ghost predicate LegalLog(log: seq<Event>) {
    forall i :: 0 <= i < |log| ==> Legal(log[..i], log[i])
  }

  // ---------------------------------------------------------------------------
  // Invariant
  // ---------------------------------------------------------------------------

  function Lookup(m: Tables, n: string): Option<nat> {
    if n in m.byName then Some(m.byName[n].id) else None
  }

  ghost predicate LogInv(log: seq<Event>, tables: Tables) {
    LegalLog(log) && forall n :: Visible(log, n) == Lookup(tables, n)
  }

  /** The largest id recorded so far; ids start at 1. */
  function MaxRecorded(recorded: seq<nat>): nat { if recorded == [] then 0 else recorded[|recorded| - 1] }

  predicate Increasing(recorded: seq<nat>) {
    forall i, j :: 0 <= i < j < |recorded| ==> recorded[i] < recorded[j]
  }

  /** The record with the largest id ever recorded is still there. */
  ghost predicate MaxIsRecorded(recorded: seq<nat>, records: map<string, Record>) {
    recorded != [] ==> exists n :: n in records && records[n].id == MaxRecorded(recorded)
  }

  ghost predicate RecordIds(records: map<string, Record>, max: nat) {
    && (forall n :: n in records ==> records[n].id <= max)
    && (forall n, k :: n in records && k in records && records[n].id == records[k].id ==> n == k)
  }

  ghost predicate TablesRecorded(tables: Tables, records: map<string, Record>) {
    forall n :: n in tables.byName ==> n in records && records[n].id == tables.byName[n].id
  }

  /** A record marked stable has its table in the engine. */
  ghost predicate StableInEngine(records: map<string, Record>, engine: map<nat, string>) {
    forall n :: n in records && records[n].state == Stable ==>
      records[n].id in engine && engine[records[n].id] == n
  }

  predicate HoldsMutex(p: Position) { !p.CreateWait? && !p.DropWait? }

  ghost predicate MutexInv(tasks: map<TaskId, Position>, mutex: Option<TaskId>) {
    && (forall t :: t in tasks ==> (HoldsMutex(tasks[t]) <==> mutex == Some(t)))
    && (mutex.Some? ==> mutex.value in tasks)
  }

  /** What the holder of the mutex can rely on. */
  ghost predicate HolderInv(s: State, p: Position) {
    match p
    case CreateWait(_, _) => true
    case CreateEngine(n, id) => n !in s.tables.byName && MaxRecorded(s.recorded) < id == s.lastSeq
    case CreateRecord(n, id) =>
      n !in s.tables.byName && MaxRecorded(s.recorded) < id == s.lastSeq && id in s.engine && s.engine[id] == n
    case DropWait(_) => true
    case DropPrepare(n) => n in s.tables.byName
    case DropEngine(n) => n in s.tables.byName && (n in s.records ==> s.records[n].state == Dropping)
    case DropRecord(n) => n in s.tables.byName && (n in s.records ==> s.records[n].state == Dropping)
  }

  ghost predicate OpenInv(toOpen: map<string, nat>, tables: Tables, records: map<string, Record>) {
    forall n :: n in toOpen ==> n !in tables.byName && n in records && records[n] == Record(toOpen[n], Stable)
  }

  ghost predicate Inv(s: State) {
    && Mirror(s.tables)
    && LogInv(s.log, s.tables)
    && Increasing(s.recorded) && MaxRecorded(s.recorded) <= s.lastSeq
    && MaxIsRecorded(s.recorded, s.records)
    && RecordIds(s.records, MaxRecorded(s.recorded))
    && TablesRecorded(s.tables, s.records)
    && StableInEngine(s.records, s.engine)
    && MutexInv(s.tasks, s.mutex)
    && (s.mutex.Some? ==> HolderInv(s, s.tasks[s.mutex.value]))
    && (s.serving ==> s.toOpen == map[])
    && (!s.serving ==> s.tasks == map[])
    && OpenInv(s.toOpen, s.tables, s.records)
  }

  // ---------------------------------------------------------------------------
  // Every step keeps the invariant
  // ---------------------------------------------------------------------------

  lemma VisibleAfter(log: seq<Event>, e: Event, name: string)
    ensures Visible(log + [e], name) ==
            match e
            case Created(n, id) => if n == name then Some(id) else Visible(log, name)
            case OpenedTable(n, id) => if n == name then Some(id) else Visible(log, name)
            case RemovedTable(n) => if n == name then None else Visible(log, name)
            case Crashed => None
            case _ => Visible(log, name)
  {
  }

  lemma LegalLogExtends(log: seq<Event>, e: Event)
    requires LegalLog(log) && Legal(log, e)
    ensures LegalLog(log + [e])
  {
    forall i | 0 <= i < |log + [e]| ensures Legal((log + [e])[..i], (log + [e])[i]) {
      assert (log + [e])[..i] == log[..i];
    }
    assert log[..|log|] == log;
  }

  /** An event that changes no table. */
  predicate IsAnswer(e: Event) { !e.Created? && !e.OpenedTable? && !e.RemovedTable? && !e.Crashed? }

  lemma AnswerKeepsLog(log: seq<Event>, tables: Tables, e: Event)
    requires LogInv(log, tables) && IsAnswer(e) && Legal(log, e)
    ensures LogInv(log + [e], tables)
  {
    LegalLogExtends(log, e);
    forall n ensures Visible(log + [e], n) == Lookup(tables, n) { VisibleAfter(log, e, n); }
  }

  /** An event that changes the tables: what is visible changes in the same way. */
  lemma ChangeKeepsLog(log: seq<Event>, tables: Tables, e: Event, tables': Tables)
    requires LogInv(log, tables) && Legal(log, e)
    requires forall n :: Lookup(tables', n) ==
               match e
               case Created(k, id) => if k == n then Some(id) else Lookup(tables, n)
               case OpenedTable(k, id) => if k == n then Some(id) else Lookup(tables, n)
               case RemovedTable(k) => if k == n then None else Lookup(tables, n)
               case Crashed => None
               case _ => Lookup(tables, n)
    ensures LogInv(log + [e], tables')
  {
    LegalLogExtends(log, e);
    forall n ensures Visible(log + [e], n) == Lookup(tables', n) { VisibleAfter(log, e, n); }
  }

  lemma FinishMutex(s: State, t: TaskId, e: Event)
    requires MutexInv(s.tasks, s.mutex) && t in s.tasks
    ensures MutexInv(Finish(s, t, e).tasks, Finish(s, t, e).mutex)
    ensures s.mutex == Some(t) ==> Finish(s, t, e).mutex == None
    ensures s.mutex != Some(t) && s.mutex.Some? ==> Finish(s, t, e).tasks[s.mutex.value] == s.tasks[s.mutex.value]
  {
  }

  /** A request answers and is gone. */
  lemma FinishKeepsInv(s: State, t: TaskId, e: Event)
    requires Inv(s) && t in s.tasks && IsAnswer(e) && Legal(s.log, e)
    ensures Inv(Finish(s, t, e))
  {
    AnswerKeepsLog(s.log, s.tables, e);
    FinishMutex(s, t, e);
  }

  lemma StepCreateBegin(s: State, t: TaskId, name: string, ine: bool)
    requires Inv(s) && Guard(s, CreateBegin(t, name, ine))
    ensures Inv(Exec(s, CreateBegin(t, name, ine)))
  {
    assert Visible(s.log, name) == Lookup(s.tables, name);
    if name in s.tables.byName {
      AnswerKeepsLog(s.log, s.tables, ExistingAnswer(s, name, ine));
    }
  }

  lemma StepCreateLock(s: State, t: TaskId)
    requires Inv(s) && Guard(s, CreateLock(t))
    ensures Inv(Exec(s, CreateLock(t)))
  {
    var name := s.tasks[t].name;
    assert Visible(s.log, name) == Lookup(s.tables, name);
    if name in s.tables.byName {
      FinishKeepsInv(s, t, ExistingAnswer(s, name, s.tasks[t].ifNotExists));
    } else if s.lastSeq + 1 < SEQ_LIMIT && s.schemaId < SCHEMA_LIMIT {
      LockMutex(s.tasks, t, CreateEngine(name, s.lastSeq + 1));
    } else {
      FinishKeepsInv(s.(lastSeq := s.lastSeq + 1), t, CreateFailed(name));
    }
  }

  lemma LockMutex(tasks: map<TaskId, Position>, t: TaskId, p: Position)
    requires MutexInv(tasks, None) && t in tasks && HoldsMutex(p)
    ensures MutexInv(tasks[t := p], Some(t))
  {
  }

  lemma StepEngineCreated(s: State, t: TaskId, o: Outcome)
    requires Inv(s) && Guard(s, EngineCreated(t, o))
    ensures Inv(Exec(s, EngineCreated(t, o)))
  {
    var name, id := s.tasks[t].name, s.tasks[t].id;
    assert s.mutex == Some(t);
    var s1 := if o == FailedWithoutEffect then s else s.(engine := s.engine[id := name]);
    if o == Acked {
      AdvanceKeepsInv(s1, t, CreateRecord(name, id));
    } else {
      FinishKeepsInv(s1, t, CreateFailed(name));
    }
  }

  /** The holder of the mutex moves on. */
  lemma AdvanceKeepsInv(s: State, t: TaskId, p: Position)
    requires Inv(s) && s.mutex == Some(t) && HoldsMutex(p) && HolderInv(s, p)
    ensures Inv(s.(tasks := s.tasks[t := p]))
  {
  }

  lemma StepRecordCreated(s: State, t: TaskId, o: Outcome)
    requires Inv(s) && Guard(s, RecordCreated(t, o))
    ensures Inv(Exec(s, RecordCreated(t, o)))
  {
    var name, id := s.tasks[t].name, s.tasks[t].id;
    assert s.mutex == Some(t);
    if o == FailedWithoutEffect {
      FinishKeepsInv(s, t, CreateFailed(name));
    } else {
      assert Visible(s.log, name) == Lookup(s.tables, name);
      RecordWritten(s.records, s.recorded, s.tables, s.engine, name, id);
      FinishMutex(s, t, CreateFailed(name));
      if o == Acked {
        InsertKeepsMirrorIff(s.tables, Table(name, id));
        ChangeKeepsLog(s.log, s.tables, Created(name, id), InsertTable(s.tables, Table(name, id)));
      } else {
        AnswerKeepsLog(s.log, s.tables, CreateFailed(name));
      }
    }
  }

  /** Writing the record of a new table, whose id is larger than every recorded one. */
  lemma RecordWritten(records: map<string, Record>, recorded: seq<nat>, tables: Tables, engine: map<nat, string>, name: string, id: nat)
    requires RecordIds(records, MaxRecorded(recorded)) && TablesRecorded(tables, records) && StableInEngine(records, engine)
    requires Increasing(recorded) && MaxRecorded(recorded) < id && name !in tables.byName && id in engine && engine[id] == name
    ensures var records', recorded' := records[name := Record(id, Stable)], recorded + [id];
            && Increasing(recorded') && MaxIsRecorded(recorded', records')
            && RecordIds(records', MaxRecorded(recorded')) && StableInEngine(records', engine)
            && TablesRecorded(tables, records') && TablesRecorded(InsertTable(tables, Table(name, id)), records')
  {
    var records' := records[name := Record(id, Stable)];
    assert name in records' && records'[name].id == id;
  }

  lemma StepDropBegin(s: State, t: TaskId, name: string)
    requires Inv(s) && Guard(s, DropBegin(t, name))
    ensures Inv(Exec(s, DropBegin(t, name)))
  {
    assert Visible(s.log, name) == Lookup(s.tables, name);
    if name !in s.tables.byName {
      AnswerKeepsLog(s.log, s.tables, SawMissing(name));
    }
  }

  lemma StepDropLock(s: State, t: TaskId)
    requires Inv(s) && Guard(s, DropLock(t))
    ensures Inv(Exec(s, DropLock(t)))
  {
    var name := s.tasks[t].name;
    assert Visible(s.log, name) == Lookup(s.tables, name);
    if name in s.tables.byName {
      LockMutex(s.tasks, t, DropPrepare(name));
    } else {
      FinishKeepsInv(s, t, SawMissing(name));
    }
  }

  /** Moving a record away from stable keeps every fact about records. */
  lemma TransitKeeps(records: map<string, Record>, recorded: seq<nat>, tables: Tables, engine: map<nat, string>, name: string, to: TableState)
    requires name in records && to != Stable
    requires RecordIds(records, MaxRecorded(recorded)) && TablesRecorded(tables, records)
    requires StableInEngine(records, engine) && MaxIsRecorded(recorded, records)
    ensures var records' := records[name := records[name].(state := to)];
            && RecordIds(records', MaxRecorded(recorded)) && TablesRecorded(tables, records')
            && StableInEngine(records', engine) && MaxIsRecorded(recorded, records')
  {
    if recorded != [] {
      var n :| n in records && records[n].id == MaxRecorded(recorded);
      var records' := records[name := records[name].(state := to)];
      assert n in records' && records'[n].id == MaxRecorded(recorded);
    }
  }

  lemma DropPreparedIs(s: State, t: TaskId, name: string, o: Outcome)
    requires t in s.tasks && s.tasks[t] == DropPrepare(name) && name in s.records
    ensures Exec(s, DropPrepared(t, o)) ==
      if !CanTransit(s.records[name].state, Dropping) then Finish(s, t, DropFailed(name))
      else if o == Acked then Transit(s, name, Dropping, o).(tasks := s.tasks[t := DropEngine(name)])
      else Finish(Transit(s, name, Dropping, o), t, DropFailed(name))
  {
  }

  lemma StepDropPrepared(s: State, t: TaskId, o: Outcome)
    requires Inv(s) && Guard(s, DropPrepared(t, o))
    ensures Inv(Exec(s, DropPrepared(t, o)))
  {
    var name := s.tasks[t].name;
    assert s.mutex == Some(t);
    DropPreparedIs(s, t, name, o);
    if CanTransit(s.records[name].state, Dropping) {
      DropTransit(s, t, name, o);
      if o == Acked {
        AdvanceKeepsInv(Transit(s, name, Dropping, o), t, DropEngine(name));
      } else {
        FinishKeepsInv(Transit(s, name, Dropping, o), t, DropFailed(name));
      }
    } else {
      FinishKeepsInv(s, t, DropFailed(name));
    }
  }

  lemma DropTransit(s: State, t: TaskId, name: string, o: Outcome)
    requires Inv(s) && s.mutex == Some(t) && s.tasks[t] == DropPrepare(name) && name in s.records
    ensures Inv(Transit(s, name, Dropping, o))
  {
    TransitKeeps(s.records, s.recorded, s.tables, s.engine, name, Dropping);
  }

  lemma StepEngineDropped(s: State, t: TaskId, ids: set<nat>, o: Outcome)
    requires Inv(s) && Guard(s, EngineDropped(t, ids, o))
    ensures Inv(Exec(s, EngineDropped(t, ids, o)))
  {
    var name := s.tasks[t].name;
    assert s.mutex == Some(t);
    var s1 := if o == FailedWithoutEffect then s else s.(engine := s.engine - ids);
    assert StableInEngine(s1.records, s1.engine);
    if o == Acked {
      AdvanceKeepsInv(s1, t, DropRecord(name));
    } else {
      FinishKeepsInv(s1, t, DropFailed(name));
    }
  }

  /** The record is dropped and the task ends, with or without removing the table from memory. */
  function DroppedState(s: State, t: TaskId, name: string, acked: bool): State
    requires name in s.records
  {
    var s1 := s.(records := s.records[name := s.records[name].(state := Dropped)]);
    if acked then Finish(s1.(tables := RemoveTable(s.tables, name)), t, RemovedTable(name))
    else Finish(s1, t, DropFailed(name))
  }

  lemma RecordDroppedEnds(s: State, t: TaskId, name: string, o: Outcome)
    requires t in s.tasks && s.tasks[t] == DropRecord(name) && name in s.records && s.records[name].state == Dropping
    ensures Exec(s, RecordDropped(t, o)) ==
      if o == FailedWithoutEffect then Finish(s, t, DropFailed(name)) else DroppedState(s, t, name, o == Acked)
  {
  }

  lemma StepRecordDropped(s: State, t: TaskId, o: Outcome)
    requires Inv(s) && Guard(s, RecordDropped(t, o))
    ensures Inv(Exec(s, RecordDropped(t, o)))
  {
    var name := s.tasks[t].name;
    assert s.mutex == Some(t);
    RecordDroppedEnds(s, t, name, o);
    if o == FailedWithoutEffect {
      FinishKeepsInv(s, t, DropFailed(name));
    } else if o == Acked {
      RemovalKeepsInv(s, t, name);
    } else {
      DroppedKeepsInv(s, t, name);
    }
  }

  lemma DroppedKeepsInv(s: State, t: TaskId, name: string)
    requires Inv(s) && s.mutex == Some(t) && s.tasks[t] == DropRecord(name) && name in s.records
    ensures Inv(DroppedState(s, t, name, false))
  {
    TransitKeeps(s.records, s.recorded, s.tables, s.engine, name, Dropped);
    FinishMutex(s, t, DropFailed(name));
    AnswerKeepsLog(s.log, s.tables, DropFailed(name));
  }

  lemma RemovalKeepsInv(s: State, t: TaskId, name: string)
    requires Inv(s) && s.mutex == Some(t) && s.tasks[t] == DropRecord(name) && name in s.records
    ensures Inv(DroppedState(s, t, name, true))
  {
    TransitKeeps(s.records, s.recorded, s.tables, s.engine, name, Dropped);
    FinishMutex(s, t, DropFailed(name));
    assert Visible(s.log, name) == Lookup(s.tables, name);
    RemoveKeepsMirror(s.tables, name);
    ChangeKeepsLog(s.log, s.tables, RemovedTable(name), RemoveTable(s.tables, name));
  }

  /** The largest id ever recorded is still in some record, so a restart never falls behind it. */
  lemma RescanCoversRecorded(recorded: seq<nat>, records: map<string, Record>, scan: seq<TableInfo>)
    requires MaxIsRecorded(recorded, records) && IsScan(scan, records)
    ensures MaxRecorded(recorded) <= VisitedSeq(scan, 0)
  {
    VisitedSeqIsMax(scan, 0);
    if recorded != [] {
      var n :| n in records && records[n].id == MaxRecorded(recorded);
      assert TableInfo(n, records[n]) in scan;
    }
  }

  lemma StepCrash(s: State, scan: seq<TableInfo>)
    requires Inv(s) && Guard(s, Crash(scan))
    ensures Inv(Exec(s, Crash(scan)))
  {
    RescanCoversRecorded(s.recorded, s.records, scan);
    ChangeKeepsLog(s.log, s.tables, Crashed, Tables(map[], map[]));
  }

  lemma StepOpenTable(s: State, n: string)
    requires Inv(s) && Guard(s, OpenTable(n))
    ensures Inv(Exec(s, OpenTable(n)))
  {
    var table := Table(n, s.toOpen[n]);
    assert Visible(s.log, n) == Lookup(s.tables, n);
    forall i | i in s.tables.byId ensures i != table.id {
      var k := s.tables.byId[i].name;
      assert k in s.records && s.records[k].id == i && k != n;
    }
    InsertKeepsMirrorIff(s.tables, table);
    ChangeKeepsLog(s.log, s.tables, OpenedTable(n, table.id), InsertTable(s.tables, table));
    assert TablesRecorded(InsertTable(s.tables, table), s.records);
  }

  lemma StepKeepsInv(s: State, a: Action)
    requires Inv(s) && Guard(s, a)
    ensures Inv(Exec(s, a))
  {
    match a
    case CreateBegin(t, name, ine) => StepCreateBegin(s, t, name, ine);
    case CreateLock(t) => StepCreateLock(s, t);
    case EngineCreated(t, o) => StepEngineCreated(s, t, o);
    case RecordCreated(t, o) => StepRecordCreated(s, t, o);
    case DropBegin(t, name) => StepDropBegin(s, t, name);
    case DropLock(t) => StepDropLock(s, t);
    case DropPrepared(t, o) => StepDropPrepared(s, t, o);
    case EngineDropped(t, ids, o) => StepEngineDropped(s, t, ids, o);
    case RecordDropped(t, o) => StepRecordDropped(s, t, o);
    case Crash(scan) => StepCrash(s, scan);
    case OpenTable(n) => StepOpenTable(s, n);
    case Serve =>
  }

  lemma {:induction false} RunKeepsInv(s: State, run: seq<Action>)
    requires Inv(s) && IsRun(s, run)
    ensures Inv(After(s, run))
    decreases |run|
  {
    if run != [] {
      StepKeepsInv(s, run[0]);
      RunKeepsInv(Exec(s, run[0]), run[1..]);
    }
  }

  lemma InitInv(s: State)
    requires Init(s)
    ensures Inv(s)
  {
  }

  // ---------------------------------------------------------------------------
  // What holds in every run
  // ---------------------------------------------------------------------------

  /**
   * Crash safety: at every moment of every run, a table whose record is stable is in the engine
   * under the recorded id, and so is every table that a restart still has to open.
   */
  lemma StableTablesExist(s0: State, run: seq<Action>)
    requires Init(s0) && IsRun(s0, run)
    ensures var s := After(s0, run);
            && (forall n :: n in s.records && s.records[n].state == Stable ==>
                  s.records[n].id in s.engine && s.engine[s.records[n].id] == n)
            && (forall n :: n in s.toOpen ==> s.toOpen[n] in s.engine && s.engine[s.toOpen[n]] == n)
  {
    InitInv(s0);
    RunKeepsInv(s0, run);
  }

  /** The ids ever written to the system catalog strictly increase, so no two are equal. */
  lemma RecordedIdsDistinct(s0: State, run: seq<Action>)
    requires Init(s0) && IsRun(s0, run)
    ensures var r := After(s0, run).recorded;
            forall i, j :: 0 <= i < j < |r| ==> r[i] < r[j]
  {
    InitInv(s0);
    RunKeepsInv(s0, run);
  }

  /**
   * Every interleaving of requests, crashes and restarts answers like the sequential catalog: a
   * name is created only while no table is visible under it, every other creator of the name is
   * shown the table that was created, and a drop succeeds only on a visible table.
   */
  lemma AnswersAreSequential(s0: State, run: seq<Action>)
    requires Init(s0) && IsRun(s0, run)
    ensures LegalLog(After(s0, run).log)
    ensures forall n :: Visible(After(s0, run).log, n) == Lookup(After(s0, run).tables, n)
  {
    InitInv(s0);
    RunKeepsInv(s0, run);
  }

  /** In particular, two creations of one name have a drop of it or a crash between them. */
  lemma OneCreatorPerName(s0: State, run: seq<Action>, i: nat, j: nat)
    requires Init(s0) && IsRun(s0, run) && i < j < |After(s0, run).log|
    requires After(s0, run).log[i].Created? && After(s0, run).log[j].Created?
    requires After(s0, run).log[i].name == After(s0, run).log[j].name
    ensures var log := After(s0, run).log;
            exists k :: i < k < j && (log[k] == Crashed || log[k] == RemovedTable(log[i].name))
  {
    AnswersAreSequential(s0, run);
    var log := After(s0, run).log;
    var k := LastSeen(log, i, j);
  }

  lemma {:induction false} LastSeen(log: seq<Event>, i: nat, j: nat) returns (k: nat)
    requires i < j <= |log| && log[i].Created? && Visible(log[..j], log[i].name) == None
    ensures i < k < j && (log[k] == Crashed || log[k] == RemovedTable(log[i].name))
    decreases j
  {
    var last := log[j - 1];
    assert log[..j][..j - 1] == log[..j - 1];
    if last == Crashed || last == RemovedTable(log[i].name) {
      k := j - 1;
    } else {
      assert j - 1 != i;
      k := LastSeen(log, i, j - 1);
    }
  }

  /** The two maps of the schema mirror each other at every moment. */
  lemma MapsStayMirrored(s0: State, run: seq<Action>)
    requires Init(s0) && IsRun(s0, run)
    ensures Mirror(After(s0, run).tables)
  {
    InitInv(s0);
    RunKeepsInv(s0, run);
  }

  // ---------------------------------------------------------------------------
  // A drop that failed half-way cannot be repeated
  // ---------------------------------------------------------------------------

  ghost predicate NoDropUnderWay(tasks: map<TaskId, Position>, n: string) {
    forall t :: t in tasks && (tasks[t].DropEngine? || tasks[t].DropRecord?) ==> tasks[t].name != n
  }

  /** The table is visible but its record has left the stable state, and no drop of it is under way. */
  ghost predicate Stuck(s: State, n: string) {
    n in s.tables.byName && n in s.records && s.records[n].state != Stable && NoDropUnderWay(s.tasks, n)
  }

  lemma StuckFinish(s: State, t: TaskId, e: Event, n: string)
    requires Stuck(s, n)
    ensures Stuck(Finish(s, t, e), n)
  {
  }

  lemma StuckMove(s: State, t: TaskId, p: Position, n: string)
    requires Stuck(s, n) && (p.DropEngine? || p.DropRecord? ==> p.name != n)
    ensures Stuck(s.(tasks := s.tasks[t := p]), n)
  {
  }

  lemma StuckTransit(s: State, name: string, to: TableState, o: Outcome, n: string)
    requires Stuck(s, n) && name in s.records && to != Stable
    ensures Stuck(Transit(s, name, to, o), n)
  {
  }

  lemma StuckCreate(s: State, a: Action, n: string)
    requires Guard(s, a) && Stuck(s, n) && (a.CreateBegin? || a.CreateLock? || a.EngineCreated?)
    ensures Stuck(Exec(s, a), n)
  {
    match a
    case CreateBegin(t, name, ine) => StuckMove(s, t, CreateWait(name, ine), n);
    case CreateLock(t) =>
      var name, s1 := s.tasks[t].name, s.(lastSeq := s.lastSeq + 1);
      StuckMove(s1, t, CreateEngine(name, s1.lastSeq), n);
      StuckFinish(s1, t, CreateFailed(name), n);
      if name in s.tables.byName { StuckFinish(s, t, ExistingAnswer(s, name, s.tasks[t].ifNotExists), n); }
    case EngineCreated(t, o) =>
      var name, id := s.tasks[t].name, s.tasks[t].id;
      var s1 := if o == FailedWithoutEffect then s else s.(engine := s.engine[id := name]);
      StuckMove(s1, t, CreateRecord(name, id), n);
      StuckFinish(s1, t, CreateFailed(name), n);
  }

  lemma StuckRecorded(s: State, t: TaskId, name: string, id: nat, o: Outcome, n: string)
    requires Stuck(s, n) && name != n
    ensures Stuck(DoRecordCreated(s, t, name, id, o), n)
  {
    var s1 := s.(records := s.records[name := Record(id, Stable)], recorded := s.recorded + [id]);
    StuckFinish(s1.(tables := InsertTable(s.tables, Table(name, id))), t, Created(name, id), n);
    StuckFinish(s1, t, CreateFailed(name), n);
    StuckFinish(s, t, CreateFailed(name), n);
  }

  lemma StuckDrop(s: State, a: Action, n: string)
    requires Guard(s, a) && Stuck(s, n)
    requires a.DropBegin? || a.DropLock? || a.DropPrepared? || a.EngineDropped? || a.RecordDropped?
    ensures Stuck(Exec(s, a), n)
  {
    match a
    case DropBegin(t, name) => StuckMove(s, t, DropWait(name), n);
    case DropLock(t) =>
      var name := s.tasks[t].name;
      StuckMove(s, t, DropPrepare(name), n);
      StuckFinish(s, t, SawMissing(name), n);
    case DropPrepared(t, o) => StuckPrepared(s, t, s.tasks[t].name, o, n);
    case EngineDropped(t, ids, o) =>
      var name := s.tasks[t].name;
      var s1 := if o == FailedWithoutEffect then s else s.(engine := s.engine - ids);
      StuckMove(s1, t, DropRecord(name), n);
      StuckFinish(s1, t, DropFailed(name), n);
    case RecordDropped(t, o) => StuckDropped(s, t, s.tasks[t].name, o, n);
  }

  lemma StuckPrepared(s: State, t: TaskId, name: string, o: Outcome, n: string)
    requires Stuck(s, n)
    ensures Stuck(DoDropPrepared(s, t, name, o), n)
  {
    StuckFinish(s, t, DropFailed(name), n);
    if name != n {
      var s1 := if name in s.records then Transit(s, name, Dropping, o) else s;
      if name in s.records { StuckTransit(s, name, Dropping, o, n); }
      StuckMove(s1, t, DropEngine(name), n);
      StuckFinish(s1, t, DropFailed(name), n);
    }
  }

  lemma StuckDropped(s: State, t: TaskId, name: string, o: Outcome, n: string)
    requires Stuck(s, n) && name != n
    ensures Stuck(DoRecordDropped(s, t, name, o), n)
  {
    StuckFinish(s, t, DropFailed(name), n);
    var s1 := if name in s.records then Transit(s, name, Dropped, o) else s;
    if name in s.records { StuckTransit(s, name, Dropped, o, n); }
    StuckFinish(s1, t, DropFailed(name), n);
    StuckFinish(s1.(tables := RemoveTable(s.tables, name)), t, RemovedTable(name), n);
  }

  lemma StuckStep(s: State, a: Action, n: string)
    requires Inv(s) && Guard(s, a) && !a.Crash? && Stuck(s, n)
    ensures Stuck(Exec(s, a), n)
  {
    if a.OpenTable? || a.Serve? {
    } else if a.CreateBegin? || a.CreateLock? || a.EngineCreated? {
      StuckCreate(s, a, n);
    } else if a.RecordCreated? {
      assert s.mutex == Some(a.task);
      StuckRecorded(s, a.task, s.tasks[a.task].name, s.tasks[a.task].id, a.outcome, n);
    } else {
      StuckDrop(s, a, n);
    }
  }

  /** The log only grew, and not by a removal of the table. */
  ghost predicate KeepsTable(before: seq<Event>, after: seq<Event>, n: string) {
    before <= after && RemovedTable(n) !in after[|before|..]
  }

  lemma KeepsTableTransitive(a: seq<Event>, b: seq<Event>, c: seq<Event>, n: string)
    requires KeepsTable(a, b, n) && KeepsTable(b, c, n)
    ensures KeepsTable(a, c, n)
  {
    assert c[|a|..] == b[|a|..] + c[|b|..];
  }

  lemma EventKeepsTable(log: seq<Event>, e: Event, n: string)
    requires e != RemovedTable(n)
    ensures KeepsTable(log, log + [e], n)
  {
    assert (log + [e])[|log|..] == [e];
  }

  lemma CreateKeepsTable(s: State, a: Action, n: string)
    requires Guard(s, a) && (a.CreateBegin? || a.CreateLock? || a.EngineCreated? || a.RecordCreated?)
    ensures KeepsTable(s.log, Exec(s, a).log, n)
  {
    var name := if a.CreateBegin? then a.name else s.tasks[a.task].name;
    EventKeepsTable(s.log, CreateFailed(name), n);
    match a
    case CreateBegin(_, _, ine) =>
      if name in s.tables.byName { EventKeepsTable(s.log, ExistingAnswer(s, name, ine), n); }
    case CreateLock(t) =>
      if name in s.tables.byName { EventKeepsTable(s.log, ExistingAnswer(s, name, s.tasks[t].ifNotExists), n); }
    case EngineCreated(_, _) =>
    case RecordCreated(t, _) => EventKeepsTable(s.log, Created(name, s.tasks[t].id), n);
  }

  lemma DropKeepsTable(s: State, a: Action, n: string)
    requires Guard(s, a) && (a.DropBegin? || a.DropLock? || a.DropPrepared? || a.EngineDropped?)
    ensures KeepsTable(s.log, Exec(s, a).log, n)
  {
    var name := if a.DropBegin? then a.name else s.tasks[a.task].name;
    EventKeepsTable(s.log, SawMissing(name), n);
    EventKeepsTable(s.log, DropFailed(name), n);
  }

  lemma OtherKeepsTable(s: State, a: Action, n: string)
    requires Guard(s, a) && (a.RecordDropped? ==> s.tasks[a.task].name != n)
    requires a.RecordDropped? || a.Crash? || a.OpenTable? || a.Serve?
    ensures KeepsTable(s.log, Exec(s, a).log, n)
  {
    match a
    case RecordDropped(t, _) =>
      EventKeepsTable(s.log, RemovedTable(s.tasks[t].name), n);
      EventKeepsTable(s.log, DropFailed(s.tasks[t].name), n);
    case Crash(_) => EventKeepsTable(s.log, Crashed, n);
    case OpenTable(name) => EventKeepsTable(s.log, OpenedTable(name, s.toOpen[name]), n);
    case Serve =>
  }

  lemma StuckLog(s: State, a: Action, n: string)
    requires Guard(s, a) && Stuck(s, n)
    ensures KeepsTable(s.log, Exec(s, a).log, n)
  {
    if a.CreateBegin? || a.CreateLock? || a.EngineCreated? || a.RecordCreated? {
      CreateKeepsTable(s, a, n);
    } else if a.DropBegin? || a.DropLock? || a.DropPrepared? || a.EngineDropped? {
      DropKeepsTable(s, a, n);
    } else {
      OtherKeepsTable(s, a, n);
    }
  }

  /**
   * A table whose drop was prepared but not finished stays visible in every continuation without
   * a restart, and none of the drops in it removes the table.
   */
  lemma {:induction false} HalfDroppedTableStays(s: State, run: seq<Action>, n: string)
    requires Inv(s) && IsRun(s, run) && Stuck(s, n)
    requires forall i :: 0 <= i < |run| ==> !run[i].Crash?
    ensures Stuck(After(s, run), n) && KeepsTable(s.log, After(s, run).log, n)
    decreases |run|
  {
    if run != [] {
      StepKeepsInv(s, run[0]);
      StuckStep(s, run[0], n);
      StuckLog(s, run[0], n);
      HalfDroppedTableStays(Exec(s, run[0]), run[1..], n);
      KeepsTableTransitive(s.log, Exec(s, run[0]).log, After(s, run).log, n);
    }
  }

  /** A restart drops the table from memory and does not open it again. */
  lemma RestartForgets(s: State, scan: seq<TableInfo>, n: string)
    requires Guard(s, Crash(scan)) && Stuck(s, n)
    ensures var s' := Exec(s, Crash(scan)); n !in s'.tables.byName && n !in s'.toOpen
  {
  }

  // ---------------------------------------------------------------------------
  // Exactly when a drop works
  // ---------------------------------------------------------------------------

  lemma RunCons(s: State, a: Action, rest: seq<Action>)
    requires Guard(s, a) && IsRun(Exec(s, a), rest)
    ensures IsRun(s, [a] + rest) && After(s, [a] + rest) == After(Exec(s, a), rest)
  {
    assert ([a] + rest)[1..] == rest;
  }

  lemma {:induction false} RunAppend(s: State, a: seq<Action>, b: seq<Action>)
    requires IsRun(s, a)
    ensures IsRun(s, a + b) <==> IsRun(After(s, a), b)
    ensures IsRun(s, a + b) ==> After(s, a + b) == After(After(s, a), b)
    decreases |a|
  {
    if a == [] {
      assert a + b == b;
    } else {
      assert (a + b)[1..] == a[1..] + b;
      RunAppend(Exec(s, a[0]), a[1..], b);
    }
  }

  /** A drop up to the record's move to dropping, and the rest of it, every call acknowledged. */
  function Prepare(t: TaskId, n: string): seq<Action> { [DropBegin(t, n), DropLock(t), DropPrepared(t, Acked)] }

  function Complete(t: TaskId, ids: set<nat>): seq<Action> { [EngineDropped(t, ids, Acked), RecordDropped(t, Acked)] }

  function AckedDrop(t: TaskId, n: string, ids: set<nat>): seq<Action> { Prepare(t, n) + Complete(t, ids) }

  /** A new request can drop the visible table without waiting. */
  ghost predicate MayDrop(s: State, t: TaskId, n: string) {
    && s.serving && s.mutex == None && t !in s.tasks
    && n in s.tables.byName && n in s.records && NoDropUnderWay(s.tasks, n)
  }

  lemma FreeMeansMayDrop(s: State, t: TaskId, n: string)
    requires Inv(s) && s.serving && s.mutex == None && n in s.tables.byName && t !in s.tasks
    ensures MayDrop(s, t, n)
  {
  }

  /** After begin, lock and prepare the drop is at the engine, or refused because the record is not stable. */
  lemma PrepareDecides(s: State, t: TaskId, n: string)
    requires MayDrop(s, t, n)
    ensures IsRun(s, Prepare(t, n))
    ensures var s' := After(s, Prepare(t, n));
      if s.records[n].state == Stable
      then s' == s.(mutex := Some(t), tasks := s.tasks[t := DropEngine(n)],
                    records := s.records[n := s.records[n].(state := Dropping)])
      else s'.log == s.log + [DropFailed(n)] && t !in s'.tasks && Stuck(s', n)
  {
    AtPrepare(s, t, n);
    var s2 := s.(mutex := Some(t), tasks := s.tasks[t := DropPrepare(n)]);
    DropPreparedEnds(s2, t, n);
    ThreeSteps(s, DropBegin(t, n), DropLock(t), DropPrepared(t, Acked), s2);
    assert s2.tasks[t := DropEngine(n)] == s.tasks[t := DropEngine(n)];
  }

  lemma TwoSteps(s: State, a: Action, b: Action, s1: State)
    requires Guard(s, a) && Exec(s, a) == s1 && Guard(s1, b)
    ensures IsRun(s, [a, b]) && After(s, [a, b]) == Exec(s1, b)
  {
    RunCons(s1, b, []);
    RunCons(s, a, [b]);
  }

  lemma ThreeSteps(s: State, a: Action, b: Action, c: Action, s2: State)
    requires Guard(s, a) && Guard(Exec(s, a), b) && Exec(Exec(s, a), b) == s2 && Guard(s2, c)
    ensures IsRun(s, [a, b, c]) && After(s, [a, b, c]) == Exec(s2, c)
  {
    TwoSteps(Exec(s, a), b, c, s2);
    assert [a, b, c][1..] == [b, c];
  }

  lemma AtPrepare(s: State, t: TaskId, n: string)
    requires MayDrop(s, t, n)
    ensures Guard(s, DropBegin(t, n)) && Guard(Exec(s, DropBegin(t, n)), DropLock(t))
    ensures Exec(Exec(s, DropBegin(t, n)), DropLock(t)) == s.(mutex := Some(t), tasks := s.tasks[t := DropPrepare(n)])
  {
    assert s.tasks[t := DropWait(n)][t := DropPrepare(n)] == s.tasks[t := DropPrepare(n)];
  }

  lemma DropPreparedEnds(s: State, t: TaskId, n: string)
    requires t in s.tasks && s.tasks[t] == DropPrepare(n) && s.mutex == Some(t)
    requires n in s.tables.byName && n in s.records && NoDropUnderWay(s.tasks, n)
    ensures var s' := Exec(s, DropPrepared(t, Acked));
      if s.records[n].state == Stable
      then s' == s.(tasks := s.tasks[t := DropEngine(n)], records := s.records[n := s.records[n].(state := Dropping)])
      else s'.log == s.log + [DropFailed(n)] && t !in s'.tasks && Stuck(s', n)
  {
  }

  /** From the engine on nothing stops an acknowledged drop. */
  lemma CompleteRemoves(s: State, t: TaskId, n: string, ids: set<nat>)
    requires t in s.tasks && s.tasks[t] == DropEngine(n) && n in s.records && s.records[n].state == Dropping
    requires forall i :: i in ids ==> i in s.engine && s.engine[i] == n
    ensures IsRun(s, Complete(t, ids))
    ensures After(s, Complete(t, ids)) ==
            s.(tables := RemoveTable(s.tables, n), records := s.records[n := s.records[n].(state := Dropped)],
               engine := s.engine - ids, tasks := s.tasks - {t}, mutex := if s.mutex == Some(t) then None else s.mutex,
               log := s.log + [RemovedTable(n)])
  {
    var s1 := Exec(s, EngineDropped(t, ids, Acked));
    RunCons(s1, RecordDropped(t, Acked), []);
    RunCons(s, EngineDropped(t, ids, Acked), [RecordDropped(t, Acked)]);
    assert s.tasks[t := DropRecord(n)] - {t} == s.tasks - {t};
  }

  /** The table is gone from memory and engine, its record is kept as dropped, and nothing else changed. */
  function DroppedTable(s: State, n: string, ids: set<nat>): State
    requires n in s.records
  {
    s.(tables := RemoveTable(s.tables, n), records := s.records[n := s.records[n].(state := Dropped)],
       engine := s.engine - ids, log := s.log + [RemovedTable(n)])
  }

  /**
   * A drop whose calls are all acknowledged goes through, ends with the removal and leaves the name
   * free if and only if the table's record is stable; otherwise it fails and leaves the table stuck.
   */
  lemma DropWorksIff(s: State, t: TaskId, n: string, ids: set<nat>)
    requires Inv(s) && s.serving && s.mutex == None && n in s.tables.byName && t !in s.tasks
    requires forall i :: i in ids ==> i in s.engine && s.engine[i] == n
    ensures n in s.records
    ensures IsRun(s, AckedDrop(t, n, ids)) <==> s.records[n].state == Stable
    ensures s.records[n].state == Stable ==>
      After(s, AckedDrop(t, n, ids)) == DroppedTable(s, n, ids) && n !in DroppedTable(s, n, ids).tables.byName
    ensures s.records[n].state != Stable ==>
      && IsRun(s, Prepare(t, n))
      && After(s, Prepare(t, n)).log == s.log + [DropFailed(n)] && Stuck(After(s, Prepare(t, n)), n)
  {
    FreeMeansMayDrop(s, t, n);
    AckedDropEnds(s, t, n, ids);
  }

  lemma AckedDropEnds(s: State, t: TaskId, n: string, ids: set<nat>)
    requires MayDrop(s, t, n) && forall i :: i in ids ==> i in s.engine && s.engine[i] == n
    ensures IsRun(s, Prepare(t, n))
    ensures IsRun(s, AckedDrop(t, n, ids)) <==> s.records[n].state == Stable
    ensures s.records[n].state == Stable ==> After(s, AckedDrop(t, n, ids)) == DroppedTable(s, n, ids)
    ensures s.records[n].state != Stable ==>
      After(s, Prepare(t, n)).log == s.log + [DropFailed(n)] && Stuck(After(s, Prepare(t, n)), n)
  {
    PrepareDecides(s, t, n);
    RunAppend(s, Prepare(t, n), Complete(t, ids));
    var s' := After(s, Prepare(t, n));
    if s.records[n].state == Stable {
      CompleteRemoves(s', t, n, ids);
      assert s.tasks[t := DropEngine(n)] - {t} == s.tasks;
      assert s'.records[n := s'.records[n].(state := Dropped)] == s.records[n := s.records[n].(state := Dropped)];
    }
  }

  // ---------------------------------------------------------------------------
  // What a create does
  // ---------------------------------------------------------------------------

  /** A create with every call acknowledged. */
  function AckedCreate(t: TaskId, n: string, ifNotExists: bool): seq<Action> {
    [CreateBegin(t, n, ifNotExists), CreateLock(t), EngineCreated(t, Acked), RecordCreated(t, Acked)]
  }

  /** The table is in memory, in the engine and on record as stable, and nothing else changed. */
  function CreatedTable(s: State, n: string): State {
    var id := s.lastSeq + 1;
    s.(tables := InsertTable(s.tables, Table(n, id)), lastSeq := id, engine := s.engine[id := n],
       records := s.records[n := Record(id, Stable)], recorded := s.recorded + [id], log := s.log + [Created(n, id)])
  }

  predicate HasIdLeft(s: State) { s.lastSeq + 1 < SEQ_LIMIT && s.schemaId < SCHEMA_LIMIT }

  lemma AtCreateLock(s: State, t: TaskId, n: string, ine: bool)
    requires s.serving && s.mutex == None && t !in s.tasks && n !in s.tables.byName
    ensures Guard(s, CreateBegin(t, n, ine)) && Guard(Exec(s, CreateBegin(t, n, ine)), CreateLock(t))
    ensures var s2 := Exec(Exec(s, CreateBegin(t, n, ine)), CreateLock(t));
      if HasIdLeft(s)
      then s2 == s.(lastSeq := s.lastSeq + 1, mutex := Some(t), tasks := s.tasks[t := CreateEngine(n, s.lastSeq + 1)])
      else s2 == s.(lastSeq := s.lastSeq + 1, log := s.log + [CreateFailed(n)])
  {
    assert s.tasks[t := CreateWait(n, ine)] - {t} == s.tasks;
    assert s.tasks[t := CreateWait(n, ine)][t := CreateEngine(n, s.lastSeq + 1)] == s.tasks[t := CreateEngine(n, s.lastSeq + 1)];
  }

  lemma CreateCompletes(s: State, t: TaskId, n: string, id: nat)
    requires t in s.tasks && s.tasks[t] == CreateEngine(n, id) && s.mutex == Some(t)
    ensures IsRun(s, [EngineCreated(t, Acked), RecordCreated(t, Acked)])
    ensures After(s, [EngineCreated(t, Acked), RecordCreated(t, Acked)]) ==
            s.(tables := InsertTable(s.tables, Table(n, id)), engine := s.engine[id := n],
               records := s.records[n := Record(id, Stable)], recorded := s.recorded + [id],
               tasks := s.tasks - {t}, mutex := None, log := s.log + [Created(n, id)])
  {
    var s1 := s.(engine := s.engine[id := n], tasks := s.tasks[t := CreateRecord(n, id)]);
    TwoSteps(s, EngineCreated(t, Acked), RecordCreated(t, Acked), s1);
    assert s1.tasks - {t} == s.tasks - {t};
  }

  lemma CreateGoesThrough(s: State, t: TaskId, n: string, ine: bool)
    requires s.serving && s.mutex == None && t !in s.tasks && n !in s.tables.byName && HasIdLeft(s)
    ensures IsRun(s, AckedCreate(t, n, ine)) && After(s, AckedCreate(t, n, ine)) == CreatedTable(s, n)
  {
    AtCreateLock(s, t, n, ine);
    var s1 := Exec(s, CreateBegin(t, n, ine));
    var s2 := Exec(s1, CreateLock(t));
    CreateCompletes(s2, t, n, s.lastSeq + 1);
    RunCons(s1, CreateLock(t), [EngineCreated(t, Acked), RecordCreated(t, Acked)]);
    RunCons(s, CreateBegin(t, n, ine), [CreateLock(t)] + [EngineCreated(t, Acked), RecordCreated(t, Acked)]);
    assert AckedCreate(t, n, ine) ==
           [CreateBegin(t, n, ine)] + ([CreateLock(t)] + [EngineCreated(t, Acked), RecordCreated(t, Acked)]);
    assert s2.tasks - {t} == s.tasks;
  }

  lemma NoIdIsLeft(s: State, t: TaskId, n: string, ine: bool)
    requires s.serving && s.mutex == None && t !in s.tasks && n !in s.tables.byName && !HasIdLeft(s)
    ensures !IsRun(s, AckedCreate(t, n, ine)) && IsRun(s, [CreateBegin(t, n, ine), CreateLock(t)])
    ensures After(s, [CreateBegin(t, n, ine), CreateLock(t)]) ==
            s.(lastSeq := s.lastSeq + 1, log := s.log + [CreateFailed(n)])
  {
    AtCreateLock(s, t, n, ine);
    TwoSteps(s, CreateBegin(t, n, ine), CreateLock(t), Exec(s, CreateBegin(t, n, ine)));
    RunAppend(s, [CreateBegin(t, n, ine), CreateLock(t)], [EngineCreated(t, Acked), RecordCreated(t, Acked)]);
    assert AckedCreate(t, n, ine) ==
           [CreateBegin(t, n, ine), CreateLock(t)] + [EngineCreated(t, Acked), RecordCreated(t, Acked)];
  }

  /**
   * A create whose calls are all acknowledged goes through and makes exactly its table if and only if
   * the name is free and an id is left. A visible name is answered with its table or as an error,
   * as the request says; without an id left the create fails.
   */
  lemma CreateWorksIff(s: State, t: TaskId, n: string, ifNotExists: bool)
    requires s.serving && s.mutex == None && t !in s.tasks
    ensures IsRun(s, AckedCreate(t, n, ifNotExists)) <==> n !in s.tables.byName && HasIdLeft(s)
    ensures n !in s.tables.byName && HasIdLeft(s) ==> After(s, AckedCreate(t, n, ifNotExists)) == CreatedTable(s, n)
    ensures n !in s.tables.byName && !HasIdLeft(s) ==>
      && IsRun(s, [CreateBegin(t, n, ifNotExists), CreateLock(t)])
      && After(s, [CreateBegin(t, n, ifNotExists), CreateLock(t)]) ==
         s.(lastSeq := s.lastSeq + 1, log := s.log + [CreateFailed(n)])
    ensures n in s.tables.byName ==>
      Exec(s, CreateBegin(t, n, ifNotExists)) ==
      s.(log := s.log + [if ifNotExists then SawTable(n, s.tables.byName[n].id) else SawExisting(n)])
  {
    if n in s.tables.byName {
      assert !Guard(Exec(s, CreateBegin(t, n, ifNotExists)), CreateLock(t));
      assert AckedCreate(t, n, ifNotExists)[1..][0] == CreateLock(t);
    } else if HasIdLeft(s) {
      CreateGoesThrough(s, t, n, ifNotExists);
    } else {
      NoIdIsLeft(s, t, n, ifNotExists);
    }
  }

  /** A create that waited while another one made the table answers in the same way. */
  lemma LateCreateAnswers(s: State, t: TaskId)
    requires Guard(s, CreateLock(t)) && s.tasks[t].name in s.tables.byName
    ensures var n := s.tasks[t].name;
      Exec(s, CreateLock(t)) ==
      s.(tasks := s.tasks - {t},
         log := s.log + [if s.tasks[t].ifNotExists then SawTable(n, s.tables.byName[n].id) else SawExisting(n)])
  {
  }

  // ---------------------------------------------------------------------------
  // A restart brings back exactly the stable tables
  // ---------------------------------------------------------------------------

  /** Collected for opening are exactly the stable tables of the scan, and ids go on after the largest recorded. */
  lemma RestartCollects(s: State, scan: seq<TableInfo>, n: string, id: nat)
    requires Inv(s) && Guard(s, Crash(scan))
    ensures var s' := Exec(s, Crash(scan));
      && ((n in s'.toOpen && s'.toOpen[n] == id) <==> TableInfo(n, Record(id, Stable)) in scan)
      && s'.lastSeq == MaxRecorded(s.recorded)
  {
    RescanCoversRecorded(s.recorded, s.records, scan);
    VisitedSeqIsMax(scan, 0);
  }

  /** The id under which a table is on record as stable. */
  function StableId(records: map<string, Record>, n: string): Option<nat> {
    if n in records && records[n].state == Stable then Some(records[n].id) else None
  }

  /** Every stable record is opened or waits for it, and nothing else is. */
  ghost predicate Restoring(tables: Tables, toOpen: map<string, nat>, records: map<string, Record>) {
    forall n :: StableId(records, n) == if n in toOpen then Some(toOpen[n]) else Lookup(tables, n)
  }

  /** The steps of a restart, before the catalog serves. */
  predicate OnlyOpens(run: seq<Action>) { forall i :: 0 <= i < |run| ==> run[i].OpenTable? }

  lemma OpenedIsRestored(tables: Tables, toOpen: map<string, nat>, records: map<string, Record>, n: string)
    requires n in toOpen && n !in tables.byName && Restoring(tables, toOpen, records)
    ensures Restoring(InsertTable(tables, Table(n, toOpen[n])), toOpen - {n}, records)
  {
  }

  lemma OpenKeepsRestoring(s: State, n: string)
    requires Inv(s) && Guard(s, OpenTable(n)) && Restoring(s.tables, s.toOpen, s.records)
    ensures var s' := Exec(s, OpenTable(n)); Restoring(s'.tables, s'.toOpen, s'.records) && s'.records == s.records
  {
    OpenedIsRestored(s.tables, s.toOpen, s.records, n);
  }

  lemma {:induction false} OpensKeepRestoring(s: State, run: seq<Action>)
    requires Inv(s) && Restoring(s.tables, s.toOpen, s.records) && IsRun(s, run) && OnlyOpens(run)
    ensures var s' := After(s, run); Restoring(s'.tables, s'.toOpen, s'.records) && s'.records == s.records
    decreases |run|
  {
    if run != [] {
      StepKeepsInv(s, run[0]);
      OpenKeepsRestoring(s, run[0].name);
      OpensKeepRestoring(Exec(s, run[0]), run[1..]);
    }
  }

  lemma CrashRestores(s: State, scan: seq<TableInfo>)
    requires Inv(s) && Guard(s, Crash(scan))
    ensures var s' := Exec(s, Crash(scan)); Restoring(s'.tables, s'.toOpen, s'.records) && s'.records == s.records
  {
  }

  /**
   * After a restart, whatever happened before: once every collected table is opened and the catalog
   * serves, a lookup finds exactly the tables with a stable record, under the recorded ids.
   */
  lemma RestartRestores(s: State, scan: seq<TableInfo>, opens: seq<Action>, n: string)
    requires Inv(s) && Guard(s, Crash(scan)) && IsRun(Exec(s, Crash(scan)), opens) && OnlyOpens(opens)
    requires After(Exec(s, Crash(scan)), opens).toOpen == map[]
    ensures var s' := After(Exec(s, Crash(scan)), opens);
      Lookup(s'.tables, n) == StableId(s.records, n)
  {
    var s1 := Exec(s, Crash(scan));
    StepKeepsInv(s, Crash(scan));
    CrashRestores(s, scan);
    OpensKeepRestoring(s1, opens);
  }

  lemma FewerToOpen(toOpen: map<string, nat>, n: string)
    requires n in toOpen
    ensures |toOpen - {n}| < |toOpen|
  {
    assert toOpen.Keys - {n} == (toOpen - {n}).Keys;
  }

  /** Opening everything is always possible, and then the catalog serves. */
  lemma {:induction false} OpenAll(s: State) returns (opens: seq<Action>)
    requires !s.serving
    ensures IsRun(s, opens) && OnlyOpens(opens)
    ensures var s' := After(s, opens); s'.toOpen == map[] && Guard(s', Serve) && Exec(s', Serve) == s'.(serving := true)
    decreases |s.toOpen|
  {
    if s.toOpen == map[] {
      opens := [];
    } else {
      var n :| n in s.toOpen;
      FewerToOpen(s.toOpen, n);
      var rest := OpenAll(DoOpenTable(s, n));
      RunCons(s, OpenTable(n), rest);
      opens := [OpenTable(n)] + rest;
    }
  }

  // ---------------------------------------------------------------------------
  // A run that leaves a table stuck
  // ---------------------------------------------------------------------------

  lemma CreateRuns(s0: State, t: TaskId, n: string)
    requires Init(s0) && s0.schemaId < SCHEMA_LIMIT
    ensures IsRun(s0, AckedCreate(t, n, false))
    ensures var s := After(s0, AckedCreate(t, n, false));
      MayDrop(s, t, n) && s.records[n] == Record(1, Stable)
  {
    CreateWorksIff(s0, t, n, false);
  }

  /** The table is created, a drop of it is prepared, and the engine fails to drop it. */
  function StuckRun(t: TaskId, n: string): seq<Action> {
    AckedCreate(t, n, false) + (Prepare(t, n) + [EngineDropped(t, {}, FailedWithoutEffect)])
  }

  lemma FailedEngineDrop(s: State, t: TaskId, n: string)
    requires MayDrop(s, t, n) && s.records[n].state == Stable
    ensures IsRun(s, Prepare(t, n) + [EngineDropped(t, {}, FailedWithoutEffect)])
    ensures Stuck(After(s, Prepare(t, n) + [EngineDropped(t, {}, FailedWithoutEffect)]), n)
  {
    var a := EngineDropped(t, {}, FailedWithoutEffect);
    PrepareDecides(s, t, n);
    RunCons(After(s, Prepare(t, n)), a, []);
    assert [a] + [] == [a];
    RunAppend(s, Prepare(t, n), [a]);
  }

  /** From an empty catalog, one failed call of the engine leaves a table stuck. */
  lemma StuckIsReached(s0: State, t: TaskId, n: string)
    requires Init(s0) && s0.schemaId < SCHEMA_LIMIT
    ensures IsRun(s0, StuckRun(t, n)) && Stuck(After(s0, StuckRun(t, n)), n)
  {
    CreateRuns(s0, t, n);
    FailedEngineDrop(After(s0, AckedCreate(t, n, false)), t, n);
    RunAppend(s0, AckedCreate(t, n, false), Prepare(t, n) + [EngineDropped(t, {}, FailedWithoutEffect)]);
  }
}
