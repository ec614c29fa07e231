/**
 * The cache of the tables of each shard. Requests from the meta server change a shard from one
 * version to the next and are guarded by the previous version; opening a shard checks the cached
 * version, awaits the meta server, and only then inserts.
 */
module ShardTables {
  import opened Common

  type ShardVersion = nat

  datatype ShardRole = Leader | Follower

  datatype ShardInfo = ShardInfo(id: ShardId, role: ShardRole, version: ShardVersion)

  datatype TableInfo = TableInfo(id: nat, name: string, schemaName: string)

  datatype TablesOfShard = TablesOfShard(info: ShardInfo, tables: seq<TableInfo>)

  datatype CacheEntry = CacheEntry(entry: TablesOfShard, frozen: bool)

  type Cache = map<ShardId, CacheEntry>

  datatype Error = ShardNotFound | UpdateFrozenShard | ShardVersionMismatch | TableAlreadyExists | TableNotFound

  /** What a table update asks for; the protobuf message may lack any of the three parts. */
  datatype UpdateShardInfo = UpdateShardInfo(currShardInfo: Option<ShardInfo>, prevVersion: ShardVersion)

  datatype Update = Update(kind: UpdateKind, updateShardInfo: Option<UpdateShardInfo>, table: Option<TableInfo>)

  datatype UpdateKind = AddTable | DelTable

  // ---------------------------------------------------------------------------
  // Vectors of tables
  // ---------------------------------------------------------------------------

  predicate HasId(tables: seq<TableInfo>, id: nat) { exists i :: 0 <= i < |tables| && tables[i].id == id }

  predicate UniqueIds(tables: seq<TableInfo>) {
    forall i, j :: 0 <= i < j < |tables| ==> tables[i].id != tables[j].id
  }

  function AsSet(tables: seq<TableInfo>): set<TableInfo> { set t | t in tables }

  /** `Vec::swap_remove`: the last element takes the place of the removed one. */
  function SwapRemove(tables: seq<TableInfo>, i: nat): (r: seq<TableInfo>)
    requires i < |tables|
  {
    var last := |tables| - 1;
    tables[i := tables[last]][..last]
  }

  lemma SwapRemoveIsRemoval(tables: seq<TableInfo>, i: nat)
    requires i < |tables| && UniqueIds(tables)
    ensures UniqueIds(SwapRemove(tables, i))
    ensures AsSet(SwapRemove(tables, i)) == AsSet(tables) - {tables[i]}
  {
    var r, last := SwapRemove(tables, i), |tables| - 1;
    assert forall k :: 0 <= k < last ==> r[k] == tables[if k == i then last else k];
    forall t | t in tables && t != tables[i] ensures t in r {
      var k :| 0 <= k < |tables| && tables[k] == t;
      assert r[if k == last then i else k] == t;
    }
    forall t | t in r ensures t in tables && t != tables[i] {
      var k :| 0 <= k < last && r[k] == t;
    }
  }

  // ---------------------------------------------------------------------------
  // Updates of the cache
  // ---------------------------------------------------------------------------

  /** The tables of a shard after an update, or why it is refused. */
  function UpdatedTables(kind: UpdateKind, tables: seq<TableInfo>, table: TableInfo): Result<seq<TableInfo>, Error> {
    match kind
    case AddTable => if HasId(tables, table.id) then Err(TableAlreadyExists) else Ok(tables + [table])
    case DelTable =>
      if HasId(tables, table.id) then Ok(SwapRemove(tables, IndexOf(tables, table.id))) else Err(TableNotFound)
  }

  /** Position of the first table with the id. */
  function IndexOf(tables: seq<TableInfo>, id: nat): (i: nat)
    requires HasId(tables, id)
    ensures i < |tables| && tables[i].id == id
    ensures forall k :: 0 <= k < i ==> tables[k].id != id
  {
    if tables[0].id == id then 0
    else
      assert HasId(tables[1..], id) by {
        var k :| 0 <= k < |tables| && tables[k].id == id;
        assert tables[1..][k - 1] == tables[k];
      }
      var i := IndexOf(tables[1..], id);
      assert forall k :: 1 <= k < i + 1 ==> tables[k] == tables[1..][k - 1];
      i + 1
  }

  function TryUpdate(cache: Cache, kind: UpdateKind, prev: ShardVersion, curr: ShardInfo, table: TableInfo): Result<Cache, Error> {
    if curr.id !in cache then Err(ShardNotFound)
    else
      var e := cache[curr.id];
      if e.frozen then Err(UpdateFrozenShard)
      else if e.entry.info.version != prev then Err(ShardVersionMismatch)
      else match UpdatedTables(kind, e.entry.tables, table)
        case Err(error) => Err(error)
        case Ok(tables) => Ok(cache[curr.id := CacheEntry(TablesOfShard(curr, tables), false)])
  }

  /** `insert_table_to_shard` and `remove_table_from_shard`: missing parts of the message are errors. */
  function HandleUpdate(cache: Cache, u: Update): Result<Cache, Error> {
    match u.updateShardInfo
    case None => Err(ShardNotFound)
    case Some(info) =>
      match info.currShardInfo
      case None => Err(ShardNotFound)
      case Some(curr) =>
        match u.table
        case None => Err(TableNotFound)
        case Some(table) => TryUpdate(cache, u.kind, info.prevVersion, curr, table)
  }

  function InsertShard(cache: Cache, t: TablesOfShard): Cache { cache[t.info.id := CacheEntry(t, false)] }

  /** The first index with the id, searched from the front. */
  method FindTable(tables: seq<TableInfo>, id: nat) returns (found: Option<nat>)
    ensures found == if HasId(tables, id) then Some(IndexOf(tables, id)) else None
  {
    for i := 0 to |tables|
      invariant forall k :: 0 <= k < i ==> tables[k].id != id
    {
      if tables[i].id == id {
        assert HasId(tables, id);
        return Some(i);
      }
    }
    return None;
  }

  class ShardTablesCache {
    var tablesByShard: Cache

    constructor () ensures tablesByShard == map[] { tablesByShard := map[]; }

    method Get(shard: ShardId) returns (r: Option<TablesOfShard>)
      ensures r.Some? <==> shard in tablesByShard
      ensures r.Some? ==> r.value == tablesByShard[shard].entry
    {
      r := if shard in tablesByShard then Some(tablesByShard[shard].entry) else None;
    }

    method Remove(shard: ShardId) returns (r: Option<TablesOfShard>)
      modifies this
      ensures tablesByShard == old(tablesByShard) - {shard}
      ensures r == if shard in old(tablesByShard) then Some(old(tablesByShard)[shard].entry) else None
    {
      r := if shard in tablesByShard then Some(tablesByShard[shard].entry) else None;
      tablesByShard := tablesByShard - {shard};
    }

    method Freeze(shard: ShardId) returns (r: Option<TablesOfShard>)
      modifies this
      ensures tablesByShard.Keys == old(tablesByShard).Keys
      ensures forall k :: k in tablesByShard ==>
                tablesByShard[k] == if k == shard then old(tablesByShard)[k].(frozen := true) else old(tablesByShard)[k]
      ensures r == if shard in old(tablesByShard) then Some(old(tablesByShard)[shard].entry) else None
    {
      if shard !in tablesByShard {
        return None;
      }
      tablesByShard := tablesByShard[shard := tablesByShard[shard].(frozen := true)];
      r := Some(tablesByShard[shard].entry);
    }

    method Insert(t: TablesOfShard)
      modifies this
      ensures tablesByShard == InsertShard(old(tablesByShard), t)
    {
      tablesByShard := tablesByShard[t.info.id := CacheEntry(t, false)];
    }

    method TryInsertTableToShard(prev: ShardVersion, curr: ShardInfo, table: TableInfo) returns (r: Result<(), Error>)
      modifies this
      ensures var spec := TryUpdate(old(tablesByShard), AddTable, prev, curr, table);
              && (r.Ok? <==> spec.Ok?) && (r.Err? ==> r.error == spec.error)
              && tablesByShard == if spec.Ok? then spec.value else old(tablesByShard)
    {
      if curr.id !in tablesByShard {
        return Err(ShardNotFound);
      }
      var e := tablesByShard[curr.id];
      if e.frozen {
        return Err(UpdateFrozenShard);
      }
      if e.entry.info.version != prev {
        return Err(ShardVersionMismatch);
      }
      var found := FindTable(e.entry.tables, table.id);
      if found.Some? {
        return Err(TableAlreadyExists);
      }
      tablesByShard := tablesByShard[curr.id := e.(entry := TablesOfShard(curr, e.entry.tables + [table]))];
      r := Ok(());
    }

    method TryRemoveTableFromShard(prev: ShardVersion, curr: ShardInfo, table: TableInfo) returns (r: Result<(), Error>)
      modifies this
      ensures var spec := TryUpdate(old(tablesByShard), DelTable, prev, curr, table);
              && (r.Ok? <==> spec.Ok?) && (r.Err? ==> r.error == spec.error)
              && tablesByShard == if spec.Ok? then spec.value else old(tablesByShard)
    {
      if curr.id !in tablesByShard {
        return Err(ShardNotFound);
      }
      var e := tablesByShard[curr.id];
      if e.frozen {
        return Err(UpdateFrozenShard);
      }
      if e.entry.info.version != prev {
        return Err(ShardVersionMismatch);
      }
      var found := FindTable(e.entry.tables, table.id);
      if found == None {
        return Err(TableNotFound);
      }
      tablesByShard := tablesByShard[curr.id := e.(entry := TablesOfShard(curr, SwapRemove(e.entry.tables, found.value)))];
      r := Ok(());
    }
  }

  // ---------------------------------------------------------------------------
  // The meta server
  // ---------------------------------------------------------------------------

  /** The table set of every shard at every version. */
  type Meta = (ShardId, ShardVersion) -> set<TableInfo>

  /** The update leads from the table set of its previous version to that of its new version. */
  ghost predicate FaithfulUpdate(meta: Meta, u: Update) {
    u.updateShardInfo.Some? && u.updateShardInfo.value.currShardInfo.Some? && u.table.Some? ==>
      var prev, curr, t := u.updateShardInfo.value.prevVersion, u.updateShardInfo.value.currShardInfo.value, u.table.value;
      && prev < curr.version
      && meta(curr.id, curr.version) ==
           match u.kind
           case AddTable => meta(curr.id, prev) + {t}
           case DelTable => set x | x in meta(curr.id, prev) && x.id != t.id
  }

  ghost predicate FaithfulTables(meta: Meta, t: TablesOfShard) {
    UniqueIds(t.tables) && AsSet(t.tables) == meta(t.info.id, t.info.version)
  }

  // ---------------------------------------------------------------------------
  // Runs: requests in any order, any number of times, with opens that land late
  // ---------------------------------------------------------------------------

  datatype Event = Applied(shard: ShardId, prev: ShardVersion, curr: ShardVersion) | Reset(shard: ShardId)

  /** `opening` holds the opens that passed the check and wait for the meta server. */
  datatype State = State(cache: Cache, opening: multiset<ShardInfo>, log: seq<Event>)

  datatype Action =
    | Receive(update: Update)
    | OpenCheck(info: ShardInfo)
    | OpenLand(info: ShardInfo, tables: TablesOfShard)
    | OpenFail(info: ShardInfo)
    | Close(shard: ShardId)
    | Freeze(shard: ShardId)

  ghost predicate Guard(meta: Meta, s: State, a: Action) {
    match a
    case Receive(u) => FaithfulUpdate(meta, u)
    case OpenCheck(_) => true
    case OpenLand(info, t) => info in s.opening && t.info.id == info.id && FaithfulTables(meta, t)
    case OpenFail(info) => info in s.opening
    case Close(_) => true
    case Freeze(_) => true
  }

  datatype OpenAnswer = Current(tables: TablesOfShard) | SmallerVersion | Fetch

  /** The check of `open_shard`: the cached shard has this version, a greater one, or is to be fetched. */
  function CheckOpen(cache: Cache, info: ShardInfo): OpenAnswer {
    if info.id !in cache then Fetch
    else
      var cached := cache[info.id].entry;
      if cached.info.version == info.version then Current(cached)
      else if cached.info.version < info.version then Fetch
      else SmallerVersion
  }

  predicate MayOpen(cache: Cache, info: ShardInfo) { CheckOpen(cache, info) == Fetch }

  function Exec(s: State, a: Action): State {
    match a
    case Receive(u) =>
      (match HandleUpdate(s.cache, u)
       case Err(_) => s
       case Ok(cache) =>
         var info := u.updateShardInfo.value;
         s.(cache := cache, log := s.log + [Applied(info.currShardInfo.value.id, info.prevVersion, info.currShardInfo.value.version)]))
    case OpenCheck(info) => if MayOpen(s.cache, info) then s.(opening := s.opening + multiset{info}) else s
    case OpenLand(info, t) =>
      State(InsertShard(s.cache, t), s.opening - multiset{info}, s.log + [Reset(t.info.id)])
    case OpenFail(info) => s.(opening := s.opening - multiset{info})
    case Close(shard) => s.(cache := s.cache - {shard}, log := s.log + [Reset(shard)])
    case Freeze(shard) =>
      if shard in s.cache then s.(cache := s.cache[shard := s.cache[shard].(frozen := true)]) else s
  }

  ghost predicate IsRun(meta: Meta, s: State, run: seq<Action>)
    decreases |run|
  {
    run == [] || (Guard(meta, s, run[0]) && IsRun(meta, Exec(s, run[0]), run[1..]))
  }

  function After(s: State, run: seq<Action>): State
    decreases |run|
  {
    if run == [] then s else After(Exec(s, run[0]), run[1..])
  }

  const INITIAL := State(map[], multiset{}, [])

  // ---------------------------------------------------------------------------
  // The cache equals the meta server at the cached version
  // ---------------------------------------------------------------------------

  ghost predicate EntryOk(meta: Meta, shard: ShardId, e: CacheEntry) {
    e.entry.info.id == shard && FaithfulTables(meta, e.entry)
  }

  ghost predicate CacheOk(meta: Meta, cache: Cache) {
    forall shard :: shard in cache ==> EntryOk(meta, shard, cache[shard])
  }

  lemma UpdatedTablesFollowMeta(kind: UpdateKind, tables: seq<TableInfo>, t: TableInfo)
    requires UniqueIds(tables)
    ensures UpdatedTables(kind, tables, t).Ok? <==> (kind == DelTable <==> HasId(tables, t.id))
    ensures UpdatedTables(kind, tables, t).Ok? ==>
              var r := UpdatedTables(kind, tables, t).value;
              && UniqueIds(r)
              && AsSet(r) == match kind
                             case AddTable => AsSet(tables) + {t}
                             case DelTable => set x | x in AsSet(tables) && x.id != t.id
  {
    match kind
    case AddTable =>
    case DelTable =>
      if HasId(tables, t.id) {
        var i := IndexOf(tables, t.id);
        SwapRemoveIsRemoval(tables, i);
        forall x | x in AsSet(tables) ensures x.id != t.id <==> x != tables[i] {
          var k :| 0 <= k < |tables| && tables[k] == x;
        }
      }
  }

  lemma UpdateKeepsCache(meta: Meta, cache: Cache, u: Update)
    requires CacheOk(meta, cache) && FaithfulUpdate(meta, u) && HandleUpdate(cache, u).Ok?
    ensures CacheOk(meta, HandleUpdate(cache, u).value)
  {
    var curr, t := u.updateShardInfo.value.currShardInfo.value, u.table.value;
    assert EntryOk(meta, curr.id, cache[curr.id]);
    UpdatedTablesFollowMeta(u.kind, cache[curr.id].entry.tables, t);
  }

  lemma StepKeepsCache(meta: Meta, s: State, a: Action)
    requires CacheOk(meta, s.cache) && Guard(meta, s, a)
    ensures CacheOk(meta, Exec(s, a).cache)
  {
    if a.Receive? && HandleUpdate(s.cache, a.update).Ok? {
      UpdateKeepsCache(meta, s.cache, a.update);
    }
  }

  lemma {:induction false} RunKeepsCache(meta: Meta, s: State, run: seq<Action>)
    requires CacheOk(meta, s.cache) && IsRun(meta, s, run)
    ensures CacheOk(meta, After(s, run).cache)
    decreases |run|
  {
    if run != [] {
      StepKeepsCache(meta, s, run[0]);
      RunKeepsCache(meta, Exec(s, run[0]), run[1..]);
    }
  }

  /**
   * However requests are duplicated, delayed or reordered, and however late opens land: every
   * cached shard holds exactly the meta server's table set at the cached version, each table once
   * and no two tables with one id.
   */
  lemma CacheEqualsMeta(meta: Meta, run: seq<Action>, shard: ShardId)
    requires IsRun(meta, INITIAL, run) && shard in After(INITIAL, run).cache
    ensures var e := After(INITIAL, run).cache[shard].entry;
            && e.info.id == shard
            && UniqueIds(e.tables)
            && AsSet(e.tables) == meta(shard, e.info.version)
  {
    RunKeepsCache(meta, INITIAL, run);
  }

  // ---------------------------------------------------------------------------
  // Between two resets of a shard, updates apply once and versions increase
  // ---------------------------------------------------------------------------

  /** The version the last applied update left, if the shard was not opened or closed since. */
  function LastVersion(log: seq<Event>, shard: ShardId): Option<ShardVersion> {
    if log == [] then None
    else
      var e := log[|log| - 1];
      if e.shard != shard then LastVersion(log[..|log| - 1], shard)
      else if e.Applied? then Some(e.curr) else None
  }

  ghost predicate ChainOk(log: seq<Event>) {
    forall j :: 0 <= j < |log| && log[j].Applied? ==>
      && log[j].prev < log[j].curr
      && LastVersion(log[..j], log[j].shard) in {None, Some(log[j].prev)}
  }

  ghost predicate VersionsOk(s: State) {
    forall shard :: LastVersion(s.log, shard).Some? ==>
      shard in s.cache && s.cache[shard].entry.info.version == LastVersion(s.log, shard).value
  }

  lemma LastVersionAfter(log: seq<Event>, e: Event, shard: ShardId)
    ensures LastVersion(log + [e], shard) ==
            if e.shard != shard then LastVersion(log, shard) else if e.Applied? then Some(e.curr) else None
  {
  }

  lemma ChainExtends(log: seq<Event>, e: Event)
    requires ChainOk(log)
    requires e.Applied? ==> e.prev < e.curr && LastVersion(log, e.shard) in {None, Some(e.prev)}
    ensures ChainOk(log + [e])
  {
    forall j | 0 <= j < |log + [e]| && (log + [e])[j].Applied?
      ensures (log + [e])[j].prev < (log + [e])[j].curr
      ensures LastVersion((log + [e])[..j], (log + [e])[j].shard) in {None, Some((log + [e])[j].prev)}
    {
      assert (log + [e])[..j] == log[..j];
    }
    assert log[..|log|] == log;
  }

  lemma VersionsExtend(s: State, s': State, e: Event)
    requires VersionsOk(s) && s'.log == s.log + [e]
    requires e.Applied? ==> e.shard in s'.cache && s'.cache[e.shard].entry.info.version == e.curr
    requires forall shard :: shard in s.cache && shard != e.shard ==> shard in s'.cache && s'.cache[shard] == s.cache[shard]
    ensures VersionsOk(s')
  {
    forall shard | LastVersion(s'.log, shard).Some?
      ensures shard in s'.cache && s'.cache[shard].entry.info.version == LastVersion(s'.log, shard).value
    {
      LastVersionAfter(s.log, e, shard);
    }
  }

  lemma StepKeepsChain(meta: Meta, s: State, a: Action)
    requires Guard(meta, s, a) && ChainOk(s.log) && VersionsOk(s) && CacheOk(meta, s.cache)
    ensures ChainOk(Exec(s, a).log) && VersionsOk(Exec(s, a))
  {
    var s' := Exec(s, a);
    if s'.log != s.log {
      var e := s'.log[|s.log|];
      assert s'.log == s.log + [e];
      var last := LastVersion(s.log, e.shard);
      assert last.Some? ==> e.shard in s.cache && s.cache[e.shard].entry.info.version == last.value;
      ChainExtends(s.log, e);
      VersionsExtend(s, s', e);
    }
  }

  lemma {:induction false} RunKeepsChain(meta: Meta, s: State, run: seq<Action>)
    requires IsRun(meta, s, run) && ChainOk(s.log) && VersionsOk(s) && CacheOk(meta, s.cache)
    ensures ChainOk(After(s, run).log)
    decreases |run|
  {
    if run != [] {
      StepKeepsChain(meta, s, run[0]);
      StepKeepsCache(meta, s, run[0]);
      RunKeepsChain(meta, Exec(s, run[0]), run[1..]);
    }
  }

  lemma {:induction false} VersionsClimb(log: seq<Event>, i: nat, j: nat)
    requires ChainOk(log) && i < j <= |log| && log[i].Applied?
    requires forall k :: i < k < j ==> log[k] != Reset(log[i].shard)
    ensures LastVersion(log[..j], log[i].shard).Some? && log[i].curr <= LastVersion(log[..j], log[i].shard).value
    decreases j
  {
    assert log[..j][..j - 1] == log[..j - 1];
    if j - 1 != i {
      VersionsClimb(log, i, j - 1);
    }
  }

  /**
   * Between two inserts (or closes) of a shard, each update starts from a version at or above the
   * one the earlier updates reached: versions strictly increase and no request applies twice.
   */
  lemma UpdatesApplyOnce(meta: Meta, run: seq<Action>, i: nat, j: nat)
    requires IsRun(meta, INITIAL, run) && i < j < |After(INITIAL, run).log|
    requires var log := After(INITIAL, run).log;
             && log[i].Applied? && log[j].Applied? && log[i].shard == log[j].shard
             && (forall k :: i < k < j ==> log[k] != Reset(log[i].shard))
    ensures var log := After(INITIAL, run).log;
            log[i].prev < log[i].curr <= log[j].prev < log[j].curr && log[i] != log[j]
  {
    RunKeepsChain(meta, INITIAL, run);
    VersionsClimb(After(INITIAL, run).log, i, j);
  }

  // ---------------------------------------------------------------------------
  // When a cached version goes back
  // ---------------------------------------------------------------------------

  function CachedVersion(cache: Cache, shard: ShardId): Option<ShardVersion> {
    if shard in cache then Some(cache[shard].entry.info.version) else None
  }

  /** The version that a step lands for the shard: an open lands, or an update applies. */
  function LandedVersion(s: State, a: Action, shard: ShardId): Option<ShardVersion> {
    match a
    case OpenLand(_, t) => if t.info.id == shard then Some(t.info.version) else None
    case Receive(u) =>
      if HandleUpdate(s.cache, u).Ok? && u.updateShardInfo.value.currShardInfo.value.id == shard
      then Some(u.updateShardInfo.value.currShardInfo.value.version) else None
    case _ => None
  }

  lemma UpdateSetsVersion(cache: Cache, u: Update, shard: ShardId)
    requires HandleUpdate(cache, u).Ok?
    ensures var curr := u.updateShardInfo.value.currShardInfo.value;
      CachedVersion(HandleUpdate(cache, u).value, shard) == if curr.id == shard then Some(curr.version) else CachedVersion(cache, shard)
  {
  }

  /** What a step makes of the cached version of a shard. */
  function NextVersion(s: State, a: Action, shard: ShardId): Option<ShardVersion> {
    if LandedVersion(s, a, shard).Some? then LandedVersion(s, a, shard)
    else if a == Close(shard) then None else CachedVersion(s.cache, shard)
  }

  lemma StepSetsVersion(s: State, a: Action, shard: ShardId)
    ensures CachedVersion(Exec(s, a).cache, shard) == NextVersion(s, a, shard)
  {
    if a.Receive? && HandleUpdate(s.cache, a.update).Ok? {
      UpdateSetsVersion(s.cache, a.update, shard);
    }
  }

  /** The state after the first `i` steps of a run. */
  function At(run: seq<Action>, i: nat): State
    requires i <= |run|
  {
    After(INITIAL, run[..i])
  }

  lemma {:induction false} AfterSnoc(s: State, run: seq<Action>, a: Action)
    ensures After(s, run + [a]) == Exec(After(s, run), a)
    decreases |run|
  {
    if run == [] {
      assert run + [a] == [a];
    } else {
      AfterSnoc(Exec(s, run[0]), run[1..], a);
      assert (run + [a])[1..] == run[1..] + [a];
    }
  }

  lemma AtNext(run: seq<Action>, i: nat)
    requires i < |run|
    ensures At(run, i + 1) == Exec(At(run, i), run[i])
  {
    AfterSnoc(INITIAL, run[..i], run[i]);
    assert run[..i + 1] == run[..i] + [run[i]];
  }

  lemma {:induction false} GuardAt(meta: Meta, s: State, run: seq<Action>, i: nat)
    requires IsRun(meta, s, run) && i < |run|
    ensures Guard(meta, After(s, run[..i]), run[i])
    decreases |run|
  {
    if i > 0 {
      GuardAt(meta, Exec(s, run[0]), run[1..], i - 1);
      assert run[..i][1..] == run[1..][..i - 1];
    }
  }

  lemma VersionNext(run: seq<Action>, i: nat, shard: ShardId)
    requires i < |run|
    ensures CachedVersion(At(run, i + 1).cache, shard) == NextVersion(At(run, i), run[i], shard)
  {
    AtNext(run, i);
    StepSetsVersion(At(run, i), run[i], shard);
  }

  /** Step `i` is the check of an open, and the open goes on. */
  predicate PassedCheck(run: seq<Action>, i: nat, info: ShardInfo)
    requires i < |run|
  {
    run[i] == OpenCheck(info) && MayOpen(At(run, i).cache, info)
  }

  lemma OnlyChecksAwait(s: State, a: Action, info: ShardInfo)
    requires info in Exec(s, a).opening && info !in s.opening
    ensures a == OpenCheck(info) && MayOpen(s.cache, info)
  {
  }

  /** An open that awaits the meta server passed its check. */
  lemma {:induction false} AwaitingPassedCheck(run: seq<Action>, j: nat, info: ShardInfo) returns (i: nat)
    requires j <= |run| && info in At(run, j).opening
    ensures i < j && PassedCheck(run, i, info)
    decreases j
  {
    if j == 0 {
      assert false;
    } else {
      AtNext(run, j - 1);
      if info in At(run, j - 1).opening {
        i := AwaitingPassedCheck(run, j - 1, info);
      } else {
        OnlyChecksAwait(At(run, j - 1), run[j - 1], info);
        i := j - 1;
      }
    }
  }

  /** From step `k` up to step `j` nothing of the shard lands and it is not closed. */
  predicate Untouched(run: seq<Action>, k: nat, j: nat, shard: ShardId)
    requires k <= j <= |run|
  {
    forall m {:trigger run[m]} :: k <= m < j ==> LandedVersion(At(run, m), run[m], shard) == None && run[m] != Close(shard)
  }

  /** Step `k` lands this version of the shard, and it is the last before step `j`. */
  predicate LandsLast(run: seq<Action>, k: nat, j: nat, shard: ShardId, version: ShardVersion)
    requires k < j <= |run|
  {
    LandedVersion(At(run, k), run[k], shard) == Some(version) && Untouched(run, k + 1, j, shard)
  }

  lemma {:induction false} UntouchedKeeps(run: seq<Action>, k: nat, j: nat, shard: ShardId)
    requires k <= j <= |run| && Untouched(run, k, j, shard)
    ensures CachedVersion(At(run, j).cache, shard) == CachedVersion(At(run, k).cache, shard)
    decreases j
  {
    if k < j {
      UntouchedKeeps(run, k, j - 1, shard);
      VersionNext(run, j - 1, shard);
    }
  }

  lemma LandsLastIsCached(run: seq<Action>, k: nat, j: nat, shard: ShardId, version: ShardVersion)
    requires k < j <= |run| && LandsLast(run, k, j, shard, version)
    ensures CachedVersion(At(run, j).cache, shard) == Some(version)
  {
    VersionNext(run, k, shard);
    UntouchedKeeps(run, k + 1, j, shard);
  }

  /** A cached version has landed. */
  lemma {:induction false} CachedLandsLast(run: seq<Action>, j: nat, shard: ShardId) returns (k: nat)
    requires j <= |run| && CachedVersion(At(run, j).cache, shard).Some?
    ensures k < j && LandsLast(run, k, j, shard, CachedVersion(At(run, j).cache, shard).value)
    decreases j
  {
    if j == 0 {
      assert false;
    } else {
      VersionNext(run, j - 1, shard);
      if LandedVersion(At(run, j - 1), run[j - 1], shard).Some? {
        k := j - 1;
      } else {
        k := CachedLandsLast(run, j - 1, shard);
      }
    }
  }

  /** Step `j` leaves the shard cached, at a smaller version than before. */
  predicate GoesBack(run: seq<Action>, j: nat, shard: ShardId)
    requires j < |run|
  {
    var before, after := CachedVersion(At(run, j).cache, shard), CachedVersion(Exec(At(run, j), run[j]).cache, shard);
    before.Some? && after.Some? && after.value < before.value
  }

  /** A greater version lands, last before step `j`. */
  ghost predicate Overtaken(run: seq<Action>, j: nat, shard: ShardId, version: ShardVersion)
    requires j <= |run|
  {
    exists k: nat, newer: nat :: k < j && version < newer && LandsLast(run, k, j, shard, newer)
  }

  lemma OvertakenIff(run: seq<Action>, j: nat, shard: ShardId, version: ShardVersion)
    requires j <= |run|
    ensures Overtaken(run, j, shard, version) <==>
            var cached := CachedVersion(At(run, j).cache, shard); cached.Some? && version < cached.value
  {
    var cached := CachedVersion(At(run, j).cache, shard);
    if Overtaken(run, j, shard, version) {
      var k: nat, newer: nat :| k < j && version < newer && LandsLast(run, k, j, shard, newer);
      LandsLastIsCached(run, k, j, shard, newer);
    }
    if cached.Some? && version < cached.value {
      var k := CachedLandsLast(run, j, shard);
    }
  }

  /** Updates never lower a version. */
  lemma OnlyOpensGoBack(meta: Meta, s: State, a: Action, shard: ShardId)
    requires Guard(meta, s, a) && CachedVersion(s.cache, shard).Some? && CachedVersion(Exec(s, a).cache, shard).Some?
    requires CachedVersion(Exec(s, a).cache, shard).value < CachedVersion(s.cache, shard).value
    ensures a.OpenLand? && a.info.id == shard && LandedVersion(s, a, shard) == Some(a.tables.info.version)
  {
  }

  /** A cached version goes back exactly where an open lands with a version that was overtaken. */
  lemma VersionGoesBackIff(meta: Meta, run: seq<Action>, j: nat, shard: ShardId)
    requires IsRun(meta, INITIAL, run) && j < |run|
    ensures GoesBack(run, j, shard) <==>
            run[j].OpenLand? && run[j].info.id == shard && Overtaken(run, j, shard, run[j].tables.info.version)
  {
    GuardAt(meta, INITIAL, run, j);
    if run[j].OpenLand? {
      OvertakenIff(run, j, shard, run[j].tables.info.version);
    }
    if GoesBack(run, j, shard) {
      OnlyOpensGoBack(meta, At(run, j), run[j], shard);
    }
  }

  /**
   * If the meta server answered with a version no smaller than asked for, what overtook the open
   * landed after every check of it that passed.
   */
  lemma OvertakenAfterCheck(run: seq<Action>, i: nat, k: nat, j: nat, info: ShardInfo, newer: ShardVersion)
    requires i < j <= |run| && k < j && PassedCheck(run, i, info)
    requires info.version < newer && LandsLast(run, k, j, info.id, newer)
    ensures i < k
  {
    if k < i {
      assert LandsLast(run, k, i, info.id, newer);
      LandsLastIsCached(run, k, i, info.id, newer);
    }
  }

  /**
   * If the meta server answered with a version no smaller than asked for, a landing moves the
   * version back only if another open or update of the shard landed between its check and itself.
   */
  lemma GoesBackIsOvertaken(meta: Meta, run: seq<Action>, j: nat, shard: ShardId) returns (i: nat, k: nat, newer: ShardVersion)
    requires IsRun(meta, INITIAL, run) && j < |run| && GoesBack(run, j, shard)
    requires run[j].OpenLand? ==> run[j].info.version <= run[j].tables.info.version
    ensures run[j].OpenLand? && run[j].info.id == shard
    ensures i < k < j && PassedCheck(run, i, run[j].info)
    ensures LandsLast(run, k, j, shard, newer) && run[j].tables.info.version < newer
  {
    VersionGoesBackIff(meta, run, j, shard);
    k, newer :| k < j && run[j].tables.info.version < newer && LandsLast(run, k, j, shard, newer);
    GuardAt(meta, INITIAL, run, j);
    i := AwaitingPassedCheck(run, j, run[j].info);
    OvertakenAfterCheck(run, i, k, j, run[j].info, newer);
  }

  /** Two opens that both pass the check, the one of the older version landing last. */
  function CrossedOpens(older: TablesOfShard, newer: TablesOfShard): seq<Action> {
    [OpenCheck(older.info), OpenCheck(newer.info), OpenLand(newer.info, newer), OpenLand(older.info, older)]
  }

  /** The states of crossed opens: both passed the check, and the newer one has landed. */
  function BothChecked(older: TablesOfShard, newer: TablesOfShard): State {
    State(map[], multiset{older.info, newer.info}, [])
  }

  function NewerLanded(older: TablesOfShard, newer: TablesOfShard): State {
    State(InsertShard(map[], newer), multiset{older.info}, [Reset(newer.info.id)])
  }

  lemma ChecksPass(older: TablesOfShard, newer: TablesOfShard)
    ensures Exec(Exec(INITIAL, OpenCheck(older.info)), OpenCheck(newer.info)) == BothChecked(older, newer)
  {
    assert multiset{older.info} + multiset{newer.info} == multiset{older.info, newer.info};
  }

  lemma NewerLands(older: TablesOfShard, newer: TablesOfShard)
    ensures Exec(BothChecked(older, newer), OpenLand(newer.info, newer)) == NewerLanded(older, newer)
  {
    assert multiset{older.info, newer.info} - multiset{newer.info} == multiset{older.info};
  }

  lemma BothCheckedAt(older: TablesOfShard, newer: TablesOfShard)
    ensures At(CrossedOpens(older, newer), 2) == BothChecked(older, newer)
  {
    AtNext(CrossedOpens(older, newer), 0);
    AtNext(CrossedOpens(older, newer), 1);
    ChecksPass(older, newer);
  }

  lemma NewerLandedAt(older: TablesOfShard, newer: TablesOfShard)
    ensures At(CrossedOpens(older, newer), 3) == NewerLanded(older, newer)
  {
    BothCheckedAt(older, newer);
    AtNext(CrossedOpens(older, newer), 2);
    NewerLands(older, newer);
  }

  lemma {:induction false} GuardsMakeRun(meta: Meta, run: seq<Action>, i: nat)
    requires i <= |run| && forall k {:trigger run[k]} :: i <= k < |run| ==> Guard(meta, At(run, k), run[k])
    ensures IsRun(meta, At(run, i), run[i..])
    decreases |run| - i
  {
    if i < |run| {
      GuardsMakeRun(meta, run, i + 1);
      AtNext(run, i);
      assert run[i..][1..] == run[i + 1..];
    }
  }

  /** So versions do go back: whatever the table sets, crossed opens do it. */
  lemma CrossedOpensGoBack(meta: Meta, older: TablesOfShard, newer: TablesOfShard)
    requires FaithfulTables(meta, older) && FaithfulTables(meta, newer)
    requires older.info.id == newer.info.id && older.info.version < newer.info.version
    ensures IsRun(meta, INITIAL, CrossedOpens(older, newer)) && GoesBack(CrossedOpens(older, newer), 3, older.info.id)
  {
    var run := CrossedOpens(older, newer);
    BothCheckedAt(older, newer);
    NewerLandedAt(older, newer);
    GuardsMakeRun(meta, run, 0);
    assert run[0..] == run;
  }

  /** A frozen shard keeps its tables and version until it is opened again or closed. */
  lemma {:induction false} FrozenUntilReset(s: State, run: seq<Action>, shard: ShardId)
    requires shard in s.cache && s.cache[shard].frozen
    requires forall i :: 0 <= i < |run| ==>
               run[i] != Close(shard) && (run[i].OpenLand? ==> run[i].tables.info.id != shard)
    ensures shard in After(s, run).cache && After(s, run).cache[shard] == s.cache[shard]
    decreases |run|
  {
    if run != [] {
      assert Exec(s, run[0]).cache[shard] == s.cache[shard];
      FrozenUntilReset(Exec(s, run[0]), run[1..], shard);
    }
  }

  /** Freezing holds: the shard keeps tables and version whatever updates come, until it is opened again or closed. */
  lemma FreezeStopsUpdates(s: State, run: seq<Action>, shard: ShardId)
    requires shard in s.cache
    requires forall i :: 0 <= i < |run| ==>
               run[i] != Close(shard) && (run[i].OpenLand? ==> run[i].tables.info.id != shard)
    ensures var s' := After(Exec(s, Freeze(shard)), run); shard in s'.cache && s'.cache[shard].entry == s.cache[shard].entry
  {
    FrozenUntilReset(Exec(s, Freeze(shard)), run, shard);
  }

  // ---------------------------------------------------------------------------
  // Opens and updates take effect
  // ---------------------------------------------------------------------------

  lemma RunCons(meta: Meta, s: State, a: Action, rest: seq<Action>)
    ensures IsRun(meta, s, [a] + rest) <==> Guard(meta, s, a) && IsRun(meta, Exec(s, a), rest)
    ensures After(s, [a] + rest) == After(Exec(s, a), rest)
  {
    assert ([a] + rest)[1..] == rest;
  }

  lemma TwoSteps(meta: Meta, s: State, a: Action, b: Action)
    ensures IsRun(meta, s, [a, b]) <==> Guard(meta, s, a) && Guard(meta, Exec(s, a), b)
    ensures After(s, [a, b]) == Exec(Exec(s, a), b)
  {
    RunCons(meta, s, a, [b]);
    RunCons(meta, Exec(s, a), b, []);
    assert [a] + [b] == [a, b] && [b] + [] == [b];
  }

  /**
   * An open goes on to the meta server, and the cache holds its answer afterwards, exactly if the shard
   * is not cached or cached at a smaller version. Otherwise nothing changes, and the answer is the
   * cached shard for the same version and an error for a smaller one.
   */
  lemma OpenWorksIff(meta: Meta, s: State, info: ShardInfo, t: TablesOfShard)
    requires info !in s.opening && t.info.id == info.id && FaithfulTables(meta, t)
    ensures var cached := CachedVersion(s.cache, info.id);
      && (IsRun(meta, s, [OpenCheck(info), OpenLand(info, t)]) <==> cached == None || cached.value < info.version)
      && (cached == None || cached.value < info.version ==>
            After(s, [OpenCheck(info), OpenLand(info, t)]) ==
            State(s.cache[info.id := CacheEntry(t, false)], s.opening, s.log + [Reset(info.id)]))
      && (cached != None && cached.value >= info.version ==>
            && Exec(s, OpenCheck(info)) == s
            && CheckOpen(s.cache, info) == if cached.value == info.version then Current(s.cache[info.id].entry) else SmallerVersion)
  {
    TwoSteps(meta, s, OpenCheck(info), OpenLand(info, t));
    assert s.opening + multiset{info} - multiset{info} == s.opening;
  }

  ghost predicate MetaHasId(tables: set<TableInfo>, id: nat) { exists t :: t in tables && t.id == id }

  /** The update leads on from this version of the shard: a table that is added is new, one that is removed is there. */
  ghost predicate LeadsOn(meta: Meta, shard: ShardId, version: ShardVersion, u: Update) {
    && u.updateShardInfo.Some? && u.updateShardInfo.value.currShardInfo.Some? && u.table.Some?
    && u.updateShardInfo.value.currShardInfo.value.id == shard && u.updateShardInfo.value.prevVersion == version
    && (u.kind == DelTable <==> MetaHasId(meta(shard, version), u.table.value.id))
  }

  lemma HasIdIff(tables: seq<TableInfo>, id: nat)
    ensures HasId(tables, id) <==> MetaHasId(AsSet(tables), id)
  {
    if HasId(tables, id) {
      var i :| 0 <= i < |tables| && tables[i].id == id;
      assert tables[i] in AsSet(tables);
    }
  }

  lemma UpdateAppliesIff(meta: Meta, s: State, u: Update, shard: ShardId)
    requires CacheOk(meta, s.cache) && shard in s.cache
    requires u.updateShardInfo.Some? && u.updateShardInfo.value.currShardInfo.Some?
    requires u.updateShardInfo.value.currShardInfo.value.id == shard
    ensures HandleUpdate(s.cache, u).Ok? <==>
            !s.cache[shard].frozen && LeadsOn(meta, shard, s.cache[shard].entry.info.version, u)
  {
    assert EntryOk(meta, shard, s.cache[shard]);
    if u.table.Some? {
      HasIdIff(s.cache[shard].entry.tables, u.table.value.id);
      UpdatedTablesFollowMeta(u.kind, s.cache[shard].entry.tables, u.table.value);
    }
  }

  /** An update that is refused says why: a part of the message, the shard, or its table is missing or not as expected. */
  lemma RefusedUpdateSays(cache: Cache, u: Update)
    requires HandleUpdate(cache, u).Err?
    ensures HandleUpdate(cache, u).error ==
            if u.updateShardInfo.None? || u.updateShardInfo.value.currShardInfo.None? then ShardNotFound
            else if u.table.None? then TableNotFound
            else
              var shard := u.updateShardInfo.value.currShardInfo.value.id;
              if shard !in cache then ShardNotFound
              else if cache[shard].frozen then UpdateFrozenShard
              else if cache[shard].entry.info.version != u.updateShardInfo.value.prevVersion then ShardVersionMismatch
              else if u.kind == AddTable then TableAlreadyExists else TableNotFound
  {
  }

  /** An open that fails while it waits leaves no trace. */
  lemma FailedOpenLeavesNothing(meta: Meta, s: State, info: ShardInfo)
    requires MayOpen(s.cache, info)
    ensures IsRun(meta, s, [OpenCheck(info), OpenFail(info)]) && After(s, [OpenCheck(info), OpenFail(info)]) == s
  {
    TwoSteps(meta, s, OpenCheck(info), OpenFail(info));
    assert s.opening + multiset{info} - multiset{info} == s.opening;
  }

  /** The version an update leads to. */
  function NewVersion(u: Update): ShardVersion {
    if u.updateShardInfo.Some? && u.updateShardInfo.value.currShardInfo.Some?
    then u.updateShardInfo.value.currShardInfo.value.version else 0
  }

  /** Updates that lead from one version to the next. */
  ghost predicate IsHistory(meta: Meta, shard: ShardId, version: ShardVersion, us: seq<Update>)
    decreases |us|
  {
    us == [] ||
    (FaithfulUpdate(meta, us[0]) && LeadsOn(meta, shard, version, us[0]) && IsHistory(meta, shard, NewVersion(us[0]), us[1..]))
  }

  function LastOf(version: ShardVersion, us: seq<Update>): ShardVersion
    decreases |us|
  {
    if us == [] then version else LastOf(NewVersion(us[0]), us[1..])
  }

  function Receives(us: seq<Update>): seq<Action> {
    if us == [] then [] else [Receive(us[0])] + Receives(us[1..])
  }

  /** The shard is cached at this version, as the meta server has it, and takes updates. */
  ghost predicate Follows(meta: Meta, cache: Cache, shard: ShardId, version: ShardVersion) {
    && CacheOk(meta, cache) && shard in cache && !cache[shard].frozen
    && cache[shard].entry.info.version == version && AsSet(cache[shard].entry.tables) == meta(shard, version)
  }

  lemma UpdateApplies(meta: Meta, s: State, u: Update, shard: ShardId, version: ShardVersion)
    requires Follows(meta, s.cache, shard, version) && FaithfulUpdate(meta, u) && LeadsOn(meta, shard, version, u)
    ensures Follows(meta, Exec(s, Receive(u)).cache, shard, NewVersion(u))
  {
    UpdateAppliesIff(meta, s, u, shard);
    UpdateKeepsCache(meta, s.cache, u);
    assert EntryOk(meta, shard, Exec(s, Receive(u)).cache[shard]);
  }

  /** A cached shard that gets its updates in order follows the meta server through all of them. */
  lemma {:induction false} UpdatesFollow(meta: Meta, s: State, us: seq<Update>, shard: ShardId, version: ShardVersion)
    requires Follows(meta, s.cache, shard, version) && IsHistory(meta, shard, version, us)
    ensures IsRun(meta, s, Receives(us)) && Follows(meta, After(s, Receives(us)).cache, shard, LastOf(version, us))
    decreases |us|
  {
    if us != [] {
      UpdateApplies(meta, s, us[0], shard, version);
      UpdatesFollow(meta, Exec(s, Receive(us[0])), us[1..], shard, NewVersion(us[0]));
      RunCons(meta, s, Receive(us[0]), Receives(us[1..]));
    }
  }
}
