# A verified model of CeresDB's core

This project models, in Dafny, the parts of CeresDB where several functions, nodes or schema versions
have to agree, and proves that they do. `dafny verify dfyconfig.toml` checks all of it.

- **Shard locks** (`LockKey`, `EtcdLock`, `KeepAlive`). The lock over etcd leases is a state machine of
  an etcd server with time, any number of nodes, and a network that loses, delays, repeats and reorders
  messages. The local expiry is computed when a reply arrives, so exclusion holds up to the delay
  between etcd handling a request and the node using its reply, and that bound is tight. `KeepAlive`
  is the timed machine of the two background tasks that hand the stop receiver to each other.
- **Catalog and shard metadata** (`Catalog`, `ShardTables`, `IdAllocator`). Create and drop with
  double-checked locking, steps that fail or take effect unacknowledged, crashes and restarts; the
  cache that mirrors the meta server through versions; ids that are never reused.
- **Schemas** (`Schema`, `WriteCompat`, `AlterTable`, `Projection`, `RecordBatch`, `SchemaCodec`). The
  builder's schemas are exactly the well-formed ones. From this follow the write check, chains of
  ALTER TABLE, reading rows and batches of one schema of a chain through another one in two stages,
  and the ways to protobuf and arrow and back.
- **Rows as bytes** (`Rows`, `MemKey`, `MemDecode`, `Compact`, `Tsid`). The order on key columns, the
  memtable keys whose byte order is that order with newer rows first and their decoding, the rows of the
  write-ahead log, and the time series id.
- **Sampler and time** (`Time`, `Sampler`). Buckets with checked 64-bit arithmetic, the cached duration
  and the greedy cover by ranges.
- **Configuration text** (`Float`, `DurationText`, `SizeText`). Printing and parsing of durations and
  sizes, with the numbers f64 rounds.

`Common` holds shared vocabulary: results, orderings, machine bounds, decimal text.

Steps between two awaits are atomic; where the source runs such a step on fields it owns, the model is a
class or a method with the source's loop, proved against a function of the old state. Protocols whose
steps interleave at awaits are state machines over values, and what is proved holds for every run.
Beside what must never happen stands what does: a lock that is kept alive stays valid, a restart brings back
exactly the stable tables, an update in order is applied, a write is refused only if some row would not fit.
The release profile checks overflow, so overflowing arithmetic is an explicit outcome: a panic.

Where the code differs from what its comments, names or tests suggest, the model follows the code:

- The expiry callback of a shard lock is said not to be triggered by a revocation on purpose. A
  revocation sends the stop signal and then aborts the supervisor. It is silent if the supervisor takes
  no step in between (`KeepAlive.RevokeIsSilent`), but the two are different tasks, so the supervisor may
  (`KeepAlive.StopCanLoseToTimer`). `KeepAlive.RevokeCallsBackIff` says exactly when this calls back, and
  `KeepAlive.CallbackAfterStopIff` what a stop without an abort allows.
- A drop of a table that failed half-way cannot be repeated before a restart: `Catalog.DropWorksIff` says
  exactly when a drop works, `Catalog.StuckIsReached` how it comes to that, and
  `Catalog.HalfDroppedTableStays` that it lasts.
- A cached shard version can go back (`ShardTables.CrossedOpensGoBack`), exactly as
  `ShardTables.VersionGoesBackIff` says.
- A projection that names a column twice passes the index check but cannot be read, because the column's
  block is gone the second time (`RecordBatch.ReadTwice`); only columns of the null type survive this
  (`RecordBatch.AcceptedIff`).
- The sampler accepts timestamps so small that it panics on them
  (`Sampler.SmallestTimestampHasNoBucket`); `Sampler.DefaultSampler.ListRanges` says exactly when.
- A size of 2^63 bytes or more may come back as another one (`SizeText.LargeSizeIsLost`), exactly as
  `SizeText.RoundTripIff` says.

## Model

| member | source | states |
|---|---|---|
| `LockKey.KeyOrder` | cluster/src/shard_lock_manager.rs:366-370 | for one prefix, lock keys compare byte by byte exactly as the u32 shard ids compare as numbers |
| `LockKey.KeyInjective` | cluster/src/shard_lock_manager.rs:366-370 | two shards never share a lock key |
| `EtcdLock.StepKeepsInv` | cluster/src/shard_lock_manager.rs:208-251 | every step of etcd, of the network and of any node keeps the protocol invariant, in particular the local expiry of a lease lies at most the reply delay beyond its expiry in etcd |
| `EtcdLock.ValidHadLiveLease` | cluster/src/shard_lock_manager.rs:376-452 | in every run, a node that is locally valid at t had a live lease in etcd at some moment no earlier than t minus the reply delay |
| `EtcdLock.TakeoverEndsOldLock` | cluster/src/shard_lock_manager.rs:478-503 | after another lease's create-if-absent transaction takes the key, an earlier holder is locally valid for at most the reply delay, whatever replies are lost, revokes fail or grants follow |
| `EtcdLock.ExclusionUpToDelay` | cluster/src/shard_lock_manager.rs:376-503 | two nodes are locally valid for one shard together only during a hand-over of the key that lies at most the reply delay back |
| `EtcdLock.BoundIsTight` | cluster/src/shard_lock_manager.rs:231-231 | for every delay there is a run in which both nodes are valid exactly that long after the hand-over, so no smaller bound holds |
| `EtcdLock.GrantLasts` | cluster/src/shard_lock_manager.rs:376-413 | from the reply of its transaction a lock is valid for exactly the ttl of its lease, in every continuation without keepalive reply, revoke, regrant or crash |
| `EtcdLock.RenewalLasts` | cluster/src/shard_lock_manager.rs:204-251 | after a keepalive reply a lock is valid for exactly the ttl of the reply, in every such continuation |
| `EtcdLock.KeptAlive` | cluster/src/shard_lock_manager.rs:204-314 | however many rounds of keepalive: lock and lease are renewed together after each, and the lock is valid all the time exactly if no wait is longer than the ttl |
| `EtcdLock.DeadLeaseIsNotRenewed` | cluster/src/shard_lock_manager.rs:213-250 | a lease that etcd no longer has is answered without time, and the lock is left to expire |
| `EtcdLock.RevokeEnds` | cluster/src/shard_lock_manager.rs:419-436 | an idle node can revoke a lock it has; the lock ends at once and the request frees its key in etcd |
| `EtcdLock.GrantEnds` | cluster/src/shard_lock_manager.rs:387-413 | the reply of the transaction ends the grant, with a lock exactly if it succeeded |
| `EtcdLock.GrantGoesOn` | cluster/src/shard_lock_manager.rs:387-405 | a granted lease goes on to the transaction for the key of the shard; one without time ends the grant |
| `EtcdLock.FailedGrantRetries` | cluster/src/shard_lock_manager.rs:376-413 | a grant whose rpc fails leaves the locks alone and can be tried again exactly if the lock is not valid |
| `KeepAlive.StepKeepsInv` | cluster/src/shard_lock_manager.rs:253-314 | every step of the supervisor and of the keepalive tasks keeps the hand-over invariant of the stop receiver |
| `KeepAlive.ReceiverHasOneHolder` | cluster/src/shard_lock_manager.rs:539-628 | in every run the stop receiver has exactly one holder among supervisor, task and message until an end, never two, and none once it resolved |
| `KeepAlive.TasksNeverMisbehave` | cluster/src/shard_lock_manager.rs:539-628 | once the receiver has resolved no step that polls it is possible, the branch for a closed notifier is never enabled, the expiry callback is called at most once |
| `KeepAlive.NoCallbackAfterStopSeen` | cluster/src/shard_lock_manager.rs:539-628 | once the supervisor has seen the stop, the callback is never called |
| `KeepAlive.RenewalHoldsOff` | cluster/src/shard_lock_manager.rs:204-314 | after a successful ping no callback comes before its ttl is over, or, after a failure, before the rest is too short for another round |
| `KeepAlive.HangingTaskCallsBackIff` | cluster/src/shard_lock_manager.rs:592-602 | while pings neither succeed nor fail, the callback can come by time t exactly if the lease ends before t and the check is due by t |
| `KeepAlive.CheckRepeats` | cluster/src/shard_lock_manager.rs:592-602 | a check that finds the lease alive is repeated after its interval, not before |
| `KeepAlive.StartIsWatched` | cluster/src/shard_lock_manager.rs:576-602 | after a round has started, the callback can come by time t exactly if its ttl is over before t and the check is due by t |
| `KeepAlive.PingWaits` | cluster/src/shard_lock_manager.rs:288-296 | the task pings again exactly when its interval is over |
| `KeepAlive.BeatsKeep` | cluster/src/shard_lock_manager.rs:275-309 | as long as its pings succeed the lease is kept and nobody is called back |
| `KeepAlive.FailureIsRetried` | cluster/src/shard_lock_manager.rs:546-618 | a failed ping, or one answered without time, is followed by a new round as long as the lease leaves time for it |
| `KeepAlive.WaitEndsIff` | cluster/src/shard_lock_manager.rs:546-563 | the next round is started no earlier than one keepalive cost before the end of the lease |
| `KeepAlive.TopDecides` | cluster/src/shard_lock_manager.rs:545-573 | at the loop top exactly one way on is open: expired, wait, or too late |
| `KeepAlive.StopEndsWait` | cluster/src/shard_lock_manager.rs:557-565 | a stop signal ends a waiting supervisor at once |
| `KeepAlive.StopEndsRound` | cluster/src/shard_lock_manager.rs:293-303 | a stop signal ends the sleeping task and through its message the supervisor, without a callback |
| `KeepAlive.CallbackAfterStopIff` | cluster/src/shard_lock_manager.rs:539-628 | once the task has taken the stop signal, the callback can be called by time t exactly if the supervisor is still watching, the lease expires before t and its check is due by t |
| `KeepAlive.CanCallBackIff` | cluster/src/shard_lock_manager.rs:539-628 | without an abort the callback stays possible, stopped or not, exactly until the supervisor returns |
| `KeepAlive.RevokeIsSilent` | cluster/src/shard_lock_manager.rs:454-476 | a revocation whose abort follows the stop signal with no step of the supervisor in between never calls back, then or later |
| `KeepAlive.RevokeCallsBackIff` | cluster/src/shard_lock_manager.rs:454-628 | a revocation that takes no time can call back exactly if at the signal the check is due on an expired lease, or the loop top or a waiting failure message finds the lease too short |
| `KeepAlive.StopCanLoseToTimer` | cluster/src/shard_lock_manager.rs:454-628 | for every configuration a run in which a lease runs out during an outage, the lock is revoked, and the due check calls back before the abort |
| `IdAllocator.Allocator.AllocId` | common_util/src/id_allocator.rs:27-48 | one call: the id, the new fields and the durable maximum, for a persist that succeeds, fails, or fails after taking effect |
| `IdAllocator.IdsAreNeverReused` | analytic_engine/src/table_meta_set_impl.rs:220-227 | over every history of calls, failed persists and restarts ids strictly increase, none exceeds the persisted maximum, and each restart skips at most one step of ids |
| `IdAllocator.AllocatesIff` | common_util/src/id_allocator.rs:27-48 | a call hands out the next id exactly if one is left below the maximum, or raising it does not overflow and is acknowledged |
| `IdAllocator.AllocsAreConsecutive` | common_util/src/id_allocator.rs:27-48 | with acknowledged persists and no overflow ids are handed out without a gap |
| `IdAllocator.RestartGoesOn` | common_util/src/id_allocator.rs:13-48 | after a restart the first id is the one behind the persisted maximum |
| `Catalog.TableIdRoundTrip` | table_engine/src/table.rs:195-278 | schema id and table sequence are recovered from a table id, so ids are equal only for equal schemas and sequences |
| `Catalog.TableIdFitsIff` | table_engine/src/table.rs:195-278 | there is an id exactly if schema id and sequence fit 64 bits together |
| `Catalog.SchemaTables.Insert` | catalog_impls/src/table_based.rs:675-679 | the new contents of both maps |
| `Catalog.SchemaTables.Remove` | catalog_impls/src/table_based.rs:681-686 | the entry leaves both maps, and the maps stay mirrors |
| `Catalog.InsertKeepsMirrorIff` | catalog_impls/src/table_based.rs:675-679 | inserting keeps the two maps exact mirrors if and only if it replaces no other table under the name or the id |
| `Catalog.VisitTables` | catalog_impls/src/table_based.rs:393-430 | the scan at startup ends with the largest sequence of all records, also of those it does not open, and opens exactly the stable ones |
| `Catalog.StepKeepsInv` | catalog_impls/src/table_based.rs:710-838 | every awaited step of create, drop and restart keeps the catalog invariant, whether it succeeds, fails, or fails after taking effect |
| `Catalog.StableTablesExist` | catalog_impls/src/table_based.rs:710-838 | in every run with failures and crashes a table with a stable record exists in the engine, so a restart never opens a dropped table |
| `Catalog.RecordedIdsDistinct` | catalog_impls/src/table_based.rs:646-673 | ids ever recorded in a schema are pairwise distinct, across failed creations and restarts |
| `Catalog.AnswersAreSequential` | catalog_impls/src/table_based.rs:731-838 | every interleaving of creators, droppers and restarts answers like a sequential catalog, and lookups agree with it |
| `Catalog.OneCreatorPerName` | catalog_impls/src/table_based.rs:731-766 | two creations of one name have its drop or a restart between them |
| `Catalog.MapsStayMirrored` | catalog_impls/src/table_based.rs:602-686 | the maps by name and by id mirror each other in every run |
| `Catalog.CreateWorksIff` | catalog_impls/src/table_based.rs:731-766 | a create whose calls succeed makes exactly its table if and only if the name is free and an id is left; a visible name is answered with its table or as an error, as the request says |
| `Catalog.LateCreateAnswers` | catalog_impls/src/table_based.rs:614-636 | a create that waited for the lock while its table was made answers in the same way |
| `Catalog.HalfDroppedTableStays` | system_catalog/src/sys_catalog_table.rs:360-435 | a table whose drop stopped half-way stays visible in every run until a restart, and no drop of it is answered with its removal |
| `Catalog.DropWorksIff` | catalog_impls/src/table_based.rs:768-838 | a drop whose calls all succeed removes exactly the table, and keeps its record as dropped, if and only if the record is stable; otherwise it is answered as failed and the table is left half-dropped |
| `Catalog.TransitsOneStep` | table_engine/src/engine.rs:99-105 | a record moves one step on at a time, never back or past a step |
| `Catalog.StuckIsReached` | catalog_impls/src/table_based.rs:710-838 | from an empty catalog, one failed drop in the engine leaves a half-dropped table |
| `Catalog.RestartForgets` | catalog_impls/src/table_based.rs:393-430 | a restart no longer shows a half-dropped table |
| `Catalog.RestartCollects` | catalog_impls/src/table_based.rs:393-430 | a restart collects for opening exactly the stable tables of the scan, and ids go on after the largest one ever recorded |
| `Catalog.RestartRestores` | catalog_impls/src/table_based.rs:393-430 | once every collected table is opened, a lookup finds exactly the tables with a stable record, under the recorded ids |
| `Catalog.OpenAll` | catalog_impls/src/table_based.rs:393-430 | opening every collected table is always possible, and then the catalog serves |
| `ShardTables.SwapRemoveIsRemoval` | cluster/src/shard_tables_cache.rs:233-278 | removal by swapping with the last table removes that table and keeps the others |
| `ShardTables.ShardTablesCache.TryInsertTableToShard` | cluster/src/shard_tables_cache.rs:183-231 | the new cache, or the error with nothing changed: unknown shard, frozen, wrong version, table present |
| `ShardTables.ShardTablesCache.TryRemoveTableFromShard` | cluster/src/shard_tables_cache.rs:233-278 | the new cache, or the error with nothing changed: unknown shard, frozen, wrong version, table absent |
| `ShardTables.ShardTablesCache.Freeze` | cluster/src/shard_tables_cache.rs:167-172 | the entry is marked frozen and returned; other shards are untouched |
| `ShardTables.UpdatedTablesFollowMeta` | cluster/src/shard_tables_cache.rs:183-278 | an applied update changes the table set by exactly its table |
| `ShardTables.CacheEqualsMeta` | cluster/src/cluster_impl.rs:238-288 | under duplicated, delayed and reordered requests and late opens, a cached shard holds the meta server's table set of the cached version, with unique ids |
| `ShardTables.UpdatesApplyOnce` | cluster/src/cluster_impl.rs:323-373 | between two resets of a shard each request applies at most once and versions strictly increase |
| `ShardTables.VersionGoesBackIff` | cluster/src/cluster_impl.rs:238-288 | in every run a cached version goes back exactly where an open lands with a version below the one that last landed before it |
| `ShardTables.GoesBackIsOvertaken` | cluster/src/cluster_impl.rs:238-288 | if the meta server answers with a version no smaller than asked for, a landing moves the version back only if another open or update landed between its check and itself |
| `ShardTables.CrossedOpensGoBack` | cluster/src/cluster_impl.rs:238-288 | two opens that both pass the check and land in the opposite order move the cached version back, whatever the table sets |
| `ShardTables.OpenWorksIff` | cluster/src/cluster_impl.rs:238-286 | an open fetches and caches the tables exactly if the shard is not cached or cached at a smaller version; otherwise nothing changes and the answer is the cached shard or an error |
| `ShardTables.FailedOpenLeavesNothing` | cluster/src/cluster_impl.rs:256-264 | an open that fails while it waits leaves no trace |
| `ShardTables.UpdateAppliesIff` | cluster/src/cluster_impl.rs:323-373 | an update applies exactly if the shard is not frozen and the update leads on from its version and tables |
| `ShardTables.UpdatesFollow` | cluster/src/cluster_impl.rs:323-373 | a cached shard that gets its updates in order follows the meta server through all of them |
| `ShardTables.FreezeStopsUpdates` | cluster/src/shard_tables_cache.rs:159-278 | after a freeze no update changes the shard until it is opened again or closed |
| `ShardTables.FrozenUntilReset` | cluster/src/shard_tables_cache.rs:159-278 | a frozen shard keeps tables and version until it is opened again or closed |
| `Time.CheckedFloorExact` | common_types/src/time.rs:80-94 | with truncating division the result is the mathematical floor to a multiple, and None exactly if the timestamp is negative and the subtraction underflows |
| `Time.BucketHoldsTimestamp` | common_types/src/time.rs:241-255 | the bucket of a timestamp contains it, is aligned and as long as the duration |
| `Time.BucketMissingIff` | common_types/src/time.rs:241-255 | exactly when a timestamp has no bucket |
| `Time.BucketsEqualOrDisjoint` | common_types/src/time.rs:234-255 | two buckets of one duration are equal or disjoint |
| `Sampler.SelectedIntervalIsGap` | analytic_engine/src/sampler.rs:187-211 | the interval that decides is the gap between two neighbouring timestamps |
| `Sampler.SelectedSplitsIntervals` | analytic_engine/src/sampler.rs:187-211 | no interval of the lower nine tenths is longer than the one that decides, and none of the upper tenth shorter |
| `Sampler.SelectedRank` | analytic_engine/src/sampler.rs:202-206 | the position that decides is the last whose rank is within nine tenths, and the last of all for one or two intervals |
| `Sampler.SuggestedIsUnique` | analytic_engine/src/sampler.rs:123-142 | the collected timestamps determine one duration, so a cached and a recomputed one are equal |
| `Sampler.PickDuration` | analytic_engine/src/sampler.rs:213-225 | the first available duration longer than the scaled interval, or the last one |
| `Sampler.PickedIff` | analytic_engine/src/sampler.rs:19-34 | the duration for every interval, in milliseconds |
| `Sampler.CoverRanges` | analytic_engine/src/sampler.rs:144-165 | looking only at the last range, the greedy loop gives ascending, disjoint, aligned ranges that each hold a sample and together hold all; it panics exactly if a floor underflows |
| `Sampler.InExactlyOneRange` | analytic_engine/src/sampler.rs:144-165 | every collected timestamp lies in exactly one range |
| `Sampler.DefaultSampler.Collect` | analytic_engine/src/sampler.rs:110-121 | an accepted timestamp is added and empties the cache; a refused one changes nothing |
| `Sampler.DefaultSampler.SuggestDuration` | analytic_engine/src/sampler.rs:123-142 | the duration the collected set determines, cached or not; the cache afterwards equals a fresh recomputation |
| `Sampler.DefaultSampler.ListRanges` | analytic_engine/src/sampler.rs:144-165 | the ranges are a cover of the collected timestamps by the suggested duration, and the call panics exactly if some timestamp cannot be placed |
| `Sampler.NonNegativeNeverPanics` | analytic_engine/src/sampler.rs:110-211 | non-negative accepted timestamps never make the sampler panic |
| `Sampler.SmallestTimestampHasNoBucket` | analytic_engine/src/sampler.rs:110-165 | a timestamp that the sampler accepts and whose listing panics |
| `Schema.Builder.AddKeyColumn` | common_types/src/schema.rs:1042-1073 | every error in its order, or the fields after the column was added; validity is kept |
| `Schema.Builder.AddNormalColumn` | common_types/src/schema.rs:1075-1083 | every error in its order, or the fields after the column was added; validity is kept |
| `Schema.Builder.MayAllocColumnId` | common_types/src/schema.rs:1093-1100 | the id a column gets and the new maximum; None is the overflow panic |
| `Schema.Builder.Finish` | common_types/src/schema.rs:1213-1245 | the schema or the error; every schema that comes out is well formed |
| `Schema.AddKeepsValid` | common_types/src/schema.rs:1042-1136 | adding a column keeps names and ids distinct, keys ascending, comparable and not nullable, and at most one timestamp key |
| `Schema.BuiltIsWellFormed` | common_types/src/schema.rs:1213-1245 | whatever is built is well formed |
| `Schema.RebuildStep` | common_types/src/schema.rs:1042-1136 | every next column of a well-formed schema is accepted |
| `Schema.RebuiltIsSame` | common_types/src/schema.rs:1213-1245 | rebuilding a well-formed schema column by column gives it back, so well formed and builder-made are the same |
| `WriteCompat.CompatibleForWrite` | common_types/src/schema.rs:789-846 | Ok exactly when every table column is served or may be null and the writer has no extra column; then the index map is injective and onto the writer's columns; each error names a real conflict |
| `WriteCompat.CountDecides` | common_types/src/schema.rs:826-843 | the count of matched columns reaches the writer's exactly when every writer column is matched |
| `WriteCompat.OntoIffNoExtra` | common_types/src/schema.rs:826-843 | every writer column is matched exactly when the table knows its name |
| `WriteCompat.ExtraNamesAre` | common_types/src/schema.rs:830-842 | the names in the error are exactly the writer's names the table does not have |
| `WriteCompat.ServedValuesFit` | common_types/src/column_schema.rs:217-237 | on Ok a served column has the writer's type and never gets a null it cannot take |
| `WriteCompat.ColumnCompatibleIff` | common_types/src/column_schema.rs:215-238 | column against column: no error exactly if every datum fits, the type is to blame exactly if some value does not fit, nullability if only a null does not |
| `WriteCompat.CompatibleIffRowsFit` | common_types/src/schema.rs:789-846 | a writer is accepted exactly if the table knows its columns and every row it can write fits the table |
| `Rows.RowOrderIsTotal` | common_types/src/schema.rs:557-575 | on rows that fit a builder-made schema the comparison never panics, is a total preorder, and is equal exactly when all key columns are equal |
| `Rows.FloatsCompare` | common_types/src/datum.rs:369-404 | floating point numbers other than NaN are totally ordered, from one infinity to the other |
| `Rows.KindsCompare` | common_types/src/datum.rs:369-404 | datums of different kinds compare by the position of their variants, never as equal |
| `Rows.NanDoesNotCompare` | common_types/src/datum.rs:154-172 | why floating point kinds are no key kinds: the comparison would panic on NaN |
| `AlterTable.BuildNewSchema` | interpreters/src/alter_table.rs:80-131 | Ok exactly when the columns can be added; the result keeps columns, keys and timestamp, numbers the new columns on, and raises the version by one |
| `AlterTable.AddStep` | common_types/src/schema.rs:1075-1124 | an added column gets the next id and is stopped only by its name or the overflow of the id |
| `AlterTable.BuildDecides` | interpreters/src/alter_table.rs:116-119 | with all columns added, only a tsid column without exactly two keys still fails |
| `AlterTable.ChainExtends` | interpreters/src/alter_table.rs:80-131 | along any chain of alters columns are only added at the end and nullable, keys stay, and the version counts the steps |
| `Projection.ProjectRecordSchemaWithKey` | common_types/src/schema.rs:893-915 | keeps every key and every asked column once in schema order, with the new key positions |
| `Projection.ProjectRecordSchema` | common_types/src/schema.rs:918-929 | the asked columns in the order they were asked for |
| `Projection.NewProjectedSchema` | common_types/src/projected_schema.rs:224-248 | accepted exactly when every index is in range; otherwise the error is an index out of range |
| `Projection.WantedIsRead` | common_types/src/schema.rs:893-915 | the columns read ascend and hold every key and every asked column, and the key positions point at the keys |
| `Projection.TryProjectWithKey` | common_types/src/projected_schema.rs:257-319 | Ok with the source index of every column, or the error of a column that cannot be read |
| `Projection.ColumnReadableIff` | common_types/src/projected_schema.rs:280-319 | a column projects from a source of another version exactly if what it reads there, the value of the same column or null, always fits it |
| `Projection.SameVersionIsTaken` | common_types/src/projected_schema.rs:286-292 | in a source of the same version a column is taken where its name is |
| `Projection.ChainProjects` | common_types/src/projected_schema.rs:257-319 | for any two schemas of a chain and any projection no column fails: shared columns are found in place, later ones are filled by null |
| `Projection.ProjectRow` | common_types/src/projected_schema.rs:84-99 | column by column the datum at the source index, or null |
| `Projection.ReadAcrossAlters` | common_types/src/projected_schema.rs:84-319 | a row of any schema of a chain read through any other: old values for shared columns, null for later ones |
| `Projection.ReadRowFits` | common_types/src/column_schema.rs:241-267 | what is read fits the reader's columns |
| `Projection.ReadRowsKeepOrder` | common_types/src/schema.rs:509-511 | rows read through another schema of the chain keep their order under the remapped keys |
| `Projection.ExistingAscends` | common_types/src/projected_schema.rs:64-69 | the existing source indexes strictly ascend and are exactly the wanted ones the source has |
| `Projection.KeyColumnsAgree` | common_types/src/projected_schema.rs:257-266 | the key columns after projection equal those of the source, as the debug assertion demands |
| `RecordBatch.RecordBatchData.TakeColumnBlock` | common_types/src/record_batch.rs:134-140 | the block is taken and a block of nulls with the same number of rows stays in its place |
| `RecordBatch.TryProject` | common_types/src/record_batch.rs:387-415 | the blocks in the order asked for, or the error of a missing column or of arrow |
| `RecordBatch.AcceptedIff` | common_types/src/record_batch.rs:387-415 | a projection is accepted exactly when it repeats no column other than one of the null type, and then gives the values of its columns |
| `RecordBatch.AcceptedIsRegular` | common_types/src/record_batch.rs:104-131 | blocks that make a batch are equally long, of the types of their fields, and without null where none may be |
| `RecordBatch.ReadTwice` | common_types/src/record_batch.rs:387-415 | the only column of a table asked for twice: the projection is accepted and the read refused |
| `RecordBatch.ProjectToRecordBatchWithKey` | common_types/src/record_batch.rs:654-706 | every column from the array at the running index, or nulls of its type; or the error |
| `RecordBatch.BlockAgrees` | common_types/src/record_batch.rs:654-706 | the running index hits the right array: the column path gives what the row path reads |
| `RecordBatch.PathsAgree` | common_types/src/record_batch.rs:654-706 | for any source projection, row by row, the blocks the column projector makes hold what the row projector makes of the source row |
| `RecordBatch.ReadWithKey` | common_types/src/record_batch.rs:654-706 | on a chain the first stage never fails and agrees with the row projector row by row |
| `RecordBatch.ReadBatch` | common_types/src/record_batch.rs:387-706 | both stages together equal taking each asked column directly from the row, null when absent; Ok exactly for projections without repeats other than null columns |
| `MemKey.PutBytes` | common_util/src/codec/memcomparable/bytes.rs:39-56 | the loop over groups appends the encoding of the value |
| `MemKey.BytesOrder` | common_util/src/codec/memcomparable/bytes.rs:24-56 | encoded byte strings compare like the byte strings, and what follows decides only between equal ones |
| `MemKey.NumbersOrder` | common_util/src/codec/memcomparable/number.rs:17-54 | encoded numbers compare like the numbers |
| `MemKey.DatumsOrder` | common_util/src/codec/memcomparable/datum.rs:25-93 | key datums of one kind compare like their encodings |
| `MemKey.KeyKindIff` | common_types/src/datum.rs:154-172 | the kinds that can be keys are those that can be encoded, other than null |
| `MemKey.PutInternalKey` | analytic_engine/src/memtable/key.rs:122-130 | appends the key columns and the sequence, or fails on a datum that cannot be a key |
| `MemKey.InternalKeyOrder` | analytic_engine/src/memtable/key.rs:95-130 | internal keys compare byte by byte by the key columns as rows do, and among equal keys the newer row comes first |
| `MemKey.SequencesOrder` | analytic_engine/src/memtable/key.rs:149-156 | encoded sequences compare by sequence descending, then by index descending |
| `MemKey.SeekSeesNoNewer` | analytic_engine/src/memtable/key.rs:188-209 | a seek key comes before exactly the rows of its user key that are no newer than its sequence |
| `MemKey.SeekAmongRows` | analytic_engine/src/memtable/key.rs:188-209 | among all rows of a table, a seek comes after those with smaller keys and the newer ones with its key, and before all others |
| `MemKey.SplitRoundTrip` | analytic_engine/src/memtable/key.rs:211-227 | user key and sequence are recovered from an internal key |
| `MemDecode.GetBytes` | common_util/src/codec/memcomparable/bytes.rs:79-115 | the loop over groups decodes them, or gives the error of the first bad group |
| `MemDecode.DecodesIff` | common_util/src/codec/memcomparable/bytes.rs:24-115 | decoding a buffer gives a byte string and a rest exactly if the buffer is the encoding of the one followed by the other |
| `MemDecode.DatumDecodes` | common_util/src/codec/memcomparable/datum.rs:25-215 | every datum that can be encoded is read back, and what follows is left alone |
| `Compact.PutUvarint` | common_util/src/codec/varint.rs:61-68 | the loop appends the encoding of the number |
| `Compact.GetUvarint` | common_util/src/codec/varint.rs:125-142 | the loop computes the decoding function, errors included |
| `Compact.UvarintRoundTrip` | common_util/src/codec/varint.rs:61-142 | every u64 is read back and the bytes behind it are left alone |
| `Compact.VarintRoundTrip` | common_util/src/codec/varint.rs:38-96 | every i64 is read back and the bytes behind it are left alone |
| `Compact.DatumRoundTrip` | common_util/src/codec/compact/datum.rs:22-215 | every datum, null or of the column's kind, is read back and the bytes behind it are left alone |
| `Compact.OtherFlagsAreRefused` | common_util/src/codec/compact/datum.rs:119-215 | a datum behind the flag of another kind is refused |
| `Compact.CastsTruncate` | common_util/src/codec/compact/datum.rs:119-144 | casts to narrower types keep the low bits |
| `Compact.PutWalRow` | common_util/src/codec/row.rs:50-68 | the writer's row is encoded in the table's columns |
| `Compact.GetWalRow` | common_util/src/codec/row.rs:108-125 | a datum is decoded for every column, or the first error |
| `Compact.WalRoundTrip` | common_util/src/codec/row.rs:39-125 | a row of a compatible writer is decoded with the table's schema to its values, null where the writer has no column, and fits the table |
| `Tsid.MaybeGenerateTsid` | interpreters/src/insert.rs:124-159 | every row gets the hash of its tag bytes in the tsid column and nothing else changes; an error means some row cannot be encoded |
| `Tsid.BuildBytes` | interpreters/src/insert.rs:161-193 | the bytes appended to the cleared buffer, or the encoding error |
| `Tsid.AltersKeepTsid` | interpreters/src/insert.rs:124-193 | along any chain of alters a row padded with nulls is hashed over the same bytes, added tags included, and the tsid column stays |
| `Tsid.BytesIdentifySeries` | interpreters/src/insert.rs:177-193 | two rows are hashed over the same bytes exactly when they agree on every tag column |
| `SchemaCodec.DecodePb` | common_types/src/schema.rs:952-972 | the schema of the message or the first error; every schema that comes out is well formed |
| `SchemaCodec.PbRoundTrip` | common_types/src/schema.rs:952-995 | every builder-made schema survives the way to protobuf and back |
| `SchemaCodec.KeysById` | common_types/src/schema.rs:974-995 | a column is a key of the message exactly when it is a key of the schema |
| `SchemaCodec.IndexesRoundTrip` | common_types/src/schema.rs:228-259 | printed and comma-joined key indexes are parsed back |
| `SchemaCodec.FieldRoundTrip` | common_types/src/column_schema.rs:300-402 | a column comes back from its arrow field without its default value, a dictionary as one of strings |
| `SchemaCodec.TypesReadAs` | common_types/src/datum.rs:1146-1176 | an arrow type is read as the kind that is written as it; nanoseconds are timestamps too, and dictionaries strings |
| `SchemaCodec.BuildFromArrowSchema` | common_types/src/schema.rs:1138-1178 | the schema read from fields and metadata, with defaults when a metadata key is missing |
| `SchemaCodec.ArrowReturns` | common_types/src/schema.rs:1138-1200 | what comes back from arrow for every builder-made schema |
| `SchemaCodec.ArrowRoundTripIff` | common_types/src/schema.rs:1138-1245 | a builder-made schema survives arrow exactly when no column has a default value and dictionaries are of strings |
| `SchemaCodec.BadMetadataIsRefused` | common_types/src/schema.rs:1170-1179 | metadata that is there but cannot be parsed is an error, while missing metadata is not |
| `DurationText.FromStr` | common_util/src/config.rs:368-413 | the parsing loop computes the parsing function on every input, errors included |
| `DurationText.AcceptedIff` | common_util/src/config.rs:368-413 | a text is accepted exactly when, trimmed, it is an ASCII list of numbers with ever shorter units whose sum is not negative; the result is that sum |
| `DurationText.Display` | common_util/src/config.rs:450-484 | prints the units that are not zero in order, or 0s; panics exactly on overflow |
| `DurationText.RoundTrip` | common_util/src/config.rs:365-484 | a printed duration below 2^53 milliseconds is parsed back, truncated to milliseconds |
| `DurationText.F64IsExact` | common_util/src/config.rs:396-399 | f64 arithmetic is exact as far as the round trip needs it |
| `SizeText.RoundTrip` | common_util/src/config.rs:178-291 | every size below 2^63 survives serializing and deserializing, whether plain numbers come back signed or unsigned |
| `SizeText.RoundTripIff` | common_util/src/config.rs:178-291 | a u64 size survives exactly if it is not, from 2^63 on, written as an odd number of KiB |
| `SizeText.LargeSizeIsLost` | common_util/src/config.rs:178-291 | 2^63 and one KiB comes back as another size |
| `SizeText.WholeUnits` | common_util/src/config.rs:204-247 | a number of whole units is parsed to the product |
| `SizeText.AnySpelling` | common_util/src/config.rs:226-239 | units may be spelled with or without B or iB and stand for powers of 1024 |
| `SizeText.OtherUnitsAreRefused` | common_util/src/config.rs:226-239 | any other unit behind a number is refused |
| `SizeText.WrittenInLargestUnit` | common_util/src/config.rs:178-202 | whole KiB are written as text, in the largest unit that leaves no rest |
| `Float.FractionDigitIs` | common_util/src/config.rs:241-244 | one more digit behind the point of a parsed number is put behind the others and moves the exponent down |
| `Float.ToU64Clamps` | common_util/src/config.rs:241-244 | the cast to u64 rounds down within its range and takes the nearest end outside of it |
| `SizeText.F64IsExact` | common_util/src/config.rs:241-244 | f64 scaling by a binary unit is exact as far as the round trip needs it |

## Left out

- Shard lock, keepalive tasks and catalog requests are modelled on values, not as classes: their methods
  give way at every await, so the fields they update are components of a state that any other step may
  change in between. Update in place is therefore not visible there.
- The clock of `EtcdLock` is shared by all nodes and etcd: drift between clocks is not modelled, nor is
  the timing inside one node beyond the delay from handling a request to using its reply.
- KeepAlive.RevokeCallsBackIff: the signal and the abort are at one moment; a revocation interrupted for
  longer is covered by KeepAlive.CanCallBackIff and KeepAlive.CallbackAfterStopIff.
- That the expiry callback is called whenever a lease expires: the code may restart keepalive instead.
- etcd, the meta server, the table engine, the system catalog's storage, arrow, DataFusion, prost and
  serde are abstract: a server with leases and keys, version histories, maps, codecs assumed to be
  inverse, columns of datums. Hash functions are parameters.
- Catalog: creation of catalogs and schemas, registering tables outside of startup, partition tables.
- Schema: the escaped column name (a function of the name) and the byte offsets of contiguous rows.
- RecordBatch.ReadBatch: arrays of nanosecond timestamps, which are cast on reading, are not modelled;
  whether arrow makes a batch of no columns is a parameter.
- Tsid: filling of default values on insert.
- MemDecode.GetBytes: the buffer is one piece of memory; a buffer made of several chunks is not modelled.
- SizeText.RoundTripIff: stated for every rounding that is exact on 53 bits times a power of two and takes
  integers of 54 bits to even ones, as round-to-nearest does.
- Compact.DatumRoundTrip: the bytes of floating point numbers are parameters assumed to be read back.
- SchemaCodec.PbRoundTrip: the codec of default values is a parameter assumed to be inverse on the
  schema's default values; protobuf's own enumeration of data types is identified with the datum kinds.
- Sampler: overlapping calls, for which the cache is not claimed to agree; the index nine tenths into the
  sorted intervals is exact instead of a float product.
- Float: the sign of NaN, which decides whether the text of such a sum is refused as negative.
- DurationText.RoundTrip: stated for every arithmetic that is exact on whole numbers up to 2^53;
  DurationText.F64IsExact and DurationText.F64NeedsDigits show that f64 arithmetic is one.
- Node topology, partitioned locks, hot spot statistics, option clamps, bit sets and hex: easy members only.
