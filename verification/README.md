# Verified model of the DuckDB Oracle extension

The extension reads from and writes to Oracle through OCI. This project models the logic around the
OCI calls and proves what it is meant to guarantee. `dafny verify dfyconfig.toml` checks everything.

* **Session pools** (`PoolModel`, `PoolInvariant`, `PoolNames`, `PoolWakeups`, `ConnectionManager`,
  `AcquireRun`). Every critical
  section of `Acquire`, of the handle destructor and of `Clear` is one atomic action; a run is any
  sequence of enabled actions, so all interleavings are covered. Pools are heap objects: `Clear`
  empties the table and leaves pools, handles and waiters as they are. A "call" is one invocation of
  `Acquire` followed to the death of the handle it returned. Pools that nothing refers to any more
  stay in the model; nothing can observe them. The classes update the same state in place and are
  proved against the same functions, and the wait loop of `Acquire` is proved to be a run of the
  model's actions.
* **Pushdown and scan** (`Relational`, `Pushdown`, `BindData`, `Scan`, `FetchBuffers`,
  `EndToEnd`). A conjunct is
  modelled as far as the extension looks into it; everything else in it is an arbitrary function of
  the columns it reads. Values are abstract with a comparison both engines share; NULL and
  three-valued logic are explicit. The remote query is a syntax tree whose names Oracle resolves.
  The scan then maps requested columns to fetched buffers and drains the cursor 2048 rows at a time
  through byte buffers with a fixed stride. Each column is defined with an external type; a value
  arrives as it is where that type is its column's own, and is changed by an arbitrary function of
  that type where it is not.
* **Array-bind writer** (`Strided`, `Writer`). Byte buffers on the heap that grow, move when they grow,
  and keep old bytes. The server reads through the pointers, strides and lengths it was last given,
  and takes a value as it is only where its bind type suits the type of its column.
* **Generated statements** (`SqlText`, `InsertText`, `DateFormats`, `SelectText`). The INSERT that the writer prepares
  and the SELECT of a table scan, as text, and a reader of SQL text that finds names, literals,
  numbered placeholders and the items of lists in it, character by character. The date formats in
  the INSERT are read against the text of the timestamps that are bound.
* **Metadata caches, alias registry, COPY target resolution, connection strings, vector text**
  (`CatalogCache`, `AliasRegistry`, `WriteBind`, `ConnectionString`, `VectorText`). The dictionary behind
  the caches may be any, and another one after every `ClearCaches`. `Text` has the case mapping that
  these share, `Sequences` and `Wrappers` are general.

Results that hold only under a condition are proved as "if and only if", with a witness for failure:

* a wakeup is lost exactly when a call enters with a limit above the one in force, or reports a
  timeout after it was notified, while others wait for the unit concerned (`NoLostWakeupIff`);
* a call that times out does not look at the pool again, and leaves an idle session or a free slot
  behind exactly when fewer sessions are in use than the limit allows (`TimeOutLeavesAUnitIff`);
* values of 65536 bytes and more are cut by the `ub2` length without an error (`BatchedWriteIff`);
* a cached object listing can answer for another schema when names contain `:` (`CachesAgreeIff`);
* after a projection is pushed, a column is defined with the type of the column that used to be at its
  position (`DefineTypesIff`), so a scan returns the query on every table exactly when every requested
  column is defined with its own type or OCI's conversion does it no harm (`ScanIsTheQueryIff`). The
  guide `specs/guides/patterns/filter-pushdown-column-mapping.md` says pushdown should not rewrite the
  bind data to prune columns; the code does rewrite it when projection ids are given, and the model
  follows the code;
* rows within the declared column lengths always fit their buffers exactly when text columns are
  declared below 1000 characters and binary ones below 16384 (`DeclaredFitsIff`);
* `try_native_lobs` set to false is documented (src/include/oracle_table_entry.hpp:79, 91) to have BLOB
  and RAW columns converted to hex; the code then only renames them to themselves, and converts exactly
  geometry, vector and XML columns, and JSON ones where the server has the type (`ConvertedIff`);
* an input column whose exact name exists can be written to a case variant of it (`ExactNameKeptIff`);
* a timestamp with a fraction of a second cannot be written to a DATE column: the format given to
  TO_DATE does not read the fraction, though a comment at src/storage/oracle_write.cpp:428-434 says the
  texts match; every other timestamp arrives (`ArrivesIff`);
* a secret survives its connection string exactly when user, password and host avoid the separators
  (`BuildThenParse`, `SecretSaidIff`).

## Model

| member | source | states |
|---|---|---|
| PoolInvariant.StepKeepsInv | src/oracle_connection_manager.cpp:71-158 | every critical section, and every creation that succeeds or fails between two of them, keeps slot accounting and exclusive placement of sessions |
| PoolInvariant.AccountingAlways | src/oracle_connection_manager.cpp:132-153 | in every reachable state, for every pool object (in the table or dropped by Clear), total is idle sessions plus sessions on loan plus creations in flight, and never exceeds the limit |
| PoolInvariant.LimitNeverDecreases | src/oracle_connection_manager.cpp:127-130 | over any run a pool object survives and its limit only grows |
| PoolInvariant.ExclusiveLease | src/oracle_connection_manager.cpp:66-77 | in every reachable state each pooled session is either once in the idle list of the pool it was opened for or in exactly one live handle of that pool, and in no other pool |
| PoolInvariant.HomeNeverChanges | src/oracle_connection_manager.cpp:66-101 | the pool a session belongs to is fixed when it is opened, so a release goes back there even after Clear |
| PoolInvariant.AlwaysFinishes | src/oracle_connection_manager.cpp:71-153 | in every reachable state a session being opened can fail and give its slot back, the count never being zero then, and one on loan can be returned |
| PoolNames.LookupGives | src/oracle_connection_manager.cpp:115-122 | a lookup gives the new call the pool the table has for its string, a new and empty one if there was none, and leaves all other strings, pools and calls as they are |
| PoolNames.TableChanges | src/oracle_connection_manager.cpp:98-101 | Clear empties the table and nothing else; no other action but a lookup touches it |
| PoolNames.PoolKept | src/oracle_connection_manager.cpp:113-122 | over any run without Clear a string keeps its pool |
| PoolNames.PoolsAreNotShared | src/oracle_connection_manager.cpp:113-122 | in every reachable state no two connection strings have the same pool in the table |
| PoolNames.LeasedForItsString | src/oracle_connection_manager.cpp:113-158 | over all runs, Clear included, a session on loan was opened for a pool that was created for the connection string its call came in with |
| PoolNames.SameSessionSameString | src/oracle_connection_manager.cpp:66-158 | two calls that are given the same session, at whatever times, came in with the same connection string |
| PoolNames.StandaloneIsAlone | src/oracle_connection_manager.cpp:106-111 | in every reachable state the session of a handle without a pool is in no idle list, with no other call and of no pool |
| PoolNames.LimitIsAsked | src/oracle_connection_manager.cpp:127-130 | over any run the limit of a pool is the larger of what it was and the largest limit a call has entered it with |
| PoolWakeups.StepServedIff | src/oracle_connection_manager.cpp:132-158 | from a state without lost wakeups, one action loses none if and only if it passes a test on the state before it; only entering with a raised limit and timing out after a notification can fail the test |
| PoolWakeups.NoLostWakeupIff | src/oracle_connection_manager.cpp:71-158 | over every interleaving: whenever a call is blocked, the woken calls that have not run yet number at least the free units, throughout the run, if and only if every action passes that test |
| PoolWakeups.CalmRunsLoseNothing | src/oracle_connection_manager.cpp:71-158 | with no limit raised and only calls not yet notified timing out, no wakeup is ever lost, newcomers, spurious wakeups and failed creations included |
| PoolWakeups.WaitingMeansAllInUse | src/oracle_connection_manager.cpp:132-158 | if a call waits and nobody has been woken, nothing of the pool is unused: no idle session, no free slot, every slot on loan or being opened |
| PoolWakeups.TimeOutLeavesAUnitIff | src/oracle_connection_manager.cpp:155-157 | in every reachable state, a call that times out leaves an idle session or a free slot behind if and only if, before it, fewer sessions were on loan or being opened than the limit allows |
| PoolWakeups.UnitsLeftAreSpokenFor | src/oracle_connection_manager.cpp:155-157 | if no wakeup was lost and the call had not been notified, the units it leaves behind number at most the calls that have been woken |
| PoolWakeups.TimeOutsCanIgnoreASlot | src/oracle_connection_manager.cpp:127-157 | a reachable state where a call that was never notified times out on a pool with a free slot and nobody woken |
| PoolWakeups.RaisingTheLimitLosesWakeups | src/oracle_connection_manager.cpp:127-130 | a run that lost nothing, after which a call entering with a raised limit leaves a free slot, a blocked call and nobody woken |
| PoolWakeups.LateTimeOutLosesWakeups | src/oracle_connection_manager.cpp:155-157 | a run that lost nothing, after which the timeout of a notified call leaves an idle session, another call blocked and nobody woken |
| ConnectionManager.OracleConnectionPool.TryAcquire | src/oracle_connection_manager.cpp:133-141 | the part of the loop under the lock changes the pool object exactly as in the interleaving model |
| ConnectionManager.Acquire | src/oracle_connection_manager.cpp:125-158 | the whole wait loop on a pool object, with any interference during every wait, the one that times out included, and while a session is opened; the pool and the result follow from the pool at the last look as EndsAsItLooked says |
| ConnectionManager.EndsAsItLooked | src/oracle_connection_manager.cpp:132-157 | for all waits and interference: every look but the last found nothing free; a handle of an idle session leaves the pool of the last look without exactly its newest one; a new session means that pool had none idle and one slot was reserved on it; a failed creation gives exactly that slot back; a timeout found nothing free and leaves what others did during its last wait |
| AcquireRun.EventsAgree | src/oracle_connection_manager.cpp:66-158 | what any actions of other calls do to a pool is what the events the loop is proved under do to it |
| AcquireRun.AcquireIsARun | src/oracle_connection_manager.cpp:124-158 | for any interleaving with other calls the loop is a run of the model: enter, reruns after wakeups, and creation, failure or timeout, in that order among the others' actions, end with the same pool and result |
| AcquireRun.AcquiredExclusively | src/oracle_connection_manager.cpp:124-158 | so from every reachable state the session the loop hands out is in no idle list, with no other call, and of this pool |
| ConnectionManager.TimeOutBesideASession | src/oracle_connection_manager.cpp:155-157 | on any full pool and whatever else happens during the last wait, a session returned at its end lies in the pool when the timeout is reported |
| ConnectionManager.ReturnUndoesAcquire | src/oracle_connection_manager.cpp:71-153 | returning a session undoes taking it: a pool with idle sessions is as before, one without keeps the new session, and the next call gets that session without opening one |
| ConnectionManager.OracleConnectionHandle.Destroy | src/oracle_connection_manager.cpp:71-77 | destroying a handle appends its session to the idle list of its own pool, a standalone handle touches none |
| ConnectionManager.OracleConnectionManager.PoolFor | src/oracle_connection_manager.cpp:115-122 | the pool of a connection string is the one in the table, or a new empty one that is entered there |
| ConnectionManager.OracleConnectionManager.ReleaseAfterClear | src/oracle_connection_manager.cpp:98-122 | a handle that outlives Clear returns its session to its old pool while the same connection string gets a fresh, empty pool |
| Relational.EvalAgrees | src/oracle_extension.cpp:1046-1062 | a conjunct has the same truth value in any two environments that agree on the columns it reads |
| Pushdown.FlipPreserves | src/oracle_extension.cpp:936-955 | swapping the operands and flipping the operator keeps the three-valued result |
| Pushdown.ExtractPreserves | src/oracle_extension.cpp:900-1028 | an extracted clause is TRUE, FALSE or UNKNOWN on a row exactly as the conjunct is, for NULL cells and NULL constants too |
| Pushdown.SplitPreserves | src/oracle_extension.cpp:1046-1067 | a row satisfies all conjuncts if and only if it satisfies the generated WHERE and the conjuncts left to DuckDB |
| Pushdown.PushdownPreservesMeaning | src/oracle_extension.cpp:1030-1121 | running the rewritten query remotely and the remaining conjuncts locally gives the base query filtered by all conjuncts and projected: same rows, same order; WHERE may use columns that are not projected |
| Pushdown.PushesEverythingPushable | src/oracle_extension.cpp:900-1062 | DuckDB keeps exactly the conjuncts that cannot be pushed, in their order; the others (a comparison of a column with a constant by one of five operators and either way round, or IS NULL of a column) are sent, one clause each and in their order |
| Pushdown.PartSplits | src/oracle_extension.cpp:1046-1062 | the conjuncts sent and the conjuncts kept are, each in the order given, exactly those that are pushable and those that are not |
| Pushdown.RejectedIff | src/oracle_extension.cpp:1084-1116 | the generated SQL is malformed exactly when there is no column or all projection ids given are out of range |
| Pushdown.InRangeSplits | src/oracle_extension.cpp:1091-1099 | columns are selected in the order of their ids, ids out of range are skipped and no others |
| BindData.OracleBindData.constructor | src/oracle_extension.cpp:342-432 | after the describe loop names, OCI types, sizes and DuckDB types describe column k at position k, the size being the declared length or 4000 where there is none |
| BindData.OracleBindData.PushdownComplexFilter | src/oracle_extension.cpp:1030-1121 | the loops leave in the bind object exactly the rewrite the lemmas are about, return the conjuncts not extracted, and store in the scan node the name and the DuckDB type of each selected column |
| BindData.PushKeepsDescription | src/oracle_extension.cpp:1084-1114 | from bind through pushdown, fetched column k has the name, OCI type and size of the k-th selected column, and the scan node its DuckDB type |
| Scan.FindColumns | src/oracle_extension.cpp:480-500 | the nested search gives each requested column the first fetched column of its name |
| Scan.MappingFindsColumns | src/oracle_extension.cpp:476-523 | a requested column among the fetched ones is mapped to its own place in the select list; the fallback is not taken, however many more columns the query returns |
| Scan.MappedRowsArePicked | src/oracle_extension.cpp:777-790 | the fetch loop hands up exactly the requested columns of the rows in the buffers, every cell filled |
| Scan.WithoutColumnIds | src/oracle_extension.cpp:501-523 | without column ids the projection ids are what is requested, and without either the columns come out as fetched |
| Scan.NotFetchedTakesPosition | src/oracle_extension.cpp:493-521 | a requested column that was not fetched takes the fetched column at its own position, or none |
| Scan.DrainState | src/oracle_extension.cpp:741-881 | after k calls exactly the first k * 2048 rows are out, once each and in order, from one execution; finished is set exactly when a call came back short |
| Scan.ScanDeliversEverything | src/oracle_extension.cpp:741-881 | after finitely many calls everything is out and every further call returns nothing |
| Scan.EmptyChunkIff | src/oracle_extension.cpp:771-775 | a call returns no rows if and only if all rows are already out, also when their number is a multiple of 2048 |
| Scan.ScanReturnsTheQuery | src/oracle_extension.cpp:472-1121 | pushdown, mapping and chunked fetch, then DuckDB's remaining filter, give the base query filtered by all conjuncts and projected, for any delivery into the buffers that leaves the requested columns as Oracle has them |
| FetchBuffers.DeclaredFitsIff | src/oracle_extension.cpp:600-666 | all rows within the declared lengths are delivered without truncation if and only if text columns are declared below 1000 characters, because of the NUL, and binary ones below 16384, because of the ub2 length |
| FetchBuffers.DefineTypesIff | src/oracle_extension.cpp:619-655 | after pushdown all columns are defined with their own external type if and only if positions and projected columns agree on being BLOB |
| FetchBuffers.DefineTypesCanBeWrong | src/oracle_extension.cpp:1112-1114 | projecting only the second of a VARCHAR and a BLOB column has the BLOB fetched as a string |
| FetchBuffers.ScanBuffers.constructor | src/oracle_extension.cpp:598-669 | after the define loop OCI knows, for every column, the current buffer, the stride it was sized with and the external type chosen by position; no two columns share storage |
| FetchBuffers.ScanBuffers.OciFetch | src/oracle_extension.cpp:657-666 | through those defines a column is delivered as it is where the external type is its own and converted where it is not; text is ended by a NUL inside its slot and every slot still reads back |
| FetchBuffers.ScanBuffers.ReadCell | src/oracle_extension.cpp:791-798 | with the stride recomputed by division the reader gets back exactly the cell OCI delivered, NULL included |
| FetchBuffers.OracleScanState.Query | src/oracle_extension.cpp:737-885 | one call: execute once, fetch a vector into the buffers, read it through the mapping; state and chunk are those of the cursor model over the rows as they arrive |
| FetchBuffers.FetchAll | src/oracle_extension.cpp:737-885 | calling until a chunk is empty terminates with all rows out as they arrived, from a single execution |
| EndToEnd.ScanIsTheQueryIff | src/oracle_extension.cpp:472-1121 | for a given pair of conversions, each harmless or showing on some short value, a scan returns the base query filtered by all conjuncts and projected, on every table and under every filter, if and only if each requested column is defined with its own external type or with one whose conversion is harmless |
| EndToEnd.LinedUpIff | src/oracle_extension.cpp:472-1121 | where both conversions show, that is: if and only if each requested column sits at a BLOB position exactly when it is a BLOB |
| EndToEnd.MisalignedIsNotTheQuery | src/oracle_extension.cpp:619-655 | in a requested column that is misaligned, any short value that the conversion changes makes the scan wrong, on a table of that one row and without a filter |
| EndToEnd.UnprojectedIsTheQuery | src/oracle_extension.cpp:1030-1121 | without pushdown, and when no projection ids are given, a scan returns the query whatever the conversions do |
| EndToEnd.ScanTable | src/oracle_extension.cpp:472-1121 | the objects run one after the other (pushdown, init, chunked fetch through the byte buffers): the requested columns come out as they arrived, and where they are intact that, filtered by the conjuncts left to DuckDB, is the base query filtered by all conjuncts and projected; names and types in the scan node are, column by column, those of the selected columns |
| Strided.SlotsApart | src/storage/oracle_write.cpp:449 | slots of different rows do not overlap |
| Strided.WriteCells | src/storage/oracle_write.cpp:409-453 | filling a column succeeds if and only if every value fits its slot, and then every slot reads back as its value whatever the buffer held before |
| Strided.StoredCut | src/storage/oracle_write.cpp:450 | what is left of a value of k times 65536 bytes or more is its beginning, short by exactly that many bytes |
| Writer.RequiredSizeFits | src/storage/oracle_write.cpp:311-342 | the slot size asked for is a multiple of four, at least 4096, and holds every value of the column, with 32 bytes to spare and no more than alignment adds if one is longer than 4096 |
| Writer.ComputeRequired | src/storage/oracle_write.cpp:311-342 | the sizing loops compute that size for every column |
| Writer.BindTypeSuits | src/storage/oracle_write.cpp:376-383 | for type names in any case BLOB and RAW are bound as binary, CLOB as long text and all else as characters |
| Writer.TakenAsIs | src/storage/oracle_write.cpp:376-400 | a server that converts values arbitrarily where the bind type does not suit their column takes every row as it is |
| Writer.OracleWriteLocalState.Prepare | src/storage/oracle_write.cpp:344-400 | buffers grow where needed, never shrink, and OCI's pointer, size and stride match the buffers afterwards; when the slots are large enough nothing is reallocated or rebound |
| Writer.OracleWriteLocalState.Sink | src/storage/oracle_write.cpp:305-460 | one chunk: the server receives exactly its rows as read through the bind records, bind types included, "Value too large for buffer" cannot happen, an empty chunk changes nothing |
| Writer.RunInsertsEverything | src/storage/oracle_write.cpp:305-407 | over any run of chunks the server, whatever it makes of unsuitable bind types, holds all their rows in order, values as stored |
| Writer.StoredRowsIff | src/storage/oracle_write.cpp:450 | rows are stored unchanged if and only if no value reaches 65536 bytes |
| Writer.BatchedWriteIff | src/storage/oracle_write.cpp:305-460 | the batched write is the row-by-row insert of the same rows if and only if no value reaches 65536 bytes |
| Writer.SizesNeverShrink | src/storage/oracle_write.cpp:363-368 | slot sizes only grow over a run |
| Writer.WriteAll | src/storage/oracle_write.cpp:292-303 | one Sink call per chunk on a fresh writer inserts the rows of all chunks in order |
| CatalogCache.CachesAgreeIff | src/storage/oracle_catalog.cpp:149-342 | for every dictionary, changing in any way at each ClearCaches, and any interleaving of operations, failing connections and queries included, every answer is that of a direct query on the dictionary then in force, an operation failing only if its connection or one of its queries fails and then having nothing cached for it, if and only if no two object listings between two clears collide in their key |
| CatalogCache.CachesAgree | src/storage/oracle_catalog.cpp:149-342 | in particular for every history of dictionaries and every run whose schema names contain no colon |
| CatalogCache.FailsIff | src/storage/oracle_catalog.cpp:149-342 | an operation fails exactly if the cache has no answer and connecting, or a query it has to issue, fails; which queries those are depends on settings, cache and server; failing caches nothing but the current schema |
| CatalogCache.ChangesItsOwn | src/storage/oracle_catalog.cpp:229-342 | an operation changes no cached entry but its own, and an empty schema name never gets one |
| CatalogCache.KeyInjective | src/storage/oracle_catalog.cpp:293 | the key determines schema and types when schema names, or type lists, contain no colon |
| CatalogCache.ColonsCanClash | src/storage/oracle_catalog.cpp:293-297 | with colons in both, the second of two listings gets the first one's objects |
| CatalogCache.AnsweredOnce | src/storage/oracle_catalog.cpp:149-342 | a listing once answered needs no server until the caches are cleared: it repeats its answer, with no connection, whatever is done in between and however the dictionary changes from one operation to the next |
| CatalogCache.Limited | src/storage/oracle_catalog.cpp:316-320 | a limited listing is the prefix of the unlimited one that has as many names as the limit, and all of it when the limit is zero or not reached |
| CatalogCache.OracleCatalogState.Schemas | src/storage/oracle_catalog.cpp:229-263 | ListSchemas on the object, with the connection or either query failing |
| CatalogCache.OracleCatalogState.Tables | src/storage/oracle_catalog.cpp:265-288 | ListTables on the object; an empty schema name is answered without caching, once connected |
| CatalogCache.OracleCatalogState.Objects | src/storage/oracle_catalog.cpp:290-342 | ListObjects on the object |
| CatalogCache.OracleCatalogState.Detect | src/storage/oracle_catalog.cpp:149-162 | DetectCurrentSchema on the object; a known schema is kept, and nothing is detected when the connection or the query fails |
| AliasRegistry.Registries.Register | src/storage/oracle_catalog.cpp:105-117 | a registration, of a new state or of one alive already, joins the list and becomes the latest under its alias, in whatever case it is looked up |
| AliasRegistry.Registries.LookupByAlias | src/storage/oracle_catalog.cpp:133-147 | a lookup returns the latest registration whose alias is the same up to case, if it is still alive; erasing dead entries is unobservable |
| AliasRegistry.Registries.ClearAllCaches | src/storage/oracle_catalog.cpp:119-131 | exactly the live entries remain, in order, each with empty caches |
| AliasRegistry.LiveOnlySplits | src/storage/oracle_catalog.cpp:119-131 | dropping dead entries keeps the order of the others |
| Text.CaseMapsIff | src/storage/oracle_catalog.cpp:111-137 | mapping to lower case, or to upper case, identifies exactly the strings that are equal up to case |
| WriteBind.ResolveTable | src/storage/oracle_write.cpp:120-161 | for rows in any order the loop ends with the exact-case table if any row has it, else the first row's, the owner of that table's first row, and exactly that table's columns |
| WriteBind.NoRowsNoColumns | src/storage/oracle_write.cpp:141-147 | clearing the maps when the exact-case table first appears loses none of its columns |
| WriteBind.TypeIsLast | src/storage/oracle_write.cpp:157-160 | the type of a column is that in the last row of the table that names it |
| WriteBind.MapsFit | src/storage/oracle_write.cpp:157-160 | every column in the type map is found under its upper-cased name, and every name found is a column of the type map |
| WriteBind.ColumnsAreReal | src/storage/oracle_write.cpp:171-193 | an input column is written to a real column equal to it up to case, with its type, or is left as it is with type VARCHAR2 exactly when there is none; the exact-match fallback never decides |
| WriteBind.ExactNameKeptIff | src/storage/oracle_write.cpp:171-193 | a column whose exact name exists keeps it if and only if each row naming a case variant is followed by a row naming it exactly |
| WriteBind.ExactNameCanBeMissed | src/storage/oracle_write.cpp:176-177 | with columns id and ID, values meant for id go to ID |
| WriteBind.ResolveColumns | src/storage/oracle_write.cpp:171-193 | the loop resolves every input column that way |
| InsertText.InsertAligned | src/storage/oracle_write.cpp:236-268 | read back from its text, the statement names its target and has two lists: the columns, each a name with any quote or colon in it, and as many values, the k-th of which holds placeholder k, no other and no name, under every wrapper |
| InsertText.WrapperByName | src/storage/oracle_write.cpp:255-266 | which function and format a value is passed through is told by the name of its type, in any case: DATE, any name with TIMESTAMP in it, the two geometry names |
| DateFormats.TimestampReadsBack | src/storage/oracle_write.cpp:260-261 | what DuckDB prints a timestamp as, with or without a fraction, is read back exactly by the format for TIMESTAMP columns |
| DateFormats.DateReadsBackIff | src/storage/oracle_write.cpp:258-259 | the format for DATE columns reads it back if it has no fraction of a second and refuses it otherwise |
| DateFormats.DatesReadBack | src/storage/oracle_write.cpp:258-261 | a date without a time is read as its midnight by both formats |
| DateFormats.ArrivesIff | src/storage/oracle_write.cpp:255-261 | by type name: a timestamp arrives unless the column is a DATE and the timestamp has a fraction |
| SqlText.PrintedReads | src/storage/oracle_write.cpp:236-268 | the tokens found in a printed statement are the tokens printed, in order; the colons of a date format are no placeholders |
| SqlText.ListedItems | src/storage/oracle_write.cpp:243-265 | a list put together with commas is read as exactly its items, commas inside their parentheses notwithstanding |
| InsertText.GenerateInsert | src/storage/oracle_write.cpp:236-268 | the loops build that text: hint, target, columns and one value expression per column, wrapped by its type |
| SelectText.ListAligned | src/storage/oracle_table_entry.cpp:16-69 | read back, a select list has one item per column, in order; it reads that column and nothing else, through whatever conversion, and is named after it |
| SelectText.ColumnList | src/storage/oracle_table_entry.cpp:211-236 | the loop builds that list for any columns, metadata and settings, columns without metadata included |
| SelectText.GenerateSelect | src/storage/oracle_table_entry.cpp:203-240 | the query is that list and then the table, both names read back as they are |
| SelectText.ConvertedIff | src/include/oracle_table_entry.hpp:31-100 | whatever the settings, a column is converted exactly when it is of a geometry, vector or XML type, or JSON on a server that has it; turning native LOBs off renames BLOB and RAW columns to themselves and converts none |
| SelectText.ClassifiedByName | src/include/oracle_table_entry.hpp:31-70 | geometry, vector, JSON, XML and binary columns are told by the names of their types, in any case, with or without a size |
| SelectText.FormByName | src/storage/oracle_table_entry.cpp:16-69 | each of these is read through the function meant for it, or renamed, and every other column is read as it is |
| SelectText.FormsByType | src/storage/oracle_table_entry.cpp:211-236 | with conversions off, and for columns without metadata, nothing is converted |
| ConnectionString.Parse | src/oracle_connection_manager.cpp:20-31 | accepts exactly the strings user/password@db with non-empty parts, no slash in user and no at-sign in password, returns that split, and accepts none that is looked up as an alias |
| ConnectionString.SplitUnique | src/oracle_connection_manager.cpp:20-31 | no string splits in two ways |
| ConnectionString.DigitsDenote | src/oracle_secret.cpp:138 | the printed port denotes the port |
| ConnectionString.RoundTripIff | src/oracle_secret.cpp:123-140 | the built string splits into user, password and host:port/service if and only if user has no slash and password no at-sign |
| ConnectionString.RefusedIff | src/oracle_secret.cpp:71-95 | a secret is refused exactly when user, service or password is missing or the port is zero or above 65535 |
| ConnectionString.IdentifierNamesIff | src/oracle_secret.cpp:138 | host:port/service is read as that host, port and service if and only if the host has no colon |
| ConnectionString.SecretSaidIff | src/oracle_secret.cpp:97-141 | the connection string says this whole secret, and no other, if and only if user, password and host avoid the separators that end them |
| ConnectionString.BuildThenParse | src/oracle_secret.cpp:97-141 | building from a validated secret and parsing returns it if and only if user has no slash and password no at-sign |
| VectorText.ParseVectorJsonToList | src/oracle_extension.cpp:675-709 | the loop computes the list the lemmas are about |
| VectorText.BracketedList | src/oracle_extension.cpp:678-706 | any bracketed comma-separated text gives its numeral parts in order, others dropped |
| VectorText.UnreadableSkipped | src/oracle_extension.cpp:692-704 | a part that is no numeral has no bearing on the parts before and behind it |
| VectorText.NoBracketNoList | src/oracle_extension.cpp:678-685 | text that does not begin with a bracket gives an empty list |
| VectorText.UnclosedList | src/oracle_extension.cpp:687-706 | without a closing bracket the first part keeps the opening one and the others are read |
| VectorText.VectorRoundTrip | src/oracle_extension.cpp:674-709 | printing numerals as "[n1, n2]" and reading them back gives their values in order |

## Left out

- OCI itself: handles, errors, environment variables, wall-clock time and debug output. A statement returns its rows in order, at most as many as asked for, and reports NO_DATA exactly when fewer were left.
- DuckDB itself: how the optimizer numbers columns, the drawing of SQL text for names and constants, catalog sets, secret storage. A conjunct's column index is taken, as the code takes it, for a position in the column names.
- Writer.OracleWriteLocalState.Sink: values are assumed shorter than 2^31 - 256 bytes, because beyond that the sb4 size given to OCI wraps (and the buffers would take terabytes); one writer per statement, with one list of column types, as COPY provides. What the server does with an unsuitable bind type is an arbitrary function of that type, the column's type and the value.
- EndToEnd.ScanTable: as for FetchBuffers.OracleScanState.Query and Scan.ScanReturnsTheQuery; what comes out where columns are not intact is only as known as the conversion OCI makes.
- EndToEnd.ScanIsTheQueryIff: a conversion that changes only values of 4000 bytes and more is not covered.
- FetchBuffers.OracleScanState.Query: every value, as it arrives, fits its slot (text with its NUL) and a ub2 length, because what OCI does on truncation is its own affair; turning the fetched text into numbers, timestamps and geometry is not modelled; what OCI makes of a value defined with another type is an arbitrary function of that type and the value; the product of slot size and vector size is computed without wrap-around because the type of that constant is not in this repository.
- WriteBind.ResolveTable: table and column names in the dictionary are not empty, which Oracle guarantees; the query that delivers the rows is not modelled.
- Scan.ScanReturnsTheQuery: speaks of one pushdown per bound scan and of requested columns that are real table columns; a second pushdown on the same bind object discards the clauses of the first and nothing is claimed for it; the row-id pseudo column takes the fallback and carries no value.
- CatalogCache.CachesAgreeIff: a dictionary that changes between two clears is what a cache is there to hide, and nothing is claimed then beyond AnsweredOnce; object listings are a function of schema name and type list as passed in; detecting the current schema answers what it leaves known.
- ConnectionManager.Acquire: interference is a list of other calls' critical sections; that every interleaving behaves is what PoolInvariant and PoolWakeups prove.
- Liveness of the pool beyond wakeups: a waiting call can be overtaken by newcomers for ever, as in the code.
- InsertText.InsertAligned: KeywordHelper::WriteQuoted belongs to DuckDB and is taken to double embedded quotes, which the reader takes back; Oracle itself admits no double quote in a name. The reader passes over unquoted words; which function a value is passed to is InsertText.WrapperByName.
- DateFormats.ArrivesIff: the formats' meaning and the printed text are those of Oracle and DuckDB as documented, not of this repository; years 1 to 9999, no infinite or time-zone values, and the calendar's month lengths are not checked.
- SelectText.ListAligned: as for InsertText.InsertAligned, with SelectText.FormByName for the functions; column names are taken to hold no NUL character, which Oracle does not admit and the formatting would cut at.
- The text of the pushed-down query, whose columns and clauses are a syntax tree in Pushdown.
- Version detection, settings, synonyms, on-demand object lookup and the transaction manager: short case analyses.
