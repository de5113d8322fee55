# Verification of the USD extension

A Dafny model of the parts of the DuckDB USD extension that hold state, run on several threads, or rewrite a query, with
proofs of what they promise. `dafny verify dfyconfig.toml` checks everything.

OpenUSD and DuckDB are small environments: arbitrary functions that say which files a composition asks for, what rows a
prim has, what an unknown SQL expression evaluates to, or which files may be read. The proofs hold for all of them. What is
imperative in the extension is a class or method here, and is proved to compute what a function of the state says; lemmas
prove what those functions promise.

## Files

**Stage cache and layer freshness** (`src/usd_stage.cpp`). USD keeps one copy of each layer for the whole process and reuses
it after its file has changed, for as long as any stage holds it. `usd_stage_model.dfy` has the state (files, layers in
memory, stamp table, the object caches of all databases, registry, stages held by queries) and every operation on it;
a stage is composed by asking for files until the composition asks for nothing more, where what was read so far decides
what is asked for next. `usd_stage_invariant.dfy` and `usd_stage_freshness.dfy` prove that a stage that an open does not
share with an earlier one of its query is exactly what a fresh process would compose, unless a warning is logged, and that a
warning is never logged otherwise; `usd_stage_use.dfy`, that this holds in every run, and that a stage that is shared was so
when the same, still running query opened it. `usd_stage_release.dfy` has the exact condition for the warning, in terms of
the state before the open. The comment at `src/usd_stage.cpp:593` gives another ("still held by a running query");
`usd_stage_example.dfy` has a run, from the start, in which no query is running and an open warns.
`usd_stage_access.dfy` has the exact outcome of an open, and which files must be readable for it, `usd_stage_caching.dfy`
which stages are cached and served again. `usd_stage_budget.dfy` is about the memory budget and the order in which stages are
dropped, `usd_stage_runs.dfy` about budget and cross-database safety over all runs, `usd_stage_key.dfy` about cache keys,
`usd_layer_stamps.dfy` about the stamp table's answers and its pruning. `usd_stage_provider.dfy` is the code with its loops
and updates in place.

**Scan** (`src/usd_scan.cpp`, `src/include/usd_scan.hpp`). `usd_scan_model.dfy` has the morsel scheduler, the scan loop of
one thread, and N threads taking steps in any order. `usd_scan_proofs.dfy`, `usd_scan_runs.dfy` and
`usd_scan_theorems.dfy` prove that every schedule ends and gives the rows of one sequential walk, `usd_scan_walk.dfy` that
the walk does not depend on how prims are cut into morsels, `usd_scan_failure.dfy` which files make a scan fail and that
others that do not open leave no trace; `usd_scan.dfy` is the code. `usd_rows.dfy` has the rows.

**Filter pushdown** (`src/usd_scan.cpp`, `src/functions/usd_properties.cpp`). `usd_pushdown.dfy` has SQL expressions in
three-valued logic, the collection of names, and the options; `usd_properties.dfy` the selection of properties;
`usd_properties_rows.dfy` the rows and columns of usd_properties; `usd_pushdown_theorems.dfy` proves that the query's result
stays the same, however many threads scan. `ordering.dfy` is about sorted lists.

**JSON** (`src/usd_json.cpp`). `usd_json_text.dfy` has the text that is printed for a value, `usd_json_reader.dfy` a reader
for RFC 8259, `usd_json_proofs.dfy` the round trip, and `usd_json.dfy` the writer that appends to a shared buffer.

**Composition arcs** (`src/functions/usd_composition_arcs.cpp`). `usd_composition_arcs.dfy` has the paths, the loop that
finds the roots, the memo table, and rows that point into growing lists.

**File access** (`src/usd_file_access.cpp`). `usd_file_access.dfy` has the resolver, and proves that what may not be read
makes no difference to what is composed or reported.

## Results that differ from what one might expect

- A warning about changed files does not mean that a running query holds them: `UsdStageExample.WarnsWithoutRunningQuery`.
  `UsdStageRelease.WarnsExactlyWhen` says when it is logged, `UsdStageRelease.ExplainedByQueriesWhen` when running queries
  explain it.
- The reader gets a printed value back whatever follows its text, except a number that what follows makes longer, as a digit
  does and a minus does not (`UsdJsonProofs.NumbersRunTogether`): `UsdJsonProofs.RoundTrip` is an if and only if. Nothing
  that the printer itself writes after a number does that: `UsdJsonProofs.PrintedReads`.
- Resolving a relative path can tell whether a refused file exists: `UsdFileAccess.RelativePathTells`. It hides refused files
  if and only if every place that is searched may be read: `UsdFileAccess.HidesIffGuarded`.
- The roots that are swapped for an instance proxy can be above the instances: paths beside the source instance are moved,
  too (`UsdCompositionArcs.OutsidePathsSwap`). `UsdCompositionArcs.InstancePathsSwap` says exactly which.

## Model

| member | source | states |
|---|---|---|
| `UsdStageInvariant.LoadAgrees` | src/usd_stage.cpp:315-328 | Two views of the files that agree on everything a composition read, and both lack what it missed, are asked for the same files in the same order and give the same stage, by induction over the files asked for |
| `UsdStageInvariant.ComposeAgrees` | src/usd_stage.cpp:501-527 | The same for a whole composition, from its root layer |
| `UsdStageInvariant.ComposeIsClosed` | src/usd_stage.cpp:455-474 | A composition has read or missed everything it asks for once it has read its layers, and nothing but its root layer and what it asked for on the way |
| `UsdStageInvariant.OpenStageRecords` | src/usd_stage.cpp:136-156 | Checking a stage right after it is composed leaves the stamp table with the stamp at which each layer in memory was read, and reports exactly the layers whose file differs from what was read |
| `UsdStageInvariant.CacheKeeps` | src/usd_stage.cpp:600-608 | Caching a stage and purging the registry keep the invariant: every cached entry is in the registry, ids and last uses are distinct, cached stages use only layers that are in memory |
| `UsdStageFreshness.UpToDateIsFresh` | src/usd_stage.cpp:177-187 | A stage none of whose layers is out of date, and whose missing assets are still missing, is what composing from the current files gives; with a layer out of date it is not |
| `UsdStageFreshness.CacheHitIsFresh` | src/usd_stage.cpp:500-527 | A stage served from the database cache equals a fresh open: same versions of the same files, same missing assets, no layer out of date |
| `UsdStageFreshness.OpenUncachedIsHonest` | src/usd_stage.cpp:577-617 | Without a cache hit: a failed open would also fail in a fresh process; a stage equals a fresh open if and only if no warning was logged, a warning means that a layer is out of date, and all its layers may be read |
| `UsdStageFreshness.OpenIsHonest` | src/usd_stage.cpp:557-618 | One open keeps the invariant; it shares the stage in the query's own map if and only if that is still held, and is honest in that sense if it does not |
| `UsdStageFreshness.StepKeeps` | src/usd_stage.cpp:557-628 | Writes, deletes, opens, query ends, evictions and drops keep the invariant |
| `UsdStageUse.EveryOpenIsHonest` | src/usd_stage.cpp:557-618 | In every run, over any number of databases and queries: an open is honest about the current files, or shares a stage that the same query opened before under the same key, honest about the files at that time, and has not ended since |
| `UsdStageRelease.LetGoFrees` | src/usd_stage.cpp:422-444 | After the release, a changed layer is still in memory if and only if a running scan holds a stage that uses it |
| `UsdStageRelease.ReopenedIsCurrent` | src/usd_stage.cpp:580-588 | The stage that is opened again reads every changed layer that no running scan holds at its current version |
| `UsdStageRelease.WarnsExactlyWhen` | src/usd_stage.cpp:557-598 | Evaluated before the open: the warning is logged if and only if the query does not share the stage, no cached stage is usable, composing reaches layers out of date among those that stay in memory after the lookup, and still does among those that stay once the stages that use these are let go of, too (and everything may be read); the stage's layers out of date are those |
| `UsdStageRelease.ExplainedByQueriesWhen` | src/usd_stage.cpp:592-598 | Running queries hold all layers out of date of a stage that is warned about, as the comment says, if and only if the second attempt reaches none that only a cached stage holds which uses none of the layers for which stages were let go of |
| `UsdStageExample.WarnsWithoutRunningQuery` | src/usd_stage.cpp:592-598 | A run from the start (two files opened and cached, both rewritten) after which no query runs and an open warns: the new root layer references a stale layer that only another cached stage holds |
| `UsdStageAccess.LookupIsRight` | src/usd_stage.cpp:501-527 | A lookup misses if and only if no cached stage is there whose layers, and missing assets, have the stamps they were read with; if there is one, it is a hit with that stage if and only if all layers of that stage may be read, whatever other files may not be |
| `UsdStageAccess.OpenEndsAt` | src/usd_stage.cpp:557-618 | The outcome of an open from the state before it: the stage its query shares, else refused if the file may not be read, else the up-to-date cached stage (refused if a layer of it may not be read), else exactly what composing from the current files gives with the layers that then are still in memory (failed, refused for one of its layers, or that stage) |
| `UsdStageAccess.RefusedExactlyWhen` | src/usd_stage.cpp:478-518 | An open is refused if and only if the query does not share the stage, and the file, or a layer of the stage that the open comes to, may not be read |
| `UsdStageAccess.OtherFilesDoNotMatter` | src/usd_stage.cpp:557-618 | Two requests whose permissions agree on the file and those layers have the same outcome and leave the same state |
| `UsdStageCaching.CachesExactlyWhen` | src/usd_stage.cpp:392-420 | A stage is cached if and only if caching is enabled, nothing was warned about, and dropping some number of the least recently used stages makes it fit both limits, with 2560 bytes for each prim and 524288 for each layer; if none does, the database's stages are dropped, and without an attempt to cache no cache changes |
| `UsdStageCaching.CachedIsHit` | src/usd_stage.cpp:501-527 | In every continuation of a run in which the entry is neither dropped nor released, a stage that was cached is a hit for another query that may read its layers if and only if its layers and the assets it missed have the stamps they had when it was cached |
| `UsdStageCaching.SharedUntilEnd` | src/usd_stage.cpp:60-94 | In every continuation of a run in which neither the scan that holds the stage nor its query ends, the query's next open under the same key shares it, whatever becomes of files and caches |
| `UsdStageBudget.DropOrderHolds` | src/usd_stage.cpp:396-407 | The entries that MakeRoom considers are all entries its database has cached, each once, the least recently used first |
| `UsdStageBudget.MakeRoomDropsOldest` | src/usd_stage.cpp:392-420 | The entries dropped are a prefix of the last-used order, each was dropped while the new stage still did not fit, those kept were used later, other databases keep theirs, and a false result means all were dropped |
| `UsdStageBudget.WithoutFirstTotal` | src/usd_stage.cpp:408-418 | The running total, which only ever subtracts, is the memory of what is still cached |
| `UsdStageBudget.CacheTotal` | src/usd_stage.cpp:356-363 | Caching a stage in an empty slot adds exactly its estimate to what is counted for the database, although the registry is purged at the same time |
| `UsdStageRuns.OpenWithinBudget` | src/usd_stage.cpp:229-244 | In every run: right after a stage is cached, its database's cached estimates total at most half of the limit, memory in use before plus the estimate (2560 bytes for each prim, 524288 for each layer) was within the limit, and no warning was logged |
| `UsdStageRuns.OpenOthers` | src/usd_stage.cpp:422-444 | An open leaves every entry of every other database in its cache (also one under the same key), and releases one only if it uses a layer that is out of date |
| `UsdStageRuns.DropEmpties` | src/usd_stage.cpp:620-628 | Dropping cached stages empties the database's own slots and changes no other |
| `UsdStageRuns.ReleasedNeverServed` | src/usd_stage.cpp:500-527 | Over every continuation of a run, an entry that was released or left its cache never has a stage again and is never the source of a hit |
| `UsdStageUse.OpenIsMostRecent` | src/usd_stage.cpp:292-296 | A stage that an open takes from the cache or puts there is the most recently used of all databases, so stages are dropped in the order of their last such open |
| `UsdStageUse.SharedWithinQuery` | src/usd_stage.cpp:60-94 | In every run, a query's map only has stages that the query itself opened, under the same key, and that it has not ended since |
| `UsdStageKey.KeyIdentifies` | src/usd_stage.cpp:531-533 | For masks without the separator, two opens have the same cache key if and only if their options and absolute path are the same |
| `UsdStageProvider.Provider.LockAll` | src/usd_stage.cpp:365-375 | The loop gives the entries of the weak pointers that can still be locked, in order |
| `UsdStageProvider.Provider.AddToRegistry` | src/usd_stage.cpp:356-363 | The registry has the new pointer, and exactly those of the old ones that can still be locked |
| `UsdStageProvider.Provider.CheckLayers` | src/usd_stage.cpp:177-187 | The loop over the layers records those that were not seen and returns exactly those whose files changed since they were |
| `UsdStageProvider.Provider.RemoveFromObjectCache` | src/usd_stage.cpp:383-387 | Removes the entry only if it is the one in that cache |
| `UsdStageProvider.Provider.MakeRoom` | src/usd_stage.cpp:392-420 | The loop with its running total makes the step for which the drop order and the budget are proved |
| `UsdStageProvider.Provider.ReleaseStagesUsing` | src/usd_stage.cpp:423-444 | The loop over the snapshot: a cached stage that uses a changed layer leaves the cache if it is of the same database, and is released where it is if not; every other entry stays as it is |
| `UsdStageProvider.Provider.VerifyCanAccessLayers` | src/usd_stage.cpp:478-485 | The loop tells whether the database may read all layers that a stage uses |
| `UsdStageProvider.Provider.FindCachedStage` | src/usd_stage.cpp:501-527 | Serves the stage in its slot if and only if that is up to date and all its layers may be read, denies it if only the latter fails, and else misses, having released and removed what is out of date; a stage that is served is touched; the invariant stays |
| `UsdStageProvider.Provider.Finish` | src/usd_stage.cpp:589-617 | The new state once the stage is refused, or cached (or not) and handed out |
| `UsdStageProvider.Provider.OpenUncached` | src/usd_stage.cpp:577-617 | The new state after one or two attempts |
| `UsdStageProvider.Provider.OpenNew` | src/usd_stage.cpp:566-617 | The new state of an open that does not share a stage |
| `UsdStageProvider.Provider.Open` | src/usd_stage.cpp:557-618 | The whole method keeps the invariant, and shares the query's own stage, or is honest and ends as the state before it says |
| `UsdStageProvider.Provider.DropCachedStages` | src/usd_stage.cpp:620-628 | The database's slots are empty, all others unchanged |
| `UsdLayerStamps.LayerStamps.Changed` | src/usd_stage.cpp:138-156 | A layer in memory that the table has is changed if and only if the stamp differs from the recorded one, which stays; another is not, and is recorded; no other entry changes, and none of a layer in memory is lost; layers without a file are never changed |
| `UsdLayerStamps.LayerStamps.PruneInPlace` | src/usd_stage.cpp:165-170 | Exactly the entries of layers that are still in memory remain |
| `UsdLayerStamps.NextCheap` | src/usd_stage.cpp:145-169 | Each prune is paid for by the entries added since the last one |
| `UsdLayerStamps.PruningIsInvisibleAndCheap` | src/usd_stage.cpp:128-175 | On every sequence of loads, frees and questions: the answers are those of a table that is never pruned, the size never exceeds `prune_at`, and all prunes together visit at most two entries for each one added, and none before 1024 were |
| `UsdLayerStamps.AnswersAreRight` | src/usd_stage.cpp:136-156 | After every sequence of loads, frees and questions, a layer in memory is reported as changed if and only if that copy was asked about before and the first time its file had another stamp |
| `UsdScanProofs.NextHands` | src/usd_scan.cpp:55-99 | `Next` hands out the first of the remaining units, in order and with consecutive batch indices, skips files it may skip, and fails at the first file that makes the scan fail |
| `UsdScanProofs.AddPrimHolds` | src/usd_scan.cpp:324-342 | Adding a prim appends its rows; with times, every buffered row's recorded time is the one the producer was set to when it was made |
| `UsdScanProofs.Exhausted` | src/usd_scan.cpp:369-375 | When the loop moves on, the buffer has had all rows of the unit: for each time in order, the rows of all its prims |
| `UsdScanProofs.AdvanceHolds` | src/usd_scan.cpp:369-383 | Moving on starts the next unit with an empty buffer, and BeginStage is called whenever the stage differs |
| `UsdScanRuns.StepKeeps` | src/usd_scan.cpp:314-385 | Any step of any thread keeps the invariant of all threads: each batch belongs to one thread at most, and what was emitted of it is what that thread has emitted |
| `UsdScanTheorems.EveryMomentIsAPrefix` | src/usd_scan.cpp:343-367 | For every number of threads and every schedule, at every moment, the rows emitted for a batch are a prefix of the rows of its unit |
| `UsdScanTheorems.ChunkSizes` | src/usd_scan.cpp:344-366 | Every chunk has 1 to 2048 rows, and a shorter one completes its batch |
| `UsdScanTheorems.MorselSizes` | src/usd_scan.cpp:87-97 | A morsel has 1024 prims that follow each other in the one stage that it is of, or fewer at the end of its prims, and the next batch index (no prims for functions that produce rows per stage) |
| `UsdScanTheorems.StepLeavesLess` | src/usd_scan.cpp:322-384 | Every step decreases the units left, prims and passes left, rows buffered, threads running: every call and every run ends |
| `UsdScanTheorems.StoppedIsSequential` | src/usd_scan.cpp:387-393 | Once no thread runs: a thread failed if and only if some file makes the scan fail, and otherwise the chunks in batch order are the rows of the sequential walk |
| `UsdScanTheorems.EveryRunIsSequential` | src/usd_scan.cpp:314-393 | The same for every number of threads and every scheduler, run to the end |
| `UsdScanFailure.OpeningHolds` | src/usd_scan.cpp:58-77 | The numbers of the files that open are exactly those, in ascending order |
| `UsdScanFailure.SequentialWithoutOthers` | src/usd_scan.cpp:58-77 | The walk is that of the list without the files that do not open: they leave no trace |
| `UsdScanFailure.FailsExactlyWhen` | src/usd_scan.cpp:58-77 | For every number of threads and every scheduler: without ignore_errors the scan fails if and only if some file does not open, with it if and only if some file fails otherwise than with an IO error; else the assembled rows are those of the scan of just the files that open |
| `UsdScanWalk.SequentialIsWalk` | src/usd_scan.cpp:55-99 | Without times, cutting prims into morsels does not show: the sequential walk is files, then prims |
| `UsdScanWalk.PassOverUnits` | src/usd_scan.cpp:323-342 | With times, the rows of one pass, taken over all morsels, are those of a walk at its time |
| `UsdScanWalk.EachTimeIsAWalk` | src/usd_scan.cpp:330-352 | With times (each given once), the rows that the scan returns with one of them in their time column are those of a walk at that time |
| `UsdScanWalk.KeepSequential` | src/usd_scan.cpp:314-385 | A scan whose producer leaves out some of each prim's rows walks to the rows of the other scan without those |
| `UsdScan.GlobalState.Next` | src/usd_scan.cpp:55-99 | The loop computes the function that those results are about, is an error exactly at a file with an IO error that is not ignored or with another error, and passes over no such file |
| `UsdScan.RowProducer.BeginStage` | src/include/usd_scan.hpp:120-138 | May only be called with an empty buffer, which the scan's calls meet |
| `UsdScan.LocalState.AddNext` | src/usd_scan.cpp:326-341 | One turn of the filling loop |
| `UsdScan.LocalState.MoveOn` | src/usd_scan.cpp:369-383 | The producer is cleared before it is told of another stage |
| `UsdScan.LocalState.EmitNext` | src/usd_scan.cpp:343-366 | The chunk has the next rows of the buffer, each with its own time |
| `UsdScan.LocalState.Scan` | src/usd_scan.cpp:314-385 | A call of the scan function is a sequence of the steps that the threads interleave, and ends |
| `UsdPushdown.TrueIffAccepted` | src/usd_scan.cpp:414-470 | On a row of a property, a collected filter is TRUE (not FALSE, not NULL) if and only if the property's name is among the names it accepts, whatever the other columns and expressions are |
| `UsdPushdown.AddConstant` | src/usd_scan.cpp:415-428 | A VARCHAR constant adds its text, NULL adds nothing, other constants are rejected |
| `UsdPushdown.CollectPropertyNames` | src/usd_scan.cpp:414-470 | Succeeds exactly on filters that only compare the column with constants, and then adds exactly the names they accept; on failure it only ever appended |
| `UsdPushdown.ScanOptions.PushOne` | src/usd_scan.cpp:482-502 | The names become those accepted so far and by this filter, ascending and unique; a failed collection changes nothing |
| `UsdPushdown.ScanOptions.PushdownComplexFilter` | src/usd_scan.cpp:477-503 | A name is selected afterwards if and only if it was before and every collected filter accepts it |
| `UsdPushdown.PushedConcat` | src/usd_scan.cpp:482-502 | Two calls push what one call with all the filters would |
| `UsdPushdown.OrderDoesNotMatter` | src/include/usd_scan.hpp:84-94 | After the same filters, in any order and number, the options of two scans are equal if and only if their other options are |
| `UsdPushdown.EqualExactlyWhen` | src/include/usd_scan.hpp:84-94 | Two options objects compare equal if and only if both or neither filter names, the selected names are the same, and the rest is |
| `UsdPushdown.NameFilterIsPushed` | src/usd_scan.cpp:414-470 | `name = 'a'` in either order, `name IN (...)`, and any nesting of OR over them end up in the options: exactly the names that pass the filter are selected |
| `UsdProperties.PropertySelection.constructor` | src/usd_scan.cpp:520-528 | Has the selected names that are valid property names, in USD's order |
| `UsdProperties.PropertySelection.Get` | src/usd_scan.cpp:530-544 | One lookup per name gives exactly the prim's properties with selected names, in the prim's order, each once |
| `UsdPropertiesRows.PropertiesProducer.AddPrim` | src/functions/usd_properties.cpp:44-67 | Appends rows in name order: exactly one for each property of the prim with a selected name (and an authored one, if only those are asked for), with its own kind, and its value at the time if values are fetched |
| `UsdPropertiesRows.SameCells` | src/functions/usd_properties.cpp:37 | No projected column depends on values that were not fetched |
| `UsdPropertiesRows.CellsSay` | src/functions/usd_properties.cpp:69-125 | Each column of a property's row in terms of the property: its kind, type, flags, variability and time samples; the length of an array whatever its size, and its value unless the array is longer than the limit, also when other columns are not read |
| `UsdPushdownTheorems.ScanIsFiltered` | src/usd_scan.cpp:473-476 | The pruned scan walks to exactly the rows of the full scan on which all collected filters are TRUE, so other filters never see another property's row |
| `UsdPushdownTheorems.ReboundAccepts` | src/usd_scan.cpp:401-410 | Which names a filter accepts, if any, does not depend on the list of columns that it is bound to |
| `UsdPushdownTheorems.PushdownKeepsTheWalk` | src/usd_scan.cpp:477-503 | After any number of pushdown calls, each bound to columns of its own, the plan's filters leave the same sequence of rows on the pruned scan as on one that reads everything |
| `UsdPushdownTheorems.PushdownKeepsTheResult` | src/usd_scan.cpp:314-503 | The same for the parallel scan: for every number of threads and every scheduler, the plan's filters leave of the assembled chunks what they leave of the walk that reads everything, or the scan fails if that would |
| `UsdJsonProofs.EscapedReads` | src/usd_json.cpp:70-98 | Unescaping (RFC 8259, section 7) undoes the escaping of any byte string, and stops at the closing quote whatever follows |
| `UsdJsonProofs.EscapedIsBody` | src/usd_json.cpp:70-97 | The escaped body is a sequence of characters of RFC 8259, section 7: bytes from 0x20 on but quotes and backslashes, and complete escapes |
| `UsdJsonProofs.MakeValidHolds` | src/usd_json.cpp:63-67 | Replacing invalid bytes gives valid UTF-8, and changes a string if and only if it was not valid |
| `UsdJsonProofs.MakeValidAt` | src/usd_json.cpp:63-67 | Byte by byte: one that belongs to a well-formed sequence stays, any other becomes '?' |
| `UsdJsonProofs.EscapeValid` | src/usd_json.cpp:70-98 | Escaping valid UTF-8 gives valid UTF-8 |
| `UsdJsonProofs.IntTextDenotes` | src/usd_json.cpp:166-167 | The text of an integer is a JSON number that denotes it |
| `UsdJsonProofs.NumberReads` | src/usd_json.cpp:50-56 | A number's text reads back, and nothing more is consumed, if and only if no part of what follows makes a longer number of it |
| `UsdJsonProofs.NumbersRunTogether` | src/usd_json.cpp:50-56 | A digit after a number is read as part of it, a minus is not |
| `UsdJsonProofs.PrintedReads` | src/usd_json.cpp:146-236 | Wherever a value is printed (as a whole text, or before a comma or a closing bracket) it reads back |
| `UsdJsonProofs.SequenceReads` | src/usd_json.cpp:147-156 | Arrays and lists read back as the list of their elements, whatever follows |
| `UsdJsonProofs.DictionaryReads` | src/usd_json.cpp:178-191 | Dictionaries read back as their entries in order, whatever follows |
| `UsdJsonProofs.RoundTrip` | src/usd_json.cpp:101-236 | For every nested value and every text that follows, a reader for RFC 8259 consumes exactly the printed text and returns the normalized value (non-finite numbers as null, invalid bytes as '?', vectors and matrices as lists, quaternions and ranges as two-field objects), if and only if the value is not a number that the rest makes a longer number of |
| `UsdJson.TextValid` | src/usd_json.cpp:58-99 | Whatever bytes a value holds, its text is valid UTF-8 |
| `UsdJson.Writer.AppendString` | src/usd_json.cpp:59-99 | The byte loop appends the literal of the string with invalid bytes replaced |
| `UsdJson.Writer.AppendSequence` | src/usd_json.cpp:146-156 | The loop appends the text that is proved to read back |
| `UsdJson.Writer.AppendDictionary` | src/usd_json.cpp:178-191 | The loop with its `first` flag appends that text |
| `UsdJson.Writer.Append` | src/usd_json.cpp:158-236 | Every kind of value appends exactly its text to the buffer |
| `UsdCompositionArcs.FindRoots` | src/functions/usd_composition_arcs.cpp:137-143 | The loop ends with the roots of the longest common end of the two paths, or with the paths themselves if they are the same |
| `UsdCompositionArcs.LongestCommonEnd` | src/functions/usd_composition_arcs.cpp:137-143 | Any other common end is shorter: its roots are below those found, by the same names |
| `UsdCompositionArcs.SwapHolds` | src/functions/usd_composition_arcs.cpp:144-147 | Swapping the roots takes the index path to the proxy's path, and any path below the source root to the same place below the proxy's root; others stay, and all do if the paths are the same |
| `UsdCompositionArcs.InstancePathsSwap` | src/functions/usd_composition_arcs.cpp:125-147 | Every path under the source instance is mapped to the same place under the proxy's own instance; a path outside of it stays if and only if it is not below the root found |
| `UsdCompositionArcs.OutsidePathsSwap` | src/functions/usd_composition_arcs.cpp:125-147 | Two instances of one name for which a path beside the source instance is moved |
| `UsdCompositionArcs.RowsAreUnique` | src/functions/usd_composition_arcs.cpp:116-148 | A prim's rows are determined by its arcs and paths alone, not by what was added or memoized before |
| `UsdCompositionArcs.CompositionArcsProducer.AddPrim` | src/functions/usd_composition_arcs.cpp:116-148 | Every buffered row keeps denoting its arc; the new rows are one for each of the prim's own arcs, in order and numbered, and a proxy's introducing paths are mapped: what is at or below the root of any common end of the index path and the proxy's path is at the same place below the other root, other paths stay, as do all of a prim that is no proxy |
| `UsdCompositionArcs.CompositionArcsProducer.BeginStage` | src/functions/usd_composition_arcs.cpp:112-114 | Forgets the previous stage's memo; no row may be buffered |
| `UsdCompositionArcs.CompositionArcsProducer.Clear` | src/functions/usd_composition_arcs.cpp:150-153 | No row is left, and the memo stays valid |
| `UsdFileAccess.FileAccess.Check` | src/usd_file_access.cpp:84-95 | Allows what the settings allow, records the first path it refuses |
| `UsdFileAccess.ResolveAsset` | src/usd_file_access.cpp:44-59 | The result is the first of the places looked at that exists, if its file may be read and the path is not an absolute one that may not; without settings it is that of the default resolver |
| `UsdFileAccess.OpenResolved` | src/usd_file_access.cpp:61-67 | A file that may be read opens with its contents and leaves the record alone; a refused one opens as missing and is recorded |
| `UsdFileAccess.ResolveIsRight` | src/usd_file_access.cpp:44-59 | What a path resolves to, and that the record changes exactly if a file that may not be read was checked: the path's own file if it is absolute, else the first that exists |
| `UsdFileAccess.HidesIffGuarded` | src/usd_file_access.cpp:44-59 | Resolving a path is independent of files that may not be read (result and record) if and only if the path is refused without a look or all files looked at may be read |
| `UsdFileAccess.RelativePathTells` | src/usd_file_access.cpp:54-58 | Two file systems that agree on the allowed files, on which resolving a relative path gives different paths and records |
| `UsdFileAccess.OpenStage` | src/usd_stage.cpp:455-474 | If any request of the composition checked a file that may not be read, the outcome is a permission error about the first such path; otherwise it is the composed stage if and only if there is one, and an IO error if and only if there is none |
| `UsdFileAccess.EveryRequestIsAnswered` | src/usd_file_access.cpp:44-67 | Each request of a composition gets the answer that its path and the permissions call for, one after the other |
| `UsdFileAccess.RecordIsRight` | src/usd_file_access.cpp:84-104 | After any number of requests, the record says whether a file was refused, and has the first path that was |
| `UsdFileAccess.RefusedFilesAreHidden` | src/usd_file_access.cpp:44-67 | For every composition (any strategy that depends on the answers so far) and any number of requests that are guarded, two file systems that agree on the allowed files give the same answers, the same stage, or the same error about the same path |
| `UsdFileAccess.AbsolutePathsAreHidden` | src/usd_file_access.cpp:49-53 | So does every composition that resolves only absolute paths, if whoever may read a file may read it under the path that it resolves to |
| `UsdFileAccess.AnswersAreAllowed` | src/usd_file_access.cpp:61-67 | No answer has a path or contents of a file that may not be read |
| `UsdFileAccess.RefusalIsSticky` | src/usd_file_access.cpp:89-104 | A refusal, and the path it is reported with, do not change with later requests |

## Left out

- OpenUSD's composition rules, prim ranges, value interpolation, transforms, bounds and materials are arbitrary functions.
- Contents of files: a version of a file is its modification time and size, so equal stamps mean equal contents. An asset
  that does not resolve has the stamp of a missing file, and one resolves exactly when its file exists.
- UsdStageProvider.Provider.Open: one open is one step. No lock spans dropping stages, caching and adding to the registry, so
  opens that overlap can go over the budget; a file that changes between being read and being checked is not modelled.
- UsdStageProvider.Provider.Open: does not model logged texts, option validation, and files read after the open (value clips).
- UsdStageProvider.Provider.OpenUncached: files that are refused while USD composes a stage are modelled in `UsdFileAccess`,
  not here; here a database refuses a stage for the layers that it uses.
- UsdStageProvider.Provider.FindCachedStage: a cached stage to which a value clip was refused meanwhile is not modelled.
- UsdStageProvider.Provider.FindCachedStage: weak pointers are identities that are looked up, handles are values with an
  identity; reference counts are the question whether anything still holds the handle.
- UsdLayerStamps.PruningIsInvisibleAndCheap: the table that is pruned is modelled beside the state machine, which uses one
  that is not.
- UsdStageRuns.OpenWithinBudget: sums are unbounded integers, the source's are 64-bit.
- UsdScan.LocalState.Scan: does not model the filename column, virtual columns, progress, or value clips refused during the
  scan; a thread whose file fails stops, as DuckDB ends the query.
- UsdScan.LocalState.EmitNext: the filename column has the same value in all rows of a chunk, virtual columns are NULL; both
  are left to the functions that give the rows.
- UsdScan.GlobalState.Next: the list of files, which binding checks and expands, and the prims of a stage are given.
- UsdPushdown.TrueIffAccepted: comparisons have DuckDB's default collation (a collation would not leave a plain column
  reference), and the names of properties are valid UTF-8.
- UsdPushdownTheorems.PushdownKeepsTheResult: the pushed filters stay in the plan (bound to its columns).
- UsdProperties.PropertySelection.Get: USD's name order and validity test are parameters (any total order).
- UsdJson.Writer.AppendNumber: what a finite floating-point number prints as is any text that is a JSON number.
- UsdJson.Writer.AppendString: which bytes count as invalid follows RFC 3629; how many '?' the UTF-8 library, which is not
  part of this model, writes for one invalid sequence may differ.
- UsdJson.Writer.Append: how a value of another type is stringified is given as its text.
- UsdCompositionArcs.CompositionArcsProducer.AddPrim: that all prims with one prim index have the same arcs is an assumption;
  a pointer into a list is the list's place and an index, so it cannot dangle when the containers grow.
- UsdFileAccess.RefusedFilesAreHidden: requests come one after the other; with several threads, which refused path is first
  depends on their order.
- UsdFileAccess.FileAccess.Check: an empty path that is refused first is replaced by the next refused path in the record, as
  in the source.
- The other usd_* functions, option parsing, extension loading and the build: column plumbing over library calls.
