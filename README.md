# Usage-log ingestion: loader and data manager

A Dafny model of the ingestion core of claudecat, a monitor for Claude API usage. The core reads JSON-lines usage logs, caches one summary per file and deduplicates events across files. It then keeps a near-real-time analysis current.

The model has four files:

- `wrappers.dfy` (module `Wrappers`): the `Option` and `Result` types.
- `entries.dfy` (module `Entries`):
  - usage entries and already-decoded log lines;
  - the `messageID:requestID` deduplication key;
  - the timestamp order that the merged entry list is sorted into.
- `usage_loader.dfy` (module `UsageLoader`), the package `fileio`:
  - the line loop of `processSingleFileWithDedup`. It is a `method` with a `while` loop over the lines. The shared deduplication set is a `DedupSet` object that the loop grows in place. The method is proved against the specification function `ScanLines`, which the `Scan*` lemmas are about;
  - the cache decision of `processSingleFileWithCacheAndDedup`. The summary store is a `SummaryStore` object whose map and invalidation log the method updates. The method is proved against the function `FileOutcome`;
  - the sequential branch of `LoadUsageEntries`. It is a loop that folds per-file results into a `Tally` of accumulators, then sorts and writes the summaries back. It is proved against folds over the per-file results (`MergedEntries`, `Hits`, `Misses`, `Reasons`, `Summaries`, `ErrorLines`).
- `data_manager.dfy` (module `Orchestrator`), the package `orchestrator`:
  - the `DataManager` class. Its fields are the cache, the cache timestamp, the last error, the last-fetch time, the initial-load flag, the file-tracker map and the cache-updater flags;
  - the methods `GetData`, `performInitialLoad`, the watch-mode retry loop, `processUsageData` with its in-place limit assignment over an `array`, `updateSessionWindowFiles`, `countActiveWindowFiles`, `updateSessionWindowCaches`, `updateFileCache`, `InvalidateCache`/`GetCacheAge`, and `startCacheUpdater`/`stopCacheUpdater`.

Conventions:

- Times are integer milliseconds. Go's zero `time.Time` is `None`.
- A call's environment is a value:
  - `Environment.now` is the clock;
  - `Environment.load(k, request)` is the loader. It answers call `k` of one `GetData`;
  - `changes` is the file-change check;
  - `scan` is the file discovery;
  - `analyzer` is the session analyzer.
- File-system facts are values:
  - `DiskFile.stat` is os.Stat;
  - `DiskFile.read` is the opened file's decoded lines with the scanner's error text, if any, or an open failure with its error text;
  - `DiskFile.hasAssistantMessages` is the cheap pre-scan.
- Most functions whose code is not in the model are function-valued fields of `UsageLoader.Collaborators` and `Orchestrator.Analyzer`: NormalizeModel, extractProjectFromPath, filepath.Abs, createEntriesFromSummary, TransformToBlocks and DetectLimits. Two more, createEmptySummaryForFile and createSummaryFromEntries, are given assumed bodies instead; see Left out.
- Where the design description and the code differ, the model follows the code:
  - the watch-mode load passes the summary store like the initial load (orchestrator/data_manager.go:306-309), so it can write summaries;
  - the session window is open at both ends: after the block start and before its end plus 30 minutes (orchestrator/data_manager.go:480). The description gives a closed interval;
  - a file that cannot be stat'ed while a store is set is parsed without the deduplication set (fileio/usage_loader.go:298, via processSingleFile);
  - with a store, deduplication covers only parsed files. Entries rebuilt from a valid summary (fileio/usage_loader.go:303-313) never enter the set, and neither do the entries of a file that cannot be stat'ed. So a key repeated across files can survive twice, where the description promises one survivor and the same result on the sequential and the concurrent path. `UsageLoader.CachedEntriesBypassDedup` exhibits this, and `UsageLoader.MergeDeduplicates` is stated for loads without a store;
  - a scanner error discards the file's entries, but the keys its loop added stay in the set (fileio/usage_loader.go:430 and 458-460). A later file repeating such an entry then loses its copy too, and no copy of the key survives. `UsageLoader.ScanErrorDropsLaterCopy` exhibits this, and `UsageLoader.MergeKeepsFirstCopies` is stated for loads without scanner errors;
  - the retry loop does not check for cancellation between attempts.

  The one exception is the miss reason of a stale, invalidated summary. The operations report the intended `modified_file`, while the code reports `new_file`; see Findings and Left out.

## Model

| member | source | states |
|---|---|---|
| Entries.DedupKey | fileio/usage_loader.go:423 | the key is messageID, then ':', then requestID: its length, its prefix, the ':' and its suffix |
| Entries.DedupKeyCollides | fileio/usage_loader.go:422-423 | two different id pairs can share a key when an id contains ':' ("m:x"/"r" and "m"/"x:r") |
| Entries.InsertSorted | fileio/usage_loader.go:193-196 | inserting into a timestamp-sorted list keeps it sorted |
| Entries.InsertPermutes | fileio/usage_loader.go:193-196 | inserting adds exactly the one entry to the multiset |
| Entries.SortedCons | fileio/usage_loader.go:193-196 | an entry no later than the head of a sorted list can be put in front of it |
| Entries.SortByTimestamp | fileio/usage_loader.go:193-196 | the result is sorted non-decreasing by timestamp and is a permutation of the input |
| UsageLoader.EmptySummaryForFile | fileio/usage_loader.go:329-333 | the empty summary is for the absolute path, has no entries, is flagged as having no assistant messages, and is not expired for the file's stat |
| UsageLoader.SummaryFromEntries | fileio/usage_loader.go:353-358 | the summary holds the parsed entries for the absolute path and is not expired for the file's stat |
| UsageLoader.Finish | fileio/usage_loader.go:448-452 | an emitted entry keeps its timestamp, ids and all four token counts; its model is the normalised model and its project comes from the path |
| UsageLoader.ScanRespectsCutoff | fileio/usage_loader.go:416-419 | no emitted entry is older than the cutoff |
| UsageLoader.ScanDeduplicates | fileio/usage_loader.go:421-431 | with a set, the set only grows and grows by exactly the emitted keys; no emitted key was in the set before; no two emitted entries share a key; without a set nothing changes |
| UsageLoader.ScanKeepsRaws | fileio/usage_loader.go:405-408 | raw records are every decoded line's record, in order, whether or not it carries usage, and only when requested |
| UsageLoader.ScanSkipsUnparsed | fileio/usage_loader.go:392-403 | blank and undecodable lines have no effect: the loop over the decodable lines alone ends in the same state |
| UsageLoader.ScanEmits | fileio/usage_loader.go:410-455 | without a set the loop emits every candidate: each usage entry not before the cutoff, finished, in line order. With a set it emits the candidates whose key is neither in the set nor on an earlier candidate, and the set gains every candidate's key |
| UsageLoader.DedupFilterConcat | fileio/usage_loader.go:421-431 | filtering a concatenation filters the second part against the set grown by every key of the first |
| UsageLoader.DedupFilterKeys | fileio/usage_loader.go:421-431 | the filter keeps every key it meets that was not in the set before |
| UsageLoader.DedupFilterDistinct | fileio/usage_loader.go:421-431 | the filter never keeps two entries with one key |
| UsageLoader.DedupFilterKeepsUnkeyed | fileio/usage_loader.go:422 | first-occurrence filtering never drops an entry without both ids |
| UsageLoader.UnkeyedConcat | fileio/usage_loader.go:422 | the unkeyed entries of a concatenation are those of its parts, in order |
| UsageLoader.ScanUnkeyedBypassesDedup | fileio/usage_loader.go:422 | entry by entry, the unkeyed entries of any run equal those of a run without a set |
| UsageLoader.ErrorText | fileio/usage_loader.go:372-375 | an open error reads "failed to open file: " and then the wrapped error's text; a scanner error (line 459) "error reading file: " and then its text |
| UsageLoader.ParseFile | fileio/usage_loader.go:372-460 | a file fails iff its open fails or its scanner errs, and the error carries that failure's text; an open failure leaves the set unchanged; a scanner error returns only the error |
| UsageLoader.ProcessSingleFileWithDedup | fileio/usage_loader.go:371-468 | the loop returns exactly ParseFile's result and leaves the set exactly as ParseFile says |
| UsageLoader.SummaryStore.GetFileSummary | fileio/usage_loader.go:36-41 | a lookup finds a summary iff the store holds one for the path |
| UsageLoader.SummaryStore.InvalidateFileSummary | fileio/usage_loader.go:318-320 | every call is logged; the summary is removed iff the store is writable |
| UsageLoader.SummaryStore.SetFileSummary | fileio/usage_loader.go:210-214 | a writable store maps the summary's path to it; otherwise nothing changes |
| UsageLoader.SummaryStore.BatchSet | fileio/usage_loader.go:200-204 | a writable store applies the writes in order; otherwise nothing changes |
| UsageLoader.StoreAllKeys | fileio/usage_loader.go:198-216 | after a write-back the store holds the old paths plus every written path |
| UsageLoader.StoreAllKeepsLastWrite | fileio/usage_loader.go:198-216 | a written path holds the last summary written for it |
| UsageLoader.StoreAllKeepsOthers | fileio/usage_loader.go:198-216 | a path that is never written keeps its old summary |
| UsageLoader.WriteBackSummaries | fileio/usage_loader.go:198-216 | batch and one-by-one write-back leave the same map; failures change nothing; no invalidation is logged |
| UsageLoader.ClassifyMissAsWritten | fileio/usage_loader.go:337-345 | the reason as coded: "other" iff there is no store; "modified_file" iff a store is set and the second lookup finds a summary; "new_file" iff a store is set and it finds none |
| UsageLoader.ClassifyMiss | fileio/usage_loader.go:314-345 | the intended reason: "other" iff no store, "modified_file" iff a summary existed, "new_file" iff none existed |
| UsageLoader.InvalidatedFileReadsAsNew | fileio/usage_loader.go:314-345 | for a parsed miss, FileOutcome's reason is the intended one. The coded rule, applied to the store's map after the invalidation, differs from it iff a writable store held the stale summary; then it gives "new_file" and the model "modified_file" |
| UsageLoader.FileOutcomeContract | fileio/usage_loader.go:283-362 | the file's result:<br>• a hit iff the store holds an unexpired summary; a hit has no reason, no summary, no raws, and either empty entries or the rebuilt ones<br>• every miss has a reason: "other" without a store, "new_file" when stat fails or when there is no summary, and "modified_file" iff a stale summary existed for a file with assistant messages<br>• "no_assistant_messages" iff the pre-scan finds none; that result is empty with the empty summary<br>• an error yields no entries, no raws and no summary<br>• a new summary needs a store, a stat, a successful parse and an entry<br>• the set only grows |
| UsageLoader.ProcessSingleFileWithCacheAndDedup | fileio/usage_loader.go:283-362 | returns FileOutcome's result and leaves its set. The store is invalidated exactly once, for the absolute path, iff it held an expired summary for a file that can be stat'ed. A failed invalidation leaves the map as it is |
| UsageLoader.CutoffFor | fileio/usage_loader.go:148-152 | a cutoff exists iff HoursBack is given, and lies HoursBack hours before now |
| UsageLoader.CountsPartition | fileio/usage_loader.go:160-175 | every file is exactly one of hit, miss or error; there is one error string per failed file |
| UsageLoader.BumpTotal | fileio/usage_loader.go:172-174 | counting a reason raises the histogram total by one, except for the empty reason |
| UsageLoader.ReasonsCountMisses | fileio/usage_loader.go:168-175 | the reason histogram never exceeds the misses, and equals them when every miss carries a reason |
| UsageLoader.ProcessedMissesHaveReasons | fileio/usage_loader.go:337-345 | in a load, every result that is not a hit carries a reason |
| UsageLoader.FoldsAppend | fileio/usage_loader.go:159-189 | one more result extends every accumulator by that result's share: nothing but its error string for a failed file |
| UsageLoader.ProcessedPrefix | fileio/usage_loader.go:154-190 | a prefix of a load is itself a load of the prefix |
| UsageLoader.ProcessedAppend | fileio/usage_loader.go:154-190 | processing one more file with the current set extends the load |
| UsageLoader.UnstoredFileDeduplicates | fileio/usage_loader.go:421-431 | with deduplication on and no store, a file's entries have distinct keys, none of them seen before, and all of them seen afterwards |
| UsageLoader.DistinctConcat | fileio/usage_loader.go:181 | appending distinct unseen keys to distinct seen ones keeps all keys distinct |
| UsageLoader.MergeDeduplicates | fileio/usage_loader.go:154-190 | with deduplication on and no store, no two merged entries of a load share a key, and the set holds every merged key |
| UsageLoader.MergeKeepsFirstCopies | fileio/usage_loader.go:154-190 | with deduplication on, no store and no scanner error, the merged entries are the first-occurrence filter of all the files' candidates in file and line order, and the set ends holding every candidate's key |
| UsageLoader.MergeKeepsEveryKey | fileio/usage_loader.go:154-190 | under the same conditions every candidate key survives in exactly one merged entry |
| UsageLoader.ScanErrorDropsLaterCopy | fileio/usage_loader.go:421-460 | a file whose scanner errs after an entry, then a file repeating it: two candidates, but no merged entry |
| UsageLoader.AddFileResult | fileio/usage_loader.go:159-189 | one loop iteration adds the file's share to each accumulator |
| UsageLoader.StoreFollowsAppend | fileio/usage_loader.go:154-190 | one more file extends the store's history (lookup in the current map, then the map less an invalidated path) and appends to the invalidation log |
| UsageLoader.ReadOnlyStoreKeepsMaps | fileio/usage_loader.go:318-320 | with a store whose invalidations fail, the map is the same after every file |
| UsageLoader.CachedEntriesBypassDedup | fileio/usage_loader.go:303-313 | with a store and deduplication, a hit rebuilding an entry and a later parsed file with the same entry give two merged entries with one key |
| UsageLoader.ProcessTrackedFile | fileio/usage_loader.go:159 | one file's call: its result and set are FileOutcome's for the lookup it made in the current map, and the map and invalidation log move on by that file's step |
| UsageLoader.NextFileHistory | fileio/usage_loader.go:154-190 | a load's per-file, store and invalidation histories extend by the next file |
| UsageLoader.ProcessNextFile | fileio/usage_loader.go:154-190 | one iteration extends the load by the next file, processed with the current store and set. The file's lookup is in the store's current map, and the map and invalidation log move on as that file dictates |
| UsageLoader.ProcessFilesSequentially | fileio/usage_loader.go:154-190 | the loop processes every file in order with one shared set; the accumulators are the folds over the results. Each file is looked up in the map the earlier files left; the final map and the invalidation log follow from that history, starting at the old map; the store keeps its configuration |
| UsageLoader.LoadUsageEntries | fileio/usage_loader.go:73-274 | see below |
| Orchestrator.IsLimitInBlockTimerange | orchestrator/data_manager.go:437-441 | a limit is in a block iff startTime ≤ timestamp ≤ endTime |
| Orchestrator.LimitsInBlockExact | orchestrator/data_manager.go:353-357 | a block's limits are exactly the in-range detections |
| Orchestrator.LimitsInBlockConcat | orchestrator/data_manager.go:353-357 | the selection distributes over concatenation, so detection order is kept |
| Orchestrator.WithLimitsExact | orchestrator/data_manager.go:351-361 | attaching limits keeps the block's times and flag. A block with an in-range detection gets exactly those; one with none is unchanged |
| Orchestrator.CollectBlockLimits | orchestrator/data_manager.go:353-357 | the inner loop collects exactly the block's in-range detections, in detection order |
| Orchestrator.AssignLimits | orchestrator/data_manager.go:351-361 | after the nested loop every array cell is its old block with its in-range detections attached |
| Orchestrator.Analyze | orchestrator/data_manager.go:321-387 | the analysis fails iff the load has no entries, and then with "no usage entries"; a success counts the entries |
| Orchestrator.AnalyzeEffect | orchestrator/data_manager.go:331-380 | a success has one block per analyzer block, each keeping its times and flag. With raw records, a block with in-range detections carries exactly those and any other block is unchanged, and the metadata counts the detections. Without raw records the analyzer's blocks come back unchanged and no limit is counted. The metadata also counts the blocks and carries now and the hours analysed |
| Orchestrator.ActiveBlocksExact | orchestrator/data_manager.go:449-454 | the active blocks are exactly those flagged active or ended less than five hours ago |
| Orchestrator.InActiveWindowIff | orchestrator/data_manager.go:449-480 | a time is in the session window iff some active block has start < time < end + 30 min |
| Orchestrator.LastMarkedModTimeExact | orchestrator/data_manager.go:471-494 | there is a time for a path iff some discovered file at it is in the window, and it is the modification time of the last such file |
| Orchestrator.MarkFilesEffect | orchestrator/data_manager.go:471-494 | marking keeps every tracker and adds exactly the marked paths. It sets a flag only for a marked path, which gets the modification time of the last file marking it (lines 483 and 487). An unmarked tracker is left as it was, and the last refresh time is kept |
| Orchestrator.WindowUpdateEffect | orchestrator/data_manager.go:444-494 | see below |
| Orchestrator.FailedDiscoveryEmptiesWindow | orchestrator/data_manager.go:465-469 | when discovery fails no file is in the window |
| Orchestrator.InitialLoadCalls | orchestrator/data_manager.go:204-270 | the initial load makes one or two loads, all with the same options; two iff a store is set and the probe does not answer |
| Orchestrator.InitialLoadOutcome | orchestrator/data_manager.go:200-292 | an answering probe yields a success; every success has entries. Otherwise the result is a success iff the full load succeeds with entries; a failed full load gives its error, and an empty one "no usage entries" |
| Orchestrator.CheckFailureCountsAsChange | orchestrator/data_manager.go:223-227 | an error from the change check leads to the same loads and outcome as a reported change |
| Orchestrator.Pow2Add | orchestrator/data_manager.go:131-135 | the shift factor of a + b is the product of those of a and b |
| Orchestrator.BackoffSchedule | orchestrator/data_manager.go:131-135 | the sleeps of a refresh are a prefix of 100ms, 200ms |
| Orchestrator.SelectActiveBlocks | orchestrator/data_manager.go:446-454 | the loop returns exactly the active blocks, in order |
| Orchestrator.DataManager.constructor | orchestrator/data_manager.go:59-65 | a new manager has no cache, no error, no trackers and no updater, with the initial load pending |
| Orchestrator.DataManager.SetCacheStore | orchestrator/data_manager.go:68-73 | sets only the store |
| Orchestrator.DataManager.SetDeduplication | orchestrator/data_manager.go:83-87 | sets only the deduplication flag |
| Orchestrator.DataManager.GetCacheAge | orchestrator/data_manager.go:173-183 | the age is -1 iff there is no cache timestamp, and otherwise is now minus the timestamp |
| Orchestrator.DataManager.InvalidateCache | orchestrator/data_manager.go:165-171 | clears the cache and its timestamp, after which the cache age is -1 at any time; nothing else changes |
| Orchestrator.DataManager.ResetTrackerFlags | orchestrator/data_manager.go:459-462 | every tracker's flag becomes false, the rest unchanged |
| Orchestrator.DataManager.MarkDiscoveredFile | orchestrator/data_manager.go:471-493 | one discovered file is marked, updated or added, exactly as MarkFile says |
| Orchestrator.DataManager.UpdateSessionWindowFiles | orchestrator/data_manager.go:444-497 | the tracker map becomes WindowUpdate of the old map; the fetch state, settings and updater are unchanged |
| Orchestrator.DataManager.CountActiveWindowFiles | orchestrator/data_manager.go:499-508 | the count is the number of trackers in the window |
| Orchestrator.DataManager.SelectStaleWindowFiles | orchestrator/data_manager.go:551-558 | selects exactly the in-window trackers never refreshed or refreshed more than a minute ago, each once |
| Orchestrator.DataManager.UpdateFileCache | orchestrator/data_manager.go:575-607 | a missing file and a failed load are errors that change nothing. Otherwise the tracker, if one exists, is stamped with now and the new modification time |
| Orchestrator.DataManager.UpdateSessionWindowCaches | orchestrator/data_manager.go:548-573 | exactly the selected trackers whose refresh succeeds are stamped, and they are then no longer due; no tracker is added or removed |
| Orchestrator.DataManager.StartCacheUpdater | orchestrator/data_manager.go:510-534 | a start while the ticker is set does nothing; otherwise ticker and stop channel are set and one updater is started |
| Orchestrator.DataManager.StopCacheUpdater | orchestrator/data_manager.go:536-546 | a set ticker is stopped and its channel closed once; stopping a stopped updater does nothing |
| Orchestrator.DataManager.Commit | orchestrator/data_manager.go:151-157 | as at lines 236-243 and 281-288, a success publishes the analysis, sets both timestamps to now, clears the last error and completes the initial load, keeping the invariant |
| Orchestrator.DataManager.ProcessUsageData | orchestrator/data_manager.go:320-387 | returns Analyze's result; a success updates the session window with its blocks; a failure changes nothing |
| Orchestrator.DataManager.AnalyzeUsageWatchMode | orchestrator/data_manager.go:294-318 | one watch load: a load error or the analysis result, with the window updated on success |
| Orchestrator.DataManager.PerformInitialLoad | orchestrator/data_manager.go:199-292 | makes InitialLoadCalls' loads and returns InitialLoadOutcome. A failure changes nothing and leaves the initial load pending; a success commits and updates the window |
| Orchestrator.DataManager.RefreshWithRetries | orchestrator/data_manager.go:120-162 | see below |
| Orchestrator.DataManager.GetData | orchestrator/data_manager.go:99-163 | see below |

The rows marked "see below" state the following.

`UsageLoader.LoadUsageEntries` (fileio/usage_loader.go:73-274):
- a failed discovery is an error that changes nothing;
- otherwise the entries are sorted by timestamp and are a permutation of the per-file entries in file order;
- raw records are kept only when requested;
- FilesProcessed is the file count and EntriesLoaded the entry count;
- there is one error string per failed file;
- hits + misses + errors equals the file count;
- the reasons sum to the misses;
- each file was looked up in the store's map as the earlier files left it, starting from the old map;
- the invalidation log grows by the invalidated paths, in file order;
- a writable store ends with that map and the collected summaries written in order; a read-only store keeps its map.

`Orchestrator.WindowUpdateEffect` (orchestrator/data_manager.go:444-494):
- no tracker is removed and every last refresh time is kept;
- after a failed discovery every flag is false;
- otherwise a tracker is flagged iff a discovered file at its path has a modification time in an active window, and new trackers are exactly those paths;
- a flagged tracker has the modification time of the last such file;
- any other tracker keeps its modification time.

`Orchestrator.DataManager.RefreshWithRetries` (orchestrator/data_manager.go:120-162):
- it makes 1 to 3 identical loads, and all but the last fail;
- it sleeps Backoff(k) after each failure but the last;
- the first success is committed and returned;
- after 3 failures, lastError is the last failure and the other fetch fields are kept;
- in that case it returns the cache with no error if there is one, and otherwise "failed after 3 attempts" with no result.

`Orchestrator.DataManager.GetData` (orchestrator/data_manager.go:99-163):
- while the initial load is pending it performs it, whatever forceRefresh says;
- afterwards GetData(false) returns the current cache and loads nothing;
- GetData(true) behaves as RefreshWithRetries.

## Left out

- Concurrency: the RWMutex locks, the file-tracker mutex, the ticker goroutine, `ctx.Done()` and the channel select. Each method's single-threaded effect is modelled, and the goroutine is counted in `updatersStarted`. The goroutine's periodic calls to `updateSessionWindowCaches` are not modelled as a schedule.
- Start/Stop (orchestrator/data_manager.go:89-97) only delegate to StartCacheUpdater/StopCacheUpdater.
- UsageLoader.LoadUsageEntries: models only the sequential branch. It requires at most 10 files, because the concurrent loader and its mergers are not part of this model.
- JSON decoding and the 10MB line scanner: a file is a sequence of already-decoded `Line` values.
- extractUsageEntry is folded into `Line.ParsedLine`'s optional entry.
- Floating point is not modelled: the cost of an entry, pricing (GetPricing, CalculateCost, the pricing provider, SetPricingProvider) and HitRate.
- Durations are not modelled: LoadDuration, the transform duration and EntriesFiltered.
- Orchestrator.DataManager.GetCacheAge: returns milliseconds instead of float seconds. It requires that the stored timestamp is not after now, as it is for a timestamp taken from the same clock.
- DiscoverFiles/filepath.Walk, os.Stat, os.Open, time.Now and time.Sleep are environment values. Backoff sleeps are returned as a sequence of delays.
- One `now` serves a whole GetData call and a whole updateSessionWindowCaches pass; the source reads the clock separately at each step.
- The file system is one snapshot per load: processSingleFileWithCacheAndDedup's second os.Stat (fileio/usage_loader.go:356) is taken to agree with the first.
- checkForFileChanges (orchestrator/data_manager.go:389-435) is its three-valued answer `ChangeCheck`. Its "modified within the last minute" heuristic is file-system behaviour.
- The single-file load inside updateFileCache (orchestrator/data_manager.go:583-595) is its outcome `RefreshOutcome`; the summary it writes is not modelled.
- The trackers are `*FileTracker` references in a Go map. They are modelled as values in a Dafny `map`; nothing else holds those references, so no aliasing is lost.
- Logging everywhere, and HasFileSummary, which the core never calls.
- Entries.SortByTimestamp: sort.Slice is a library call, so the in-place sort is modelled by its contract on a sequence. Order among equal timestamps is unspecified, since sort.Slice is not stable.
- UsageLoader.EmptySummaryForFile and UsageLoader.SummaryFromEntries: createEmptySummaryForFile and createSummaryFromEntries are not part of this model. Their bodies are assumed: a summary of the absolute path that records the file's modification time and size, so it is not expired for that stat.
- UsageLoader.ProcessSingleFileWithCacheAndDedup and UsageLoader.FileOutcome: report the intended miss reason "modified_file" for a stale summary. The code reports "new_file" when the store's invalidation succeeded; see Findings. `UsageLoader.InvalidatedFileReadsAsNew` states exactly where the two differ.
- UsageLoader.FileOutcomeContract: states the intended miss reason for a parsed miss, not the coded one, for the same reason.
- UsageLoader.MergeDeduplicates: holds only without a store, because with one the code does not deduplicate cache hits; see `UsageLoader.CachedEntriesBypassDedup`.
- UsageLoader.MergeKeepsFirstCopies: holds only without a store and without scanner errors, because a scanner error keeps its keys in the set while discarding its entries; see `UsageLoader.ScanErrorDropsLaterCopy`.
- UsageLoader.LoadUsageEntries: the error text of a failed discovery is not modelled, only the failure.
- Orchestrator.DataManager.GetLastError and GetLastSuccessfulFetchTime are field reads without a contract.

## Findings

| source | as written | input that shows it | evidently intended | confidence | as-written member | corrected member |
|---|---|---|---|---|---|---|
| fileio/usage_loader.go:314-345 | the miss reason comes from a second GetFileSummary, made after the stale summary was invalidated | a store holds an expired summary for a file and InvalidateFileSummary succeeds; the second lookup misses and the file counts as "new_file" | "modified_file", as the comment at line 321 and the description of the cache say | not executed | UsageLoader.InvalidatedFileReadsAsNew | UsageLoader.ClassifyMiss |
