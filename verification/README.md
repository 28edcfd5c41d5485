# Pocket Agents: verified core

A Dafny 4.11 model of the parts of Pocket Agents where state, arithmetic or untrusted input meet, with proofs of
what they promise. `dafny verify dfyconfig.toml` checks the whole project.

## What is modelled

**The expert cache** (`Options`, `Recency`, `CacheState`, `ExpertCache`, `CacheRuns`, `CacheTraces`, `PrefetchQueue`). The native
cache keeps slices of a model file in a byte budget. `CacheState` is its abstract state and the effect of every
critical section and worker step; the class `ExpertCacheClass.ExpertCache` is the code's list, index, counters, queue
and worker, each method proved to have exactly that effect. The n-th system call gets the n-th answer of an arbitrary
sequence, so short reads, failures and refused mappings are all covered. Over whole runs, with callers and worker
interleaved in any way: the resident list is the longest prefix of the recency history that fits the budget; the books
balance; every accepted prefetch has exactly one fate. Three promises fail in places, and the exact limits are proved: a
larger budget never hits less if and only if no slice length lies above the smaller budget and within the larger one, or
none fits the smaller (`MonotoneExactly`); a failed read leaves the resident set exact if and only if there was room
without evicting (`FailedRead`); and a closed cache has nothing pending if and only if no request was stranded behind
its worker (`PendingWithoutWorkerExactly`).

**Its offline twin** (`CacheSimulator`). The entry-counted simulator is the same cache with entries of size one, which
gives the stack-distance characterisation of its hits, monotonicity in the capacity, and the refinement it is used for:
for slices of one length L the native cache of budget B and the simulator of capacity B div L agree on every access.

**The two-model protocol** (`TwoModels`). One process serves routing decisions, one library generates text; the phone
cannot hold both. The step relation is at the granularity of single awaits, with failures and cancellations anywhere,
unguarded `cleanUp` and `close`, and text loads that finish after their caller is gone. Never two loaded models holds
in every reachable state of every interleaving. The public decision flag is weaker than that: the steps at which it
starts to miss the process are characterised exactly, and two runs show it, one of them without any failure.

**The GGUF readers** (`Bytes`, `GgufFormat`, `GgufOffsets`, `GgufIndex`, `GgufArchitecture`, `GgufReaders`,
`GgufOffsetsTool`). The header format (section "File Structure" of the GGUF specification of the ggml project,
little-endian, versions 2 and 3) as a value and as bytes; the native index reader and the app's early-exit reader as
position-moving code; round trips for every well-formed header; agreement of the two readers on arbitrary bytes; exact
64-bit offset arithmetic; and agreement with the offline offset tool.

**The agent** (`AgentProtocol`, `AgentRun`, `AgentSafety`, `AgentAnswers`, `AgentBackend`). A run as a function of the request and of
the replies to its callbacks, which are arbitrary: any text from the model, any tool result, any exception. The class
`AgentBackendClass.AgentBackend` makes the callbacks one by one and is proved to produce that run. Whatever the model
writes, only allowlisted tools run, exactly those the reported route stands for; what tools return, and what is written
after the selection, decides nothing. What a finished run answers is stated over its decision and what it heard, without
the code that completes the answer (`AnswersAreRight`).

**The datasets** (`DatasetRows`, `CleanPool`, `StratifiedSplit`, `RoundRobin`, `MixtureSample`, `Mixture`,
`CarveValidation`). De-duplication, stratified splits, the weighted round-robin mixture and both validation carves, for
arbitrary rows and with every shuffle an arbitrary permutation.

## Where code and documentation disagree

The code is followed in each case.

- `tools/train_combined_routing.py:89` claims the logic of the other script's carve. It has it exactly when
  `CarveValidation.SameLogicExactly` says so, and otherwise carves out too few rows.
- `ReflexInferenceEngine.isDecisionModel` is read as "the decision model is loaded". It misses a tracked process exactly
  in the runs that `TwoModels.FlagMissesExactly` describes.
- Relevance is checked before the note pass, so the decision of that pass is not checked;
  `AgentSafety.RelevanceKeptExactly`.
- Switching device actions off changes only the prompt. A proposal is returned all the same exactly when
  `AgentSafety.ProposesSwitchedOffExactly` says so.

## Model

| member | source | states |
|---|---|---|
| Recency.FitIsLongest | llama-android/src/main/cpp/expert_cache.cpp:228-234 | popping the oldest until the rest fits keeps the longest prefix, newest first, whose total fits: a prefix fits if and only if it is no longer |
| Recency.AdmitKeepsFit | llama-android/src/main/cpp/expert_cache.cpp:209-258 | one admitted request turns "longest fitting prefix of the history" into the same statement about the history with that key moved to the front |
| CacheState.ApplyKeepsInv | llama-android/src/main/cpp/expert_cache.cpp:50-259 | every critical section and worker step keeps: no duplicate keys, total within the budget, every resident slice inside the file, page-warm mode empty, at most 64 requests, active count one exactly while the worker holds a request |
| CacheState.EveryRunKeepsInv | llama-android/src/main/cpp/expert_cache.cpp:50-259 | the same in every state of every run from construction |
| CacheState.ReturnMeans | llama-android/src/main/cpp/expert_cache.cpp:174-259 | outside page-warm mode a load returns true if and only if the slice is resident afterwards; in it, if and only if the range is valid and was mapped |
| ExpertCacheClass.ExpertCache.constructor | llama-android/src/main/cpp/expert_cache.cpp:42-44 | a new cache is closed and empty |
| ExpertCacheClass.ExpertCache.SetPageWarm | llama-android/src/main/cpp/expert_cache.cpp:50-61 | switching the mode on drops every resident slice, list and index together, and touches nothing else |
| ExpertCacheClass.ExpertCache.FinishOpen | llama-android/src/main/cpp/expert_cache.cpp:75-120 | opening resets the counters and takes the budget; on failure the cache stays closed |
| ExpertCacheClass.ExpertCache.CloseBegin | llama-android/src/main/cpp/expert_cache.cpp:122-127 | the first half of closing stops the worker and drops all pending requests |
| ExpertCacheClass.ExpertCache.CloseEnd | llama-android/src/main/cpp/expert_cache.cpp:128-142 | the second half empties the cache and forgets the file |
| ExpertCacheClass.ExpertCache.Clear | llama-android/src/main/cpp/expert_cache.cpp:151-159 | pending requests and resident slices go, counters stay |
| ExpertCacheClass.ExpertCache.Prefetch | llama-android/src/main/cpp/expert_cache.cpp:161-172 | accepts exactly the in-range requests that find fewer than 64 pending, and appends them |
| ExpertCacheClass.ExpertCache.ReadSlice | llama-android/src/main/cpp/expert_cache.cpp:236-249 | however the system fragments its answers, the result is the file's bytes of the slice, or a failure exactly when some answer fails before the slice is complete |
| ExpertCacheClass.ExpertCache.Evict | llama-android/src/main/cpp/expert_cache.cpp:228-234 | leaves the longest prefix that fits beside the new slice, counts each eviction, and the sum in the test cannot wrap |
| ExpertCacheClass.ExpertCache.PopLast | llama-android/src/main/cpp/expert_cache.cpp:229-233 | list, index and byte count lose the same oldest slice |
| ExpertCacheClass.ExpertCache.WarmPages | llama-android/src/main/cpp/expert_cache.cpp:180-207 | maps from the page boundary at or before the slice to the slice's end, without overflow; keeps nothing, counts a miss, and the bytes only when the mapping succeeds |
| ExpertCacheClass.LookupFinds | llama-android/src/main/cpp/expert_cache.cpp:209-217 | a key is in the index if and only if it is resident, and the found item has exactly the requested range: the branch for another range is unreachable |
| ExpertCacheClass.SpliceRepresents | llama-android/src/main/cpp/expert_cache.cpp:214 | moving a node to the front keeps list, index, byte count and file agreement |
| ExpertCacheClass.ExpertCache.Hit | llama-android/src/main/cpp/expert_cache.cpp:209-217 | a resident slice moves to the front and counts a hit; nothing else changes |
| ExpertCacheClass.ExpertCache.Fill | llama-android/src/main/cpp/expert_cache.cpp:236-258 | a completed read puts the slice in front, a failed one only counts a miss |
| ExpertCacheClass.ExpertCache.Miss | llama-android/src/main/cpp/expert_cache.cpp:223-258 | an oversize slice is refused without evicting; otherwise eviction happens first and stays even when the read fails |
| ExpertCacheClass.ExpertCache.Load | llama-android/src/main/cpp/expert_cache.cpp:174-259 | one load has exactly the abstract effect of its case, and returns true if and only if the slice is resident now or, in page-warm mode, its range is valid and was mapped |
| ExpertCacheClass.ExpertCache.WorkerTake | llama-android/src/main/cpp/expert_cache.cpp:99-110 | the oldest request leaves the queue and the active count rises in the same critical section |
| ExpertCacheClass.ExpertCache.WorkerLoad | llama-android/src/main/cpp/expert_cache.cpp:111 | the worker's load is an ordinary load of the request it took |
| ExpertCacheClass.ExpertCache.WorkerDone | llama-android/src/main/cpp/expert_cache.cpp:112-116 | the active count falls again |
| ExpertCacheClass.ExpertCache.WorkerExit | llama-android/src/main/cpp/expert_cache.cpp:104-106 | the worker leaves only when stopping with an empty queue |
| ExpertCacheClass.ExpertCache.IsIdle | llama-android/src/main/cpp/expert_cache.cpp:144-149 | the two counts that the wait tests tell the truth about the worker: they are zero if and only if no request is queued and the worker holds none, neither loading nor just loaded |
| ExpertCacheClass.ExpertCache.ReportStats | llama-android/src/main/cpp/expert_cache.cpp:261-267 | reported sizes are those of the resident list at that moment |
| CacheRuns.EveryRunAgrees | llama-android/src/main/cpp/expert_cache.cpp:75-259 | after every run the state agrees with an independent log of what was loaded, inserted, cleared and read |
| CacheRuns.RunsWhatWasAsked | llama-android/src/main/cpp/expert_cache.cpp:75-142 | after every run the budget in force is the one last asked for, and the cache is open on exactly the file that was opened |
| CacheRuns.ResidentSetIsExact | llama-android/src/main/cpp/expert_cache.cpp:209-258 | after every run the resident list is a prefix of the recency history, and unless a slice was evicted since the last emptying for a read that failed, exactly the longest one that fits the budget asked for |
| CacheRuns.BooksBalance | llama-android/src/main/cpp/expert_cache.cpp:181-258 | in-range loads = hits + misses, and hits are the loads that found their slice resident; inserts = resident + evicted + cleared; bytes read = lengths of served misses |
| CacheRuns.FailedRead | llama-android/src/main/cpp/expert_cache.cpp:228-247 | a failed read leaves the exact characterisation intact if and only if the slice had room without evicting |
| CacheRuns.EvictionIsMinimal | llama-android/src/main/cpp/expert_cache.cpp:228-234 | with one eviction fewer the slice would not have fitted |
| CacheTraces.ContentsExact | llama-android/src/main/cpp/expert_cache.cpp:209-258 | on every trace a cache holds the longest fitting prefix of the history of the requests not larger than its budget |
| CacheTraces.BudgetMonotone | llama-android/src/main/cpp/expert_cache.cpp:223-257 | without a slice length between the budgets, the smaller cache is at every step a prefix of the larger and never hits more |
| CacheTraces.LargerBudgetCanLose | llama-android/src/main/cpp/expert_cache.cpp:223-226 | for every such length there is a trace on which the larger budget hits strictly less |
| CacheTraces.MonotoneExactly | llama-android/src/main/cpp/expert_cache.cpp:223-257 | monotonicity over all traces of the given positive lengths holds if and only if no length lies above the smaller budget and within the larger, or none fits the smaller at all |
| CacheTraces.ReplayIsTrace | llama-android/src/main/cpp/expert_cache.cpp:174-259 | a freshly opened native cache that loads a trace has the trace cache's contents and hit count |
| PrefetchQueue.EveryRequestHasOneFate | llama-android/src/main/cpp/expert_cache.cpp:96-172 | in every interleaving: queue bounded, active count exact, pending requests the latest accepted in order, finishing in order of acceptance, accepted = finished + active + pending + dropped |
| PrefetchQueue.IdleMeansDone | llama-android/src/main/cpp/expert_cache.cpp:144-149 | when the wait succeeds every accepted request was finished or dropped |
| PrefetchQueue.NeverClosedUnderWorker | llama-android/src/main/cpp/expert_cache.cpp:122-142 | a closed cache has no worker, nothing active and nothing resident |
| PrefetchQueue.PendingWithoutWorkerExactly | llama-android/src/main/cpp/expert_cache.cpp:96-172 | without a worker something is pending if and only if a request was accepted after the worker had left and nothing since has dropped the queue |
| PrefetchQueue.LateRequestSurvivesClose | llama-android/src/main/cpp/expert_cache.cpp:122-172 | a run in which such a request outlives the file it was checked against |
| CacheSimulator.LRUCache.Access | tools/expert_cache_simulator.py:35-44 | the verdict is membership, the accessed id becomes newest, and only a full cache loses its oldest id |
| CacheSimulator.SimulatorIsUnitCache | tools/expert_cache_simulator.py:30-44 | read newest first, the simulator is the byte-budgeted cache of entries of size one, contents and hits |
| CacheSimulator.StackDistance | tools/expert_cache_simulator.py:35-44 | an id used before is still held if and only if fewer than `capacity` distinct ids were used since |
| CacheSimulator.NeverUsedMisses | tools/expert_cache_simulator.py:35-44 | an id never used is never held |
| CacheSimulator.CapacityMonotone | tools/expert_cache_simulator.py:35-44 | a larger simulated cache contains the smaller one and hits at least as often |
| CacheSimulator.SimulatorPredictsNative | tools/expert_cache_simulator.py:30-44 | for one key of one length per expert both caches hold the same experts in the same order after every trace and agree on every hit |
| CacheSimulator.SimulatorPredictsHitCounter | llama-android/src/main/cpp/expert_cache.cpp:209-254 | the native hit counter after replaying a trace is the simulator's hit count |
| CacheSimulator.SortByTokenSorts | tools/expert_cache_simulator.py:63 | the records are sorted by token index and none is lost |
| CacheSimulator.SortByTokenIsStable | tools/expert_cache_simulator.py:63 | records of one token keep the order they were captured in |
| CacheSimulator.AccessAll | tools/expert_cache_simulator.py:76-78 | the accesses of one token continue the cache exactly where the earlier tokens left it |
| CacheSimulator.EvaluateLayer | tools/expert_cache_simulator.py:62-100 | the hit rate is that of the whole selection sequence in token order, and each of the three predictors is credited only with predictions made from earlier tokens, none before the second |
| CacheSimulator.PredictionsByPosition | tools/expert_cache_simulator.py:47-59 | by position: the previous-token predictor hits what a token shares with the one before it, the last-n predictor is asked for the most frequent of the n tokens before, the other of all before |
| CacheSimulator.RateMeans | tools/expert_cache_simulator.py:95-98 | a reported rate times the number of selections is the number of hits, and there is none without selections |
| CacheSimulator.RatesAreShares | tools/expert_cache_simulator.py:95-98 | every rate in a report is a share of the selections |
| CacheSimulator.RecallAtMostOne | tools/expert_cache_simulator.py:81-98 | no predictor whatever is credited with more hits than selections |
| CacheSimulator.LayerHitsMonotone | tools/expert_cache_simulator.py:62-100 | the evaluator's hit count never decreases with the capacity and never exceeds the selections |
| TwoModels.NextKeepsInv | app/src/main/java/com/pocketagentslab/ReflexInferenceEngine.kt:42-160 | every single step, guarded or not, failing or not, keeps the exclusion and what the mutex holder relies on |
| TwoModels.NeverTwoModels | app/src/main/java/com/pocketagentslab/ReflexInferenceEngine.kt:42-160 | in every state of every interleaving a tracked decision process excludes a loading, ready or working text model |
| TwoModels.LoadsHappenAlone | app/src/main/java/com/pocketagentslab/ReflexInferenceEngine.kt:42-129 | a server is spawned, and a text load begins, only when the other model is gone |
| TwoModels.EachModelWorksAlone | app/src/main/java/com/pocketagentslab/ReflexInferenceEngine.kt:91-129 | the router is asked only without a text model, and text is generated only without a decision process |
| TwoModels.SystemPromptComesFirst | app/src/main/java/com/pocketagentslab/ReflexInferenceEngine.kt:103-129 | a text model loaded to answer a prompt generates nothing before it was given the system prompt |
| TwoModels.AnsweringIsReachable | app/src/main/java/com/pocketagentslab/ReflexInferenceEngine.kt:42-129 | the exclusion is not bought by doing nothing: a run loads the decision model and then answers with the text model, the process stopped |
| TwoModels.MissingStartsExactly | app/src/main/java/com/pocketagentslab/ReflexInferenceEngine.kt:53-62 | the decision path starts to be missing beside a tracked process at exactly three kinds of steps: a spawn after the path was forgotten, a load that throws after its server came up, an unguarded reset of the path |
| TwoModels.FlagMissesExactly | app/src/main/java/com/pocketagentslab/ReflexInferenceEngine.kt:42-160 | a run has a state with a tracked process and no decision path if and only if it has such a step |
| TwoModels.FlagMayMissTheProcess | app/src/main/java/com/pocketagentslab/ReflexInferenceEngine.kt:53-62 | a cancelled load leaves a tracked process, a free mutex and no decision path |
| TwoModels.CleanUpMayMissTheProcess | app/src/main/java/com/pocketagentslab/ReflexInferenceEngine.kt:149-154 | so does a `cleanUp` that overlaps a load, with no failure at all |
| ReflexRuntimeClass.ReflexRuntime.Stop | app/src/main/java/com/pocketagentslab/ReflexRuntime.kt:67-78 | the handle is dropped in every case, and it fails exactly when a process survives both waits |
| ReflexRuntimeClass.ReflexRuntime.Start | app/src/main/java/com/pocketagentslab/ReflexRuntime.kt:24-52 | afterwards the server for the path is up or nothing is tracked, and it is up exactly when it already was or the old process died and the new one became healthy in time |
| ReflexRuntimeClass.ComesUpExactly | app/src/main/java/com/pocketagentslab/ReflexRuntime.kt:40-46 | coming up is a healthy poll within the limit with the process alive all along |
| GgufFormat.SkipEncoded | llama-android/src/main/cpp/expert_index.cpp:56-94 | skipping consumes exactly the encoded value, for every value including nested arrays within the reader's limits; each type is encoded in the width the format gives it |
| GgufFormat.SkipsAgree | app/src/main/java/com/pocketagentslab/GgufArchitecture.kt:25-41 | on any bytes, two readers that both get past a value, whatever their limits, get to the same place |
| GgufOffsets.RowsExact | llama-android/src/main/cpp/expert_index.cpp:233-240 | the guarded loop yields the true product and rejects if and only if that needs more than 64 bits |
| GgufOffsets.TensorBytesExact | llama-android/src/main/cpp/expert_index.cpp:233-245 | rows times row bytes is exact or rejected, exactly at 64 bits |
| GgufOffsets.AlignUpExact | llama-android/src/main/cpp/expert_index.cpp:96-101 | the result is the least multiple not below the position, and it is refused if and only if the sum before the division leaves 64 bits |
| GgufOffsets.AlignUpNeverRefuses | llama-android/src/main/cpp/expert_index.cpp:96-101 | at every file position and for every alignment a header can hold, only alignment zero is refused, and the result is the least multiple |
| GgufOffsets.FalseAlarmExactly | llama-android/src/main/cpp/expert_index.cpp:97-99 | on all 64-bit words, a refusal though the least multiple fits happens if and only if the value is within the largest fitting multiple and above the guard |
| GgufOffsets.AlignUpDividing | llama-android/src/main/cpp/expert_index.cpp:97-99 | for alignments dividing 2^64 a refusal means that the least multiple really does not fit |
| GgufOffsets.ExpertsTileTensor | llama-android/src/main/cpp/expert_index.cpp:253-263 | every byte of a divisible tensor belongs to exactly one expert's range, and no range reaches outside |
| GgufIndex.KeyValuesRoundTrip | llama-android/src/main/cpp/expert_index.cpp:161-190 | scanning the encoding of any key/value list consumes exactly it |
| GgufIndex.NoteAllIsMetaOf | llama-android/src/main/cpp/expert_index.cpp:169-185 | each metadata field is the last pair that sets it, by key and type |
| GgufIndex.TensorsRoundTrip | llama-android/src/main/cpp/expert_index.cpp:200-246 | scanning the encoding of any tensor list yields the qualifying expert tensors in order, or rejects exactly when one is too large |
| GgufIndex.HeaderRoundTrip | llama-android/src/main/cpp/expert_index.cpp:131-266 | opening the bytes of any well-formed header gives the index that header means: last architecture, last expert count, qualifying tensors in order |
| GgufOffsetsTool.OpensExactly | llama-android/src/main/cpp/expert_index.cpp:131-266 | a well-formed header opens if and only if its last string architecture is not empty, its last expert count is not zero, no expert tensor is too large and the data starts inside the file |
| GgufOffsetsTool.DataStartExactly | llama-android/src/main/cpp/expert_index.cpp:248-251 | the data starts at the least multiple, at or after the header's end, of its last alignment or of 32 without one |
| GgufReaders.Cursor.ReadBytes | llama-android/src/main/cpp/expert_index.cpp:17-29 | a buffer filled fragment by fragment ends up with exactly the bytes asked for, or the read fails exactly when the file is too short |
| GgufReaders.Cursor.ReadNumber | llama-android/src/main/cpp/expert_index.cpp:31-32 | little-endian word at the position, which advances past it |
| GgufReaders.Cursor.ReadString | llama-android/src/main/cpp/expert_index.cpp:34-41 | a length-prefixed string of at most 1 MiB, or a failure exactly when there is none |
| GgufReaders.Cursor.SkipValue | llama-android/src/main/cpp/expert_index.cpp:56-94 | ends behind the value, and terminates by the bytes left |
| GgufReaders.ExpertIndex.ReadMetadata | llama-android/src/main/cpp/expert_index.cpp:161-190 | the loop computes the scan of the key/value list |
| GgufReaders.ExpertIndex.ReadTensors | llama-android/src/main/cpp/expert_index.cpp:198-246 | the loop computes the scan of the tensor list |
| GgufIndex.NoExpertsNothingPending | llama-android/src/main/cpp/expert_index.cpp:198-246 | with an expert count of zero nothing is pending, so the unguarded last loop never divides by it |
| GgufIndex.PlacedExactly | llama-android/src/main/cpp/expert_index.cpp:253-263 | the index lists exactly the pending tensors that the experts divide and whose first expert lies inside the file |
| GgufReaders.ExpertIndex.PlaceAll | llama-android/src/main/cpp/expert_index.cpp:253-263 | no difference falls below zero and no sum leaves 64 bits, no division by zero is reached, and every listed tensor starts in the data and has its first expert in the file |
| GgufReaders.ExpertIndex.Open | llama-android/src/main/cpp/expert_index.cpp:131-266 | succeeds on exactly the files that have an index, and then holds it |
| GgufReaders.FindArchitecture | app/src/main/java/com/pocketagentslab/GgufArchitecture.kt:48-57 | the loop finds the first architecture key and stops there |
| GgufReaders.ReadArchitectureOf | app/src/main/java/com/pocketagentslab/GgufArchitecture.kt:9-58 | the whole early-exit reader, errors included |
| GgufArchitecture.FirstArchitectureAt | app/src/main/java/com/pocketagentslab/GgufArchitecture.kt:48-57 | on encoded metadata the reader returns the first architecture wherever it sits, past values of every kind |
| GgufArchitecture.AppReadsExactly | app/src/main/java/com/pocketagentslab/GgufArchitecture.kt:48-57 | on encoded metadata the app returns the first architecture if that is a non-blank string, and fails in every other case |
| GgufArchitecture.NativePreludeExactly | llama-android/src/main/cpp/expert_index.cpp:131-159 | the native reader goes on exactly from the magic, version 2 or 3 and two counts of at most a million |
| GgufArchitecture.AppPreludeExactly | app/src/main/java/com/pocketagentslab/GgufArchitecture.kt:43-47 | the app's reader takes the same magic and versions, any signed tensor count and at most a million pairs |
| GgufArchitecture.NativeLimits | llama-android/src/main/cpp/expert_index.cpp:34-94 | the native reader gets past known types only, strings of at most 1 MiB and arrays of at most 10^8 |
| GgufArchitecture.AppLimits | app/src/main/java/com/pocketagentslab/GgufArchitecture.kt:25-41 | the app's reader gets past known types only, nested at most 8 deep, in arrays of at most 10^7 |
| GgufArchitecture.ReadersAgree | app/src/main/java/com/pocketagentslab/GgufArchitecture.kt:9-58 | on any bytes both readers accept, the app reports the first architecture and the native reader the last string one, so they agree on files with a single key |
| GgufArchitecture.OneArchitectureForBoth | llama-android/src/main/cpp/expert_index.cpp:161-190 | for every header within both limits with one non-blank architecture, the app returns it and the native scan keeps it, wherever the key sits and whether or not the rest makes an index |
| GgufOffsetsTool.NamesAgree | tools/gguf_expert_offsets.py:32 | on every name the tool's pattern matches (final newline aside) the native parser finds the same projection and the layer cut to 32 bits, and gives up exactly beyond 64 bits |
| GgufOffsetsTool.NamesRoundTrip | tools/gguf_expert_offsets.py:32 | both parsers read back layer and projection of every canonical name `blk.N.ffn_{gate,up,down}_exps.weight`, the native one up to 32 bits |
| GgufOffsetsTool.ExtractExpertOffsets | tools/gguf_expert_offsets.py:54-81 | the loop fills the layer table with tensor descriptions and ranges, or raises at the first indivisible tensor |
| GgufOffsetsTool.ExtractSucceedsExactly | tools/gguf_expert_offsets.py:60-64 | the tool raises if and only if some matching tensor is not divisible by the expert count |
| GgufOffsetsTool.ExtractKeepsLast | tools/gguf_expert_offsets.py:55-81 | the table lists for a layer and projection the last tensor of that name with its ranges |
| GgufOffsetsTool.OffsetsAgree | tools/gguf_expert_offsets.py:60-73 | on every header with canonical names, whatever other tensors it has, the tool lists for each tensor of the opened index exactly the ranges that tensor implies |
| GgufOffsetsTool.ListedIsIndexedExactly | llama-android/src/main/cpp/expert_index.cpp:220-263 | conversely, a listed expert tensor is in the opened index if and only if its type is known, its rows are not empty and its first expert lies inside the file |
| GgufOffsetsTool.ExpertCountsAgree | tools/gguf_expert_offsets.py:35-39 | on headers with one architecture and one expert count, a word under its key, tool and native reader read the same count |
| AgentProtocol.ParsersAllowOnly | app/src/main/java/com/pocketagentslab/AgentBackend.kt:402-514 | whatever text the model or the decision server returns, it is rejected or becomes an allowed decision with the field its action needs |
| AgentProtocol.FenceIsTransparent | app/src/main/java/com/pocketagentslab/AgentBackend.kt:521-536 | a Markdown fence around a bare object, with white space and line breaks anywhere around it, changes nothing but the note that it was removed |
| AgentProtocol.PlainFenceIsTakenOff | app/src/main/java/com/pocketagentslab/AgentBackend.kt:521-536 | so is a fence without a language |
| AgentProtocol.OpenFenceIsKept | app/src/main/java/com/pocketagentslab/AgentBackend.kt:521-536 | a fence that is not closed stays |
| AgentProtocol.NamedCallsAreRead | app/src/main/java/com/pocketagentslab/AgentBackend.kt:402-467 | every tool, workflow and action of the schema is read as itself, every other name is refused |
| AgentProtocol.ShorthandIsRead | app/src/main/java/com/pocketagentslab/AgentBackend.kt:447-464 | a read-only tool's or the health check's own name may stand for the action and is noted as a repair; any other name may not |
| AgentProtocol.ArgumentsAreRefused | app/src/main/java/com/pocketagentslab/AgentBackend.kt:402-467 | only an answer is accepted with arguments missing, not an object, or not empty |
| AgentProtocol.NativeCallIsRead | app/src/main/java/com/pocketagentslab/AgentBackend.kt:470-514 | one native call is read as the tool, workflow or action it names |
| AgentProtocol.NativeCallsAreRead | app/src/main/java/com/pocketagentslab/AgentBackend.kt:470-514 | several native calls are the health check if and only if they name different read-only tools, otherwise refused |
| AgentProtocol.RoutesAreRead | app/src/main/java/com/pocketagentslab/DecisionHttpClient.kt:97-107 | the decision server's nine routes and no other |
| AgentProtocol.ScopesAreRead | app/src/main/java/com/pocketagentslab/AgentBackend.kt:710-716 | a scope reply is an object with one of the two scopes and nothing else |
| AgentProtocol.FinalAnswersAreRead | app/src/main/java/com/pocketagentslab/AgentBackend.kt:386-400 | prose is the answer itself, JSON is read by the text of its answer, another action is an error, cut-off JSON is read as far as it got |
| AgentBackendClass.AgentBackend.RunRequest | app/src/main/java/com/pocketagentslab/AgentBackend.kt:305 | a whole run makes the callbacks of the specification, answers what the guarantees below make right, and keeps the others: only allowlisted tools, at most three and those of its route, at most four calls and one hooked repair, all pieces reported, rising progress that ends at one |
| AgentAnswers.AnswersAreRight | app/src/main/java/com/pocketagentslab/AgentBackend.kt:197-377 | every finished run answers what its decision, its tool results and its last reply make right: a direct answer as it is unless it copies an example, one tool's own wording or the model's, the diagnosis of device, battery and storage, the report of memory, storage and battery |
| AgentAnswers.SelectsDetermined | app/src/main/java/com/pocketagentslab/AgentBackend.kt:87-195 | selection succeeds if and only if the replies determine a decision, and selects that one |
| AgentAnswers.SelectionAsks | app/src/main/java/com/pocketagentslab/AgentBackend.kt:109-195 | selection asks exactly the prompts of its way, each with the limit for decisions |
| AgentAnswers.CheckMeans | app/src/main/java/com/pocketagentslab/AgentBackend.kt:133-156 | two media commands are answered by asking for one, a clean-up request gets the report instead of the apps screen, and what is then irrelevant becomes the empty answer |
| AgentSafety.ToolsAreAllowlisted | app/src/main/java/com/pocketagentslab/AgentBackend.kt:87-377 | a finished run executed exactly the tools its route stands for (none for answers, clarifications, proposals), a failed one a first part of the planned tools, at most three, and only read-only ones or the memory report |
| AgentSafety.ProposalsAreApproved | app/src/main/java/com/pocketagentslab/AgentBackend.kt:241-272 | a proposal names an approved action and is what resolving it for the request gave |
| AgentSafety.ToolsRunBeforeAnswers | app/src/main/java/com/pocketagentslab/AgentBackend.kt:197-377 | no tool runs after an answer was asked for, and after a tool the model is asked for nothing else |
| AgentSafety.ToolDataDecidesNothing | app/src/main/java/com/pocketagentslab/AgentBackend.kt:197-377 | two runs that differ only in tool results and in text after the selection execute the same tools |
| AgentSafety.RunIsBounded | app/src/main/java/com/pocketagentslab/AgentBackend.kt:109-171 | at most four generator calls and one repair, and every repair directly follows its hook |
| AgentSafety.PiecesAreAccounted | app/src/main/java/com/pocketagentslab/AgentBackend.kt:197-377 | the reported pieces are the sum over all generator calls of the run |
| AgentSafety.ProgressEndsComplete | app/src/main/java/com/pocketagentslab/AgentBackend.kt:87-377 | progress never falls, and a finished run ends at one |
| AgentSafety.IrrelevantOnlyByNotePass | app/src/main/java/com/pocketagentslab/AgentBackend.kt:108-172 | local routing ends with an irrelevant decision, other than the empty answer, only as the reply to the note prompt after a checked note tool |
| AgentSafety.RelevanceKeptExactly | app/src/main/java/com/pocketagentslab/AgentBackend.kt:150-172 | every outcome of the note pass is relevant if and only if the checked decision is not a note tool |
| AgentSafety.SwitchOnlyChangesThePrompt | app/src/main/java/com/pocketagentslab/AgentBackend.kt:109-113 | for the same replies local routing decides the same with device actions on and off |
| AgentSafety.ProposesSwitchedOffExactly | app/src/main/java/com/pocketagentslab/AgentBackend.kt:87-195 | with device actions off, in every configuration, a run returns a proposal if and only if neither help nor the decision head answers and the deciding reply proposes an action that resolves: the live reply in hierarchical routing, otherwise the first, repaired or note reply as normalisation and the relevance check leave it |
| AgentSafety.ProposalWithActionsOff | app/src/main/java/com/pocketagentslab/AgentBackend.kt:87-158 | with device actions off, the request "open camera" and a model that writes the camera proposal, the run returns it |
| DatasetRows.GroupByLabel | tools/prepare_general_mixture.py:82-84 | one entry for every label that occurs, holding its rows in order |
| DatasetRows.GroupsCover | tools/prepare_general_mixture.py:82-84 | the groups together are the rows, each as often as it was given |
| CleanPool.CleanRows | tools/prepare_general_mixture.py:125-133 | remembering the unprotected keys is enough: the loop keeps the rows and extends the exclusion list as specified |
| CleanPool.CleanedExactly | tools/prepare_general_mixture.py:125-133 | the rows kept are exactly those at the positions of first unprotected occurrences, in order |
| CleanPool.CleanedKeys | tools/prepare_general_mixture.py:125-133 | no protected state and no normalised state twice is left |
| CleanPool.CleanedCovers | tools/prepare_general_mixture.py:125-133 | no unprotected normalised state is lost |
| CleanPool.CleaningTwice | tools/prepare_general_mixture.py:125-133 | cleaning again keeps everything and excludes nothing |
| CleanPool.EveryRowAccounted | tools/prepare_general_mixture.py:129-132 | every row is kept or recorded, by number and by id |
| CleanPool.ReasonsAreTrue | tools/prepare_general_mixture.py:130 | a record of a protected state is of one, and a duplicate is of an unprotected one |
| StratifiedSplit.SplitRows | tools/prepare_general_mixture.py:80-93 | the loop computes the specified split, or stops at the first label with too few rows |
| StratifiedSplit.SplitsExactly | tools/prepare_general_mixture.py:89-91 | the split succeeds if and only if every label has more rows than its two shares, and otherwise names the first that has not |
| StratifiedSplit.SplitPartitions | tools/prepare_general_mixture.py:85-93 | the three parts together are the rows, each as often as it was given |
| StratifiedSplit.EveryLabelEverywhere | tools/prepare_general_mixture.py:89-92 | every label has in validation its tenth, in calibration its twentieth, each at least one row, and the rest, not empty, in training |
| StratifiedSplit.TenthAndTwentieth | tools/prepare_general_mixture.py:89-92 | with rounding, validation is within half a row of a tenth of every label of ten rows, calibration of a twentieth of every label of twenty |
| StratifiedSplit.EnoughIsThree | tools/prepare_general_mixture.py:89-91 | with rounding, a label has enough rows if and only if it has three |
| StratifiedSplit.CleanedSplitSharesNoState | tools/prepare_general_mixture.py:191-202 | splitting a cleaned pool leaves no normalised state in two parts and no protected state in any |
| StratifiedSplit.SplitIgnoresOrder | tools/prepare_general_mixture.py:86-88 | where ids identify rows, the split does not depend on the order the rows came in |
| RoundRobin.DrawRoundRobin | tools/prepare_general_mixture.py:116-119 | terminates with exactly the requested number of rows, drawn by complete passes and part of one |
| RoundRobin.SampleUnique | tools/prepare_general_mixture.py:116-119 | the shuffled pools and the number of rows determine the sample, row by row |
| RoundRobin.DrawsOfLabel | tools/prepare_general_mixture.py:116-119 | of each label a sample holds the end of its pool, last row first, as far as the passes went |
| MixtureSample.SampleSource | tools/prepare_general_mixture.py:105-119 | the sample of one source has the requested size, no row more often than the source has it, and every label at r rows or r + 1 or all it has |
| MixtureSample.MaxMinFair | tools/prepare_general_mixture.py:115-119 | if one label has at least two rows more than another, the other is exhausted |
| MixtureSample.MostBalanced | tools/prepare_general_mixture.py:115-119 | no other sample of that size counts more rows under any cap per label |
| MixtureSample.EveryLabelPresent | tools/prepare_general_mixture.py:109-119 | past the class check every label is present |
| Mixture.LargestFeasible | tools/prepare_general_mixture.py:100 | a scale is affordable for every source if and only if it is at most the one taken |
| Mixture.SharesAreProportional | tools/prepare_general_mixture.py:104 | no non-empty source is cut to its size, and once the proportion asks for a row the share is within half a row of it |
| Mixture.RoundsToNearestEven | tools/prepare_general_mixture.py:104 | rounding is to the nearest integer, at a tie to the even one |
| Mixture.LimitingSourceIsTakenWhole | tools/prepare_general_mixture.py:100-104 | some source is taken whole |
| Mixture.WeightedSample | tools/prepare_general_mixture.py:96-122 | refuses exactly bad weights, no sources, or the first source whose budget omits a class; otherwise returns a shuffled union of fair samples with the specified counts |
| CarveValidation.CarveRoutes | tools/train_phone_routing.py:151-156 | the loop of both scripts takes from every shuffled route its equal share or all it has, and keeps the rest, routes in sorted order |
| CarveValidation.CarvePhoneValidation | tools/train_phone_routing.py:129-166 | equal shares first, then the remainder drawn from a shuffle of what was kept; no rows fail by division by zero |
| CarveValidation.CarveCombinedValidation | tools/train_combined_routing.py:88-102 | equal shares only, whatever the remainder; no rows fail by division by zero |
| CarveValidation.MoveConserves | tools/train_phone_routing.py:159-164 | every removal finds its row: drawing moves rows and loses none |
| CarveValidation.CarvesConserve | tools/train_phone_routing.py:129-166 | both carves only divide the rows |
| CarveValidation.PhoneCarveSize | tools/train_phone_routing.py:144-166 | exactly the requested number is carved out if and only if every route has its equal share and there are that many rows; never more |
| CarveValidation.CombinedCarveSize | tools/train_combined_routing.py:94-101 | short by exactly the remainder if and only if every route has its share |
| CarveValidation.CombinedCarveIsStratified | tools/train_combined_routing.py:97-101 | every route gives the same number of rows, or all it has |
| CarveValidation.PhoneCarveExtendsShares | tools/train_phone_routing.py:151-164 | the phone carve begins with exactly those rows and only adds the remainder |
| CarveValidation.SameLogicExactly | tools/train_combined_routing.py:88-102 | for the same shuffles both scripts agree if and only if the route count divides the size or no route has more rows than its equal share |
| CarveValidation.ScriptsDiffer | tools/train_combined_routing.py:88-102 | two routes with a row each and one row to carve: the scripts differ whatever the shuffles |

## Left out

- The cache: budgets and file sizes are taken below 2^63, file contents are fixed while open, and `load` is one atomic step because it holds the mutex throughout.
- Overlapping calls of `open` and `close` on one cache: the class relies on its callers to serialise them.
- ExpertCacheClass.ExpertCache.WarmPages: does not model which pages the kernel keeps; mapping, advice and page counting are outside.
- CacheSimulator.EvaluateLayer: takes the most frequent experts as an arbitrary function of the history, because the ties of `most_common` are the library's.
- TwoModels.NeverTwoModels: speaks of the tracked process handle, not of the physical death of a process that outlives `stop`.
- TwoModels.NextKeepsInv: assumes of the text engine, which is not part of this model, that it loads only from its initialized state and that its `cleanUp` works only from ready or error.
- ReflexRuntimeClass.ReflexRuntime.Start: the 90 s limit is at most 450 polls, any of which may be the last.
- The published engine state, preferences and the choice of a chat model: they do not decide what is loaded.
- GgufReaders.ExpertIndex.Open: does not state what the fields hold after a failed call, nor model read errors other than the end of the file.
- GgufIndex.HeaderRoundTrip: the row size and the number of tensor types are parameters, since the tensor library is foreign code.
- GgufArchitecture.ReadersAgree: decoding and blankness of the architecture are one arbitrary predicate on bytes.
- GgufOffsetsTool.OffsetsAgree: the Python GGUF library is not part of this model; it is taken to report every tensor of the header with rows times row bytes, and no two tensors to name the same layer and projection. Names that only the lenient native number conversion accepts are excluded.
- GgufOffsetsTool.NamesAgree: models digits as ASCII; the pattern also matches other decimal digits.
- AgentRun: relevance lists, trusted answers, action resolution, wording, health thresholds and prompt texts are arbitrary functions or names, and progress listeners are taken not to throw.
- AgentProtocol.ParsersAllowOnly: the JSON library is an arbitrary parser, and reading a non-string as a string gives whatever it shows, as on Android.
- AgentBackendClass.AgentBackend.RunRequest: the decision server's HTTP exchange and the parse of its body are one reply, a choice or a failure.
- StratifiedSplit.SplitRows: the rounding of a tenth and a twentieth is an arbitrary function, so floating-point products are covered but not computed; `Rounds` asks only that they are within half a row.
- Mixture.WeightedSample: weights are exact and finite, floating-point rounding is outside; sources are given in the order of their names.
- CarveValidation.CarvePhoneValidation: the requested size is taken non-negative.
- The pipeline around the dataset functions (downloads, manifests, the typed-decisions holdout) and `weighted_mix`, whose scales are never below one.
- JNI glue, user interface, benchmarks, training, telemetry, speech, and the regular-expression parsers of requests: foreign code or single-branch claims.
