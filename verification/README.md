# Nawāt: what may be deleted, who may run, what survives

A Dafny model of the storage and job-orchestration core of Nawāt, and proofs of what it promises. Files,
object store, lock files and database are abstract state; a `_locked` section or a database transaction is
one step. `dafny verify dfyconfig.toml` checks everything.

The modules, by component:

- **Cache over object storage.** `CacheModel`, `CacheCollect` and `CacheOps` say on values what `reconcile`,
  `collect`, `ensure_space`, `evict` and `resolve` do and prove what the results mean; the class
  `Cache.Cache` does the same in place, method by method, and is tied to those functions. `CacheHistory`
  runs any sequence of operations by any processes, with any answers of the store and any crashes and
  reboots; `CacheAccounts` keeps the books of bytes, pins and use over such histories. `Leases` follows one lease through pid reuse and reboots. `Markers` is the marker walk with its
  explicit stack, `Recovery` the rebuilding of lost rows, `Keys` the key syntax.
- **The one-GPU queue.** `GpuQueue` is a multi-process state machine over advisory locks that the kernel
  drops on a crash: claiming and inserting a run, listing, looking ahead, locking, cancelling, dropping
  abandoned runs. `is_held` is two steps, so that a probe can make another attempt fail. `GpuHistory` states
  what holds after every interleaving.
- **Runs and checkpoints.** `Lifecycle` is one run with an exception possible at every call that stages,
  trains, publishes or settles. `Checkpoints` and `CheckpointHistory` are the lineage directory and what
  survives in it over any sequence of runs, sweeps and prunes.
- **Algorithms.** `EditDistance`, `Shards`, `Metrics`, `Sweep`, `Codec`, `Tracer` and `Advantages`.
- **Immutability and approval.** `Blocks` over histories of plans, outside edits, forks and saves; `Approval`
  over histories of approvals and of anything written into experiment folders.
- `Wrappers` declares `Option` and `Result`.

Some promises hold only under a condition. The code is kept as it is, an input that breaks the promise is
given, and the exact condition is proved:

- `resolve` can return the path of an artifact it has just collected again, and lease it
  (`CacheHistory.AnUnderestimateGivesItselfBack`); exactly when is `CacheOps.ResolvedIsThereUnlessGivenBack`.
- Two runs with the same timestamp can take the GPU against the id order (`GpuHistory.TiesCanInvert`); the
  order in `(submitted_at, id)` needs distinct timestamps, the order in `submitted_at` nothing.
- A run id drawn twice makes a live terminal look gone and drops its run
  (`GpuHistory.CollidingIdDropsALiveRun`): the id has four hexadecimal digits and the owner file is replaced
  before the row is inserted. Claims and abandonment are proved for ids that are new when first used.
- A lease can outlive its holder where a start time is unknown (`Leases.UnknownStartOutlivesItsHolder`); after
  any history, exactly when is `Leases.LeaseLivesWithItsHolder`. An entry that cannot be parsed hides a zombie
  as well.
- A key whose name ends in a newline is accepted, because `$` also matches before a final newline, and does
  not read back (`Keys.NewlinesSlipThrough`, `Keys.ReadBack`).
- `follow` counts characters of translated text and seeks bytes: with `\r\n` in the file it reads lines
  again (`Metrics.PairsAreReadAgain`). It reads each line once exactly when there is none in what was
  complete before its last pass, nor one cut by the end of that (`Metrics.OnceExactlyWithoutPairs`), and how
  many points come again is `Metrics.RepeatedExactly`.
- Two batches of rollouts carry the same round number exactly when nothing from the first of them up to the
  second was written to the end (`Tracer.RoundsAreBatches`): an error in a write, the flush or the callback is
  swallowed before the counter moves.
- An edit of a used block that no longer imports cannot be saved as a new block (`Blocks.SavingRestores`).
- A run whose outputs are all published still ends as failed when settling its checkpoints raises
  (`Lifecycle.Run.Execute`).
- A marker that is JSON but carries no usable key makes `reconcile` raise (`Recovery.Reconcile`).
- Where there is no key, `require_approved` lets an unsigned approval through outside the sandbox
  (`Approval.Host.RequireApproved`); the guarantee is about hosts that hold the key.

## Model

| member | source | states |
|---|---|---|
| CacheOps.CollectTakesTheShortestStretch | nawat/cache.py:519-552 | `collect` evicts exactly the reclaimable artifacts of the shortest least-recently-used stretch that reaches the target, or all of them; every other one it passed is reported with the gate that stopped it; nothing else changes |
| CacheOps.EvictedExactlyWhenNeeded | nawat/cache.py:529-552 | a listed artifact is evicted if and only if it may go and the reclaimable ones used less recently do not suffice |
| CacheOps.DryRunPredicts | nawat/cache.py:545-548 | a dry run reports what the real run evicts, skips and frees, and deletes nothing |
| CacheOps.CollectDeletesOnlySafely | nawat/cache.py:501-552 | whatever the replication flags say, a deleted artifact was unpinned, unleased and just listed remotely with every local file at the same size |
| CacheOps.ReturningMeansRoom | nawat/cache.py:554-567 | a returning `ensure_space` leaves `need` under the ceiling and, when row sizes match the disk, at least `need` and the reserve free |
| CacheOps.RaisesOnlyWhenNothingHelps | nawat/cache.py:554-593 | it raises if and only if, with every reclaimable artifact gone, `need` would still exceed the ceiling or eat into the disk reserve |
| CacheOps.NothingAskedFor | nawat/cache.py:561-567 | with nothing asked for it returns and changes nothing |
| CacheOps.DeficitIsLeast | nawat/cache.py:554-559 | the target is the least amount that has to go for `need` to fit under the ceiling and above the reserve |
| CacheOps.TooLittleMeansNothingLeft | nawat/cache.py:529-552 | a collection that falls short of its target leaves nothing that may go |
| CacheOps.EachIsToldWhy | nawat/cache.py:535-544 | what is passed over is reported as kept, in use or unverified: the first of the three that applies |
| CacheOps.EvictDeletesExactlySafely | nawat/cache.py:595-616 | a non-forced `evict` deletes if and only if that is safe, and touches no other tree |
| CacheOps.EvictAnswers | nawat/cache.py:595-616 | each refusal of `evict`, forced or not, exactly when it applies; otherwise row and tree go, their disk is free, and the bytes of the row are the answer |
| CacheOps.VerifyingRecords | nawat/cache.py:501-515 | the flag says after a verification whether the store has every local file at its size, if the store answered |
| CacheOps.WhatReconcilingLeaves | nawat/cache.py:288-321 | rows of what is there, the old ones untouched; the leases of live holders only; no tree and no byte changes |
| CacheOps.ResolvedIsThereUnlessGivenBack | nawat/cache.py:376-389 | after `resolve` returns, the artifact is on disk, except exactly when it was collected again before the lease was taken |
| CacheOps.ResolvedIsThereWhenTheEstimateHolds | nawat/cache.py:391-428 | it is on disk whenever no more arrives than was expected, or nothing was expected |
| CacheOps.ResolvingStaysWithinLimits | nawat/cache.py:391-428 | a fetch leaves the cache under its ceiling and above the reserve when no more arrives than was announced; when more arrives, it does or nothing more may go |
| CacheOps.ResolveAnswers | nawat/cache.py:376-428 | the first failure in the order of the program, with no lease taken; a hit changes the time of use only |
| CacheHistory.EveryDeletionIsSafe | nawat/cache.py:501-552 | at any point of any history, with stale flags and store outages, every deletion by any operation happens when that operation, with its own rows and the answers of its own store, finds the artifact unpinned, unleased and listed file by file at the same size |
| CacheHistory.HeldStays | nawat/cache.py:538-541 | no operation of any process removes a live lease or the artifact under it |
| CacheHistory.HeldThroughout | nawat/cache.py:595-616 | a held artifact stays held through any history in which its lease is not released and keeps counting as live |
| CacheHistory.ResolvedAndLeasedStaysOnDisk | nawat/cache.py:378-389 | an artifact leased inside `resolve` stays on disk through every later operation until the lease is released or its holder dies, unless it gave itself back first |
| CacheHistory.TheHolderDecides | nawat/leases.py:57-68 | over any history of cache and machine a lease counts as live if and only if the very process that took it still runs, or there is no telling: a process has its pid in the same boot and one of the two start times is unknown |
| CacheHistory.StaysWhileItsHolderRuns | nawat/cache.py:376-389 | what a process resolved with a lease stays on disk, whatever other processes, deaths, reused pids, unreadable start times and reboots do, for as long as that process runs and does not release it |
| CacheHistory.AnUnderestimateGivesItselfBack | nawat/cache.py:426-428 | a concrete cache in which the trailing collection deletes what was just fetched |
| CacheAccounts.BooksBalance | nawat/cache.py:264-321 | through any history what is free and what the trees hold add up to the same, and rows that record bytes and file counts of their trees go on doing so |
| CacheAccounts.PinnedStays | nawat/cache.py:459-472 | a pinned artifact stays on disk and pinned through every operation until it is released |
| CacheAccounts.ReleasedMayGo | nawat/cache.py:459-472 | releasing an artifact leaves it there, unpinned |
| CacheAccounts.ResolvedGoesLast | nawat/cache.py:277-280 | what was resolved last, hit or fetched, is last in the order of collection |
| CacheAccounts.FetchedComesBack | nawat/cache.py:254-321 | the row of a fetched artifact, lost and recovered, has the same bytes, file count and time of fetching |
| CacheCollect.SweepStops | nawat/cache.py:529-552 | the loop stops at the first point that suffices, with what was evicted, refused, freed and left |
| Cache.Cache.Reconcile | nawat/cache.py:288-321 | rows without a tree go, marked trees without a row come back, dead leases are reaped |
| Cache.Cache.FindDeficit | nawat/cache.py:554-559 | the larger of what exceeds the ceiling and what the disk reserve lacks, never negative |
| Cache.Cache.VerifyForEviction | nawat/cache.py:501-515 | true if and only if the store listed every local file by name and size; the flag is corrected when the store answered |
| Cache.Cache.VisitArtifact | nawat/cache.py:529-551 | one turn of the loop: the gates in order, and what each does to cache and result |
| Cache.ListByUse | nawat/cache.py:532 | every row once, least recently used first |
| Cache.SumSizes | nawat/store.py:70-71 | the total of the sizes, in whatever order they are added |
| Cache.Cache.WalkListing | nawat/cache.py:531-552 | the loop over the listing leaves the cache and the result that the specified loop leaves after all of it, wherever it breaks off |
| Cache.Cache.CollectReconciled | nawat/cache.py:528-552 | target, loop and result on a reconciled cache, as specified |
| Cache.Cache.Collect | nawat/cache.py:519-552 | the loop over artifacts by last use yields the specified result and cache for the listing it made, which is by last use and complete |
| Cache.Cache.EnsureSpace | nawat/cache.py:561-593 | returns or raises as specified, with the specified cache |
| Cache.Cache.Evict | nawat/cache.py:595-616 | the refusals in order, or the deletion, as specified |
| Cache.Cache.SetPinned | nawat/cache.py:459-472 | pins or releases one row and nothing else |
| Cache.Cache.DeleteLocal | nawat/cache.py:618-622 | tree, row and disk space of one artifact go, nothing else |
| Cache.Cache.PlaceArtifact | nawat/cache.py:415-428 | the staged tree appears with marker and row, and an underestimate is collected |
| Cache.Cache.FetchArtifact | nawat/cache.py:391-428 | room, transfer, placing and the collection of what the estimate missed, with every way to fail |
| Cache.Cache.Resolve | nawat/cache.py:376-389 | hit or fetch, then the lease, under one lock |
| Leases.LeaseLivesWithItsHolder | nawat/leases.py:57-68 | through any deaths, reboots, pid reuse and entries that cannot be parsed, a lease counts as live if and only if the very process that took it still runs, or a process has its pid in the same boot and one of the two start times is unknown |
| Leases.UnknownStartOutlivesItsHolder | nawat/leases.py:66-67 | a lease dies with its holder, and a new process on the pid revives it if and only if the start time of one of the two is unknown |
| Markers.WalkMarkers | nawat/cache.py:323-346 | the explicit-stack walk terminates and yields exactly the marked directories at most six names down that are reached through unmarked, listable ones, outside the skipped paths and directories named `.nawat…`, each once |
| Markers.FoundAreShallowest | nawat/cache.py:328-346 | a marker is found if and only if an open way of unmarked, listable, entered directories leads to it |
| Markers.FoundAreDistinct | nawat/cache.py:328-346 | no directory is found twice |
| Recovery.Reconcile | nawat/cache.py:296-320 | the rows after reading the markers found; it fails if and only if one of them is malformed |
| Recovery.RegisterAll | nawat/cache.py:302-320 | the loop over markers: unreadable ones are skipped, known keys left alone, a malformed one raises after those before it were registered |
| Recovery.WhatComesBack | nawat/cache.py:300-320 | with all rows lost and no malformed marker, a key comes back if and only if a marker the walk reaches carries it |
| Recovery.KeysAtHomeComeBack | nawat/cache.py:288-346 | where markers stand at the places their keys name, a lost key comes back if and only if it has at most six segments and is reached through unmarked, listable, unskipped directories; its row then counts its files |
| Recovery.WhatComesBackBeforeItRaises | nawat/cache.py:302-320 | with a malformed marker, exactly the keys of the markers the walk finds before the first such one come back |
| Recovery.LostRowsComeBack | nawat/cache.py:288-320 | with markers where their keys say, losing any rows and reconciling restores the same keys, bytes and file counts, and leaves the others alone |
| Recovery.ReconcilingAgainChangesNothing | nawat/cache.py:288-320 | reconciling twice is reconciling once |
| Keys.ParsedIsValid | nawat/keys.py:48-78 | a parsed key is of a known kind, with usable names only, and is the text it was parsed from |
| Keys.ParsesExactly | nawat/keys.py:48-78 | a text with nothing to strip is a key if and only if it has 1 to 512 characters, two segments or more, one of the four kinds first and plain names throughout, a final newline in a name apart; which errors say what is missing |
| Keys.RefusedExactly | nawat/keys.py:53-59 | when a text is refused as empty, too long, or for a backslash |
| Keys.FirstBadSegmentCounts | nawat/keys.py:60-73 | the first segment that is no name decides the error: empty, relative, or badly spelt |
| Keys.EndsAreStripped | nawat/keys.py:53 | white space around a text, and slashes inside that, change nothing |
| Keys.ReadBack | nawat/keys.py:48-81 | writing a key and parsing it gives it back, except exactly when its path ends in a newline |
| Keys.NewlinesSlipThrough | nawat/keys.py:48-81 | such keys do get parsed, when written with a final slash |
| Keys.PathsAreKeys | nawat/keys.py:84-99 | local paths tell keys apart and never leave the cache root |
| Keys.PrefixesMatchWholeSegments | nawat/keys.py:88-90 | an object prefix covers another key's objects if and only if that key lies inside this one |
| GpuHistory.OneExecutorOnTheGpu | nawat/gpulock.py:84-132 | in every interleaving at most one live executor is between taking and releasing the GPU, and it holds the lock |
| GpuHistory.HeldLocksHaveLiveHolders | nawat/gpulock.py:68-110 | a crash never leaves the GPU locked: the holder of a held lock is alive, on the GPU or testing it |
| GpuHistory.OneWorker | nawat/executor.py:692-706 | only one process serves the queue |
| GpuHistory.TheOldestTakesTheGpu | nawat/executor.py:371-401 | when a queued run takes the GPU nothing submitted earlier is still queued; with distinct timestamps nothing is ahead of it |
| GpuHistory.AcquisitionsGoForward | nawat/executor.py:371-401 | acquisitions never go back in submission time, nor in `(submitted_at, id)` with distinct timestamps |
| GpuHistory.ClaimedRunsAreNotServed | nawat/executor.py:680-686 | a run a terminal claimed is never executed by a worker |
| GpuHistory.GoneMeansGone | nawat/gpulock.py:142-164 | "gone" is never concluded about a run that a live terminal claims, concurrent probes or not |
| GpuHistory.DroppedRunsNeverTrain | nawat/executor.py:425-440 | a run that `drop_abandoned` cancelled never had its trainer started and never gets it |
| GpuHistory.OneExecutorPerRun | nawat/executor.py:304-315 | no run is executed by two processes |
| GpuHistory.TiesCanInvert | nawat/runs.py:371-373 | a history in which equal timestamps invert the id order |
| GpuHistory.CollidingIdDropsALiveRun | nawat/lab/cli.py:303-312 | from any state where a claimed run waits, a terminal that draws the same id gets it dropped |
| GpuHistory.CancelledInTimeNeverTrains | nawat/executor.py:458-461 | a run cancelled before its executor last looks at the mark never gets its trainer started, in any continuation |
| GpuHistory.WaitersSeeTheMark | nawat/executor.py:384-393 | an executor that finds the mark while it waits leaves without the GPU and its row says cancelled |
| GpuHistory.RowsChange | nawat/runs.py:296-326 | a row stays with its submission time and mark, and its state changes only by the events that say so, as they say |
| GpuHistory.WhenRowsMayChange | nawat/executor.py:606-622 | a run can be cancelled until it has ended; only an active one is recovered |
| GpuHistory.EndedRunsAreLeft | nawat/executor.py:304-308 | a run that has ended is not executed |
| GpuHistory.ServesWhenNobodyDoes | nawat/executor.py:692-706 | a process serves the queue if and only if nobody holds the worker lock |
| GpuHistory.WorkersExamine | nawat/executor.py:680-686 | a worker takes a listed run if and only if it has no owner file |
| GpuHistory.TakesItsTurn | nawat/executor.py:371-401 | with nobody ahead, no mark and the GPU free, a queued run gets the GPU in four steps and nothing else changes |
| GpuHistory.StartsItsTrainer | nawat/executor.py:317-331 | and its trainer in three more, the row staging and then running |
| GpuHistory.EndsItsTurn | nawat/executor.py:304-315 | and when that exits, the row has its end, the GPU and the owner file are free, and the process is where it came from |
| GpuQueue.LocksKept | nawat/gpulock.py:48-110 | every step keeps locks and the places of processes in agreement |
| GpuQueue.TurnsKept | nawat/executor.py:371-401 | every step keeps what a waiting process concluded about the queue true enough to act on |
| GpuQueue.OwnersKept | nawat/gpulock.py:142-164 | every step keeps claims, owner files and findings in agreement, for new ids |
| GpuQueue.ProbeFindsNoClaim | nawat/gpulock.py:96-110 | whoever holds the lock of the current owner file to test it, its owner has gone |
| Lifecycle.Run.Execute | nawat/executor.py:304-367 | however the calls go, the run ends terminal with its leases and the GPU released; it succeeded if and only if the trainer exited 0, unmarked, and everything published and settled; cancelled if and only if a mark was found; a mark before launch means no trainer, one at exit means nothing published; the lineage went through exactly the steps that the ways the calls went prescribe |
| Lifecycle.Run.ExecuteTurn | nawat/executor.py:317-367 | the same from the turn on, with the leases taken released in every case |
| Lifecycle.Run.Attempt | nawat/executor.py:321-356 | the `try` block up to the settling: how far it gets, what it published and what it did to the lineage |
| Lifecycle.Run.Prepare | nawat/executor.py:321-331 | staging and planning: the lineage is prepared if and only if everything before that returned |
| Lifecycle.Run.Fail | nawat/executor.py:451-456 | a cancelled run stays cancelled, any other has failed; if a plan was made its checkpoints are settled as those of a run that did not succeed |
| Lifecycle.Run.Publish | nawat/executor.py:333-353 | exit code 0 publishes or raises; any other publishes what it can and fails |
| Lifecycle.Run.RunProcess | nawat/executor.py:458-490 | marks are honoured before launch and at exit, and the exit code is recorded |
| Lifecycle.Run.PublishOutputs | nawat/executor.py:95-121 | the non-empty classes in order, up to the first that raises |
| Lifecycle.Run.Stage | nawat/executor.py:325-329 | on success every input is resolved and has a lease of its own; otherwise the leases taken so far are the ones returned |
| Lifecycle.Run.SettleCheckpoints | nawat/executor.py:541-578 | the rule is applied once with whether the run succeeded, and the newest survivor recorded |
| Lifecycle.PublishesEveryClass | nawat/executor.py:112-119 | when nothing raises every non-empty class is among the published |
| Lifecycle.PublishedUpToTheFirstThatRaises | nawat/executor.py:95-121 | what is published is the classes with files, in order, before the first that raises |
| Lifecycle.HowItEnds | nawat/executor.py:317-367 | which answers of the calls make a run start its trainer, succeed, end cancelled and publish, exactly |
| Lifecycle.LineageAtTheEnd | nawat/executor.py:243-258 | what a run leaves of its lineage: prepared, as last saved, and settled once or twice, by which calls raised |
| Lifecycle.GivesUpExactlyForAReason | nawat/executor.py:243-258 | what a run does to its lineage gives checkpoints up if and only if it prepares a fresh start, or publishes everything without `keep` and settles |
| Lifecycle.TrainingIsNotLost | nawat/executor.py:541-578 | whatever raises and at whichever step a crash cuts it off, a resuming run whose trainer may rotate old checkpoints away leaves the newest complete one or a later one, unless it gets to remove them |
| Lifecycle.LostExactlyWhenDiscarded | nawat/checkpoints.py:402-435 | a resuming run leaves no checkpoint if and only if it published everything without `keep` and settled |
| Checkpoints.LatestIsNewest | nawat/checkpoints.py:260-278 | `latest` is complete and none is later; there is one if and only if something is complete |
| Checkpoints.LatestOnDisk | nawat/checkpoints.py:260-278 | the same on the directory itself: the one with the greatest step in its state file, the latest written among equal ones, with that step and time |
| Checkpoints.ReadsTheStateFile | nawat/checkpoints.py:236-252 | step, time and completeness that result from each kind of state file |
| Checkpoints.NamesTellTheStep | nawat/checkpoints.py:230-233 | the number in a directory name is its step; any other name has step 0 |
| Checkpoints.Directory.Scan | nawat/checkpoints.py:260-272 | the checkpoint directories, stably sorted by step and time |
| Checkpoints.Directory.LatestUsable | nawat/checkpoints.py:275-278 | the last complete checkpoint read |
| Checkpoints.Directory.SweepPartial | nawat/checkpoints.py:336-353 | removes exactly what the rule names, and says what |
| Checkpoints.Directory.Prune | nawat/checkpoints.py:369-387 | removes exactly what is spare, and says what |
| Checkpoints.Directory.Settle | nawat/checkpoints.py:402-435 | sweeps, discards on success without `keep`, returns the newest survivor |
| Checkpoints.Directory.Prepare | nawat/executor.py:243-258 | discards only without `resume`; resumes from the newest complete checkpoint |
| CheckpointHistory.SweepTakesOnlyTorsos | nawat/checkpoints.py:336-353 | a directory goes if and only if it is incomplete or temporary and something complete stays |
| CheckpointHistory.SweepOnDisk | nawat/checkpoints.py:336-353 | the same by names and state files: temporaries and checkpoints without a step field go, if and only if one with it is there |
| CheckpointHistory.PruneKeepsTheNewestFew | nawat/checkpoints.py:369-387 | exactly the `keep` newest complete ones stay, none taken is later than one left, and nothing goes when nothing is complete |
| CheckpointHistory.ProgressIsNeverLost | nawat/checkpoints.py:336-435 | over any sequence of failed, cancelled or crashed runs, sweeps and prunes the newest complete step never decreases |
| CheckpointHistory.ResumesWhereItSettled | nawat/checkpoints.py:402-435 | until a trainer runs again, the next run resumes from exactly what the last settling recorded |
| CheckpointHistory.SettlesOnTheNewest | nawat/checkpoints.py:402-435 | what is recorded is the newest complete checkpoint of before, unless the run succeeded without `keep`; then the lineage goes, and otherwise what a sweep takes |
| CheckpointHistory.LostExactlyWhenGivenUp | nawat/checkpoints.py:369-435 | checkpoints to resume from disappear in exactly four kinds of step: a fresh start, success without `keep`, and the two commands |
| EditDistance.EditDistance | nawat/lab/support.py:263-270 | the two-row loop returns the least cost over all scripts of keeping, replacing, deleting and inserting, and some script has it |
| EditDistance.ZeroExactlyOnEqual | nawat/lab/support.py:263-270 | the distance is zero if and only if the sequences are equal |
| EditDistance.Symmetric | nawat/lab/support.py:263-270 | the distance is symmetric |
| EditDistance.Triangle | nawat/lab/support.py:263-270 | the distance satisfies the triangle inequality |
| EditDistance.OneChangeCostsOne | nawat/lab/support.py:263-270 | replacing, leaving out or putting in one element is a distance of one |
| Shards.Pack | nawat/shards.py:65-110 | every file in exactly one shard, in order, none over the limit, none opened while the file still fitted; the index says so; an oversized file raises and leaves the old index |
| Shards.Packing.Place | nawat/shards.py:97-105 | a file goes into the open shard when it fits, else opens the next; the packing stays in order, within the limit and tight |
| Shards.Packing.CloseCurrent | nawat/shards.py:74-81 | the open shard gets its size and its index entry |
| Shards.Packing.OpenNext | nawat/shards.py:83-88 | an empty shard under the next number |
| Shards.Packing.Add | nawat/shards.py:100-102 | the file is the last member of the open shard, counted and weighed |
| Shards.NeighboursExceed | nawat/shards.py:97-99 | two neighbouring shards together exceed the limit |
| Shards.NoSplitIsShorter | nawat/shards.py:91-107 | no order-preserving cut within the limit has fewer shards |
| Shards.OnlyOneTightSplit | nawat/shards.py:91-107 | the files and the limit settle the packing |
| Shards.Verify | nawat/shards.py:120-142 | passes if and only if the index tells the truth; otherwise names the first entry at fault |
| Shards.PackedIsTruthful | nawat/shards.py:109-142 | what `pack` writes always passes |
| Shards.IndexAddsUp | nawat/shards.py:74-118 | each entry tells of its own shard, within the limit, and the totals are those of the files and of the entries |
| Shards.TruthfulExactly | nawat/shards.py:120-142 | an index passes if and only if every shard is there with its bytes and number of files, and these add up |
| Shards.FaultExactly | nawat/shards.py:124-139 | what is named is the first shard at fault: missing, of another size, or of another count |
| Shards.DamageIsNoticed | nawat/shards.py:124-139 | losing a shard or changing its size or count is noticed |
| Shards.Unpack | nawat/shards.py:145-154 | extracts the shards in index order and counts the files |
| Shards.UnpackRestores | nawat/shards.py:145-154 | unpacking what was packed gives back every file with its content and nothing else |
| Metrics.Follow | nawat/metrics.py:126-158 | the loop over any interleaving with writer and `still_running` yields what the passes read, and ends one pass after the first answer that is no; when it ends, the writer appending only and having stopped by that answer, it has yielded the points of every complete line of the finished file, if there is no `\r\n` before the last pass |
| Metrics.Pass | nawat/metrics.py:140-152 | one read from the position: complete lines only, after what was yielded before, and the position as far as they reach |
| Metrics.Collect | nawat/metrics.py:97-101 | the points of the lines that parse, in order |
| Metrics.ReadPoints | nawat/metrics.py:93-102 | the points of all lines, in order |
| Metrics.TextIsTranslated | nawat/metrics.py:142-145 | text mode turns a carriage return, with the newline after it if there is one, into one newline, and nothing else |
| Metrics.LinesAreSplit | nawat/metrics.py:97 | lines end at the seven characters of ASCII that `splitlines` knows, a pair counting once, and a last line needs no end |
| Metrics.EachLineIsParsed | nawat/metrics.py:97-102 | each line gives its point in its place, or none |
| Metrics.EachCompleteLineOnce | nawat/metrics.py:138-158 | with an append-only writer and no `\r\n` before the pass, what was yielded up to a pass is one read of the complete lines there are, each once and in order |
| Metrics.OnceExactlyWithoutPairs | nawat/metrics.py:142-152 | with a parser that takes every line, that is so if and only if there is no `\r\n` in the lines complete at the pass before, nor cut by their end |
| Metrics.RepeatedExactly | nawat/metrics.py:142-152 | with a parser that takes no blank line, as `_parse`, the points yielded beyond each complete line once are exactly as many as there are in what was read again, and it is each line once if and only if there are none |
| Metrics.EndsWithEverything | nawat/metrics.py:152-158 | the pass after the answer no reads whatever was written before that answer: all of the finished file is yielded |
| Metrics.OnALineBoundary | nawat/metrics.py:146-152 | the position never passes the end of the complete lines, and a pass takes it there if and only if what it reads has no `\r\n` |
| Metrics.AgreesWithOneRead | nawat/metrics.py:93-158 | with no `\r\n` before the pass it agrees with a single whole read if and only if the unfinished last line is no point |
| Metrics.CharactersCountBytes | nawat/metrics.py:142-152 | counting translated characters counts bytes if and only if there is no `\r\n` |
| Metrics.PairsAreReadAgain | nawat/metrics.py:142-152 | four `\r\n` lines read twice yield five points |
| Sweep.SplitValues | nawat/lab/sweep.py:38-60 | the character loop gives the trimmed, non-blank texts between separating commas |
| Sweep.Nonempty | nawat/lab/sweep.py:60 | the values that are not empty, in order |
| Sweep.SplitUndoesJoin | nawat/lab/sweep.py:38-60 | splitting a joined list gives it back if and only if its values are trimmed, not empty, without a separating comma, and all but the last leave quotes and brackets as they found them |
| Sweep.MatchedValueStaysWhole | nawat/lab/sweep.py:38-60 | a value made of plain text, quoted strings and matched brackets, nested in any way, is not cut |
| Sweep.MatchedListsSplit | nawat/lab/sweep.py:38-60 | a list of such values, joined by commas, splits into them |
| Sweep.QuotedCommasStay | nawat/lab/sweep.py:42-48 | after `"…"` or `'…'` with any commas inside, splitting goes on behind the next comma |
| Sweep.BracketedCommasStay | nawat/lab/sweep.py:49-55 | the same for `[…]` and `{…}` |
| Codec.Interleave | nawat/lab/library/dataset/tts-snac.py:69-82 | the seven tokens of each frame, each with its offset; it fails if and only if a level is too short |
| Codec.FramesAreLaidOut | nawat/lab/library/dataset/tts-snac.py:74-81 | the seven tokens of a frame by place and offset, in multiples of 4096 |
| Codec.CodesComeBack | nawat/lab/library/dataset/tts-snac.py:73-82 | the codes can be read back from the tokens |
| Codec.TokensComeBack | nawat/lab/library/dataset/tts-snac.py:73-82 | any whole frames are the interleaving of the codes read from them |
| Codec.OwnBandsExactly | nawat/lab/library/dataset/tts-snac.py:74-81 | every token lies in the band of its place if and only if all codes are below 4096 |
| Codec.Dedupe | nawat/lab/library/dataset/tts-snac.py:99-107 | keeps the first frame of every run that shares a first code; raises if and only if the length is not whole frames |
| Codec.KeepOpeners | nawat/lab/library/dataset/tts-snac.py:103-106 | its loop: comparing with the last kept frame keeps exactly the frames that differ from the one before them |
| Codec.DedupeIsIdempotent | nawat/lab/library/dataset/tts-snac.py:99-107 | a second pass changes nothing, and a first one changes nothing if and only if there are no runs |
| Codec.NoFirstCodeIsLost | nawat/lab/library/dataset/tts-snac.py:99-107 | every first code still occurs |
| Codec.EachRunIsKeptOnce | nawat/lab/library/dataset/tts-snac.py:99-107 | one frame is kept for each run, the first, whole and in its place |
| Tracer.RolloutTracer.Collect | nawat/lab/trace.py:143-152 | one call: the pending batch grows, or is flushed with its lines as far as writing comes; it raises, and leaves the round as it was, if and only if a function left scores short, or a write, the flush or the callback raises |
| Tracer.RolloutTracer.Flush | nawat/lab/trace.py:154-195 | the lines of a batch with group, member, rewards, total and advantage, up to the write that raises; the round advances if and only if nothing raises |
| Tracer.EachBatchOnce | nawat/lab/trace.py:143-152 | in any interleaving, whatever raises, the calls for an identity are one per function for each flushed batch plus those of the live one; a live batch holds what each function gave last, and a flushed one what each had given last at one of its calls |
| Tracer.FlushedByTheLastCall | nawat/lab/trace.py:143-152 | a batch is flushed by a call if and only if all other functions have scored it, and then holds all their scores |
| Tracer.RoundsAreBatches | nawat/lab/trace.py:166-195 | the round counter is the number of flushed batches if and only if none was left short and nothing raised; two batches share a round if and only if nothing from the first up to the second came through |
| Tracer.CallIsAdded | nawat/lab/trace.py:143-146 | a call adds its scores, or one missing score per completion, to the live batch of its identity or to a new one |
| Tracer.RolloutTracer.LinesTell | nawat/lab/trace.py:154-186 | how many lines a completed batch leaves, and what each says of its completion |
| Advantages.ComputeAdvantages | nawat/lab/trace.py:197-212 | the loop over groups gives each completion the advantage of its place |
| Advantages.OfGroup | nawat/lab/trace.py:202-211 | one group: none where the total is missing, else the centred and scaled total |
| Advantages.GroupSumsToZero | nawat/lab/trace.py:197-212 | the advantages present in a group sum to zero |
| Advantages.ShiftChangesNothing | nawat/lab/trace.py:197-224 | raising all totals by the same amount changes no advantage |
| Advantages.OnlyItsOwnGroupCounts | nawat/lab/trace.py:197-224 | unless scaled by the batch, a group's advantages depend on its own totals only, up to a shift |
| Advantages.OrderIsKept | nawat/lab/trace.py:197-212 | within a group one advantage is below another if and only if its total is |
| Advantages.TotalIsTheWeightedSum | nawat/lab/trace.py:159-165 | no total if and only if all scores are missing; zero of zeros; and one score changes it by its weight times the difference |
| Advantages.SpreadIsPairwise | nawat/lab/trace.py:220-224 | the squared deviations from the mean are the squared differences of all pairs, over their number |
| Advantages.AdvantageExactly | nawat/lab/trace.py:202-211 | an advantage is the total less the mean of its group, over the sample deviation of group or batch and 1e-4, or over nothing |
| Advantages.GroupOfPlace | nawat/lab/trace.py:201-202 | the group of a completion: from the last multiple of the group size up to the next or the end |
| Blocks.Library.Plan | nawat/lab/experiment.py:262-450 | succeeds if and only if every block loads, is unchanged since first use, and the rest fits; then locks each; names the first refusal otherwise |
| Blocks.Library.LockBlock | nawat/lab/blocks.py:276-288 | the first use records hash and copy; later uses and built-in blocks change nothing |
| Blocks.Library.Fork | nawat/lab/blocks.py:303-310 | the state and result of a fork, errors in order |
| Blocks.Library.SaveAs | nawat/lab/blocks.py:312-328 | the state and result of saving an edit, errors in order |
| Blocks.Library.New | nawat/lab/blocks.py:330-338 | a template under a free name, never over a block |
| Blocks.HistoryKeeps | nawat/lab/blocks.py:252-345 | after any history every lock has its original, which is what its hash says and loads, and every use is traced to it |
| Blocks.OneContentPerName | nawat/lab/blocks.py:264-288 | over any history all experiments that used a block used the same content |
| Blocks.OriginalIsRecoverable | nawat/lab/blocks.py:340-345 | the content an experiment used stays recoverable |
| Blocks.PlannableExactlyWhenAsUsed | nawat/lab/blocks.py:264-274 | a used block can be planned with again if and only if its file is what was used |
| Blocks.SavingRestores | nawat/lab/blocks.py:312-328 | exactly when an edit can be saved; then the original is back, the edit under the new name, and nothing else changed |
| Blocks.ForkCopiesTheOriginal | nawat/lab/blocks.py:303-310 | a used block can be forked if and only if its file loads and the name is free; the fork is what was used, edited since or not |
| Blocks.ForkOfAnUnusedBlock | nawat/lab/blocks.py:303-328 | a built-in or never-used block is forked as it stands, if and only if it loads and the name is free; no edit of it can be saved |
| Blocks.PlannableExactly | nawat/lab/blocks.py:264-274 | a block can be planned with if and only if it is there, loads, and was never used with another hash |
| Blocks.WhyRefused | nawat/lab/experiment.py:262-300 | planning stops at the first block that is missing, does not load, or was edited since its first use, and says which |
| Blocks.PlanFreezesWhatIsThere | nawat/lab/blocks.py:276-288 | a plan freezes what is there under each name, locks exactly the names not locked yet, in its own name, and keeps their originals; any other changes nothing |
| Blocks.LocksNeverChange | nawat/lab/blocks.py:276-288 | over any history a lock stays as it was set |
| Approval.HashSaysTheSame | nawat/lab/experiment.py:155-167 | two intact experiments have the same plan hash if and only if names, code, parameters and inputs are the same |
| Approval.Host.RequireApproved | nawat/lab/experiment.py:169-195 | lets a run through if and only if the folder is intact, unchanged since planning, approved for this plan, and signed where the key is |
| Approval.Host.Sign | nawat/lab/experiment.py:211-227 | makes the key when there is none, and issues exactly this signature |
| Approval.Host.Approve | nawat/lab/experiment.py:537-553 | approves and signs if and only if outside the sandbox, intact, and the code typed is the plan's |
| Approval.Host.CombinedHash | nawat/lab/sweep.py:133-135 | the hash over the plan hashes of all experiments, if all are intact |
| Approval.Host.ApproveSweep | nawat/lab/sweep.py:157-174 | approves every experiment of an unchanged sweep if and only if its one code was typed |
| Approval.HistoryAccounts | nawat/lab/experiment.py:225-250 | after any history every issued signature covers a plan a person approved, and every good signature on disk was issued |
| Approval.OnlyApprovedPlansRun | nawat/lab/experiment.py:169-250 | on a host with the key, whatever was written in between, a run let through has the same names, code, parameters and inputs as a plan for which somebody, outside the sandbox, typed its code, or the code of a sweep that holds it |
| Approval.ApprovingTakesTheCode | nawat/lab/experiment.py:537-553 | an approval signs and writes if and only if the experiment is intact, it is outside the sandbox, and the code of its plan hash was typed; otherwise nothing changes |
| Approval.ApprovingASweepTakesTheCode | nawat/lab/sweep.py:157-174 | the same for a sweep, with the code of the hash over its plan hashes |
| Approval.AChangedPlanNeedsANewApproval | nawat/lab/experiment.py:169-195 | whatever is written over an approved experiment, it is let through if and only if its plan is still the one approved |
| Approval.SandboxRunsWhatTheHostChecked | nawat/lab/experiment.py:180-195 | in the sandbox, without the key, exactly the plan whose hash the host verified is let through |
| Approval.WithoutTheKeyTheFileIsBelieved | nawat/lab/experiment.py:180-195 | without the key outside the sandbox, an approval file for this plan is enough |
| Approval.ApprovedPasses | nawat/lab/experiment.py:169-195 | an approval lasts through any other approvals and writes: until somebody writes into its folder the experiment is let through if and only if the folder was as planned |

## Left out

- Cached keys nested in one another: trees of different keys are taken not to overlap.
- In histories: forced eviction, `publish` replacing a target or deleting a tree already in its place, deletion behind the cache's back, `rmtree` that fails half-way.
- `Cache.holding` and the executor's own leases, taken after the cache lock is released: no guarantee about eviction in between is stated for them.
- An unmarked or empty directory at the target of a fetch: taken to make the rename fail.
- The order in which a directory is listed is taken as given, and to stay the same for what is left after a removal.
- `Cache.Cache.Reconcile`: takes trees by key with an optional marker; malformed and misplaced markers are in `Recovery`, on values.
- GpuQueue: the waiting and serving loops and the lock files are modelled as interleaved steps on values, not as objects in place; nothing is claimed about liveness, polling intervals or the messages they write.
- The sandbox's separate run store that shares the GPU lock, and trainer processes orphaned by a crash of their executor.
- Machines without `/proc`, or where it hides processes, and boot ids that cannot be read: the table is taken to show every process.
- Run ids are numbers, standing for their rank in string order; a worker may pick any listed queued run without an owner file, not only the first.
- Database updates in the executor, releasing leases and recording a failure are taken to succeed; the finalizing of an experiment folder is not modelled.
- A state file of a checkpoint that is JSON but no object; files and links inside a lineage directory; digits other than ASCII in a directory name.
- Contents of artifacts beyond file name and size, multipart transfer, thread pools, hub and object-storage clients, SQLite, tar, TOML and JSON encodings.
- Text is ASCII for line splitting, and Latin-1 for what `strip` removes.
- Floating point: totals and advantages are over the reals, with the square root as a parameter; `NaN` is a missing score. Step numbers, extra columns, timestamps and file rotation of traces are not modelled, nor lines that a raising write leaves half written.
- `plan_experiment` is one step: an edit between hashing a block and copying it is not modelled. Choosing blocks and parameters, fingerprints of evaluations and rendered plans are not modelled.
- `run.py`, which the executor runs, is not part of the plan hash: the theorems about approval are about what is hashed.
- A code is compared as typed: that `approve` first strips white space from it and ignores case is not modelled.
- Hashes are injective and signatures ideal: a good signature exists only if it was issued. An approval made without a configuration, which is not signed, is a write into the folder.
- `cer`, `wer`, `boxed`, `follow_log` and `series`: they would add easy members.
- Sessions, the sandbox container, HTTP, printing, presets and training code.
