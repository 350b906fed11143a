# KotlinConf challenge plugin: keyed task supervisor and challenge-sheet cache, in Dafny

This project models two parts of the KotlinConf challenge IntelliJ plugin and proves properties about them.

**The keyed task supervisor** is `incrementalAsyncMapGroupingByImplementation` in `KotlinFileOnChangeSaver.kt`.
- It takes a flow of item snapshots and groups each snapshot by a key selector.
- It keeps one mapper task per key, plus one value cell per key that holds the key's current items.
- A key that leaves the snapshot is either dropped at once or parked for a grace period.
- A grace canceller cancels and removes a parked key, unless the key comes back first.

The model has three parts:
- Module `KeyedTaskState` holds the lock-protected bookkeeping as a value (a `Ledger`). It contains the per-key map, the launched tasks, the grace cancellers, the cells and the log of maps sent downstream.
- The same module has each step as a function: `addingNewKey`, `removingKey`, a task finishing, the two halves of a grace canceller, and draining at the end of the flow.
- `Consistent` is the invariant that every step keeps.

Module `KeyedTaskSupervisor` holds that state in the class `Supervisor`, whose methods are the steps.
- `Snapshot` is the `collect` loop. It visits every key of the new and the previous snapshot and ends with each key `Settled`.
- `Shutdown` is the loop that drains the grace cancellers when the flow ends.
- `KeyedTaskScenarios` runs the supervisor through the grace-period cases: a key that returns in time, one that returns after its task was cancelled, one whose grace period runs out, and a removal with no grace period.

**The challenge-sheet cache** is `ChallengeDownloadCachingService.kt`.
- Module `ChallengeSheet` parses the CSV export of the challenge sheet. It covers `parseDuration`, the hour and minute parsing of `parseEndTime`, and the row mapping with its row-numbered errors.
- Module `DownloadCaching` holds the persisted `DownloadCache` and its `copy`, and the "needs refresh" rule.
- In the same module, the class `ChallengeDownloadCachingService` has cache-first `getImage`, `updateRealState`, `hydrateImages` and `downloadAndCacheChallenges`/`hydrateFreshCaches`.
- Module `Text` models the Kotlin standard-library string functions these use:
  - `toInt` (Integer.parseInt, decimal only);
  - `split` (keeps empty parts);
  - `lines`;
  - `substringBefore` and `substringAfter`.

A task, canceller or cell is named by its index in the ledger's sequence. HTTP responses, downloaded bytes and the clock are parameters.

## Model

Source paths are relative to the repository root.

Some definitions have no row because they carry no contract of their own; the lemmas that do state their meaning. `ChallengeSheet.ParseSheet` is covered by `SheetRoundTrip`, `FirstBadRowDecides` and `ReportedErrorNamesItsRow`. `ChallengeSheet.SplitFields` and `ChallengeSheet.RowOutcomes` are covered by `ReportedErrorNamesItsRow`. `ChallengeSheet.ParseParts` is covered by `AllParsedMeansEveryPart` and `ParsePartsAppend`. `DownloadCaching.DownloadCache.Copy` is covered by `CopyReplacesOnlyNamedFields`. `DownloadCaching.Lookup` is covered by the ensures of `ChallengeDownloadCachingService.GetImage`, and `DownloadCaching.ImageUrls` by the ensures of `ChallengeDownloadCachingService.DownloadAndCacheChallenges`.

| member | source | states |
|---|---|---|
| KeyedTaskState.GracePeriodKeepsCell | src/main/kotlin/com/github/brokenhappy/kotlinconfchallengeplugin/startup/KotlinFileOnChangeSaver.kt:252-256 | `valuesForThisKey` of a key in its grace period is the cell of the state it had before removal |
| KeyedTaskState.TargetOf | src/main/kotlin/com/github/brokenhappy/kotlinconfchallengeplugin/startup/KotlinFileOnChangeSaver.kt:186-189 | a grace canceller targets the task of a `Loading` state and nothing for `Done` |
| KeyedTaskState.CancelTask | src/main/kotlin/com/github/brokenhappy/kotlinconfchallengeplugin/startup/KotlinFileOnChangeSaver.kt:135 | cancelling a job leaves it not running, changes no other task, and leaves a finished job as it is |
| KeyedTaskState.CancelJob | src/main/kotlin/com/github/brokenhappy/kotlinconfchallengeplugin/startup/KotlinFileOnChangeSaver.kt:153 | cancelling a grace canceller leaves it finished, with the same key and target |
| KeyedTaskState.Launched | src/main/kotlin/com/github/brokenhappy/kotlinconfchallengeplugin/startup/KotlinFileOnChangeSaver.kt:113-127 | `newLoadingTask`: the key becomes `Loading` with a new running task of that key reading a new, empty cell; nothing else changes |
| KeyedTaskState.AddingNewKey | src/main/kotlin/com/github/brokenhappy/kotlinconfchallengeplugin/startup/KotlinFileOnChangeSaver.kt:148-167 | fails with "Entity is already running" exactly when the key is present outside a grace period, changing nothing; a key with no entry gets `Launched`; a key in its grace period has its canceller stopped and gets a new task when its `Loading` task is cancelled, else its old state back with the same task and cell; nothing is sent |
| KeyedTaskState.RemovingKey | src/main/kotlin/com/github/brokenhappy/kotlinconfchallengeplugin/startup/KotlinFileOnChangeSaver.kt:169-194 | fails with the "grace period" message exactly for a key in its grace period and with the "does not exist" message exactly for a missing key; with no grace period the entry goes, and a `Done` removal sends the map without the key; with one the entry wraps its state with a new waiting canceller aimed at its `Loading` task, and nothing is sent |
| KeyedTaskState.TaskFinished | src/main/kotlin/com/github/brokenhappy/kotlinconfchallengeplugin/startup/KotlinFileOnChangeSaver.kt:113-126 | fails exactly when the key is missing or live and already `Done`; otherwise the key records `Done(result, same cell)`, a grace entry keeps its canceller, the task is completed, and the map is sent exactly when the entry is not in its grace period |
| KeyedTaskState.GraceElapsed | src/main/kotlin/com/github/brokenhappy/kotlinconfchallengeplugin/startup/KotlinFileOnChangeSaver.kt:131-141 | after the delay the canceller cancels its target task under the lock; no entry changes and nothing is sent |
| KeyedTaskState.GraceRemoval | src/main/kotlin/com/github/brokenhappy/kotlinconfchallengeplugin/startup/KotlinFileOnChangeSaver.kt:142 | the canceller removes its key and sends the map without it |
| KeyedTaskState.Drain | src/main/kotlin/com/github/brokenhappy/kotlinconfchallengeplugin/startup/KotlinFileOnChangeSaver.kt:143-145 | when the flow has ended an unfinished canceller cancels its task and finishes without removing its key; entries, cells and the sent log stay as they were |
| KeyedTaskState.WriteCell | src/main/kotlin/com/github/brokenhappy/kotlinconfchallengeplugin/startup/KotlinFileOnChangeSaver.kt:212-214 | the cell of a present key receives the values and no other cell changes; a missing key changes nothing |
| KeyedTaskState.ConsistentEntriesIndexed | src/main/kotlin/com/github/brokenhappy/kotlinconfchallengeplugin/startup/KotlinFileOnChangeSaver.kt:231-241 | under the invariant every entry refers to tasks, cancellers and cells that exist |
| KeyedTaskState.LaunchedKeepsConsistent | src/main/kotlin/com/github/brokenhappy/kotlinconfchallengeplugin/startup/KotlinFileOnChangeSaver.kt:127 | launching a task for a key that holds nothing running restores the invariant with the key present |
| KeyedTaskState.RestoredKeepsConsistent | src/main/kotlin/com/github/brokenhappy/kotlinconfchallengeplugin/startup/KotlinFileOnChangeSaver.kt:159-163 | giving a revived key its old state back keeps the invariant |
| KeyedTaskState.AddingNewKeyKeepsConsistent | src/main/kotlin/com/github/brokenhappy/kotlinconfchallengeplugin/startup/KotlinFileOnChangeSaver.kt:148-167 | adding a key that was not in the last snapshot never fails and keeps the invariant, with the key now present |
| KeyedTaskState.DroppedKeepsConsistent | src/main/kotlin/com/github/brokenhappy/kotlinconfchallengeplugin/startup/KotlinFileOnChangeSaver.kt:175-183 | dropping the entry of a key with nothing running or pending keeps the invariant without the key |
| KeyedTaskState.EnteredGraceKeepsConsistent | src/main/kotlin/com/github/brokenhappy/kotlinconfchallengeplugin/startup/KotlinFileOnChangeSaver.kt:184-190 | parking a key in its grace period keeps the invariant |
| KeyedTaskState.RemovingKeyKeepsConsistent | src/main/kotlin/com/github/brokenhappy/kotlinconfchallengeplugin/startup/KotlinFileOnChangeSaver.kt:169-194 | removing a key of the last snapshot never fails and keeps the invariant, with the key no longer live |
| KeyedTaskState.TaskFinishedKeepsConsistent | src/main/kotlin/com/github/brokenhappy/kotlinconfchallengeplugin/startup/KotlinFileOnChangeSaver.kt:113-126 | a running task finishing never hits the error arm and keeps the invariant |
| KeyedTaskState.GraceElapsedKeepsConsistent | src/main/kotlin/com/github/brokenhappy/kotlinconfchallengeplugin/startup/KotlinFileOnChangeSaver.kt:131-141 | a waiting canceller's target exists, and cancelling it keeps the invariant |
| KeyedTaskState.GraceRemovalKeepsConsistent | src/main/kotlin/com/github/brokenhappy/kotlinconfchallengeplugin/startup/KotlinFileOnChangeSaver.kt:142 | the key a canceller removes is not in the last snapshot, and removing it keeps the invariant |
| KeyedTaskState.DrainKeepsConsistent | src/main/kotlin/com/github/brokenhappy/kotlinconfchallengeplugin/startup/KotlinFileOnChangeSaver.kt:143-145 | draining any canceller keeps the invariant |
| KeyedTaskState.WrittenCellKeepsConsistent | src/main/kotlin/com/github/brokenhappy/kotlinconfchallengeplugin/startup/KotlinFileOnChangeSaver.kt:213 | writing a present key's cell is in bounds and keeps the invariant |
| KeyedTaskState.OneRunningTaskPerKey | src/main/kotlin/com/github/brokenhappy/kotlinconfchallengeplugin/startup/KotlinFileOnChangeSaver.kt:113-127 | under the invariant two running tasks of the same key are the same task |
| KeyedTaskState.OneActiveCancellerPerKey | src/main/kotlin/com/github/brokenhappy/kotlinconfchallengeplugin/startup/KotlinFileOnChangeSaver.kt:130-146 | under the invariant two unfinished cancellers of the same key are the same canceller |
| KeyedTaskState.PresentKeysMatchSnapshot | src/main/kotlin/com/github/brokenhappy/kotlinconfchallengeplugin/startup/KotlinFileOnChangeSaver.kt:197-218 | under the invariant every key of the last snapshot has an entry outside a grace period, and every other entry is in its grace period |
| KeyedTaskState.OnlyGraceRemovalRemovesGraceEntries | src/main/kotlin/com/github/brokenhappy/kotlinconfchallengeplugin/startup/KotlinFileOnChangeSaver.kt:142-192 | adding or removing a key, a task finishing, a canceller's cancel step and draining all leave an entry in its grace period present; a removal step takes it out exactly when its canceller belongs to that key, and such a canceller is the one the entry names |
| KeyedTaskState.RevivalKeepsTask | src/main/kotlin/com/github/brokenhappy/kotlinconfchallengeplugin/startup/KotlinFileOnChangeSaver.kt:152-163 | a key that comes back while its canceller still waits gets its old state back: same task, same cell, no new task; the canceller is stopped |
| KeyedTaskState.RevivalAfterCancelRestarts | src/main/kotlin/com/github/brokenhappy/kotlinconfchallengeplugin/startup/KotlinFileOnChangeSaver.kt:154-161 | a key that comes back after its canceller cancelled its task gets a new running task and a new empty cell |
| KeyedTaskSupervisor.GroupsPartitionItems | src/main/kotlin/com/github/brokenhappy/kotlinconfchallengeplugin/startup/KotlinFileOnChangeSaver.kt:199-203 | each item is in its own key's group, a key has a non-empty group exactly when it is a key of the snapshot, and groups of different keys are disjoint |
| KeyedTaskSupervisor.StepCore | src/main/kotlin/com/github/brokenhappy/kotlinconfchallengeplugin/startup/KotlinFileOnChangeSaver.kt:207-211 | the per-key choice touches only the key's own entry, tasks and cancellers; a key of both snapshots is left as it is; with a grace period nothing is sent |
| KeyedTaskSupervisor.SnapshotStep | src/main/kotlin/com/github/brokenhappy/kotlinconfchallengeplugin/startup/KotlinFileOnChangeSaver.kt:206-215 | the updater fails exactly when the chosen step fails, and then changes nothing |
| KeyedTaskSupervisor.SnapshotStepSends | src/main/kotlin/com/github/brokenhappy/kotlinconfchallengeplugin/startup/KotlinFileOnChangeSaver.kt:174-183 | a key's update sends exactly one map when it drops at once a key that held a finished result, and sends nothing otherwise; that map is the entries as they stood, less the key |
| KeyedTaskSupervisor.GroupOutsideSnapshot | src/main/kotlin/com/github/brokenhappy/kotlinconfchallengeplugin/startup/KotlinFileOnChangeSaver.kt:213 | a key outside the snapshot has the empty group, which is what `?: emptySet()` writes |
| KeyedTaskSupervisor.SnapshotStepKeepsConsistent | src/main/kotlin/com/github/brokenhappy/kotlinconfchallengeplugin/startup/KotlinFileOnChangeSaver.kt:204-215 | handling a key not yet handled never fails and keeps the invariant, with the key live exactly when it is in the new snapshot |
| KeyedTaskSupervisor.SnapshotStepSettles | src/main/kotlin/com/github/brokenhappy/kotlinconfchallengeplugin/startup/KotlinFileOnChangeSaver.kt:204-215 | after its step a key is `Settled`: present and live with its group in its cell if in the snapshot; revived or freshly launched if new; removed or parked with a waiting canceller and an emptied cell if gone |
| KeyedTaskSupervisor.TouchesKeepsSettled | src/main/kotlin/com/github/brokenhappy/kotlinconfchallengeplugin/startup/KotlinFileOnChangeSaver.kt:207-211 | a step on one key leaves every other key's settled state as it was |
| KeyedTaskSupervisor.WriteKeepsSettled | src/main/kotlin/com/github/brokenhappy/kotlinconfchallengeplugin/startup/KotlinFileOnChangeSaver.kt:213 | writing one key's cell leaves every other key's settled state as it was, since no two keys share a cell |
| KeyedTaskSupervisor.SnapshotStepFrames | src/main/kotlin/com/github/brokenhappy/kotlinconfchallengeplugin/startup/KotlinFileOnChangeSaver.kt:206-215 | a whole update for one key leaves every other key settled or untouched as it was |
| KeyedTaskSupervisor.SnapshotProgressStep | src/main/kotlin/com/github/brokenhappy/kotlinconfchallengeplugin/startup/KotlinFileOnChangeSaver.kt:204-216 | one more iteration of `forEach` never fails and keeps the loop's progress |
| KeyedTaskSupervisor.ProgressKeepsStable | src/main/kotlin/com/github/brokenhappy/kotlinconfchallengeplugin/startup/KotlinFileOnChangeSaver.kt:204-216 | part way through the `forEach`, every key in both snapshots or in neither still has its entry from before the snapshot, or still has none |
| KeyedTaskSupervisor.SentSoFarStep | src/main/kotlin/com/github/brokenhappy/kotlinconfchallengeplugin/startup/KotlinFileOnChangeSaver.kt:181 | one more iteration keeps the sent maps in step with the keys that sent them: one map per dropped finished key, each without its key, no key twice, and each holding every key the snapshot neither adds nor drops with its entry from before |
| KeyedTaskSupervisor.HandleKeyStep | src/main/kotlin/com/github/brokenhappy/kotlinconfchallengeplugin/startup/KotlinFileOnChangeSaver.kt:203-216 | one iteration of the `forEach` never fails and keeps both the per-key progress and the record of sent maps |
| KeyedTaskSupervisor.SnapshotProgressEnds | src/main/kotlin/com/github/brokenhappy/kotlinconfchallengeplugin/startup/KotlinFileOnChangeSaver.kt:204-218 | after the last key the live keys are the new snapshot's and every key is settled |
| KeyedTaskSupervisor.Supervisor.Snapshot | src/main/kotlin/com/github/brokenhappy/kotlinconfchallengeplugin/startup/KotlinFileOnChangeSaver.kt:197-219 | one snapshot keeps `Valid`, makes its keys the previous set and leaves every key `Settled` relative to the state before; a key in neither snapshot is `Untouched`: its entry, tasks, grace cancellers and cell are as they were. The sent log only grows, by exactly one map per key dropped at once while it held a finished result, so nothing is sent with a grace period. Each map lacks its key, no key sends twice, and each map holds every key in both snapshots or in neither with its entry from before the snapshot |
| KeyedTaskSupervisor.Supervisor.HandleKeys | src/main/kotlin/com/github/brokenhappy/kotlinconfchallengeplugin/startup/KotlinFileOnChangeSaver.kt:203-216 | after the `forEach` over the union of both snapshots the invariant holds for the new keys and every key is `Settled` (keys of neither snapshot `Untouched`); the sent log has grown by one map per key dropped at once while it held a finished result, each without its key and each holding the unchanged keys with their old entries |
| KeyedTaskSupervisor.Supervisor.TaskFinishes | src/main/kotlin/com/github/brokenhappy/kotlinconfchallengeplugin/startup/KotlinFileOnChangeSaver.kt:113-126 | a running task finishing passes, keeps `Valid`, and does what `TaskFinished` says |
| KeyedTaskSupervisor.Supervisor.GraceElapses | src/main/kotlin/com/github/brokenhappy/kotlinconfchallengeplugin/startup/KotlinFileOnChangeSaver.kt:131-141 | the cancel step under the lock keeps `Valid` and does what `GraceElapsed` says |
| KeyedTaskSupervisor.Supervisor.GraceRemovesKey | src/main/kotlin/com/github/brokenhappy/kotlinconfchallengeplugin/startup/KotlinFileOnChangeSaver.kt:142 | the removal step keeps `Valid` and does what `GraceRemoval` says |
| KeyedTaskSupervisor.Supervisor.Shutdown | src/main/kotlin/com/github/brokenhappy/kotlinconfchallengeplugin/startup/KotlinFileOnChangeSaver.kt:258-267 | ending the flow drains every unfinished canceller and cancels its target, leaves entries, cells and the sent log alone, and keeps `Valid` with no canceller unfinished |
| KeyedTaskSupervisor.Supervisor.Install | src/main/kotlin/com/github/brokenhappy/kotlinconfchallengeplugin/startup/KotlinFileOnChangeSaver.kt:223-227 | `SynchronizedValue.update` stores the value the updater computed |
| KeyedTaskSupervisor.Supervisor.constructor | src/main/kotlin/com/github/brokenhappy/kotlinconfchallengeplugin/startup/KotlinFileOnChangeSaver.kt:112 | the collection starts with an empty map, no tasks or cancellers, and an empty previous set |
| KeyedTaskScenarios.SingleItemSnapshot | src/main/kotlin/com/github/brokenhappy/kotlinconfchallengeplugin/startup/KotlinFileOnChangeSaver.kt:199-203 | a one-item snapshot has one key whose group is that item |
| KeyedTaskScenarios.ReturnWithinGracePeriod | src/main/kotlin/com/github/brokenhappy/kotlinconfchallengeplugin/startup/KotlinFileOnChangeSaver.kt:152-163 | an item that leaves for one snapshot and returns within the grace period keeps its running task and cell, now holding the item again, and nothing is sent |
| KeyedTaskScenarios.ReturnAfterTaskCancelled | src/main/kotlin/com/github/brokenhappy/kotlinconfchallengeplugin/startup/KotlinFileOnChangeSaver.kt:154-161 | an item that returns after its canceller cancelled the task gets a different, running task whose cell holds the item |
| KeyedTaskScenarios.GracePeriodRunsOut | src/main/kotlin/com/github/brokenhappy/kotlinconfchallengeplugin/startup/KotlinFileOnChangeSaver.kt:139-142 | an item that does not return is removed by its canceller, its task cancelled, and the empty map is sent |
| KeyedTaskScenarios.RemovalWithoutGracePeriod | src/main/kotlin/com/github/brokenhappy/kotlinconfchallengeplugin/startup/KotlinFileOnChangeSaver.kt:174-180 | with no grace period an item that leaves has its key removed at once and its task cancelled |
| Text.DigitChar | src/main/kotlin/com/github/brokenhappy/kotlinconfchallengeplugin/services/ChallengeDownloadCachingService.kt:180 | the character printed for a digit is a digit reading back as that value |
| Text.Decimal | src/main/kotlin/com/github/brokenhappy/kotlinconfchallengeplugin/services/ChallengeDownloadCachingService.kt:161 | a number prints as a non-empty string of digits |
| Text.ParseInt | src/main/kotlin/com/github/brokenhappy/kotlinconfchallengeplugin/services/ChallengeDownloadCachingService.kt:180 | `toInt` accepts only an optional sign followed by one or more decimal digits, within the 32-bit range |
| Text.DecimalValue | src/main/kotlin/com/github/brokenhappy/kotlinconfchallengeplugin/services/ChallengeDownloadCachingService.kt:180 | the digits printed for a number read back as that number |
| Text.ParseDecimal | src/main/kotlin/com/github/brokenhappy/kotlinconfchallengeplugin/services/ChallengeDownloadCachingService.kt:180 | `toInt` of a printed 32-bit number gives the number back |
| Text.ParseNegativeDecimal | src/main/kotlin/com/github/brokenhappy/kotlinconfchallengeplugin/services/ChallengeDownloadCachingService.kt:180 | `toInt` reads a minus sign and digits as the negative number |
| Text.ParseIntRejectsEmpty | src/main/kotlin/com/github/brokenhappy/kotlinconfchallengeplugin/services/ChallengeDownloadCachingService.kt:180 | the empty string and a lone sign are not integers |
| Text.Split | src/main/kotlin/com/github/brokenhappy/kotlinconfchallengeplugin/services/ChallengeDownloadCachingService.kt:179 | `split` returns at least one part, and no part contains the separator |
| Text.SplitWithoutSeparator | src/main/kotlin/com/github/brokenhappy/kotlinconfchallengeplugin/services/ChallengeDownloadCachingService.kt:179 | text without the separator splits into itself alone |
| Text.SplitAfterPart | src/main/kotlin/com/github/brokenhappy/kotlinconfchallengeplugin/services/ChallengeDownloadCachingService.kt:179 | the text before the first separator is the first part |
| Text.SplitJoin | src/main/kotlin/com/github/brokenhappy/kotlinconfchallengeplugin/services/ChallengeDownloadCachingService.kt:154 | splitting parts joined by a separator they do not contain gives the parts back |
| Text.JoinSplit | src/main/kotlin/com/github/brokenhappy/kotlinconfchallengeplugin/services/ChallengeDownloadCachingService.kt:154 | joining the parts of a split gives the text back |
| Text.Lines | src/main/kotlin/com/github/brokenhappy/kotlinconfchallengeplugin/services/ChallengeDownloadCachingService.kt:152 | `lines()` returns at least one line, and no line contains a line break |
| Text.LinesWithoutCarriageReturn | src/main/kotlin/com/github/brokenhappy/kotlinconfchallengeplugin/services/ChallengeDownloadCachingService.kt:152 | without carriage returns, `lines()` is a split on the newline |
| Text.JoinedLines | src/main/kotlin/com/github/brokenhappy/kotlinconfchallengeplugin/services/ChallengeDownloadCachingService.kt:152 | lines joined by newlines read back as the same lines |
| Text.JoinHasNo | src/main/kotlin/com/github/brokenhappy/kotlinconfchallengeplugin/services/ChallengeDownloadCachingService.kt:154 | joining adds no character other than the separator |
| Text.SubstringBefore | src/main/kotlin/com/github/brokenhappy/kotlinconfchallengeplugin/services/ChallengeDownloadCachingService.kt:190 | `substringBefore` is a prefix without the delimiter, the whole text when there is none |
| Text.SubstringAfter | src/main/kotlin/com/github/brokenhappy/kotlinconfchallengeplugin/services/ChallengeDownloadCachingService.kt:191 | `substringAfter` is the whole text when there is no delimiter |
| Text.AroundFirstDelimiter | src/main/kotlin/com/github/brokenhappy/kotlinconfchallengeplugin/services/ChallengeDownloadCachingService.kt:190-191 | the text before and after the first delimiter, with the delimiter between them, is the text |
| Text.FirstDelimiterOf | src/main/kotlin/com/github/brokenhappy/kotlinconfchallengeplugin/services/ChallengeDownloadCachingService.kt:190-191 | before and after the first delimiter of `a + d + b`, where `a` has none, are `a` and `b` |
| ChallengeSheet.AllParsedMeansEveryPart | src/main/kotlin/com/github/brokenhappy/kotlinconfchallengeplugin/services/ChallengeDownloadCachingService.kt:180 | the mapping succeeds exactly when every part is an integer, giving them all in order |
| ChallengeSheet.ParseDuration | src/main/kotlin/com/github/brokenhappy/kotlinconfchallengeplugin/services/ChallengeDownloadCachingService.kt:177-186 | a parsed duration lies between zero and 24h 60m 60s |
| ChallengeSheet.DurationOf | src/main/kotlin/com/github/brokenhappy/kotlinconfchallengeplugin/services/ChallengeDownloadCachingService.kt:181-185 | succeeds exactly when there are at least three numbers with 0≤h≤24, 0≤m≤60, 0≤s≤60, and then gives h hours + m minutes + s seconds |
| ChallengeSheet.ParseDurationRoundTrip | src/main/kotlin/com/github/brokenhappy/kotlinconfchallengeplugin/services/ChallengeDownloadCachingService.kt:177-186 | `h:m:s` printed within range parses to h hours + m minutes + s seconds |
| ChallengeSheet.ParsePartsAppend | src/main/kotlin/com/github/brokenhappy/kotlinconfchallengeplugin/services/ChallengeDownloadCachingService.kt:180 | reading parts distributes over concatenation |
| ChallengeSheet.AllParsedAppend | src/main/kotlin/com/github/brokenhappy/kotlinconfchallengeplugin/services/ChallengeDownloadCachingService.kt:180 | all of `a + b` are integers exactly when all of `a` and all of `b` are, with the values concatenated |
| ChallengeSheet.DurationOfIgnoresExtras | src/main/kotlin/com/github/brokenhappy/kotlinconfchallengeplugin/services/ChallengeDownloadCachingService.kt:181 | integers after the third do not change the destructured duration |
| ChallengeSheet.ParseDurationIgnoresIntegerExtras | src/main/kotlin/com/github/brokenhappy/kotlinconfchallengeplugin/services/ChallengeDownloadCachingService.kt:179-181 | integer parts after the third are ignored |
| ChallengeSheet.ParseDurationRejectsNonIntegerExtra | src/main/kotlin/com/github/brokenhappy/kotlinconfchallengeplugin/services/ChallengeDownloadCachingService.kt:180 | a non-integer part after the third makes the duration fail, because every part is read before destructuring |
| ChallengeSheet.ParseDurationNeedsThreeParts | src/main/kotlin/com/github/brokenhappy/kotlinconfchallengeplugin/services/ChallengeDownloadCachingService.kt:181 | fewer than three parts never make a duration |
| ChallengeSheet.EndTimeFields | src/main/kotlin/com/github/brokenhappy/kotlinconfchallengeplugin/services/ChallengeDownloadCachingService.kt:190-191 | the fields read pass the source's own checks, hours ≤ 24 and minutes ≤ 60 |
| ChallengeSheet.ParseEndTime | src/main/kotlin/com/github/brokenhappy/kotlinconfchallengeplugin/services/ChallengeDownloadCachingService.kt:188-192 | an accepted end time is a valid time of day, 0..23 hours and 0..59 minutes |
| ChallengeSheet.ParseEndTimeRoundTrip | src/main/kotlin/com/github/brokenhappy/kotlinconfchallengeplugin/services/ChallengeDownloadCachingService.kt:188-192 | every valid `hh:mm` reads back as that time of day |
| ChallengeSheet.ParseEndTimeWithoutColon | src/main/kotlin/com/github/brokenhappy/kotlinconfchallengeplugin/services/ChallengeDownloadCachingService.kt:190-191 | text without `:` is read as both the hour and the minute |
| ChallengeSheet.ParseEndTimeRejectsSeconds | src/main/kotlin/com/github/brokenhappy/kotlinconfchallengeplugin/services/ChallengeDownloadCachingService.kt:191 | `hh:mm:ss` is rejected, because the text after the first `:` is not an integer |
| ChallengeSheet.HourTwentyFourPassesCheckOnly | src/main/kotlin/com/github/brokenhappy/kotlinconfchallengeplugin/services/ChallengeDownloadCachingService.kt:190-192 | hour 24 passes `check(it <= 24)` but not the time of day built from it |
| ChallengeSheet.DurationError | src/main/kotlin/com/github/brokenhappy/kotlinconfchallengeplugin/services/ChallengeDownloadCachingService.kt:168 | the duration error message for a row ends with the field it is given, whatever the row; line 168 gives it the end-time field |
| ChallengeSheet.DurationMessageQuotesEndTime | src/main/kotlin/com/github/brokenhappy/kotlinconfchallengeplugin/services/ChallengeDownloadCachingService.kt:164-169 | as written, a row whose end time parses and whose duration does not is reported with the message that ends with its end-time field, which differs from the intended one whenever the two fields differ |
| ChallengeSheet.DurationMessageExample | src/main/kotlin/com/github/brokenhappy/kotlinconfchallengeplugin/services/ChallengeDownloadCachingService.kt:164-169 | the row `9:5,1:30,u` at index 0 is reported with "Got 9:5", not with the intended "Got 1:30" |
| ChallengeSheet.ParseRow | src/main/kotlin/com/github/brokenhappy/kotlinconfchallengeplugin/services/ChallengeDownloadCachingService.kt:155-172 | a row throws exactly when it has fewer than three fields; it is a challenge exactly when both its end time and duration parse, with the image URL kept verbatim; otherwise the end-time error comes first, a bad duration is reported with the end-time field as line 168 builds it, and the row number is `index + 2` |
| ChallengeSheet.IntendedParseRow | src/main/kotlin/com/github/brokenhappy/kotlinconfchallengeplugin/services/ChallengeDownloadCachingService.kt:164-169 | the corrected row mapping: a bad duration after a good end time is reported with a message ending with the duration field |
| ChallengeSheet.IntendedParseRowAgrees | src/main/kotlin/com/github/brokenhappy/kotlinconfchallengeplugin/services/ChallengeDownloadCachingService.kt:155-172 | the corrected row mapping gives the same outcome as the one as written on every row except a good end time with a bad duration, where it reports `DurationError` of the duration field |
| ChallengeSheet.CollectRows | src/main/kotlin/com/github/brokenhappy/kotlinconfchallengeplugin/services/ChallengeDownloadCachingService.kt:155-173 | every row is a challenge exactly when the sheet gives one challenge per row, in order |
| ChallengeSheet.CollectRowsFirstFailure | src/main/kotlin/com/github/brokenhappy/kotlinconfchallengeplugin/services/ChallengeDownloadCachingService.kt:157-170 | when some row is not a challenge, the outcome is that of the first such row, all rows before it being good |
| ChallengeSheet.ReportedErrorNamesItsRow | src/main/kotlin/com/github/brokenhappy/kotlinconfchallengeplugin/services/ChallengeDownloadCachingService.kt:152-170 | a reported error is the message of the first data line that is not a challenge, naming it as sheet row `i + 2` with the header as row 1, and every data line before it is a challenge |
| ChallengeSheet.FormatRowHasNo | src/main/kotlin/com/github/brokenhappy/kotlinconfchallengeplugin/services/ChallengeDownloadCachingService.kt:152-154 | the printed fields of a valid row hold no comma or line break |
| ChallengeSheet.ParseFormattedRow | src/main/kotlin/com/github/brokenhappy/kotlinconfchallengeplugin/services/ChallengeDownloadCachingService.kt:155-172 | a valid row, printed and split, parses to its challenge |
| ChallengeSheet.SheetRoundTrip | src/main/kotlin/com/github/brokenhappy/kotlinconfchallengeplugin/services/ChallengeDownloadCachingService.kt:152-173 | whatever the header says, a sheet printed from valid rows reads back as one challenge per row, in order, image URLs verbatim |
| ChallengeSheet.FirstBadRowDecides | src/main/kotlin/com/github/brokenhappy/kotlinconfchallengeplugin/services/ChallengeDownloadCachingService.kt:162-169 | once a row fails, the rows after it do not matter |
| ChallengeSheet.PrefixDecides | src/main/kotlin/com/github/brokenhappy/kotlinconfchallengeplugin/services/ChallengeDownloadCachingService.kt:162-169 | rows from a given position whose first bad row lies in a prefix give that bad row's outcome |
| DownloadCaching.CopyReplacesOnlyNamedFields | src/main/kotlin/com/github/brokenhappy/kotlinconfchallengeplugin/services/ChallengeDownloadCachingService.kt:134-138 | `copy` with no argument is the identity, and each named field replaces only that field |
| DownloadCaching.NeedsRefresh | src/main/kotlin/com/github/brokenhappy/kotlinconfchallengeplugin/services/ChallengeDownloadCachingService.kt:58-62 | a refresh is needed exactly when the cached list is null or the last poll is at least a minute before now |
| DownloadCaching.InitialCacheNeedsRefresh | src/main/kotlin/com/github/brokenhappy/kotlinconfchallengeplugin/services/ChallengeDownloadCachingService.kt:46-52 | the initial cache always needs a refresh |
| DownloadCaching.Cached | src/main/kotlin/com/github/brokenhappy/kotlinconfchallengeplugin/services/ChallengeDownloadCachingService.kt:93-101 | the image cache after `getImage`: unchanged when the URL is cached or the download is null, otherwise extended by the download under that URL |
| DownloadCaching.HydratedContents | src/main/kotlin/com/github/brokenhappy/kotlinconfchallengeplugin/services/ChallengeDownloadCachingService.kt:109-115 | hydrating keeps every cached image, adds exactly the requested URLs that the server answers, and stores what it sent |
| DownloadCaching.HydratedStoresSome | src/main/kotlin/com/github/brokenhappy/kotlinconfchallengeplugin/services/ChallengeDownloadCachingService.kt:109-115 | hydrating adds an image exactly when some URL asked for is not cached and the server answers it |
| DownloadCaching.DownloadChallenges | src/main/kotlin/com/github/brokenhappy/kotlinconfchallengeplugin/services/ChallengeDownloadCachingService.kt:144-175 | a failed response gives null with nothing reported; for a successful one the result is a download exactly when the sheet parses, and is then its challenges; a reported row error gives null with that message passed to `onError`; a row that throws makes the call throw |
| DownloadCaching.DownloadFormattedSheet | src/main/kotlin/com/github/brokenhappy/kotlinconfchallengeplugin/services/ChallengeDownloadCachingService.kt:144-175 | a successful response holding a sheet of valid rows downloads as one challenge per row |
| DownloadCaching.ChallengeDownloadCachingService.constructor | src/main/kotlin/com/github/brokenhappy/kotlinconfchallengeplugin/services/ChallengeDownloadCachingService.kt:42-56 | the service starts from the persisted cache, or the initial one, with nothing published |
| DownloadCaching.ChallengeDownloadCachingService.Subscribe | src/main/kotlin/com/github/brokenhappy/kotlinconfchallengeplugin/services/ChallengeDownloadCachingService.kt:57-65 | a subscriber first gets the cached list, and a refresh starts exactly when that list is null or a minute old |
| DownloadCaching.ChallengeDownloadCachingService.UpdateRealState | src/main/kotlin/com/github/brokenhappy/kotlinconfchallengeplugin/services/ChallengeDownloadCachingService.kt:103-107 | the state becomes the action applied to it, and its challenge list is published |
| DownloadCaching.ChallengeDownloadCachingService.GetImage | src/main/kotlin/com/github/brokenhappy/kotlinconfchallengeplugin/services/ChallengeDownloadCachingService.kt:93-107 | a cached URL gives its bytes and changes nothing; otherwise the result is the download, and a non-null download is cached under the URL through `updateRealState`, which publishes the challenge list again; a cache hit or a null download publishes nothing; the list and poll time of the state are kept |
| DownloadCaching.ChallengeDownloadCachingService.HydrateImages | src/main/kotlin/com/github/brokenhappy/kotlinconfchallengeplugin/services/ChallengeDownloadCachingService.kt:93-115 | the image cache becomes `Hydrated` over the URLs; the list and the poll time of the state stay as they were; the list is published again exactly when some URL's download was stored, and otherwise the published value is untouched |
| DownloadCaching.ChallengeDownloadCachingService.DownloadAndCacheChallenges | src/main/kotlin/com/github/brokenhappy/kotlinconfchallengeplugin/services/ChallengeDownloadCachingService.kt:77-88 | on a download the list and `now` replace the cached list and last poll, the list is published and its images are hydrated; otherwise nothing changes |
| DownloadCaching.ChallengeDownloadCachingService.HydrateFreshCaches | src/main/kotlin/com/github/brokenhappy/kotlinconfchallengeplugin/services/ChallengeDownloadCachingService.kt:75 | true exactly when the download succeeded, in which case the cache is fresh now and stale one minute later; false changes nothing |
| DownloadCaching.RefreshScenario | src/main/kotlin/com/github/brokenhappy/kotlinconfchallengeplugin/services/ChallengeDownloadCachingService.kt:57-88 | a successful refresh publishes the downloaded list, keeps every cached image, and leaves the cache fresh for exactly one minute |

## Left out

- Coroutine scheduling is not modelled. Each step the supervisor takes under the `SynchronizedValue` lock is one atomic method, and callers may interleave these in any order. Each snapshot is handled by one `Snapshot` call, so its per-key updates are not interleaved with other steps. `delay` timing, `channelFlow` buffering, `NonCancellable` and cancellation causes are not modelled.
- `Job.join` is taken to return at once. `cancelAndJoin` on a task is a cancel, and the grace canceller's join between its two halves is not a separate step.
- The mapper function is not modelled; a finishing task's result is a parameter of `TaskFinishes`.
- KeyedTaskSupervisor.Supervisor.TaskFinishes: cancellation is taken to be cooperative, so a cancelled task never completes (`TaskFinishes` requires a running task). A mapper that does not suspend can still return after it was cancelled and record its result; that path is not modelled.
- A task cancelled while it is about to send its map, after it has recorded `Done`, is not modelled. `TaskFinished` records and sends in one step.
- KeyedTaskSupervisor.Supervisor.Snapshot: the order in which the keys are visited is any order, not the iteration order of Kotlin's set union. Its ensures does not state that a revived key gets no new task beyond what `Settled` says; `RevivalKeepsTask` states that per step.
- `incrementalCollect` and `incrementalAsyncMapImplementation` are thin wrappers over the supervisor and are not modelled. Neither are the editor flows that feed it.
- HTTP (ktor), `downloadImage`, the JSON wrapping of the persisted state and IntelliJ's `updateState` are not modelled. The CSV body, the image bytes and the persisted cache are parameters, and the JSON wrapping is taken to be lossless.
- The clock and time zone are not modelled. `now` is a parameter in whole seconds. `withHoursAndMinutes` is reduced to its `LocalDateTime` range check on the hour and minute, and the date part is not modelled.
- Durations and instants are whole seconds; sub-second precision is not modelled.
- The 10-second retry loop around `hydrateFreshCaches` is not modelled; one attempt is.
- DownloadCaching.ChallengeDownloadCachingService.HydrateFreshCaches: a sheet row with fewer than three fields makes the source throw out of `hydrateFreshCaches`; the model returns `false` with the outcome `Crashed` and leaves the state unchanged.
- `hydrateImages` launches its `getImage` calls concurrently; the model runs them one after another, in list order.
- DownloadCaching.RefreshScenario: it takes the response as a parameter and requires it to be a successful download, rather than starting from a formatted sheet.
- Text.ParseInt: only ASCII decimal digits are accepted. `toInt`'s other Unicode digits are not modelled.
- `countdownTo`, the tool windows, settings UI, actions and git glue are not modelled. They are UI or process calls, and `countdownTo` uses floating point.

## Findings

| source | as written | input that shows it | evidently intended | confidence | as-written member | corrected member |
|---|---|---|---|---|---|---|
| src/main/kotlin/com/github/brokenhappy/kotlinconfchallengeplugin/services/ChallengeDownloadCachingService.kt:168 | the duration error message ends with `$endTime`, the end-time field | the data row `9:5,1:30,u` (sheet row 2; the duration has two parts) reports "... Expect hh:mm:ss. Got 9:5" | the message quotes the duration field that failed, "Got 1:30" | not executed | ChallengeSheet.DurationMessageQuotesEndTime | ChallengeSheet.IntendedParseRow |
