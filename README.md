# laravel-migration: the `migration:run` scheduler and translation flattening

This project is a Dafny model of two console commands of the package.

`migration:run` (`ImportCommand`) copies tables from an old database into a new one. It runs migration jobs through a Laravel queue, and it orders them by a configured plan of dependency stages:

- Each table of a stage is resolved through the table-to-job mapping to a job record: job class, where clauses, joins and chunk size.
- A spawner is built for every table that resolves. All the spawners of the stage are dispatched.
- The command then polls the queue depth until it reads zero, turning every drop to a non-zero depth into a progress-bar advance. The final drop to zero ends the loop without an advance.
- Only after that does the next stage start. The after jobs come last.
- A single table can instead be run in process.

`translations:export` (`ExportCommand`) is modelled only for `flattenTranslations`. It turns a nested translation array into an ordered array keyed by dot-joined paths.

The model is organised as follows:

- `Mapping`: resolution of a table (`getMigrationItem`) and the quoting of a table name (`getTableNameExpression`). Pure functions.
- `Queue`: one depth reading per backend (`getQueueCount`). Also the arithmetic of the polling loop on a run of readings: how many polls it takes and how far the bar moves.
- `Schedule`: the command as values. It gives, for a configuration and the snapshots the broker will show, the trace of resolutions, dispatches and depth polls of one stage, of the whole plan, of the after jobs and of a single table. The lemmas here state what the traces guarantee:
  - the stage barrier: no table is resolved and no after job dispatched between a spawner's dispatch and the next reading of zero, and no job is dispatched while a reading shows jobs outstanding;
  - the plan order: for a table listed in one running stage and a table listed in a later one, everything done for the first comes before everything done for the second, with a reading of zero between them;
  - unresolved tables are skipped;
  - stages before the start index are never touched;
  - only after jobs whose class exists are enqueued.
- `Import`: the command as a class. Its configuration is fixed at construction and the broker's snapshots are a field it consumes. Every event goes onto a ghost trace.
  - `handle`, `migrateAllTables`, `migrateJobGroup`, `runAfterJobs`, `waitForEmptyQueue` and `migrateTable` are each proved to leave exactly the trace their `Schedule` function describes.
  - `getQueueCount` is proved to consume one snapshot and record the reading `Queue.QueueCount` gives for it.
  - `verifyEnvironment` leaves no trace. It is proved to answer Ready exactly when the environment predicate `PreflightOk` holds.
  - The progress bar is a small class with its own counter. The methods that wait state its final progress and finished flag.
- `PhpArray`: PHP's ordered array as a sequence of pairs. It covers element assignment (`$a[$k] = $v`) and the union operator (`$a += $b`).
- `Export`: `flattenTranslations` as a recursive method, proved equal to a recursive function. The properties of the flattened array are proved about that function: its keys, distinctness, values, and behaviour under collisions.

The world outside the command is modelled as inputs:

- the set of job classes that exist;
- whether the database connection, the `jobs` table and Redis are there;
- what the Telescope check answers;
- how many chunk jobs a spawner reports;
- the depth snapshots the broker shows.

## Model

| member | source | states |
|---|---|---|
| Mapping.GetMigrationItem | src/Commands/ImportCommand.php:345-376 | A table resolves exactly when its entry is a known class name or an array whose `job` is a known class. Shorthand entries get no clauses and the default chunk size. Full entries fall back field by field. |
| Mapping.ShorthandIsFullWithDefaults | src/Commands/ImportCommand.php:354-375 | A shorthand entry resolves exactly as the full form that names only the job. |
| Mapping.TableNameExpression | src/Commands/ImportCommand.php:336-343 | The name is unchanged exactly when it has no dot. A dotted name is wrapped in backticks, and the table can be read back from the expression. |
| Mapping.TableNameExpressionInjective | src/Commands/ImportCommand.php:336-343 | Two different tables never get the same expression. |
| Queue.Supported | src/Commands/ImportCommand.php:255-271 | The backends the depth query knows: `database` and `redis`. |
| Queue.RedisSize | src/Commands/ImportCommand.php:266 | The size of a Redis key, zero when the key does not exist. |
| Queue.PendingKey | src/Commands/ImportCommand.php:263 | The key of the queue's pending list, `queues:<name>`. |
| Queue.ReservedKey | src/Commands/ImportCommand.php:264 | The key of the queue's reserved set, `queues:<name>:reserved`. |
| Queue.QueueCount | src/Commands/ImportCommand.php:251-274 | A reading exists exactly for `database` and `redis`. Database counts the whole jobs table. Redis counts the pending list plus the reserved set of the queue. |
| Queue.RedisCountSeesOnlyPendingAndReserved | src/Commands/ImportCommand.php:260-267 | Changing any other Redis key (delayed jobs, for one) does not change the Redis reading. |
| Queue.Depths | src/Commands/ImportCommand.php:251-274 | One reading per snapshot, each the depth query's answer for it. |
| Queue.Advanced | src/Commands/ImportCommand.php:228-244 | The progress rule: each reading lower than the one before advances the bar by the drop; the loop stops at the first zero, which is not advanced. |
| Queue.FirstZero | src/Commands/ImportCommand.php:235 | The position of the first zero reading: every earlier reading is non-zero. |
| Queue.Polls | src/Commands/ImportCommand.php:232-244 | The loop takes readings up to and including the first zero, or all of them when none is zero. |
| Queue.PollsCons | src/Commands/ImportCommand.php:235-244 | A non-zero reading adds exactly one poll in front of the rest. |
| Queue.AdvancedStopsAtFirstZero | src/Commands/ImportCommand.php:235-244 | Readings after the first zero never move the bar. |
| Queue.FirstReadingNeverAdvances | src/Commands/ImportCommand.php:228-239 | The previous reading starts at 0, so the first reading never advances the bar. |
| Queue.NoDropNoAdvance | src/Commands/ImportCommand.php:236-239 | Readings that never fall never advance the bar. |
| Queue.AdvancedTelescopes | src/Commands/ImportCommand.php:236-240 | On a draining queue the advances add up to the previous reading minus the last non-zero reading. |
| Queue.WaitOnDrainingQueue | src/Commands/ImportCommand.php:226-246 | From the start of a wait on a draining queue, the bar reaches the first reading minus the last non-zero one, which is less than the first reading. |
| Queue.ThreeJobScenario | src/Commands/ImportCommand.php:226-246 | Readings 3, 3, 2, 1, 0 take five polls and advance the bar by 2. |
| Queue.BouncingQueueOvershoots | src/Commands/ImportCommand.php:236-239 | Readings 5, 1, 5, 1, 0 advance the bar by 8, more than the first reading. |
| Schedule.SpawnerFor | src/Commands/ImportCommand.php:179-188 | A spawner's arguments: the resolved job, the configured connection, the table, its quoted expression, the resolved clauses and chunk size, and the sync flag. |
| Schedule.GroupSpawners | src/Commands/ImportCommand.php:169-192 | The spawners of a stage: one for each table that resolves, in stage order, built from its job record. |
| Schedule.TotalJobs | src/Commands/ImportCommand.php:191 | The stage's job total: the sum of the spawners' job counts. |
| Schedule.ResolvesEvents | src/Commands/ImportCommand.php:169-172 | A stage's resolutions: one per table, in the stage's order. |
| Schedule.SpawnEnqueues | src/Commands/ImportCommand.php:194-198 | One dispatch per spawner, in order, onto the configured connection and queue. |
| Schedule.SpawnEnqueuesAreSpawns | src/Commands/ImportCommand.php:194-198 | The dispatch events of a stage are exactly its spawners, in order, each onto the configured connection and queue. |
| Schedule.AfterEnqueues | src/Commands/ImportCommand.php:210-216 | One dispatch per after job given, in order, onto the configured connection and queue. |
| Schedule.PollRun | src/Commands/ImportCommand.php:232-244 | The polling loop on a supported backend: a depth event per reading, ending drained at the first zero or still waiting when the snapshots run out. |
| Schedule.WaitRun | src/Commands/ImportCommand.php:224-249 | One wait: the polling loop, or the exception at the first poll on an unsupported backend. |
| Schedule.GroupRun | src/Commands/ImportCommand.php:164-203 | One stage: resolve every table, dispatch the spawners, then wait. |
| Schedule.RunGroups | src/Commands/ImportCommand.php:279-287 | The stages in order. A stage that does not drain ends the run. |
| Schedule.AfterRun | src/Commands/ImportCommand.php:205-222 | The after jobs: dispatch those whose class exists, then wait. |
| Schedule.Skipped | src/Commands/ImportCommand.php:280 | The stage at an index is skipped while the start group is greater than it. |
| Schedule.AllTablesRun | src/Commands/ImportCommand.php:276-295 | Every stage from the start index on, then the after jobs when the list is not empty. |
| Schedule.TableRun | src/Commands/ImportCommand.php:297-331 | A single table: resolve it. An unmapped table stops there. Otherwise the spawner runs in process, or the table runs as a one-table stage. |
| Schedule.SyncTableRunStaysInProcess | src/Commands/ImportCommand.php:306-322 | An in-process single-table run enqueues nothing, reads no depth and consumes no snapshot. It runs exactly when the table resolves and reports it unmapped otherwise. |
| Schedule.QueuedTableRunKeepsBarrier | src/Commands/ImportCommand.php:325-328 | A single-table run through the queue keeps both the no-dispatch-while-busy barrier and the stage order. When it drains it leaves the queue idle with no spawned job outstanding. |
| Schedule.GroupSpawnersExactlyResolved | src/Commands/ImportCommand.php:169-192 | A stage builds a spawner for a table exactly when the table is in the stage and resolves, and then with its resolved job record. There are never more spawners than tables. |
| Schedule.GroupSpawnersAppend | src/Commands/ImportCommand.php:169-192 | The spawners of a concatenated stage are those of the parts, in order. |
| Schedule.TotalJobsAppend | src/Commands/ImportCommand.php:191 | The job total of concatenated spawner lists is the sum of their totals. |
| Schedule.UnresolvedTableIsSkipped | src/Commands/ImportCommand.php:174-177 | A table that does not resolve leaves the stage's spawners and job total exactly as without it. |
| Schedule.KnownAfterJobs | src/Commands/ImportCommand.php:210-211 | The after jobs dispatched are exactly the listed ones whose class exists, never more than are listed. |
| Schedule.KnownAfterJobsCounts | src/Commands/ImportCommand.php:210-217 | A known after job is dispatched as many times as it is listed, and an unknown one never. |
| Schedule.KnownAfterJobsAppend | src/Commands/ImportCommand.php:210-217 | Dispatch follows list order: the known jobs of a + b are those of a, then those of b. |
| Schedule.PollRunReadsUntilZero | src/Commands/ImportCommand.php:232-244 | The wait records one depth event per reading up to and including the first zero, and consumes exactly those snapshots. |
| Schedule.PollRunDrainsOnZero | src/Commands/ImportCommand.php:235 | The wait ends drained exactly when some reading is zero; otherwise it is still polling when the snapshots run out. |
| Schedule.RunGroupsStep | src/Commands/ImportCommand.php:279-287 | Running the stages from index i is stage i, then, if it drained, the stages from i+1. |
| Schedule.StartIndex | src/Commands/ImportCommand.php:279-282 | The first stage that runs is within the plan. The stage at index i runs exactly when it is not skipped, that is, exactly when i is at least that index. |
| Schedule.BusyAfter | src/Commands/ImportCommand.php:232-244 | Whether the queue is busy after a trace: its most recent depth reading was non-zero. |
| Schedule.Barrier | src/Commands/ImportCommand.php:194-200 | The busy barrier on a trace: no job is enqueued while the most recent reading was non-zero. |
| Schedule.BarrierAppend | src/Commands/ImportCommand.php:194-200 | The no-enqueue-while-busy property of a concatenated trace splits into its two parts. |
| Schedule.QuietEvents | src/Commands/ImportCommand.php:194-198 | Events that are not depth readings keep the barrier from an idle queue and leave it idle. |
| Schedule.ResolvesAreQuiet | src/Commands/ImportCommand.php:169-172 | Resolving tables reads no depth. |
| Schedule.SpawnEnqueuesAreQuiet | src/Commands/ImportCommand.php:194-198 | Dispatching spawners reads no depth. |
| Schedule.AfterEnqueuesAreQuiet | src/Commands/ImportCommand.php:210-217 | Dispatching after jobs reads no depth. |
| Schedule.PollRunKeepsBarrier | src/Commands/ImportCommand.php:232-244 | Polling enqueues nothing, and a poll run that drains leaves the queue idle. |
| Schedule.WaitKeepsBarrier | src/Commands/ImportCommand.php:224-249 | A wait keeps the barrier and, when it drains, leaves the queue idle. |
| Schedule.GroupKeepsBarrier | src/Commands/ImportCommand.php:164-203 | Within a stage, no dispatch comes after any depth reading. A stage never dispatches while a reading shows jobs outstanding, and a stage that drains leaves the queue idle. |
| Schedule.GroupsKeepBarrier | src/Commands/ImportCommand.php:279-287 | A run of stages never dispatches while the most recent reading shows jobs outstanding. |
| Schedule.StagesNeverOverlap | src/Commands/ImportCommand.php:276-295 | Across the whole plan and the after jobs, once a reading shows jobs outstanding, nothing is dispatched until a reading of zero. |
| Schedule.WaitEventsAreDepths | src/Commands/ImportCommand.php:224-249 | A wait consists of depth readings only. |
| Schedule.PollRunEventsAreDepths | src/Commands/ImportCommand.php:232-244 | The polling loop records depth readings only. |
| Schedule.Ordered | src/Commands/ImportCommand.php:194-200 | The stage order on a trace: no table is resolved and no after job dispatched between a spawn and the next reading of zero. |
| Schedule.OrderedAppend | src/Commands/ImportCommand.php:194-200 | The stage order of a concatenated trace splits into its two parts, carrying whether spawned jobs are outstanding. |
| Schedule.OrderedMeans | src/Commands/ImportCommand.php:194-200 | By position: between a spawn at i and a resolution or after-job dispatch at j there is a reading of zero. |
| Schedule.ResolvesOrdered | src/Commands/ImportCommand.php:169-172 | Resolving tables keeps the order and leaves nothing outstanding. |
| Schedule.SpawnEnqueuesOrdered | src/Commands/ImportCommand.php:194-198 | Dispatching spawners starts nothing later and leaves jobs outstanding exactly when there were any spawners or jobs were outstanding before. |
| Schedule.AfterEnqueuesOrdered | src/Commands/ImportCommand.php:210-217 | Dispatching after jobs from a clear queue keeps the order and spawns nothing. |
| Schedule.PollRunOrdered | src/Commands/ImportCommand.php:232-244 | Polling starts nothing, and a poll run that drains clears every outstanding spawn. |
| Schedule.WaitOrdered | src/Commands/ImportCommand.php:224-249 | A wait starts nothing, and a wait that drains clears every outstanding spawn. |
| Schedule.GroupOrdered | src/Commands/ImportCommand.php:164-203 | A stage keeps the stage order: it resolves nothing between a spawn and the next reading of zero. A stage that drains leaves no spawn outstanding. |
| Schedule.GroupResolvesFirst | src/Commands/ImportCommand.php:169-198 | Within a stage every resolution comes before every other event: all its tables are resolved before the first spawner is dispatched. |
| Schedule.GroupsOrdered | src/Commands/ImportCommand.php:279-287 | A run of stages keeps the stage order: no table is resolved between a spawn and the next reading of zero. A run that drains leaves no spawn outstanding. |
| Schedule.StagesRunInOrder | src/Commands/ImportCommand.php:276-295 | Across the whole plan and the after jobs, between any spawn and any later resolution or after-job dispatch there is a reading of zero. This speaks of event kinds; which stage comes first is stated by StagesRunInPlanOrder. |
| Schedule.NextStageWithoutWaitIsOutOfOrder | src/Commands/ImportCommand.php:194-200 | Starting the next stage right after a dispatch, or after only a non-zero reading, breaks the stage order. |
| Schedule.UntouchedAppend | src/Commands/ImportCommand.php:276-295 | A table untouched by two traces is untouched by their concatenation. |
| Schedule.ResolvesUntouched | src/Commands/ImportCommand.php:169-172 | Resolving a list of tables never resolves a table not in the list. |
| Schedule.SpawnEnqueuesUntouched | src/Commands/ImportCommand.php:194-198 | Dispatching spawners for other tables dispatches nothing for this one. |
| Schedule.AfterEnqueuesUntouched | src/Commands/ImportCommand.php:210-217 | After jobs never resolve a table or dispatch a spawner. |
| Schedule.DepthEventsUntouched | src/Commands/ImportCommand.php:232-244 | Depth readings touch no table. |
| Schedule.WaitUntouched | src/Commands/ImportCommand.php:224-249 | A wait touches no table. |
| Schedule.GroupUntouched | src/Commands/ImportCommand.php:164-203 | A stage that does not list a table neither resolves it nor dispatches for it. |
| Schedule.RunGroupsUntouched | src/Commands/ImportCommand.php:279-287 | A run of stages none of which lists a table never touches it. |
| Schedule.SkippedStagesUntouched | src/Commands/ImportCommand.php:279-282 | Stages before the start index are skipped: a table listed only there is never resolved or dispatched. |
| Schedule.ResumeAtSecondStage | src/Commands/ImportCommand.php:279-286 | Plan [[A, B], [C]] started at stage 1 resolves C first and never touches A or B. |
| Schedule.DrainedBetween | src/Commands/ImportCommand.php:279-287 | The plan order of two tables on a trace: every event for the first comes before every event for the second, with a reading of zero between them. |
| Schedule.DrainedBetweenThenUntouched | src/Commands/ImportCommand.php:276-295 | Events for neither table appended after a trace keep its plan order. |
| Schedule.UntouchedThenDrainedBetween | src/Commands/ImportCommand.php:279-287 | Events for neither table placed before a trace keep its plan order. |
| Schedule.DrainedThenNext | src/Commands/ImportCommand.php:279-287 | A run that never touches the second table and ends on a reading of zero, followed by a run that never touches the first, puts the first table before the second. |
| Schedule.PollRunEndsOnZero | src/Commands/ImportCommand.php:232-244 | A poll loop that drains ends on its reading of zero. |
| Schedule.GroupEndsOnZero | src/Commands/ImportCommand.php:164-203 | A stage that drains ends on the reading of zero that drained it. |
| Schedule.RunGroupsInPlanOrder | src/Commands/ImportCommand.php:279-287 | For a table listed only in stage a and a table listed only in a later stage b of a run of stages, everything done for the first precedes everything done for the second, with a reading of zero between. |
| Schedule.StagesRunInPlanOrder | src/Commands/ImportCommand.php:276-295 | The same for the whole command from the start index, after jobs included: stage b is started only after stage a has read zero. |
| Schedule.ResolvingAheadIsOutOfOrder | src/Commands/ImportCommand.php:279-287 | A trace that resolves the later stage's table right after the earlier stage's table breaks the plan order, whatever follows. |
| Schedule.OnlyKnownAfterJobIsEnqueued | src/Commands/ImportCommand.php:210-217 | Of after jobs [Gone, Cleanup], where only Cleanup exists, exactly Cleanup is enqueued. |
| Mapping.ValidEntry | src/Commands/ImportCommand.php:95-101 | The mapping check: an entry is valid when it is a known class name, or an array whose `job` is set and a known class. |
| Import.MappingValid | src/Commands/ImportCommand.php:94-104 | The mapping check passes when every entry is valid. |
| Import.PreflightOk | src/Commands/ImportCommand.php:60-107 | The environment passes when the connection is configured, the backend's prerequisite holds and every mapping entry is valid. |
| Import.PreflightMeansEveryTableResolves | src/Commands/ImportCommand.php:94-104 | Once the environment check passes, every table of the mapping resolves. |
| Import.SelectMode | src/Commands/ImportCommand.php:128-144 | Neither a table nor --all is a usage error. A table that is not PHP-empty runs alone, and otherwise the whole plan runs. |
| Import.PhpEmpty | src/Commands/ImportCommand.php:138 | PHP's empty() on a string: the empty string and "0". |
| Import.ZeroTableRunsEverything | src/Commands/ImportCommand.php:138 | A table argument of "0" is empty to PHP, so the whole plan runs. |
| Import.WaitResult | src/Commands/ImportCommand.php:139-146 | How a full run ends the command: success once the plan drained, still polling, or the depth query's exception. |
| Import.ProgressBar.constructor | src/Commands/ImportCommand.php:278 | A new bar has the given maximum, no progress, and is not finished. |
| Import.ProgressBar.Start | src/Commands/ImportCommand.php:226 | Starting sets the maximum and clears progress and the finished flag. |
| Import.ProgressBar.Advance | src/Commands/ImportCommand.php:238 | Advancing adds the step to the progress and changes nothing else. |
| Import.ProgressBar.Finish | src/Commands/ImportCommand.php:246 | Finishing marks the bar finished and changes nothing else. |
| Import.ImportCommand.BuildStage | src/Commands/ImportCommand.php:166-192 | The first loop over a stage records one resolution per table, in order, builds exactly the stage's spawners and sums their job counts. |
| Import.ImportCommand.constructor | src/Commands/ImportCommand.php:47-58 | The configuration is read once. The trace starts empty. |
| Import.ImportCommand.VerifyEnvironment | src/Commands/ImportCommand.php:60-107 | Ready exactly when the connection exists, the backend's prerequisite holds and every mapping entry is valid. Each earlier failure is reported exactly when its condition holds. A reported invalid table really has an invalid entry. |
| Import.ImportCommand.GetQueueCount | src/Commands/ImportCommand.php:251-274 | An unsupported backend fails without reading. Otherwise the next snapshot is consumed and its depth recorded. |
| Import.ImportCommand.WaitForEmptyQueue | src/Commands/ImportCommand.php:224-249 | Leaves the trace and snapshots of WaitRun. The bar's total is the job count. The bar is finished exactly when the queue drained. Its progress is Advanced over the readings. |
| Import.ImportCommand.DispatchStage | src/Commands/ImportCommand.php:194-198 | Dispatches every spawner, in order, onto the configured connection and queue. |
| Import.ImportCommand.MigrateJobGroup | src/Commands/ImportCommand.php:164-203 | Leaves exactly GroupRun's trace: resolve all, dispatch the resolved, wait. The bar's total is the stage's job total. The bar is finished exactly when the stage drained. Its progress is what the wait's readings advance it by. |
| Import.ImportCommand.DispatchAfterJobs | src/Commands/ImportCommand.php:210-217 | Dispatches, in order, exactly the after jobs whose class exists. |
| Import.ImportCommand.RunAfterJobs | src/Commands/ImportCommand.php:205-222 | Leaves exactly AfterRun's trace. The bar's total is the length of the whole after-job list. The bar is finished exactly when the queue drained. Its progress is what the wait's readings advance it by. |
| Import.ImportCommand.MigrateGroupAt | src/Commands/ImportCommand.php:284-286 | One stage step of the loop is the first step of RunGroups from that index. |
| Import.ImportCommand.MigrateAllTables | src/Commands/ImportCommand.php:276-295 | Leaves exactly AllTablesRun's trace: stages from the start index in order, each drained first, then the after jobs if there are any. |
| Import.ImportCommand.MigrateTable | src/Commands/ImportCommand.php:297-331 | Leaves exactly TableRun's trace: an unmapped table stops after resolution; otherwise it runs in process or as a one-table stage. |
| Import.ImportCommand.Handle | src/Commands/ImportCommand.php:112-147 | Fails, touching nothing, on a failed environment check, a usage error or a failed logging check. A single-table run exits with success whatever its outcome. A full run ends as its plan ends. |
| PhpArray.Lookup | src/Commands/ExportCommand.php:82-85 | What a key holds: the value of its first pair, or nothing when it is absent. |
| PhpArray.Assign | src/Commands/ExportCommand.php:85 | Element assignment: replaces the value of a present key in place, or appends the pair. |
| PhpArray.LookupFinds | src/Commands/ExportCommand.php:82-85 | A key is found exactly when it is among the array's keys, and what is found is a pair of the array. |
| PhpArray.LookupStored | src/Commands/ExportCommand.php:82-85 | In an array with distinct keys, every stored pair is what its key finds. |
| PhpArray.AssignPresent | src/Commands/ExportCommand.php:85 | Assigning to a present key keeps the keys and their order. |
| PhpArray.AssignNew | src/Commands/ExportCommand.php:85 | Assigning to an absent key appends the pair at the end. |
| PhpArray.AssignKeys | src/Commands/ExportCommand.php:85 | After an assignment the keys are the old ones, plus the new key at the end if it was absent. |
| PhpArray.AssignPairs | src/Commands/ExportCommand.php:85 | Every pair after an assignment is an old pair or the assigned one. |
| PhpArray.AssignLookup | src/Commands/ExportCommand.php:85 | After an assignment the key finds the new value and every other key finds what it did. |
| PhpArray.AssignDistinct | src/Commands/ExportCommand.php:85 | Assignment keeps keys distinct. |
| PhpArray.Missing | src/Commands/ExportCommand.php:83 | When the right side shares no key with the left, every right pair is added. |
| PhpArray.MissingPairs | src/Commands/ExportCommand.php:83 | The pairs a union adds come from the right side and have keys absent on the left. |
| PhpArray.MissingDistinct | src/Commands/ExportCommand.php:83 | The added pairs have distinct keys when the right side does. |
| PhpArray.MissingKeys | src/Commands/ExportCommand.php:83 | A key is added exactly when it is on the right and not on the left. |
| PhpArray.MissingLookup | src/Commands/ExportCommand.php:83 | A key absent on the left finds in the added pairs what it finds on the right. |
| PhpArray.Union | src/Commands/ExportCommand.php:83 | With no shared key, the union is the left array followed by the right one. |
| PhpArray.UnionPairs | src/Commands/ExportCommand.php:83 | Every pair of a union comes from one of its sides. |
| PhpArray.UnionLookup | src/Commands/ExportCommand.php:83 | The union's keys are those of both sides. The left side wins on a shared key. |
| PhpArray.UnionDistinct | src/Commands/ExportCommand.php:83 | A union of arrays with distinct keys has distinct keys. |
| Export.FlattenFrom | src/Commands/ExportCommand.php:79-87 | The loop from an intermediate result: a leaf is assigned under its full key, and a nested array is flattened under its full key and merged in with `+=`. |
| Export.Flatten | src/Commands/ExportCommand.php:75-90 | The flattening, starting from an empty result. |
| Export.Leaves | src/Commands/ExportCommand.php:75-90 | The reference definition: every leaf of the input under its dot-joined key, in document order. |
| Export.FullKey | src/Commands/ExportCommand.php:80 | At the top the key is the entry's own. Below it, it is prefix, dot, key. |
| Export.FlattenTranslations | src/Commands/ExportCommand.php:75-90 | The loop, with its recursion into nested arrays, computes Flatten. |
| Export.FlattenKeys | src/Commands/ExportCommand.php:75-90 | The flattened keys are exactly the dotted keys of the input's leaves. |
| Export.FlattenDistinct | src/Commands/ExportCommand.php:75-90 | No key occurs twice in the flattened array. |
| Export.FlattenValuesAreLeaves | src/Commands/ExportCommand.php:75-90 | Every pair of the flattened array is a leaf of the input under its own dotted key. |
| Export.FlattenWithoutCollisions | src/Commands/ExportCommand.php:75-90 | When no two leaves share a dotted key, the result is exactly the leaves in document order. |
| Export.EmptyArraysAddNothing | src/Commands/ExportCommand.php:79-83 | An empty input flattens to an empty array, and an empty nested array adds nothing. |
| Export.FlattenOne | src/Commands/ExportCommand.php:79-86 | A single leaf is stored under its full key. A single nested array flattens under its full key. |
| Export.JoinPathBelowTop | src/Commands/ExportCommand.php:80 | Below the top, each further key is appended after a dot. |
| Export.NestedLeafFlattens | src/Commands/ExportCommand.php:75-90 | A leaf nested along a path flattens to one pair under the key built along the path. |
| Export.NestedLeafKey | src/Commands/ExportCommand.php:75-90 | A leaf under keys k1 (non-empty), ..., kn is stored under "k1.k2. ... .kn" and nowhere else. |
| Export.EmptyTopKeyIsInvisible | src/Commands/ExportCommand.php:80 | Children of an empty top-level key are stored under their own keys, as if at the top. |
| Export.MergeNeverOverwrites | src/Commands/ExportCommand.php:83 | A nested array merged in never changes a key already present. |
| Export.LeafOverwrites | src/Commands/ExportCommand.php:85 | A leaf always replaces what its key held, and nothing else changes. |
| Export.EarlierLeafSurvivesMerge | src/Commands/ExportCommand.php:82-85 | `['a.b' => '1', 'a' => ['b' => '2']]` flattens to `['a.b' => '1']`. |
| Export.LaterLeafOverwritesMerge | src/Commands/ExportCommand.php:82-85 | `['a' => ['b' => '2'], 'a.b' => '1']` flattens to `['a.b' => '1']`. |

## Behaviour worth knowing

- On readings 3, 3, 2, 1, 0 the bar advances by 2. The previous reading starts at 0, so the first reading never advances, and the drop to zero ends the loop before it is counted (`Queue.ThreeJobScenario`). On a queue that only drains, the bar ends at the first reading minus the last non-zero reading (`Queue.WaitOnDrainingQueue`).
- A queue whose depth rises again moves the bar past its total (`Queue.BouncingQueueOvershoots`).
- The bar's total for the after jobs is the length of the whole list, unknown classes included, while only the known ones are dispatched (`Import.ImportCommand.RunAfterJobs`, `Schedule.KnownAfterJobsCounts`).
- A single-table run exits with success even when the table is not mapped (`Import.ImportCommand.Handle`). A full run exits with success once its plan has drained, however many tables were skipped.
- A table argument together with --all runs the table alone. A table argument of "" or "0" is empty to PHP and runs the whole plan (`Import.SelectMode`, `Import.ZeroTableRunsEverything`).
- On the database backend the depth is the row count of the whole `jobs` table, not of the configured queue (`Queue.QueueCount`).
- On the Redis backend the depth ignores delayed jobs (`Queue.RedisCountSeesOnlyPendingAndReserved`).
- `migrateTable` tests for the key in the mapping as well as the resolution. Resolution already fails for a missing key (`Mapping.GetMigrationItem`), so the extra test never decides anything.
- In `flattenTranslations`, a nested array under the empty top-level key adds no prefix (`Export.EmptyTopKeyIsInvisible`).
- A merge with `+=` never overwrites a key already present, while a leaf assignment does (`Export.MergeNeverOverwrites`, `Export.LeafOverwrites`). So on a dotted-key collision the winner depends on the order of the input (`Export.EarlierLeafSurvivesMerge`, `Export.LaterLeafOverwritesMerge`).

## Left out

- Console output, `sleep`, and `set_time_limit`.
- The Telescope check (`checkForLogging`). Its answer is the input `loggingReady`, and its cache write is not modelled.
- The Redis ping's client-specific branches (phpredis and predis). Their verdict is the input `redisReachable`.
- `Schema::hasTable('jobs')` is the input `jobsTableExists`.
- The configured connection's existence is the input `connectionConfigured`.
- `MigrationJobSpawner` and the chunking it does are not part of this model. Its job count is the input `jobCount`, and the spawner is modelled as its constructor arguments.
- The job class lookup (`class_exists`) is the input set `known`.
- `WaitForEmptyQueue`: the broker is a finite list of snapshots. A wait that would poll forever ends as StillWaiting when the list runs out. The exception of an unsupported backend is the outcome Unsupported (Threw at the command level).
- Import.ImportCommand.VerifyEnvironment: the mapping is a map, so the order of the configuration array is not modelled. When several entries are invalid, any one of them may be reported, where the source reports the first in array order. Whether the check passes is exact.
- Import.ProgressBar.Advance: Symfony's raising of the maximum when progress passes it is not modelled. The bar is a plain counter.
- Import.ProgressBar.Finish: Symfony's setting of progress to the maximum on finish is not modelled. The finished flag is recorded instead.
- Import.ImportCommand.Handle: the `(int)` cast of the --group option is taken as already done; the option arrives as an integer.
- Stage indices are the plan's list positions. A plan with non-sequential keys is not modelled.
- The Redis depth query re-reads the queue name from the configuration. It is modelled as the name read at construction, which is the same value.
- The helper methods `BuildStage`, `DispatchStage`, `DispatchAfterJobs` and `MigrateGroupAt` are the loops of `migrateJobGroup`, `runAfterJobs` and `migrateAllTables`, split out as methods of their own. They do not exist in the source.
- An `Export.Entry` sequence may repeat a key on one level, which no PHP array does. Every lemma about the flattening holds for all inputs, those included, so no restriction is imposed.
- Translation leaf values are modelled as text. PHP would store any non-array value as it is.
- PHP turns integer-like string keys into integers. Keys are modelled as their decimal text, which identifies the same array slot.
- The rest of `ExportCommand::handle`: reading the language files and writing the CSV file are I/O.
- `NewMigrationJobCommand` (a stub generator) is not part of this model.
