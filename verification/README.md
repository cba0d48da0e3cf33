# Nova runtime services

Nova's runtime keeps plugins, services, jobs, locks, tasks and replicas in memory. This project models the services that
hold real graph, protocol and state-machine logic, and proves what they promise over all inputs and all runs.

Services that update their fields are classes whose methods are proved against a specification on values; the lemmas beside
them state what the specification means. Everything outside the process (tools, runners, plugin processes, transports, the
database, the clock) is a parameter that may answer in any way. Clocks are integers that never go back.

- `Graphs` is the shared theory of finite directed graphs: walks, paths, reachability, acyclicity, distance, dependency order.
  `Sorting` and `Timelines` hold the stable sort and the counting of instants in intervals.
- `PluginVersions`, `PluginModel`, `PluginManagers`: the plugin lifecycle. The hardest part is the mutually recursive
  cascade of `disable`: it ends because in every reachable state the enabled plugins have no dependency cycle, so the
  dependents of a dependent are a proper subset. `PluginInterleavings` splits the operations at their awaits.
- `KnowledgeGraphs`: edges guarded by a depth-first search, and the bounded breadth-first query.
- `CronSchedules`, `JobModel`, `JobPasses`, `JobSchedulers`: one pass over the due jobs, with dependencies run on demand.
- `StartOrders`, `RestartBudgets`, `RuntimeManagers`: start and stop order, and the restart budget.
- `LogicalClocks`, `SyncModel`, `CrossDeviceSync`: Lamport clocks and the per-field last-writer-wins merge.
- `ResourceModel`, `ResourceManagers`, `RateWindows`, `PipeFraming`: lock table, rate limit and frame reassembly.
- `RetrievalFusions`, `FusionOrders`: score fusion, and when the order of arrival matters to a score.
- `Orchestration`, `TaskModel`, `TaskManagers`, `TaskCheckpoints`, `TaskPipelines`, `TaskCoordinators`: planning,
  execution and verification of tasks, and their recovery from a checkpoint table after a crash.

## Where the code falls short of an expectation

Each of these is proved, with the exact condition where there is one.

- A queued lock request can be granted by releases of other tasks exactly when its own task holds none of its resources:
  `acquire` tolerates a task's own locks, the scan in `release` does not (`ResourceModel.GrantableIff`,
  `ResourceModel.SelfBlockedRun`). Once its own task releases, it can always be served (`ResourceModel.ReleasesServe`).
- A step rejected because its locks are taken leaves a request in the queue. Under the same condition a later release grants
  it, to a task that has stopped asking (`Orchestration.AbandonedRequestIsGrantableIff`,
  `Orchestration.RejectionLeavesRequest`).
- Replicas converge exactly when the newest changes to each field agree on its value, also when each of them applied every
  change once; two changes conflict exactly when they
  write different values to a field at equal clocks (`SyncModel.ConvergesIff`, `SyncModel.TiesDiverge`).
- A local change made during a push stays pending exactly when its identifier was not among those being pushed
  (`CrossDeviceSync.PushedMeanwhile`).
- Plugins are validated before an await and committed after it. Interleaved operations keep them healthy exactly when every
  commit is timely: what becomes enabled has its dependencies enabled in range, and what stops being enabled is listed by no
  other enabled plugin (`PluginInterleavings.InterleavingsAreHealthyIff`). Both halves can fail after an ordinary run
  (`PluginInterleavings.StaleEnable`, `PluginInterleavings.StaleDisable`).
- A rate limit of n per minute admits 2n requests in a closed minute, and this bound is reached
  (`RateWindows.RateBound`, `RateWindows.RateBoundReached`). A limit below one still admits the request that opens a window
  (`RateWindows.LowLimitAdmitsOpeners`).
- The limit on restarts in a window is reached exactly when that many restarts, each after the tolerated silence, fit into
  the window (`RestartBudgets.RestartRateReachedIff`).
- A score depends on the order of arrival exactly when some contribution to it is negative and the positive ones exceed one
  (`FusionOrders.ScoreIsOrderFreeIff`, `FusionOrders.NegativeContributionsDepend`).
- A cron schedule is validated by the clock of the machine and scheduled by the clock of the scheduler. The registration of
  an accepted definition throws exactly when the schedule has an occurrence within reach of the first reading and none
  within reach of the second, as the 29th of February can (`JobModel.RegistrationThrowsIff`, `JobModel.AcceptedYetThrows`).
- The failure that names a dependency cycle does not outlast a pass: the jobs on the way back fail one after the other, and
  each ends with a dependency that is missing, failed or was cancelled as its reason (`JobSchedulers.JobScheduler.RunDue`).
- `confirmWaitingUser` puts a task into Executing without executing it. From there an execute and a retry are rejected
  and change nothing; after a restart the task can be retried (`TaskCoordinators.ConfirmedTaskWaits`).

## Model

| member | source | states |
|---|---|---|
| PluginVersions.ComparisonIsPrecedence | services/runtime/src/plugin-manager.ts:131-135 | The comparison is the precedence of major, minor and patch of section 11 of Semantic Versioning 2.0.0, and only equal triples compare equal |
| PluginVersions.ClausesAreIntervals | services/runtime/src/plugin-manager.ts:150-166 | Every clause is an interval in the order of precedence: ~ ends before the next minor version, ^ before the next major one |
| PluginVersions.RangesAreIntersections | services/runtime/src/plugin-manager.ts:137-150 | A range accepts what all its clauses accept; an empty range and a malformed clause accept nothing |
| PluginVersions.RangesAreConvex | services/runtime/src/plugin-manager.ts:137-168 | A version between two versions a range accepts is accepted too |
| PluginModel.RunsAreHealthy | services/runtime/src/plugin-manager.ts:253-356 | Over every run of installs, enables, failed enables, cascades, removals and revocations, each enabled plugin has all its dependencies enabled in range, the enabled plugins have no dependency cycle, and only declared permissions are granted |
| PluginModel.NextKeepsHealthy | services/runtime/src/plugin-manager.ts:496-536 | Every single operation keeps that, whatever verification, sandbox, start or stop do |
| PluginModel.CascadeKeepsHealthy | services/runtime/src/plugin-manager.ts:484-493 | A cascade keeps it even when a stop throws half way |
| PluginModel.CascadeIs | services/runtime/src/plugin-manager.ts:447-494 | In terms of the records, a cascade disables exactly the plugin and the enabled plugins that list something disabled, taking grants and process; it succeeds exactly when none of them throws, and otherwise a throwing one has failed and everything enabled that lists a changed plugin is disabled |
| PluginModel.DependentsShrink | services/runtime/src/plugin-manager.ts:484-489 | Without cycles each dependent has strictly fewer dependents than the plugin being disabled: the recursion of disable ends |
| PluginModel.EnablingKeepsHealthyIff | services/runtime/src/plugin-manager.ts:304-346 | Committing an enable keeps the state healthy exactly when the dependencies are enabled in range at that moment |
| PluginInterleavings.DisablingKeepsHealthyIff | services/runtime/src/plugin-manager.ts:519-526 | Disabling a plugin keeps a healthy state healthy exactly when no other enabled plugin lists it as a dependency |
| PluginInterleavings.CommitKeepsHealthyIff | services/runtime/src/plugin-manager.ts:304-346 | Any single write an operation can make between two awaits keeps a healthy state healthy exactly when it is timely |
| PluginInterleavings.InterleavingsAreHealthyIff | services/runtime/src/plugin-manager.ts:296-536 | However the operations interleave, all states of a run are healthy exactly when every write is timely when it is made |
| PluginInterleavings.StaleEnable | services/runtime/src/plugin-manager.ts:304-345 | After an ordinary run, a disable between validation and commit of an enable leaves an enabled plugin on a disabled one |
| PluginInterleavings.StaleDisable | services/runtime/src/plugin-manager.ts:458-526 | After an ordinary run, an enable between the search for dependents and the commit of a disable does the same |
| PluginManagers.NoProblemIff | services/runtime/src/plugin-manager.ts:619-633 | The first problem with the dependencies is none exactly when all of them are provided |
| PluginManagers.PluginManager.Install | services/runtime/src/plugin-manager.ts:253-294 | The answer for malformed manifests, unknown or repeated permissions and installed plugins, nothing changed on an error, and a fresh Installed record otherwise |
| PluginManagers.PluginManager.Enable | services/runtime/src/plugin-manager.ts:296-356 | For a plugin that is not enabled: it is enabled exactly when its dependencies are enabled in range, the interface version is in range, verification and sandbox accept, neither process nor start throws and no declared permission is rejected, and then with the approved part of the declared permissions; otherwise it is Failed and the answer names the first reason. Each call is a step of the run model |
| PluginManagers.EnableKeepsHealthy | services/runtime/src/plugin-manager.ts:296-356 | Every outcome of an enable is a step of the run model and keeps the state healthy |
| PluginManagers.EnableIs | services/runtime/src/plugin-manager.ts:296-356 | The outcome computed is the one promised, for every plugin that is not enabled and every host behaviour |
| PluginManagers.PluginManager.ValidateDependencies | services/runtime/src/plugin-manager.ts:612-639 | The recursive validation never reports a cycle or a missing record: its answer is the first problem among the direct dependencies, and below the root there is none |
| PluginManagers.PluginManager.Provision | services/runtime/src/plugin-manager.ts:320-356 | The same for the part after the checks: each error exactly when its condition is the first to fail, with the process attached from the moment it exists |
| PluginManagers.PluginManager.Launch | services/runtime/src/plugin-manager.ts:343-355 | A failed start or permission review leaves the plugin Failed with its process attached; otherwise it is Enabled with the approved permissions |
| PluginManagers.PluginManager.ReviewDeclaredPermissions | services/runtime/src/plugin-manager.ts:576-610 | The granted set is exactly the approved part of the declared permissions, unless a review throws |
| PluginManagers.PluginManager.AuthorizeToolInvocation | services/runtime/src/plugin-manager.ts:358-422 | Authorized exactly for an enabled plugin, a provided tool and a granted permission, and each refusal exactly when its condition is the first to fail |
| PluginManagers.PluginManager.RevokePermission | services/runtime/src/plugin-manager.ts:424-445 | Succeeds exactly for a declared permission of an installed plugin, and then removes just that grant |
| PluginManagers.PluginManager.EnabledDependents | services/runtime/src/plugin-manager.ts:558-574 | Lists, each once, exactly the active plugins with a dependency path to the given one |
| PluginManagers.PluginManager.VisitDependents | services/runtime/src/plugin-manager.ts:560-571 | The recursive walk with its shared set misses no dependent |
| PluginManagers.PluginManager.Disable | services/runtime/src/plugin-manager.ts:447-494 | Ends in every reachable state. Confirmed and without exceptions it disables exactly the plugin and, transitively, every enabled plugin that lists a disabled one, and changes no other record; with an exception it succeeds for no more than a dependents-first part; unconfirmed with dependents it names them and changes nothing |
| PluginManagers.PluginManager.DisableDependents | services/runtime/src/plugin-manager.ts:484-490 | The loop over the dependents, last found first, disables exactly them |
| PluginManagers.PluginManager.DisableSingle | services/runtime/src/plugin-manager.ts:519-536 | Disabled without grants and process, or Failed when stopping throws |
| PluginManagers.PluginManager.Uninstall | services/runtime/src/plugin-manager.ts:496-517 | Removes just the plugin, after the cascade when it is active; succeeds exactly when that cascade is allowed and nothing in it throws |
| KnowledgeGraphs.KnowledgeGraph.AddNode | services/runtime/src/knowledge-graph.ts:106-116 | Refuses foreign types and known identifiers, keeps the edges and the invariant: an acyclic graph without self-loops between existing nodes |
| KnowledgeGraphs.KnowledgeGraph.MarkInactive | services/runtime/src/knowledge-graph.ts:153-161 | Only the activity of the node changes |
| KnowledgeGraphs.OntologyByEnds | services/runtime/src/knowledge-graph.ts:231-255 | The ontology read from the ends: which edge types two node types admit |
| KnowledgeGraphs.KnowledgeGraph.AddEdge | services/runtime/src/knowledge-graph.ts:125-151 | Accepts an edge exactly when its endpoints exist, the ontology allows it, its identifier is new and the graph stays acyclic |
| KnowledgeGraphs.KnowledgeGraph.PathExists | services/runtime/src/knowledge-graph.ts:256-271 | True exactly when a directed path exists |
| KnowledgeGraphs.KnowledgeGraph.Visit | services/runtime/src/knowledge-graph.ts:258-269 | The search with one shared visited set: success means a path, failure leaves a visited set closed under edges without the target |
| KnowledgeGraphs.GuardIsExact | services/runtime/src/knowledge-graph.ts:142-151 | The guard refuses exactly the edges that would close a cycle, self-loops among them |
| KnowledgeGraphs.KnowledgeGraph.Query | services/runtime/src/knowledge-graph.ts:173-229 | The error for each invalid input, else each once exactly the other nodes within the depth by steps along edges of the asked type, from source to target, from target to source or both ways as asked, and exactly the edges of that type with such an end one step less far |
| KnowledgeGraphs.KnowledgeGraph.Search | services/runtime/src/knowledge-graph.ts:202-228 | The same for any depth, in terms of balls around the root |
| KnowledgeGraphs.KnowledgeGraph.ExpandLevel | services/runtime/src/knowledge-graph.ts:206-227 | One level adds exactly the new neighbours and the edges of the frontier |
| KnowledgeGraphs.KnowledgeGraph.Expand | services/runtime/src/knowledge-graph.ts:209-224 | One node of the frontier adds exactly its unseen neighbours and its admissible edges |
| KnowledgeGraphs.SearchIsExact | services/runtime/src/knowledge-graph.ts:206-228 | Balls and touched edges are what distances of admissible steps say |
| KnowledgeGraphs.StepsByEnds | services/runtime/src/knowledge-graph.ts:209-216 | A step follows an edge of the asked type from its source, from its target, or from either, as the direction says |
| KnowledgeGraphs.EdgesByEnds | services/runtime/src/knowledge-graph.ts:209-217 | The edges returned are those of the asked type with the end they are followed from near enough |
| CronSchedules.NextCronOccurrence | services/runtime/src/job-scheduler.ts:406-431 | The loop returns the least minute that matches all five fields, or reports that there is none |
| CronSchedules.NextCronIsLeast | services/runtime/src/job-scheduler.ts:416-431 | It is the least whole minute after the given instant, within 366 days, whose five fields are in the sets; there is none exactly when the search throws |
| CronSchedules.FirstMatchIsLeast | services/runtime/src/job-scheduler.ts:419-429 | The same for a search over any number of minutes |
| JobModel.ParsedIntervalsArePositive | services/runtime/src/job-scheduler.ts:394-404 | Parsed intervals are positive safe integers: seconds in thousands of milliseconds, and each longer unit a multiple of the one before |
| JobModel.BlankIff | services/runtime/src/job-scheduler.ts:351-366 | Blank means empty after trimming |
| JobModel.WhiteSpaceIs | services/runtime/src/job-scheduler.ts:351-366 | What trimming takes away, character by character |
| JobModel.FirstOccurrenceIs | services/runtime/src/job-scheduler.ts:314-322 | A recurring job is due at once, a delayed one at its instant, a cron job at the next minute that matches |
| JobModel.RegistrationThrowsIff | services/runtime/src/job-scheduler.ts:90-101 | The registration of an accepted definition throws exactly when its cron schedule has an occurrence within reach of the clock of the machine and none within reach of the clock of the scheduler |
| JobModel.AcceptedYetThrows | services/runtime/src/job-scheduler.ts:378-384 | A schedule for the 29th of February that is accepted and whose registration throws |
| JobModel.SuccessIsNotDueAgain | services/runtime/src/job-scheduler.ts:333-348 | After a success a job is not due at the same instant |
| JobPasses.CompletedIsRenewed | services/runtime/src/job-scheduler.ts:287-289 | A job that completed in a pass carries the instant of its run and the occurrence that follows it: one interval later, the next minute that matches, or none |
| JobPasses.CallsAreOrdered | services/runtime/src/job-scheduler.ts:235-256 | Runner calls come with the dependencies due at the start of the pass first |
| JobPasses.CyclesDoNotRun | services/runtime/src/job-scheduler.ts:230-233 | No job on a cycle of due jobs is run |
| JobPasses.CompletedIsNotDoomed | services/runtime/src/job-scheduler.ts:235-256 | A job completes only if none of its due dependencies, however far, is blocked or on a cycle; this holds for the dependencies due at the start of the pass and for those found due in it |
| JobPasses.CompletionIsExact | services/runtime/src/job-scheduler.ts:199-304 | In every pass a job that was run or given up completed exactly when the dependencies found due, each at the clock reading at which it was looked at, lead to no blocked job and around no cycle |
| JobPasses.CallsFollow | services/runtime/src/job-scheduler.ts:235-256 | Runner calls come with the dependencies found due first |
| JobPasses.FollowedIsDue | services/runtime/src/job-scheduler.ts:247-251 | What was found due at some reading is due by the end of the pass |
| JobPasses.CompletionAtRest | services/runtime/src/job-scheduler.ts:199-304 | When no occurrence falls due during the pass, the jobs due at its start decide what completes |
| JobSchedulers.JobScheduler.Register | services/runtime/src/job-scheduler.ts:90-114 | Each refusal exactly when its condition holds, in the order of the source and in terms of trimmed texts, intervals and matching minutes, and the first occurrence of an accepted definition |
| JobSchedulers.JobScheduler.SelectDue | services/runtime/src/job-scheduler.ts:200-203 | Selects the scheduled jobs due at their own clock readings |
| JobSchedulers.JobScheduler.RunDue | services/runtime/src/job-scheduler.ts:199-220 | For any dependency graph and any runner outcomes the pass ends, calls each runner at most once and only with its due dependencies completed. It returns exactly the initially due jobs from which the dependencies found due lead to no blocked job and around no cycle, normal priority first, then the earlier occurrence, then the earlier registration. Every other due job is Failed because its runner failed or a dependency is missing, failed or was cancelled; a job not due is untouched |
| JobSchedulers.JobScheduler.RunJob | services/runtime/src/job-scheduler.ts:222-304 | One recursive call keeps the invariant of the pass and answers true exactly for completed jobs |
| JobSchedulers.JobScheduler.RunDependencies | services/runtime/src/job-scheduler.ts:235-257 | Ready means every dependency has been served |
| JobSchedulers.JobScheduler.RunDependency | services/runtime/src/job-scheduler.ts:236-255 | A missing, failed, cancelled or failing dependency fails the job |
| JobSchedulers.JobScheduler.Execute | services/runtime/src/job-scheduler.ts:259-266 | A job is called only while it is still scheduled; the test for a taken group never rejects in a pass |
| JobSchedulers.JobScheduler.CallRunner | services/runtime/src/job-scheduler.ts:264-304 | The call happens once, with the job marked as running and its group taken, and the job ends renewed or failed with both given back |
| JobSchedulers.JobScheduler.FailJob | services/runtime/src/job-scheduler.ts:306-312 | Only status and error change, and only for a job that cannot complete |
| JobSchedulers.DueOrderIsExact | services/runtime/src/job-scheduler.ts:200-203 | The pass takes exactly the jobs found due |
| JobSchedulers.DueOrderIsSorted | services/runtime/src/job-scheduler.ts:204-212 | Normal priority before low, then the earlier occurrence, then the earlier registration |
| StartOrders.StartOrder | services/runtime/src/runtime-manager.ts:182-230 | Succeeds exactly when every dependency is registered and there is no cycle; then a permutation of the services with dependencies first, else an error that names a real cycle or a missing dependency |
| StartOrders.Visit | services/runtime/src/runtime-manager.ts:187-221 | The recursive call extends the order consistently or justifies its error by the chain of calls in progress |
| RuntimeManagers.RuntimeManager.Register | services/runtime/src/runtime-manager.ts:34-52 | Refuses empty and known names, keeps the other registrations |
| RuntimeManagers.RuntimeManager.StartAll | services/runtime/src/runtime-manager.ts:54-93 | Attempts dependencies before dependents, stops only at a critical failure, returns exactly the failing non-critical services, and leaves the statuses this implies |
| RuntimeManagers.FailingInOrder | services/runtime/src/runtime-manager.ts:60-92 | The services reported as degraded keep the order of the attempts |
| RuntimeManagers.StartsAreLocal | services/runtime/src/runtime-manager.ts:72-89 | Each attempted service has the heartbeat and the outcome of its own attempt, with its own clock readings, and nothing else changes |
| RuntimeManagers.RuntimeManager.StopAll | services/runtime/src/runtime-manager.ts:118-135 | Stops dependents before what they depend on, all of them or up to the first failure |
| RuntimeManagers.RuntimeManager.CheckHeartbeats | services/runtime/src/runtime-manager.ts:95-103 | The loop takes the services in registration order, with one clock reading for the silence and one for the restart of each |
| RuntimeManagers.ChecksAreLocal | services/runtime/src/runtime-manager.ts:96-102 | Exactly the services silent for three intervals at their own reading ask for a restart, each once: within the budget it is noted and counts as a sign of life, beyond it only the exhausted budget is reported |
| RuntimeManagers.CheckIsWatched | services/runtime/src/runtime-manager.ts:96-102 | A check does to a service what a step of the run model of the restart budget does |
| RuntimeManagers.Registration.RestartIfAllowed | services/runtime/src/runtime-manager.ts:137-180 | After dropping the restarts before the window it restarts exactly when fewer than the immediate ones are left or a second doubled for each one beyond them is within the ceiling; the new times, heartbeat and report, and the rate bound over the whole history |
| RuntimeManagers.Registration.PurgeRestartTimes | services/runtime/src/runtime-manager.ts:140-145 | The shift loop drops the leading instants before the window |
| RestartBudgets.RestartRate | services/runtime/src/runtime-manager.ts:137-180 | Over every run every closed interval as long as the window holds at most maxImmediateRestarts plus k restarts, k the number of backoff levels within the ceiling |
| RestartBudgets.RestartRateReachedIff | services/runtime/src/runtime-manager.ts:95-180 | Some run of heartbeat checks fills a window up to the limit exactly when that many restarts, each after the tolerated silence, fit into it |
| RestartBudgets.ChecksAreBounded | services/runtime/src/runtime-manager.ts:95-180 | However the checks come, a window holds at most the limit and no more restarts than fit into it |
| RestartBudgets.ChecksAreApart | services/runtime/src/runtime-manager.ts:97-101 | Restarts by checks are at least three heartbeat intervals apart |
| RestartBudgets.BudgetIsLimit | services/runtime/src/runtime-manager.ts:147-152 | The backoff test for one more restart is a comparison with that number, and says that a second doubled for each restart beyond the immediate ones is within the ceiling |
| RestartBudgets.PowersMultiply | services/runtime/src/runtime-manager.ts:149-151 | The multiplier is a power of two: powers multiply |
| RestartBudgets.PurgeDropsOld | services/runtime/src/runtime-manager.ts:139-145 | On instants in order the purge keeps a suffix and drops only what lies before the window |
| RestartBudgets.PurgeIsRecent | services/runtime/src/runtime-manager.ts:140-145 | The purge drops the leading instants before the window and no others |
| LogicalClocks.LogicalClock.Tick | services/runtime/src/device-compatibility.ts:28-31 | Advances by one step of the run model and stamps it |
| LogicalClocks.LogicalClock.Observe | services/runtime/src/device-compatibility.ts:33-36 | The counter passes both its own and the remote value |
| LogicalClocks.HappensBeforeIsOrdered | services/runtime/src/device-compatibility.ts:28-41 | Over every run of any number of devices, what happens before through ticks, sends and observations has the smaller stamp |
| LogicalClocks.StampsAreDistinct | services/runtime/src/device-compatibility.ts:28-41 | All stamps of a run differ, and of two exactly one is smaller |
| LogicalClocks.CompareIsOrder | services/runtime/src/device-compatibility.ts:38-41 | Older stamps come first, and equal counters are decided by the devices |
| LogicalClocks.CompareIsTransitive | services/runtime/src/device-compatibility.ts:38-41 | The comparison is transitive when the order of identifiers is |
| LogicalClocks.OrderIsNotCausality | services/runtime/src/device-compatibility.ts:38-41 | The converse of the clock condition fails |
| SyncModel.ConvergesIff | services/runtime/src/cross-device-sync.ts:192-207 | Replicas that applied the same changes, in any order with any repetition or each of them once, always agree exactly when the newest changes to each field agree on its value |
| SyncModel.LogIsExplained | services/runtime/src/cross-device-sync.ts:192-207 | What a replica holds for a field is a newest change to it among those applied |
| SyncModel.HistoryIsLog | services/runtime/src/cross-device-sync.ts:192-199 | The history of an entity is every change applied to it, in order, those that lost included |
| SyncModel.TiesDiverge | services/runtime/src/cross-device-sync.ts:201-204 | Two changes applied in two orders leave different replicas exactly when they write different values to a field at equal clocks |
| CrossDeviceSync.CrossDeviceSyncManager.ApplyChange | services/runtime/src/cross-device-sync.ts:192-207 | The loop over the fields, in any order, has the effect of the merge on the replica |
| CrossDeviceSync.CrossDeviceSyncManager.Sync | services/runtime/src/cross-device-sync.ts:66-128 | It succeeds exactly for a checkpoint that does not go back and well-formed envelopes, and a failed sync changes nothing. What it applies are changes of envelopes of granted partitions, each identifier that is due once, by the change that is most urgent, then oldest, then first pulled, and in this order |
| CrossDeviceSync.CrossDeviceSyncManager.ApplyFresh | services/runtime/src/cross-device-sync.ts:108-119 | The loop applies and remembers what was not applied before |
| CrossDeviceSync.CrossDeviceSyncManager.ApplyLocal | services/runtime/src/cross-device-sync.ts:130-138 | A local change is merged and becomes pending, but does not count as applied |
| CrossDeviceSync.CrossDeviceSyncManager.Flush | services/runtime/src/cross-device-sync.ts:140-169 | A failed flush keeps everything pending; a successful one takes out exactly the identifiers captured before the push, whatever local changes were made meanwhile |
| CrossDeviceSync.PushedMeanwhile | services/runtime/src/cross-device-sync.ts:130-163 | A local change made during a push stays pending exactly when its identifier was not being pushed |
| CrossDeviceSync.BatchOrder | services/runtime/src/cross-device-sync.ts:97-101 | A batch is applied by category, then by clock, otherwise as pulled |
| CrossDeviceSync.BatchSelects | services/runtime/src/cross-device-sync.ts:90-118 | The batch is that selection from the envelopes, for every pull, partitions and identifiers applied before |
| CrossDeviceSync.UrgentFirst | services/runtime/src/cross-device-sync.ts:46-52 | Security, task state, episodic memory, graph knowledge, configuration |
| CrossDeviceSync.FreshIsNew | services/runtime/src/cross-device-sync.ts:110-118 | Each identifier is applied at most once and none is lost |
| CrossDeviceSync.ManagersConverge | services/runtime/src/cross-device-sync.ts:66-138 | Two managers with the same changes, whether pulled or local, hold equal fields and clocks if the newest changes agree |
| ResourceModel.RunsAreSound | services/runtime/src/resource-manager.ts:36-83 | No lost wakeup: over every run each queued request contains a held resource and each task is queued at most once |
| ResourceModel.AcquiredIs | services/runtime/src/resource-manager.ts:36-56 | Unless another task holds one of the resources all of them are taken; otherwise the task waits, once |
| ResourceModel.ReleasedIs | services/runtime/src/resource-manager.ts:58-83 | The locks of the task are gone and those of others stay; each grant was queued and takes all its resources, which were free; what stays queued is blocked |
| ResourceModel.ScanIsGreedy | services/runtime/src/resource-manager.ts:65-81 | A release grants exactly the greedy first-come selection and keeps the others in order |
| ResourceModel.GreedyIsUnique | services/runtime/src/resource-manager.ts:65-81 | There is only one greedy selection |
| ResourceModel.GrantsTakeAll | services/runtime/src/resource-manager.ts:72-77 | Each grant takes all its resources, which were free |
| ResourceModel.ScanSettles | services/runtime/src/resource-manager.ts:65-82 | What stays queued is blocked, and the locks of others are untouched |
| ResourceModel.GrantableIff | services/runtime/src/resource-manager.ts:41-49 | Releases by other tasks can serve a request exactly when its own task holds none of its resources |
| ResourceModel.SelfBlockedRun | services/runtime/src/resource-manager.ts:36-83 | A run after which nobody else holds anything and a request still waits for its own task |
| ResourceModel.ReleasesServe | services/runtime/src/resource-manager.ts:58-83 | Every queued request of a reachable table is served by some releases, its own task's first if that holds any of its resources |
| ResourceManagers.ResourceManager.Acquire | services/runtime/src/resource-manager.ts:36-56 | Granted exactly when no other task holds one of the resources, and then all are locked at this instant; otherwise at most one request of the task waits |
| ResourceManagers.ResourceManager.Release | services/runtime/src/resource-manager.ts:58-83 | The loop that takes entries out of the array it walks equals one scan of the queue, with what this means for locks and requests |
| RateWindows.RateLimiter.AllowRequest | services/runtime/src/rest-api.ts:590-600 | Allowed exactly when the window of the token is missing, a minute old or has room; other tokens keep theirs |
| RateWindows.RateBound | services/runtime/src/rest-api.ts:590-600 | Any closed interval of a minute holds at most twice the limit |
| RateWindows.WindowBound | services/runtime/src/rest-api.ts:593-598 | Each window opened holds at most the limit |
| RateWindows.RefusedIsFull | services/runtime/src/rest-api.ts:590-600 | A request is refused only if the minute ending with it already holds as many allowed requests as the limit |
| RateWindows.RateBoundReached | services/runtime/src/rest-api.ts:590-600 | Twice the limit is reached |
| RateWindows.LowLimitAdmitsOpeners | services/runtime/src/rest-api.ts:593-597 | A limit below one admits the request that opens a window and no other |
| PipeFraming.FrameReader.OnData | packages/shared/src/named-pipe-bus.ts:150-164 | Whatever chunks arrive, the messages handled, the ready mark and the buffer are those of the whole stream |
| PipeFraming.ChunkingIsIrrelevant | packages/shared/src/named-pipe-bus.ts:148-165 | For every way of cutting a stream the frames are its newline split and the buffer the text after the last newline |
| PipeFraming.FramesAreSplit | packages/shared/src/named-pipe-bus.ts:152-156 | The loop computes a newline split |
| PipeFraming.MessagesAre | packages/shared/src/named-pipe-bus.ts:152-163 | All frames but the ready mark are messages, in their order |
| PipeFraming.SplitIsUnique | packages/shared/src/named-pipe-bus.ts:152-156 | There is only one newline split |
| PipeFraming.WrittenReadsBack | packages/shared/src/named-pipe-bus.ts:205-207 | Newline-free frames read back as they were written |
| RetrievalFusions.Fuse | services/runtime/src/retrieval-fusion.ts:23-44 | The result ranks each identifier of an active candidate once, as the candidate first visited with the capped sum of its contributions, better scores first and equal ones in the order of first arrival |
| RetrievalFusions.ContributionIs | services/runtime/src/retrieval-fusion.ts:14-62 | The weight of each branch and of each feature, and the cap at one |
| RetrievalFusions.VisitsAre | services/runtime/src/retrieval-fusion.ts:25-30 | Exactly the active candidates of all branches are visited |
| RetrievalFusions.VisitsInOrder | services/runtime/src/retrieval-fusion.ts:25-30 | Branches are visited one after the other, and so are the candidates of a branch |
| RetrievalFusions.ArrivalsAreListed | services/runtime/src/retrieval-fusion.ts:33-39 | Each identifier of the table arrives once |
| RetrievalFusions.TiesKeepArrival | services/runtime/src/retrieval-fusion.ts:43-43 | Candidates with equal scores come in the order of their first arrival |
| RetrievalFusions.MergedScores | services/runtime/src/retrieval-fusion.ts:31-40 | The table holds exactly the identifiers of active candidates, each with the capped sum of its contributions |
| RetrievalFusions.CappedIsSum | services/runtime/src/retrieval-fusion.ts:36-39 | Without negative contributions capping every step equals capping once |
| RetrievalFusions.ScoresAreOrderIndependent | services/runtime/src/retrieval-fusion.ts:23-61 | For inputs in the unit interval each score is the minimum of one and the sum, whatever the order of arrival |
| RetrievalFusions.VisitsByMultiset | services/runtime/src/retrieval-fusion.ts:25-30 | Branches in another order contribute the same candidates |
| FusionOrders.BranchOrderIsIrrelevant | services/runtime/src/retrieval-fusion.ts:23-61 | For inputs in the unit interval permuted branches give every identifier the same score, the minimum of one and the sum |
| FusionOrders.CappedIsOrderFreeIff | services/runtime/src/retrieval-fusion.ts:36-39 | Every order of contributions gives the same capped sum exactly when none is negative or the positive ones stay within the cap |
| FusionOrders.ScoreIsOrderFreeIff | services/runtime/src/retrieval-fusion.ts:23-44 | Branches that deliver the same candidates in any other order and grouping give the same score exactly under that condition |
| FusionOrders.NegativeContributionsDepend | services/runtime/src/retrieval-fusion.ts:36-39 | Three branches whose two orders give an identifier the scores 1/2 and 1 |
| RetrievalFusions.ResultIsSorted | services/runtime/src/retrieval-fusion.ts:43-43 | The result is a permutation of the table by falling score |
| Sorting.StableSortSorts | services/runtime/src/job-scheduler.ts:204-212 | The sort used for jobs, changes and scores is a sorted permutation |
| Sorting.StableSortArranges | services/runtime/src/job-scheduler.ts:204-212 | Each position of the result is one of the list, every one once, in order, and equal ones as they were |
| Sorting.StableSortKeepsTies | services/runtime/src/cross-device-sync.ts:97-101 | Equal elements keep their order |
| Orchestration.PlansAreNeverApproved | services/runtime/src/orchestration.ts:111-147 | Whatever the model planner answers, no planned step is approved and each belongs to the task |
| Orchestration.PlansKeepTheSteps | services/runtime/src/orchestration.ts:111-147 | A known goal yields its one step; otherwise the plan holds every step the model gave, in order, with only task and approval replaced, and is refused exactly when a step is defective |
| Orchestration.UnapprovedIsReadOnly | services/runtime/src/orchestration.ts:169-212 | Without approval only read-only actions with a verification signal are admitted |
| Orchestration.AdmittedIff | services/runtime/src/orchestration.ts:169-212 | Admitted exactly when the tool is known and allowed, has the action, and the action only reads with a signal or was approved in time; each refusal exactly when its condition is the first to fail |
| Orchestration.Executor.Execute | services/runtime/src/orchestration.ts:267-329 | The answer, the lock table and the invocations in each case: a write holds its locks for the invocation only, a step whose locks are taken is not invoked |
| Orchestration.AnswersAreVerifiable | services/runtime/src/orchestration.ts:381-422 | An answer always fits its step, and is verified exactly for a success with evidence |
| Orchestration.VerdictIff | services/runtime/src/orchestration.ts:381-422 | Failed without success, unverified without evidence, verified with both, and a mismatch for the result of another step |
| Orchestration.RejectionLeavesRequest | services/runtime/src/orchestration.ts:285-293 | A step rejected for its locks leaves exactly one request of its task in the queue, the new one unless the task was waiting already |
| Orchestration.AbandonedRequestIsGrantableIff | services/runtime/src/orchestration.ts:285-293 | Releases of other tasks grant that request, to a task that no longer asks, exactly when the task holds none of its resources |
| Orchestration.AbandonedRequestIsGranted | services/runtime/src/orchestration.ts:285-293 | With one holder and an empty queue the very next release does so |
| TaskModel.FinalStatesAbsorb | services/runtime/src/task-manager.ts:32-45 | Completed and Cancelled are never left, over every interleaving of operations |
| TaskModel.RetriesAreCounted | services/runtime/src/task-manager.ts:136-155 | From any manager, empty or restored, a run adds to retry_count exactly its entries into Retrying, never beyond maxRetries |
| TaskModel.RetriesFromNothing | services/runtime/src/task-manager.ts:136-155 | From an empty manager retry_count is the number of entries into Retrying and within maxRetries |
| TaskModel.StateChangesAreAllowed | services/runtime/src/task-manager.ts:109-162 | Every change of state is one the table allows |
| TaskModel.TargetsAreSources | services/runtime/src/task-manager.ts:32-45 | The transition table, read backwards: from which states each state is entered |
| TaskManagers.TaskManager.CreateTask | services/runtime/src/task-manager.ts:55-82 | Refuses a known task, else files a Created record with the given fields |
| TaskManagers.TaskManager.Transition | services/runtime/src/task-manager.ts:109-162 | Each refusal exactly when its condition is the first to hold: missing task, a state the target is not entered from, no blocking reason, an exhausted budget; else every field of the new record |
| TaskManagers.TaskManager.Assign | services/runtime/src/task-manager.ts:164-193 | Refuses a missing task, an empty device and a waiting task of another device, else only owner and time stamp change |
| TaskManagers.TaskManager.AppendStepHistory | services/runtime/src/task-manager.ts:195-207 | One entry is appended, nothing else changes but the time stamp |
| TaskManagers.TaskManager.Restore | services/runtime/src/task-manager.ts:96-107 | The map is replaced by the last record of each task, with interrupted work unverified and nothing else changed |
| TaskCheckpoints.TableRefinesMap | services/memory/src/task-checkpoint-store.ts:39-76 | After every interleaving of appends by any number of workspaces each task of a workspace has at most one live row, and it holds the last record the workspace appended for it |
| TaskCheckpoints.LastAppendedIs | services/memory/src/task-checkpoint-store.ts:39-76 | In terms of the appends: a task has an entry exactly when its last append is live, namely that record without its owner |
| TaskCheckpoints.OtherWorkspacesKept | services/memory/src/task-checkpoint-store.ts:44-52 | Rows of other workspaces are left alone |
| TaskCheckpoints.ListingIsComplete | services/memory/src/task-checkpoint-store.ts:78-91 | Reading the rows in any order yields exactly that map |
| TaskCheckpoints.RecoveryIsSafe | services/memory/src/task-checkpoint-store.ts:97-112 | Cut short anywhere, a recovery has normalized a prefix of the records and left the others as they were |
| TaskCheckpoints.RecoveryIsComplete | services/memory/src/task-checkpoint-store.ts:97-112 | A complete recovery makes executing and verifying records unverified at its instant, and changes nothing else |
| TaskCheckpoints.PartOfRecoveryStopsSome | services/memory/src/task-checkpoint-store.ts:97-112 | Whatever part of its work a recovery has done, each record is either so or as it was |
| TaskCheckpoints.InterruptedRecovery | services/memory/src/task-checkpoint-store.ts:97-112 | A recovery cut short and repeated ends like an undisturbed one, up to time stamps |
| TaskCheckpoints.SecondRecoveryIsIdle | services/memory/src/task-checkpoint-store.ts:103-108 | A second recovery appends nothing and changes nothing |
| TaskCheckpoints.SubmittedIsRecovered | services/memory/src/task-checkpoint-store.ts:97-112 | A task that was ever appended is recovered from any later crash as its last appended record |
| TaskCheckpoints.RestoredIsRecovered | services/runtime/src/task-manager.ts:96-107 | Restoring the recovered records gives the manager exactly the recovered map |
| TaskCheckpoints.TaskCheckpointStore.AppendCheckpoint | services/memory/src/task-checkpoint-store.ts:39-76 | One transaction: the live rows of the task are superseded and the new row added, or nothing changed |
| TaskCheckpoints.TaskCheckpointStore.LoadLatest | services/memory/src/task-checkpoint-store.ts:78-95 | Reads the first live row of each task under the identifier of the row; lists the map of last records, or reports failing storage or an unreadable live row |
| TaskCheckpoints.TaskCheckpointStore.RecoverAfterCrash | services/memory/src/task-checkpoint-store.ts:97-112 | With storage failing anywhere each last record is as it was or, if executing or verifying, unverified at this instant, and only valid checkpoints of such records are added; with an answer of Ok every such record is, nothing else has changed, and the answer lists the new map |
| TaskPipelines.CompletionIsEarned | services/runtime/src/runtime-task-coordinator.ts:194-246 | A run ends Completed, Unverified or Failed, and Completed exactly when the plan has steps and each succeeded with evidence |
| TaskPipelines.FailureIsReported | services/runtime/src/runtime-task-coordinator.ts:204-245 | It ends Failed exactly when there is no plan or some step was rejected or did not succeed |
| TaskPipelines.EndingIsEarned | services/runtime/src/runtime-task-coordinator.ts:194-246 | In terms of the tools: Completed exactly when the plan has steps and every tool was invoked and returned success with evidence, Failed exactly when there is no step or some tool returned nothing or no success |
| TaskPipelines.RunIsRejected | services/runtime/src/runtime-task-coordinator.ts:214-221 | A run ends at the first step whose tool returned nothing, recorded with its error |
| TaskPipelines.RunIsJudged | services/runtime/src/runtime-task-coordinator.ts:225-245 | If all tools returned, each step is recorded with its result and verdict, and the worst verdict decides |
| TaskPipelines.CompletionIsRecorded | services/runtime/src/runtime-task-coordinator.ts:236-239 | A completed run leaves one verified entry per step in plan order |
| TaskPipelines.MismatchIsUnreachable | services/runtime/src/orchestration.ts:312-315 | The step mismatch of the verifier never occurs |
| TaskPipelines.FirstError | services/runtime/src/runtime-task-coordinator.ts:216-221 | The step a run stops at is the first that is rejected |
| TaskCoordinators.UninterruptedRun | services/runtime/src/runtime-task-coordinator.ts:194-267 | With storage up an execute from any state that may enter Planning is never rejected, completes exactly when every tool of a non-empty plan returned success with evidence, fails exactly when there is no step or some tool returned nothing or no success, and store and memory agree on the task |
| TaskCoordinators.SubmittedSurvives | services/runtime/src/runtime-task-coordinator.ts:43-54 | A task whose submission was answered with Ok is recovered after a crash at any later point as its last appended record without owner, executing and verifying made unverified |
| TaskCoordinators.RetrySpendsOne | services/runtime/src/runtime-task-coordinator.ts:56-73 | A retry leaves Unverified or Failed only and spends one unit of the budget |
| TaskCoordinators.RuntimeTaskCoordinator.SubmitDurable | services/runtime/src/runtime-task-coordinator.ts:43-54 | Answered with Ok only when the created task is in the store |
| TaskCoordinators.RuntimeTaskCoordinator.Execute | services/runtime/src/runtime-task-coordinator.ts:194-246 | Missing tasks and illegal states change nothing; otherwise only failing storage stops the run, other tasks are untouched, only read-only tool actions with evidence are invoked and the lock table stays as it was |
| TaskCoordinators.RuntimeTaskCoordinator.ExecutePlan | services/runtime/src/runtime-task-coordinator.ts:212-245 | Every step up to the first rejected one is executed once, in order |
| TaskCoordinators.RuntimeTaskCoordinator.ExecuteSteps | services/runtime/src/runtime-task-coordinator.ts:214-221 | The loop collects the replies up to the first error without taking a lock |
| TaskCoordinators.RuntimeTaskCoordinator.VerifySteps | services/runtime/src/runtime-task-coordinator.ts:225-234 | The loop yields a verdict for every step, or a mismatch |
| TaskCoordinators.RuntimeTaskCoordinator.RecordSteps | services/runtime/src/runtime-task-coordinator.ts:236-239 | Each entry is recorded with its own checkpoint |
| TaskCoordinators.RuntimeTaskCoordinator.Judge | services/runtime/src/runtime-task-coordinator.ts:225-245 | The final state follows from the worst verdict |
| TaskCoordinators.RuntimeTaskCoordinator.Fail | services/runtime/src/runtime-task-coordinator.ts:248-255 | Notes the error and fails the task |
| TaskCoordinators.RuntimeTaskCoordinator.Transition | services/runtime/src/runtime-task-coordinator.ts:257-267 | A rejected transition is not stored; a stored one is the record in memory |
| TaskCoordinators.RuntimeTaskCoordinator.AppendStepHistory | services/runtime/src/runtime-task-coordinator.ts:269-275 | The same for an entry of the history |
| TaskCoordinators.RuntimeTaskCoordinator.Retry | services/runtime/src/runtime-task-coordinator.ts:56-73 | Needs confirmation, stores Retrying first and then executes |
| TaskCoordinators.RuntimeTaskCoordinator.ResumePaused | services/runtime/src/runtime-task-coordinator.ts:75-100 | Only a confirmed, paused task is executed; all else changes nothing |
| TaskCoordinators.RuntimeTaskCoordinator.ConfirmWaitingUser | services/runtime/src/runtime-task-coordinator.ts:102-146 | Only a task waiting for a permission goes on to Executing; the transition is never rejected |
| TaskCoordinators.ConfirmedTaskWaits | services/runtime/src/runtime-task-coordinator.ts:102-146 | From Executing an execute and a retry are rejected and change nothing; after a restart the task may be retried |
| TaskCoordinators.RuntimeTaskCoordinator.DenyWaitingUser | services/runtime/src/runtime-task-coordinator.ts:148-192 | Only a task waiting for a permission is cancelled, as denied |

## Left out

- Sockets, HTTP, the database client, files, bridges to PowerShell and Electron, logging, encryption and random identifiers.
- The text of versions, ranges, intervals, cron fields and manifests: the model starts from parsed values, with a flag for a
  malformed manifest. The cron parser reads a lone `*` as the set {0}; the field sets are parameters here.
- Prerelease tags, which the version comparison of the code ignores.
- The civil calendar: it is an arbitrary function from instants to fields.
- Interleaving inside asynchronous methods, which are atomic in the classes; `PluginInterleavings` covers any interleaving of
  the writes of plugin operations, and `TaskModel` any interleaving of task operations.
- Job cancellation during a pass, restoring persisted jobs in `start` and the writes to the job store; concurrent passes are
  already serialized by the code.
- The `health` and list functions of the managers, `getNode`, `neighbors` and the sync history: they only read.
- `expireLocks` frees locks without scanning the queue, so it is not part of the runs without lost wakeups.
- Sync histories, which may hold an echoed local change twice; fields and clocks are compared.
- Decoding of UTF-8 across chunks: the framing model starts from characters.
- Parsing and dispatch of bus messages after framing, with retries and dead letters.
- Floating-point rounding in scores: the fusion model computes with reals.
- The owner of a task is not stored with its checkpoint, so recovered records have none.
- `cancelTask` and `pauseTask` of the runtime application change memory without a checkpoint: recovery is about the last
  appended record, not about memory.
- Publishing of progress events and a coordinator without persistence, an executor without a resource manager, and
  `submit`, which does not persist.
- Exceptions thrown by the planner; a planner that returns an error is modelled.
- The data shape test of planned steps covers non-empty identifiers, a positive time limit and a flag for the correlation
  identifier.
- Device version compatibility, the protocol validators, builders, caches and invalidators: shape tests and time-to-live maps.
