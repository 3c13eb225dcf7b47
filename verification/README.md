# Verified model of ClusterBuster's protocols and reports

ClusterBuster starts many pods or virtual machines, makes them step through a benchmark in lockstep, collects one
result per worker process and turns the results into reports. This project models the parts where state, steps or
arithmetic matter, in Dafny, and proves what they are for. `dafny verify dfyconfig.toml` checks everything.

| file | what it models |
|---|---|
| `sync_round.dfy`, `sync_read.dfy` | one round of the sync pod: reading requests, agreement on a command, result files, exit code; the same from the bytes on a connection |
| `barrier.dfy`, `synctest.dfy` | all rounds, containers and worker processes together, as a step system; the synctest program |
| `frame.dfy` | length-prefixed messages over a socket with short reads and writes |
| `nameserver.dfy` | the nameserver of the sync pod |
| `timeline.dfy`, `timeline_sweep.dfy`, `timeline_report.dfy` | the memory timeline: its definition by intervals, the difference-map sweep, and what it shows of the reports |
| `plan.dfy`, `plan_counts.dfy` | the manifest plan, and the client counts given to the sync pod |
| `plan_names.dfy`, `plan_objects.dfy` | the spelled names of objects, and which objects a plan makes |
| `plan_live.dfy`, `plan_run.dfy` | the live run: per-namespace plans, filters, sync objects, host names, namespace names |
| `creation.dfy` | batching and parallel creation of objects |
| `echo.dfy` | the client/server message exchange |
| `stats.dfy` | one-pass statistics of reports and of the client, pacing, start and end times |
| `monitor.dfy`, `pod_monitor.dfy` | cutting the pod watcher's output into lines; the verdict on the pods |
| `file_system.dfy`, `files.dfy` | a file-system model, and the files workload on it |
| `ci_jobs.dfy` | job directories of the CI suite, restarts |
| `vm_address.dfy` | private addresses of virtual machines |
| `basics.dfy` | shared types, string helpers, counting lemmas |

A loop of the program is a method with a loop, proved equal to a function of its inputs or of the old state; what the
program promises is then proved about that function. Objects with fields are classes. Concurrent parties are step
systems: a run is any sequence of possible steps, so a statement about all runs covers every interleaving.

Some promises turned out to hold only under a condition. Each is stated as an equivalence with the condition:

- A round's agreement check (`sync.py:413-419`) tests the expected command for truth. Completion of a round means that
  all its requests had one command if and only if the first command is not empty, or only one client is waited for
  (`SyncRound.AgreementExactly`). A round ends the run if and only if its requests come from distinct peers and are
  results but for empty commands before them (`SyncRound.EndsTheRun`). The barrier results assume that commands are not
  empty.
- The nameserver's waiting requesters are its open connections if and only if no request asked for nothing
  (`NameServer.ConnectionsExactly`).
- A message survives framing if and only if it is ASCII and shorter than 2^32 characters: the prefix counts characters,
  the reader counts bytes (`Frame.FrameRoundTrip`).
- A dense timeline has a line for every bucket if and only if the gap test passes at every jump over buckets
  (`TimelineSweep.EveryBucketIff`), and it has one for every bucket whatever the cases are if and only if the step is at
  least one second (`TimelineSweep.DenseStepsExactly`). Bucket numbers turn back into bucket starts if and only if the step is fractional or below 10^9
  (`Timeline.BucketStartExactly`).
- The first round waits for the right number of containers if and only if the workload has a single role, or nothing is
  created, or each server pod has one container and there are no drop-cache pods (`PlanCounts.InitialCountExactly`).
- The live run submits exactly the list of planned objects if and only if there is no sync pod, or the pod prefix is
  empty and the base name has no underscore, or there is just one namespace (`PlanRun.Decomposition`). Otherwise the
  filters do not recognise the sync pod, and it is submitted with the plan of every namespace, with the counts of one
  namespace. In the default configuration all of these are the same object, so the run has one sync pod, but it waits
  for too few clients; with the sync pod in the first namespace there is one for each namespace. The run ends up with
  one sync pod if and only if it is recognised, or has a namespace of its own, or there is just one namespace
  (`PlanRun.SyncPodsCreated`); it has a sync pod with the counts of the whole run if and only if it is recognised, or
  there is just one namespace, or nothing to wait for (`PlanRun.RightCountsExactly`). The CI suite's option for unique
  job prefixes sets such a prefix.
- Creating, reading and removing the files of the files workload leaves the file system as it was if and only if the
  base directories existed (`Files.RoundTrip`). The whole job first empties these directories; so it leaves the file
  system as it was if and only if they existed and were empty (`Files.AsBeforeExactly`, `Files.AsBeforeIfEmpty`).
- Addresses of virtual machines are distinct for one builder; a live run uses one builder per namespace, so two
  namespaces with machines share addresses (`VmAddress.NamespacesShareAddresses`).

## Model

| member | source | states |
|---|---|---|
| `SyncRound.Handle` | lib/pod_files/sync.py:409-462 | one request with the right nonce: duplicate peer, disagreement, late time request and reported failure end the run; every other one is counted, as the specification function says |
| `SyncRound.SyncOne` | lib/pod_files/sync.py:363-473 | a whole round over any queue of connections: exit code, result files, names registered and number of time replies are those of the specification |
| `SyncRound.RoundExactly` | lib/pod_files/sync.py:382-469 | for any requests: which are looked at; that one of them fails the run exactly if it repeats a peer or differs from a command given before, asks for the time too late or wrongly, or reports a failure; and the peers known, names, time replies and result files the round leaves behind |
| `SyncRound.ExitExactly` | lib/pod_files/sync.py:382-473 | the round waits while clients are missing, ends with code 1 if a request was refused or there was no client to wait for, and otherwise with code 2 exactly if the last request looked at was a result |
| `SyncRound.ParseExactly` | lib/pod_files/sync.py:397-412 | a connection comes to a request exactly if its token begins with the nonce and a blank and the nonce has no blank, to an error exactly if reading raised, and otherwise to nothing |
| `SyncRound.ReadSays` | lib/pod_files/sync.py:411-412 | the command is spelled by the first four characters behind the nonce in lower case, the payload is the rest without leading blanks |
| `SyncRound.SentIsRead` | lib/pod_files/clusterbuster_pod_client.py:587-597 | what a client sends is read back: its command, whatever the case, and its payload |
| `SyncRound.StrangersChangeNothing` | lib/pod_files/sync.py:397-408 | a round is decided by the connections with the nonce alone |
| `SyncRound.NobodyKnows` | lib/pod_files/sync.py:397-408 | if no connection has the nonce and no read raises, the round stays as it was |
| `SyncRead.MessageArrives` | lib/pod_files/sync.py:397-412 | from the bytes on the connection: an ASCII message with the nonce, framed, is the request of that peer with that command and payload |
| `SyncRead.SilentPeer` | lib/pod_files/sync.py:397-400 | a peer that closes without a byte leaves the round as it was; one whose prefix is cut short ends it |
| `SyncRound.OnlyRequestsCount` | lib/pod_files/sync.py:397-408 | unless a read raises, a round is decided by the requests behind the nonce, in their order; `Requests` takes them from the texts, not from the parser |
| `SyncRound.EndsTheRun` | lib/pod_files/sync.py:409-473 | a fresh round of N requests ends the run exactly if they come from distinct peers and are results but for empty commands before them, and then the files are those of the results, file j holding the one that came j-th from the end |
| `SyncRound.OtherCommandNeverEnds` | lib/pod_files/sync.py:415-419 | a round committed to a command other than a result never ends the run |
| `SyncRound.SeenCommands` | lib/pod_files/sync.py:413-419 | the requests looked at by a round that did not fail have empty commands first and then one command only |
| `SyncRound.AgreementExactly` | lib/pod_files/sync.py:413-419 | whatever follows a first request, a completed round has looked at one command only, if and only if the first command is not empty or no other client is waited for |
| `SyncRound.WorkerResults` | lib/pod_files/sync.py:488-502 | the collected results are the files 1 to N in order, parsed, with an empty entry for each that is missing or does not parse; collecting for no clients is an error |
| `SyncRound.EnterNames` | lib/pod_files/sync.py:427-437 | the names of one client, an eth0 name at the address it connected from, the last entry of a name winning |
| `Barrier.StepKeepsInv` | lib/pod_files/sync.py:382-473 | every possible step of any participant or of the sync pod keeps the invariant of the barrier |
| `Barrier.FullRound` | lib/pod_files/sync.py:409-419 | a round that is full holds every participant once, all with the same command |
| `Barrier.Lockstep` | lib/pod_files/sync.py:606-643 | after any run in which the sync pod has not failed, no worker's k-th request has returned before all workers have sent their k-th, so completed steps differ by at most one; workers start only after all containers checked in |
| `Barrier.RunsAreBounded` | lib/pod_files/cb_util.py:396-427 | no run is longer than a bound given by the programs of the participants |
| `Barrier.AgreeingRunsFinish` | lib/pod_files/sync.py:606-643 | if all workers send the same commands up to the first result, no run fails, none gets stuck before the end, and the number of rounds is that of the commands |
| `Barrier.FinishesExactlyIfAgreed` | lib/pod_files/sync.py:413-419 | some run finishes if and only if the workers agree on every command up to their first result and none is one a later round refuses |
| `Barrier.FinishedResults` | lib/pod_files/sync.py:323-329 | a finished run has one result per worker: files N down to 1 hold the results of the last N accepted connections in order of acceptance |
| `Barrier.OrderIsRecent` | lib/pod_files/sync.py:382-411 | the round's order of acceptance is the most recent part of the whole run's |
| `Barrier.CompleteFrom` | lib/pod_files/clusterbuster_pod_client.py:587-600 | from every state reachable with agreeing workers the run can be completed |
| `Synctest.Runit` | lib/pod_files/synctest.py:29-39 | a process sends count times cluster count synchronisations, then its result |
| `Synctest.SyncCountsMustMatch` | docs/clusterbuster.md:536-540 | runs can finish if and only if all processes synchronise equally often, and then no run fails or gets stuck |
| `Frame.SendFrame` | lib/pod_files/cb_util.py:398-412 | whatever the kernel takes in each call, the whole frame goes out and nothing else |
| `Frame.ReadBody` | lib/pod_files/sync.py:277-291 | however the body arrives, it is the next bytes of the stream, decoded, and no byte more is consumed; too few or non-ASCII bytes are an error |
| `Frame.ReadToken` | lib/pod_files/sync.py:266-291 | the outcome of reading a token is the one the stream determines |
| `Frame.ClosedExactly` | lib/pod_files/sync.py:266-271 | a connection counts as closed exactly if the peer sent nothing; a prefix cut short, by the end of the stream or by the first call, is an error |
| `Frame.Utf8CharTells` | lib/pod_files/cb_util.py:398 | the bytes of a character determine it, for each of the four lengths |
| `Frame.FrameRoundTrip` | lib/pod_files/cb_util.py:398 | reading back a frame gives the token if and only if it is ASCII and shorter than 2^32 characters; a non-ASCII token is an error |
| `Frame.Exchange` | lib/pod_files/cb_util.py:402-412 | sender and reader together, for every division of the calls: the token arrives and exactly its frame is consumed |
| `Frame.Hex8RoundTrip` | lib/pod_files/cb_util.py:398 | the length prefix denotes the length, and has eight digits if and only if the length is below 2^32 |
| `NameServer.Server.ProcessCommand` | lib/pod_files/sync.py:228-258 | offers are entered and wanted names noted with the connection to answer on, unusable parts skipped |
| `NameServer.Server.SatisfyRequests` | lib/pod_files/sync.py:185-206 | known names move from want to have; requests that become complete are answered once and dropped, provided each of them has an open connection |
| `NameServer.AlwaysConnected` | lib/pod_files/sync.py:198-206 | in every run, whatever the requests, the open connections are those of the requesters that want a name, so nobody is answered without one |
| `NameServer.RunInv` | lib/pod_files/sync.py:260-263 | after every step of a run of requests from fresh connections, the requesters that want a name are the open connections, no one waits for a known name, and who asked for nothing stays listed |
| `NameServer.ExactlyOnce` | lib/pod_files/sync.py:185-206 | a connection has a reply if and only if it asked for a name and all names it asked for have been offered; the reply is one, binds exactly these names, each to an offered address; otherwise who asked for a name waits |
| `NameServer.LastOfferCounts` | lib/pod_files/sync.py:238-243 | after any run the names known are those offered, each at the address of its last offer in the run |
| `NameServer.ReplyBinds` | lib/pod_files/sync.py:185-206 | a reply binds each name to its last offer by the first step, from the one of the request on, at which it had been offered at all |
| `NameServer.ConnectionsExactly` | lib/pod_files/sync.py:246-256 | the listed requesters are those with an open connection if and only if no request of the run asked for nothing |
| `Timeline.BucketStartExactly` | lib/clusterbuster/reporting/reporter/memory_reporter.py:228-235 | the printed time of a bucket is its start, for all buckets, if and only if the step is fractional or below 10^9 |
| `Timeline.BucketExactly` | lib/clusterbuster/reporting/reporter/memory_reporter.py:219-235 | a time is in a bucket exactly if it is at or after the bucket's start and before the next one's |
| `Timeline.StartExact` | lib/clusterbuster/reporting/reporter/memory_reporter.py:222-235 | the start of a bucket falls into that bucket |
| `Timeline.LevelJumps` | lib/clusterbuster/reporting/reporter/memory_reporter.py:276-295 | between neighbouring times the covering intervals change by exactly the entry of the difference map |
| `Timeline.LevelLast` | lib/clusterbuster/reporting/reporter/memory_reporter.py:296-309 | after the last time of a node all totals are back to zero |
| `Timeline.BucketOfLevel` | lib/clusterbuster/reporting/reporter/memory_reporter.py:310-311 | the level at a time is that of a bucket if the time separates the case times as the bucket does |
| `TimelineSweep.EnterCase` | lib/clusterbuster/reporting/reporter/memory_reporter.py:276-290 | entering a case adds its four times and changes each entry by what the case contributes there |
| `TimelineSweep.BuildMaps` | lib/clusterbuster/reporting/reporter/memory_reporter.py:242-290 | the nodes in order of appearance, each with the difference map of exactly its cases |
| `TimelineSweep.SweepNode` | lib/clusterbuster/reporting/reporter/memory_reporter.py:296-349 | from zero totals, the lines of a node are the settled timeline of its cases, the totals return to zero and the peak covers all raw times |
| `TimelineSweep.Coalesce` | lib/clusterbuster/reporting/reporter/memory_reporter.py:344-345 | a time in the bucket of the current line replaces it, and the line stays right |
| `TimelineSweep.Advance` | lib/clusterbuster/reporting/reporter/memory_reporter.py:313-348 | a time in a later bucket makes the current line and the filler lines final |
| `TimelineSweep.BuildTimeline` | lib/clusterbuster/reporting/reporter/memory_reporter.py:237-349 | every node's timeline is exact although totals are never reset, and each node's maximum starts from the peak of the nodes before |
| `TimelineSweep.EveryBucketIff` | lib/clusterbuster/reporting/reporter/memory_reporter.py:313-314 | every bucket up to the last has a line if and only if the gap test passes at every jump over buckets |
| `TimelineSweep.StepsFromOne` | lib/clusterbuster/reporting/reporter/memory_reporter.py:313-314 | with a step of at least one second the gap test passes at every jump |
| `TimelineSweep.SubSecondGap` | lib/clusterbuster/reporting/reporter/memory_reporter.py:313-314 | with any step below one second the gap test fails for a case of two steps |
| `TimelineSweep.DenseStepsExactly` | lib/clusterbuster/reporting/reporter/memory_reporter.py:313-314 | every list of cases has a line for every bucket if and only if the step is at least one second |
| `TimelineSweep.DenseTimeline` | lib/clusterbuster/reporting/reporter/memory_reporter.py:296-349 | for steps of at least one second: one line per bucket in order, each showing exactly the intervals that cover the bucket and the peak up to its end, the last bucket being that of the last end |
| `TimelineSweep.NodesInOrder` | lib/clusterbuster/reporting/reporter/memory_reporter.py:244-256 | nodes are listed in order of first appearance |
| `TimelineReport.UsableExactly` | lib/clusterbuster/reporting/reporter/memory_reporter.py:257-275 | a report can be handled exactly if it does not begin before the first pod and its stages are in order with some time to work in |
| `TimelineReport.CasesAreReports` | lib/clusterbuster/reporting/reporter/memory_reporter.py:257-291 | the cases of a node are its reports in order |
| `TimelineReport.NodeMemory` | lib/clusterbuster/reporting/reporter/memory_reporter.py:257-309 | the level of a node at a time is the sum, over its reports, of what each report's own fields say: its size requested until freeing begins, its size in use from the end of the allocation on, and one job with its pages per second of work in between |
| `TimelineReport.LinesShowReports` | lib/clusterbuster/reporting/reporter/memory_reporter.py:292-349 | with any step, the lines of a node are those of different buckets in order, and each shows the sums over the node's reports and a peak |
| `TimelineReport.DenseShowsReports` | lib/clusterbuster/reporting/reporter/memory_reporter.py:292-349 | with a step of at least one second line b is that of bucket b and shows the sums over the node's reports in it |
| `TimelineReport.DenseEnds` | lib/clusterbuster/reporting/reporter/memory_reporter.py:292-349 | the last line is that of the last end of a report of the node |
| `Plan.BuildManifestPlan` | lib/clusterbuster/driver/manifest_plan.py:57-271 | the nested loops emit exactly the specified list of objects in lifecycle order |
| `Plan.BuildVmManifests` | lib/clusterbuster/driver/manifest_plan.py:278-339 | one machine per replica and role, appended to what was there |
| `Plan.BuildClientServerDeployments` | lib/clusterbuster/driver/manifest_plan.py:342-380 | one server pod and one client object per replica |
| `Plan.BuildSingleRoleDeployment` | lib/clusterbuster/driver/manifest_plan.py:429-498 | one object of the configured kind per replica with all containers |
| `PlanNames.PrefixedName` | lib/clusterbuster/driver/manifest_plan.py:453-462 | the spelled name of a numbered pod: prefix, namespace, workload and role with dashes for underscores, deployment number, replica number |
| `PlanNames.CacheName` | lib/clusterbuster/driver/manifest_plan.py:204-209 | the same for a drop-cache pod, with its suffix |
| `PlanNames.PrefixedNamesDiffer` | lib/clusterbuster/driver/manifest_plan.py:357-380 | within a namespace, pods at different places (role, deployment, replica, drop-cache or not) have different spelled names |
| `PlanNames.PlainNamesDiffer` | lib/clusterbuster/driver/manifest_plan.py:303-312 | the same for services and machines, which take no prefix |
| `PlanObjects.ObjectsDiffer` | lib/clusterbuster/driver/manifest_plan.py:57-271 | for distinct namespaces no two manifests of a plan have the same kind, namespace and spelled name |
| `PlanObjects.AsManyObjects` | lib/clusterbuster/driver/cluster.py:254-269 | applying a plan leaves as many objects, and as many worker objects, as the plan lists |
| `PlanObjects.DeploymentExactly` | lib/clusterbuster/driver/manifest_plan.py:201-269 | an object belongs to a deployment if and only if it is one of the drop-cache pods, the service or the workers the configuration asks for, each with its containers |
| `PlanObjects.WorkloadsComeLast` | lib/clusterbuster/driver/manifest_plan.py:106-201 | workloads come last, and for each of their objects its namespace, configuration maps, secrets and the sync pod with its service come before |
| `PlanCounts.InitialCountExactly` | lib/clusterbuster/driver/manifest_plan.py:158-175 | the count for the first round equals the containers the plan creates, with the exact condition for client/server workloads |
| `PlanCounts.ExpectedCount` | lib/clusterbuster/driver/manifest_plan.py:158-175 | the count for later rounds equals the processes of the worker containers the plan creates |
| `PlanCounts.TotalObjects` | lib/clusterbuster/driver/manifest_plan.py:201-269 | what the whole plan holds is namespaces times deployments times what one deployment holds |
| `PlanLive.RecognisedExactly` | lib/clusterbuster/driver/manifests.py:32-44 | the sync pod's name is the one the filters look for if and only if the prefix is empty and the base name has no underscore |
| `PlanLive.CreateSyncServices` | lib/clusterbuster/driver/orchestrator.py:624-656 | the sync objects submitted are the matching ones of the whole plan, in order |
| `PlanLive.BuildForNamespace` | lib/clusterbuster/driver/orchestrator.py:696-705 | the workers of a namespace are its filtered plan |
| `PlanRun.OnlyServicesDropped` | lib/clusterbuster/driver/orchestrator.py:701-705 | of the objects the plan makes for a deployment, whatever the names of namespace, workload and prefix, the filter drops the services and nothing else |
| `PlanRun.Decomposition` | lib/clusterbuster/driver/orchestrator.py:688-705 | filtered namespace plans put together are the filtered whole plan up to host names, if and only if the sync pod is recognised, or there is none, or just one namespace |
| `PlanRun.SameHosts` | lib/clusterbuster/driver/manifest_plan.py:98-104 | with a namespace of its own for the sync pod they are equal, host names included |
| `PlanRun.LiveCounts` | lib/clusterbuster/driver/orchestrator.py:688-705 | a live run starts exactly the containers and processes of the whole plan |
| `PlanObjects.LiveWorkersDiffer` | lib/clusterbuster/driver/orchestrator.py:688-705 | sync pods aside, no two manifests of a live run are for the same object |
| `PlanRun.SyncPodsSubmitted` | lib/clusterbuster/driver/orchestrator.py:644-705 | the sync pods submitted are that of the whole plan if it is recognised, and otherwise those of the plans of single namespaces |
| `PlanRun.SyncPodsCreated` | lib/clusterbuster/driver/cluster.py:254-269 | as objects of the cluster, known by kind, namespace and name, these are one, or one per namespace if the sync pod is not recognised and is placed in the first namespace |
| `PlanRun.RightCountsExactly` | lib/clusterbuster/driver/orchestrator.py:644-705 | a sync pod with the counts of the whole run is submitted if and only if it is recognised, or there is just one namespace, or there are namespaces but nothing to wait for |
| `PlanRun.UnrecognisedCounts` | lib/clusterbuster/driver/manifest_plan.py:158-175 | a sync pod that is not recognised waits for the clients of one namespace: the counts of the whole run are its own times the number of namespaces |
| `PlanRun.OwnSyncPods` | lib/clusterbuster/driver/orchestrator.py:696-705 | a sync pod that is not recognised is submitted with the plan of each namespace |
| `PlanRun.HostsResolve` | lib/clusterbuster/driver/manifest_plan.py:177-186 | every worker's sync host name leads, directly or through the alias of its namespace, to the one sync service |
| `PlanRun.PlanNamespaceNames` | lib/clusterbuster/driver/orchestrator.py:280-302 | the names are distinct, free, and the first free ones in order; the search ends |
| `Creation.ObjectBatcher.Add` | lib/clusterbuster/driver/manifests.py:1217-1225 | a manifest enters the buffer at the end, and a full or forced batch is flushed |
| `Creation.ObjectBatcher.Flush` | lib/clusterbuster/driver/manifests.py:1245-1271 | a batch is handed over whole or kept whole |
| `Creation.AddKeeps` | lib/clusterbuster/driver/manifests.py:1217-1271 | adding loses and repeats nothing, keeps the order and never exceeds the batch size; after a failed batch all of it is in the buffer |
| `Creation.HandedOverExactly` | lib/clusterbuster/driver/manifests.py:1217-1225 | adding hands a batch over exactly if it is forced or the batch is full with this manifest |
| `Creation.StridesPartition` | lib/clusterbuster/driver/orchestrator.py:360-370 | the strides of the workers hold every object of every namespace exactly once |
| `Creation.OwnerIsRemainder` | lib/clusterbuster/driver/orchestrator.py:361-370 | a worker's stride is the indices with its remainder |
| `Creation.EverythingSubmittedOnce` | lib/clusterbuster/driver/orchestrator.py:352-385 | under every interleaving without failure every object is submitted exactly once, in stride order per worker, in batches of at most the batch size, and the counts add up to the number submitted |
| `Creation.NothingTwice` | lib/clusterbuster/driver/orchestrator.py:352-372 | at any time, failures included, what a worker submitted and buffers is a prefix of its share |
| `Creation.BatchesAreFull` | lib/clusterbuster/driver/orchestrator.py:352-372 | in every run a worker's batches are consecutive pieces of its share, all of the batch size but for the last one of a worker that has returned |
| `Creation.NothingNewAfterFailure` | lib/clusterbuster/driver/orchestrator.py:361-364 | once the run has failed no worker takes on another namespace |
| `Creation.TurnsEnd` | lib/clusterbuster/driver/orchestrator.py:361-371 | every turn brings a worker closer to its end |
| `Creation.LivePlanSubmitted` | lib/clusterbuster/driver/orchestrator.py:707 | the parallel creation submits exactly the objects of the live run |
| `Creation.Join` | lib/clusterbuster/driver/orchestrator.py:374-389 | the total is the sum of the counts, and the run fails exactly if a worker raised |
| `Echo.BytesConserved` | lib/pod_files/client.py:68-95 | in every reachable state bytes sent are bytes read or under way, in both directions, and answers never run ahead of requests |
| `Echo.PassBoundary` | lib/pod_files/client.py:65-107 | between passes exactly the whole messages of the passes have gone each way and both channels are empty |
| `Echo.NeverStuck` | lib/pod_files/server.py:32-45 | until the server has returned some step is possible, for all capacities of at least one byte |
| `Echo.EnoughAndNotMore` | lib/pod_files/client.py:65 | a client limited by bytes ends with at least the bytes asked for and less than one message more |
| `Echo.PassesExactly` | lib/pod_files/client.py:65 | in every run, limited by bytes or by time, a test of the loop leads to another pass exactly if bytes are missing or the client is timed and has time left |
| `Echo.RunsEnd` | lib/pod_files/client.py:65-107 | runs of a client limited by bytes have a bounded length |
| `Stats.Accumulator.Update` | lib/clusterbuster/reporting/reporter/ClusterBusterReporter.py:1057-1096 | after any samples, sum, count, squares, extremes, mean and variance are the batch values, and the branch for a negative variance is never taken |
| `Stats.VarianceIs` | lib/clusterbuster/reporting/reporter/ClusterBusterReporter.py:1082-1094 | the one-pass variance is the mean squared distance from the mean, hence not negative |
| `Stats.Accumulate` | lib/clusterbuster/reporting/reporter/ClusterBusterReporter.py:553-555 | over all rows, those without the variable change nothing |
| `Stats.OrderIrrelevant` | lib/clusterbuster/reporting/reporter/ClusterBusterReporter.py:1057-1096 | a summary of some rows is the summary of every reordering of them |
| `Stats.SampleVarianceIs` | lib/pod_files/client.py:112-115 | the argument of the client's square root is the sample variance, hence not negative |
| `Stats.Latencies` | lib/pod_files/client.py:93-115 | mean, maximum and variance of the latencies from running sums |
| `Stats.Pace` | lib/pod_files/client.py:100-107 | each pass ends at the later of the time it is due and the time its messages took, so none ends before its message time is over |
| `Stats.RateKept` | lib/pod_files/client.py:100-107 | so what has been sent is at most the data rate times the time |
| `Stats.TimeSummary.UpdateStart` | lib/clusterbuster/reporting/reporter/ClusterBusterReporter.py:997-1018 | earliest and latest start, and the elapsed time, are right after every update |
| `Stats.CompletedTwice` | lib/clusterbuster/reporting/reporter/ClusterBusterReporter.py:1004-1007 | a row with both times and no elapsed time gets one that leads from its start to its end; nothing else of it changes |
| `Stats.SummariseTimes` | lib/clusterbuster/reporting/reporter/ClusterBusterReporter.py:997-1018 | over all rows the elapsed time is from the earliest start to the latest end, and each row's own elapsed time is completed |
| `Monitor.SplitJoin` | lib/clusterbuster/driver/monitoring.py:52-56 | cutting a stream at newlines loses nothing and leaves no newline in a piece |
| `Monitor.SplitUnique` | lib/clusterbuster/driver/monitoring.py:52-56 | it is the only cut with these properties |
| `Monitor.WatchPods` | lib/clusterbuster/driver/monitoring.py:47-62 | the lines yielded are those of the stream, the unterminated last one included, however it was cut into chunks and wherever timeouts fell |
| `PodMonitor.MonitorPods` | lib/clusterbuster/driver/monitoring.py:97-171 | the loop ends at the first item that leads to a verdict, with that verdict |
| `PodMonitor.StuckSound` | lib/clusterbuster/driver/monitoring.py:112-131 | a stuck verdict means the same non-empty set of starting pods at every heartbeat since the last progress, which is more than the timeout ago |
| `PodMonitor.StuckExactly` | lib/clusterbuster/driver/monitoring.py:112-131 | the verdict is stuck if and only if, since some item or the start more than the timeout ago, every heartbeat has found the same starting pods as before it and none came up |
| `PodMonitor.CompleteExactly` | lib/clusterbuster/driver/monitoring.py:132-146 | the verdict is complete if and only if the item is a heartbeat without shutdown, pods are not found stuck, the workload does not report, and the last line of every pod says running or finished, of at least one running |
| `PodMonitor.OtherVerdicts` | lib/clusterbuster/driver/monitoring.py:108-166 | shutdown exactly at an item with a shutdown; failure of a pod exactly at a line that says so and does not repeat the pod's last line |
| `PodMonitor.PhasesAreLastLines` | lib/clusterbuster/driver/monitoring.py:148-158 | the phases kept are those of the last line about each pod |
| `PodMonitor.StartingAreLastLines` | lib/clusterbuster/driver/monitoring.py:113-117 | the starting pods are those whose last line says so |
| `PodMonitor.NoFailureStored` | lib/clusterbuster/driver/monitoring.py:152-166 | at the head of the loop no pod is recorded as failed |
| `PodMonitor.FailureNeverHidden` | lib/clusterbuster/driver/monitoring.py:155-166 | the first line that reports a failed pod is the verdict |
| `FileSystemModel.FileSystem.Makedirs` | lib/pod_files/files.py:61-62 | makedirs fails exactly if the directory exists or a file is in the way, and else makes all missing parents |
| `Files.MakeThem` | lib/pod_files/files.py:55-92 | whenever the volumes can be made it succeeds; success adds exactly the tree, counts the operations, and tells that each volume could be made in its turn |
| `Files.MadeExactly` | lib/pod_files/files.py:55-92 | the tree path by path: the volumes with the directories above them, the numbered subdirectories, and in each the numbered files, all of block count times block size bytes |
| `Files.ReadThem` | lib/pod_files/files.py:94-124 | reading succeeds exactly if all files are there |
| `Files.RemoveThem` | lib/pod_files/files.py:126-146 | if the trees hold what they should and nothing else, removal succeeds and removes exactly them |
| `Files.RoundTrip` | lib/pod_files/files.py:55-146 | if the volumes can be made, create, read and remove succeed and leave what was there and the base directories, so that the state is as before exactly if these existed; both operation counts in closed form |
| `Files.ReadyIfBasesExist` | lib/pod_files/files.py:59-66 | distinct base directories that exist, without this process's directory in them, are all that making the volumes needs |
| `Files.CleanUp` | lib/pod_files/files.py:126-146 | removal of left-overs never fails and removes whole trees, although it tests the subdirectory's number instead of its path |
| `Files.CleanupTree` | lib/pod_files/clusterbuster_pod_client.py:415-455 | everything below a directory goes and the directory stays, empty; a file in its place is an error |
| `Files.SweptIs` | lib/pod_files/files.py:182-183 | the clean-up of all base directories removes exactly what is below one that existed, in whatever order it goes |
| `Files.NoVolumeLeft` | lib/pod_files/files.py:182-185 | after it no volume is left for the removal that follows |
| `Files.RunIt` | lib/pod_files/files.py:181-199 | the whole job succeeds exactly if no volume's directory is in or above another's and no file is in the place of a base directory when it is emptied, or at or above one after that; it leaves what was not below a base directory, and the base directories |
| `Files.AsBeforeExactly` | lib/pod_files/files.py:181-199 | the job leaves the file system as it was if and only if the base directories existed with nothing in them but base directories |
| `Files.AsBeforeIfEmpty` | lib/pod_files/files.py:181-199 | for base directories apart from each other: if and only if they existed and were empty |
| `CiJobs.FreeFailName` | lib/clusterbuster/ci/execution.py:218-224 | the search for a free name ends with the first free one |
| `CiJobs.Store.RunJob` | lib/clusterbuster/ci/execution.py:142-227 | directories and status after one job, for every outcome of its run |
| `CiJobs.FailuresKept` | lib/clusterbuster/ci/execution.py:218-225 | a failed run's directory gets a fresh name, and no older one is lost or overwritten |
| `CiJobs.RestartRunsExactlyTheUnfinished` | lib/clusterbuster/ci/execution.py:149-158 | a restart runs exactly the jobs whose final directory has no report |
| `CiJobs.FinishedForGood` | lib/clusterbuster/ci/execution.py:149-158 | over any number of restarts a finished job keeps its report and is not run again |
| `CiJobs.SuiteKeeps` | lib/clusterbuster/ci/suite.py:83-125 | over a whole suite no failed run's directory and, in a restart, no finished job is lost |
| `CiJobs.SuccessFinishes` | lib/clusterbuster/ci/execution.py:203-217 | a job that succeeds and leaves a report is finished |
| `CiJobs.Runner.RunAll` | lib/clusterbuster/ci/suite.py:127-135 | the workloads in order up to one that is not supported; the status is 1 exactly if a failure was noted, a workload is not supported, or an exception left the suite |
| `CiJobs.Runner.RunOne` | lib/clusterbuster/ci/suite.py:76-125 | one call notes the job under its counter, or does nothing once the suite has given up |
| `CiJobs.ListsExactly` | lib/clusterbuster/ci/suite.py:113-122 | the lists of good jobs and of failures are those of the jobs that had their turn, in order, by status and by whether errors count |
| `CiJobs.FailuresExactly` | lib/clusterbuster/ci/suite.py:116-122 | a failure is noted if and only if some job was run, ended badly, and its errors count |
| `CiJobs.EscapesExactly` | lib/clusterbuster/ci/execution.py:136-217 | an exception leaves a job exactly if it lacks a name or a workload, or succeeds and leaves no directory |
| `CiJobs.GivesUpAtFirstFailure` | lib/clusterbuster/ci/suite.py:116-122 | the suite gives up only with the hard-fail option, at the first failure that counts, and runs nothing after it |
| `VmAddress.Builder.IncrementVmAddr` | lib/clusterbuster/driver/vm.py:473-478 | the next address is the successor to the base 254 |
| `VmAddress.Builder.VirtualMachine` | lib/clusterbuster/driver/vm.py:62-63 | the n-th machine gets the n-th address |
| `VmAddress.OneAddressEach` | lib/clusterbuster/driver/vm.py:473-478 | machines of one builder have the same address only if they are the same machine |
| `VmAddress.PrivateExactly` | lib/clusterbuster/driver/vm.py:27 | an address lies in 192.168.0.0/16 if and only if fewer than 32004 were handed out before it |
| `VmAddress.AddressExactly` | lib/clusterbuster/driver/vm.py:473-478 | the first number stays within 255 for exactly so many machines |
| `VmAddress.HandOut` | lib/clusterbuster/driver/manifest_plan.py:93-96 | all machines of one plan get distinct addresses |
| `VmAddress.NamespacesShareAddresses` | lib/clusterbuster/driver/orchestrator.py:696-700 | machines of two namespaces of a live run have distinct addresses only if one of the namespaces has none |

## Left out

- Sockets, processes, signals, sleeps, clocks and calls of `oc`, `kubectl` and `virtctl`: steps, channels or inputs stand for them.
- Retries after socket errors in `_send_message`, the 1024-byte reply, timeouts, and the watchdog.
- Clock offsets between hosts, name lookup and interface discovery of the pod client; of its first request only the TNET message matters here.
- Barrier.Lockstep: assumes that peer addresses within a round are distinct, that all requests carry the nonce and a non-empty command, and that there is at least one container and one worker; a failed sync pod drops its connections, so nothing is claimed after a failure.
- Frame.Exchange: assumes that the first read delivers the ten bytes of the prefix, as the code does.
- NameServer.ExactlyOnce: assumes requests from new connections; the parsing of JSON is an input.
- TimelineSweep.BuildTimeline: assumes start, allocation, freeing and end in this order, a working stage of positive length, and no time before the first pod start; a working stage of length zero makes the code divide by zero. The precise timeline, node metrics in events and work totals are not modelled.
- Floating point: times, rates and statistics are real numbers; a standard deviation is represented by its square.
- Plan.BuildManifestPlan: manifests are reduced to kind, namespace, name, containers, sync counts and hosts; labels, volumes, ports and environments are left out, and so is the workload hook that creates deployments itself. The live path's own loops for namespaces, config maps and secrets are left out.
- PlanCounts.ExpectedCount: takes from the workloads that a client container runs one process and a server takes part in no later round.
- PlanRun.HostsResolve: a host name is a pair of service and namespace, not a dotted string.
- Creation.EverythingSubmittedOnce: a turn of a worker is one step; a batch is accepted or refused as a whole, so a batch of which the cluster creates a part before refusing it is not modelled. Pauses, time stamps and saved manifests are left out.
- Echo.NeverStuck: connection errors and repeated reads after them are left out, and one client is served at a time, as each connection has its own server process.
- Stats.Accumulator.Update: variables nested in lists and dictionaries of a row are left out; the value of one variable per row is modelled.
- Monitor.WatchPods: lines are byte strings; decoding them as UTF-8 and data left unread when the watcher process ends are left out.
- PodMonitor.MonitorPods: splitting a line into three words and the lower-casing of the phase are left out; the phases are those the code tells apart.
- Files.RunIt: permissions, links, full disks, dropped caches and several processes on the same directory are left out; blocks have at least one byte in the code, which maps a buffer of that size.
- CiJobs.Store.RunJob: runs with an artifact directory; what the driver leaves behind is an input, and directories are named by job and purpose, so job names that imitate the suffixes are left out.
- Subprocess output of HammerDB, sysbench, fio and uperf, report formatting, Prometheus queries, option parsing and cloud-init text.
