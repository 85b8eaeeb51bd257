# Training scheduler: a verified model

The repository is a scheduler that places GPU training tasks on workers, a worker that allocates its own
GPUs, and a database the scheduler is saved to and restored from. This project models those parts in
Dafny and proves what holds of every run.

- **Scheduler.** `Scheduling.Scheduler` is the scheduler object with its handlers. Each handler is proved
  equal to a function of the old state and of the *decisions* taken (tie-breaking of the policy, clock), so
  a run is a list of events. `Quiescence` proves what holds of all runs, `Requirements` and `Exclusion` what
  holds of runs with fresh names, `Honest` and `Consequences` what holds of honest runs, `Sharing` and
  `Misreports` what a report about somebody else's task does. `FirstCome` is about the order of the queue, `Counting`
  about the counters, `Placement` and `Records` about what is handed out and written down. `Books` is about one worker. A placement in a run may
  go to any candidate, because scores are rounded in the program; that the scheduler takes the policy's choice is
  part of the handlers' contracts.
- **Policies.** `Policy` has both placement policies as loops over the worker map. Map iteration and the
  unstable sort are arbitrary tie-breaking (up to twelve candidates the sort is Go's insertion sort); scores are exact reals; uint32 and uint64 truncation is explicit.
- **Worker.** `Allocation` has the four allocation strategies, `WorkerNode` the worker as a step system,
  `WorkerProcess` its critical sections, `Synchronisation` what a status message does, `WorkerRuns` when the worker's
  bookkeeping agrees with itself.
- **Persistence.** `Persistence` has the snapshot, the five tables and the four translations as relations
  (row order and map order left open), `Database` the same as running code, `Restart` the round trip,
  `Reloading` that there always is one, `Calendar` the moment start times are counted from.
- **Runs with restarts.** `Life` is about quiescence, `Claims`, `Reports` and `LifeExclusion` about exclusion under
  arbitrary reports, `Rereports` about a report that breaks it, `LiveBooks`, `LiveRestart` and `Recovery` about runs
  in which workers report unfinished tasks they hold, `UniqueIds` about GPU ids that are unique in the cluster.

## How to read the model

Task objects are shared by pointer between the task table, the queue and the workers' books; they live in a
store (`State.heap`) and a pointer is an index into it, so submitting one object twice, or two objects under
one id, is covered. Worker and GPU objects have a single owner and are plain values. Handlers are atomic.

Clients are trusted to different degrees, and each result says how far:

| run | restarts | what clients do |
|---|---|---|
| `Behavior` | no | anything |
| `FreshBehavior` | no | task ids are fresh, GPU ids are distinct per worker; reports are arbitrary |
| `HonestBehavior` | no | fresh names, clean submissions (PENDING, no worker, no GPUs), and workers report only what they hold |
| `TidyLife`, `LifeRun` | yes | fresh names, submitted tasks list no GPU twice (and, in a `LifeRun`, name no worker); reports are arbitrary |
| `LiveRun` | yes | fresh names, clean submissions, workers report only unfinished tasks they hold |
| `UniqueRun` | yes | as `LifeRun`, and registered GPU ids are new to the cluster |

Two kinds of reports get names of their own. A *careful* report (`Exclusion.CarefulReport`), if it ends a task, comes
from a worker that holds the task, or finds every GPU of that worker that the task was ever given free. A *safe* report
(`Reports.SafeReport`) is what careful becomes with restarts, where a worker may hold a task that has finished:

- it ends an unfinished task that was placed on the reporting worker; or
- it ends a task, every GPU of the reporting worker that the task lists is free, and no other worker is left with GPUs
  of a task that was running there; or
- it ends nothing, and if it makes a finished task unfinished again, that task's worker has lost all GPUs it lists and
  no unfinished task there lists one of them.

Rejected reports are allowed everywhere. A *baseline* is, per worker, the set of GPU ids that were available at
registration; `bs` lists the baselines that go with the states of a run, and there always is such a list.

Assumptions: a registration lists fewer than 2^32 GPUs (it is one protobuf message); ids are not empty
strings where a row is keyed by them.

## Findings

- RequestTask never hands out a task. Every other handler ends in a sweep, so whenever RequestTask runs the
  policy refuses the whole queue (`Quiescence.RequestTaskAlwaysRefuses`). Its branch that books the policy's
  choice on the *calling* worker is therefore never taken.
- ReportTaskStatus does not compare the reporting worker with the task's worker, and a finished task keeps its
  GPU list. What a final report may break has an exact condition each:
  - Without restarts, disjoint holdings and exact availability, in the state after the sweep, survive exactly the
    careful reports (`Exclusion.ReportKeepsExclusionIff`), and so a run without restarts has them in all states exactly
    when all its reports are careful (`Exclusion.ExclusionIffCareful`).
  - With restarts, unfinished tasks use GPUs apart and availability is exact for them in all states of a run exactly
    when all its reports are safe (`Reports.ReportKeepsUsesIff`, `LifeExclusion.LifeExclusionIffSafe`). Careful is not
    enough: a restart puts finished tasks back into the books, and then the report of the very worker that holds such a
    task can free a GPU that a running task uses (`Rereports.HolderFreesUsedGpu`).
  - Without restarts, two tasks on one GPU can follow exactly under the balanced policy and when the report frees a GPU
    that another task of the reporting worker holds (`Sharing.SharingReachableIff`;
    `Misreports.RepeatedReportSharesGpu` is such a run). Under the simple policy no run without restarts shares a GPU
    (`Sharing.SimpleNeverShares`).
  - The counters add up afterwards exactly when the reporting worker held the task
    (`Misreports.ConservationKeptIff`), so a careful report about a task it does not hold is still miscounted.
  - Each task is afterwards in exactly one place exactly when the reporting worker held it or it had finished before
    (`Misreports.PartitionKeptIff`): a queued task stays queued and is marked finished, a running one stays in the
    books of its worker.
- For a task that needs no GPU the balanced policy may pick a worker whose score is not a number or, behind one, a
  worker with a higher score than another (`Policy.BalancedOptimalIff`, `Policy.ZeroDemandNeedNotBeOptimal`).
- GPUs survive a restart exactly when no two GPUs of the cluster carry one id
  (`Restart.GpusRestoredIffUnique`). docs/USAGE.md:53 starts workers with ids `0,1`, so two workers started
  that way lose GPU rows, although README.md:27 promises recovery. The model follows the code. Even then no GPU that
  does come back is given to two unfinished tasks (`LiveRestart.LiveExclusion`).
- After a restart finished tasks are back in their worker's books (`Restart.BooksRestoredIff`). A worker that has one
  and is or becomes BUSY stays BUSY when its running tasks end (`Recovery.FinishedTaskBlocksWorker`), so the simple
  policy does not use it until the finished task is reported again; and that report is safe only if the GPUs the
  finished task lists are free at that moment.
- The "performance" comparator orders the free GPUs exactly when bandwidth and cores agree
  (`Allocation.ComparatorOrdersIff`); with a mix of GPUs that do and do not report cores they need not.
- A status message that cancels a GPU-holding task whose goroutine still runs leads to GPUs released under
  another task; `WorkerNode.MessageIsSafeIffBenign` gives the exact condition.

- First come, first served holds as long as the process runs (`FirstCome.FirstComeFirstServed`); the table of pending
  tasks has no position (pkg/persistence/database.go:82-85), so a restart may reorder the queue.
- On the worker, nothing sets the status back to IDLE when a cancelled task was the last one
  (`WorkerRuns.WorkerStatusIff`), and a task whose context was cancelled or that was stopped keeps its GPUs
  (`WorkerRuns.BetweenMessages`).

## Model

| member | source | states |
|---|---|---|
| Policy.SimpleAssignTask | pkg/scheduler/policy.go:16-67 | fails exactly when no idle worker has enough eligible GPUs; otherwise returns a qualifying worker and its first eligible GPU ids, for any map order and any order of ties; no candidate has a smaller sum of seven times its eligible GPUs and three times its free memory (as a uint64) |
| Policy.BalancedAssignTask | pkg/scheduler/policy.go:75-128 | the same for workers that are not OFFLINE or ERROR; if the task needs a GPU, or every worker looked at has one, no candidate has fewer tasks net of eligible GPUs per GPU it has; NaN scores (no GPUs) leave the choice among candidates open |
| Policy.SimpleWastesLeast | pkg/scheduler/policy.go:37-48 | with free memory below 2^64 the chosen worker has the smallest 7 * eligible free GPUs + 3 * memory of all free GPUs, in integers |
| Policy.FreeMemoryAdds | pkg/scheduler/policy.go:38-43 | the memory total is 0 for no GPU, a GPU's memory if it is free, and additive over lists |
| Policy.EligibleIdsAppend | pkg/scheduler/policy.go:30-35 | eligible ids are collected in list order: none for no GPU, the id of a GPU that is free and large enough, list after list |
| Policy.ChosenLoadsLeast | pkg/scheduler/policy.go:96-106 | across workers of any size: (tasks - eligible GPUs) of the chosen worker times the GPUs of a candidate is at most the same with the two exchanged |
| Placement.CandidateIff | pkg/scheduler/policy.go:25-37 | a worker qualifies if and only if its status is looked at and as many distinct free and large enough GPUs exist as the task asks for |
| Placement.CandidateCountWraps | pkg/scheduler/policy.go:37 | for lists of any length the number of usable GPUs is compared modulo 2^32 |
| Placement.GrantIsFirstFit | pkg/scheduler/policy.go:30-53 | the GPUs granted are, by position, the first free and large enough ones of the list, none passed over |
| Policy.FeasibleHasChoice | pkg/scheduler/policy.go:55-66 | a feasible task always has an answer that the policy's contract admits |
| Policy.ChosenIsOptimal | pkg/scheduler/policy.go:99-127 | if the task needs a GPU, or every worker the balanced policy looks at has one, the chosen worker's score is least, for any sort |
| Policy.BalancedOptimalIff | pkg/scheduler/policy.go:99-127 | insertion, Go's sort for up to twelve elements, puts a worker of least score first for every map order if and only if the task needs a GPU or every worker looked at has one |
| Policy.ZeroDemandNeedNotBeOptimal | pkg/scheduler/policy.go:103-125 | three candidates in an order that Go's insertion sort leaves as it is, the first with a higher score than the third |
| Policy.SimplePrefersExactFit | docs/USAGE.md:123 | minimal waste: if a candidate fits exactly, in number and total free memory, the chosen worker does too |
| Policy.BalancedPrefersLessLoaded | docs/USAGE.md:125 | among candidates of one size the chosen worker has the fewest tasks net of eligible free GPUs |
| Policy.SimpleScoreWrapsIff | pkg/scheduler/policy.go:37-48 | for a candidate neither the memory total nor the product wraps if and only if its free memory sums below 2^64 |
| Policy.SimpleScoreDoesNotWrap | pkg/scheduler/policy.go:37-48 | then the demand is covered by the free memory and the score is non-negative |
| Policy.SimpleScoreCanWrap | pkg/scheduler/policy.go:38-48 | a worker with two GPUs of 2^63 MB wraps to a total of 0 and a negative score |
| Policy.EligibleMember | pkg/scheduler/policy.go:30-35 | the eligible list names exactly the free GPUs with enough memory |
| Policy.ShrunkEligible | pkg/scheduler/policy.go:30-35 | making GPUs unavailable never lengthens the eligible list |
| Scheduling.Scheduler.SetMetrics | pkg/scheduler/metrics.go:10-14 | the counters handed over replace the old ones; nothing else changes |
| Scheduling.Scheduler.RegisterWorker | pkg/scheduler/scheduler.go:83-134 | a known id is rejected without any change; otherwise the worker is added idle, under a generated name if it gave none, and the queue is swept |
| Scheduling.Scheduler.AddTask | pkg/scheduler/scheduler.go:308-324 | the submitted object enters the task table and the end of the queue, is counted, and the queue is swept |
| Scheduling.Scheduler.ReportTaskStatus | pkg/scheduler/scheduler.go:197-250 | unknown ids are refused without change; a final status counts, frees the reporting worker's GPUs named by the task, drops it from that worker's books and sweeps; other statuses only update the task |
| Scheduling.Scheduler.RequestTask | pkg/scheduler/scheduler.go:136-195 | the first queue entry the policy accepts is booked on the caller while the policy's choice is recorded in the task; otherwise an error and no change |
| Scheduling.Scheduler.Book | pkg/scheduler/scheduler.go:336-354 | one queue entry leaves the queue, is started, and its GPUs become unavailable on the hosting worker; nothing else changes |
| Scheduling.Scheduler.AssignPendingTasks | pkg/scheduler/scheduler.go:326-367 | the in-place loop with its step back of the index refines the recursive left-to-right sweep, and each placement is the policy's choice |
| Scheduling.MarkGPUs | pkg/scheduler/scheduler.go:345-351 | the nested loops set availability on exactly the GPUs whose id is listed |
| Scheduling.FirstFeasible | pkg/scheduler/scheduler.go:150-154 | RequestTask's scan stops at the first entry the policy accepts, having passed only refused ones |
| Scheduling.DefaultNamesDiffer | pkg/scheduler/scheduler.go:87-90 | names generated at different cluster sizes differ |
| Scheduling.SweepExists | pkg/scheduler/scheduler.go:326-367 | from every state the sweep has a complete course that takes the policy's choices |
| Quiescence.PlacingKeepsRefusal | pkg/scheduler/scheduler.go:331-351 | infeasibility is monotone: placing a task never makes a refused one feasible, under either policy |
| Quiescence.SweepQuiesces | pkg/scheduler/scheduler.go:326-367 | after one sweep the policy refuses every entry still queued |
| Quiescence.SecondSweepIsNoOp | pkg/scheduler/scheduler.go:329-362 | sweeping a quiescent state changes nothing |
| Quiescence.SweepKeepsOrder | pkg/scheduler/scheduler.go:329-354 | every queue entry is decided once and the survivors keep their order |
| Placement.PlacingTakesFirstFit | pkg/scheduler/scheduler.go:331-354 | a placement marks the first usable GPUs of its worker, writes RUNNING, worker, GPUs and the current time into the task, and leaves other tasks and workers alone |
| Placement.SweepRecordsDecisions | pkg/scheduler/scheduler.go:329-354 | after a sweep each task that was queued has the worker and the start time of the decision taken for it, and is unchanged if it was skipped |
| Placement.RequestBooksOnCaller | pkg/scheduler/scheduler.go:150-182 | where RequestTask would hand out a task, the caller's books and GPUs change while the task names the policy's choice, whose own books and GPUs do not change |
| FirstCome.LargerDemandIsRefused | pkg/scheduler/policy.go:30-37 | a task that asks for no less than a refused one is refused too |
| FirstCome.FirstComeFirstServed | pkg/scheduler/scheduler.go:308-367 | runs with fresh names and without restarts: if a task was submitted by an earlier event than another one and asks for no more GPUs and no more memory per GPU, then whenever it is queued the other one, once submitted, is queued behind it |
| Records.SubmissionIsRecorded | pkg/scheduler/scheduler.go:308-324 | the id leads to the submitted object, whose task keeps all it was submitted with except where and when it runs; the queue is what the sweep leaves of the old queue with the object at its end |
| Records.ReportIsRecorded | pkg/scheduler/scheduler.go:214-236 | an accepted report's progress and metrics are in its task afterwards, its status too unless the sweep has started the task, and no other task's record changes except where and when it runs |
| Records.RegistrationIsKept | pkg/scheduler/scheduler.go:99-118 | all runs: from registration on a worker has, under the id it gave or the generated one, the address and the GPUs, in order, that it registered with |
| Records.GeneratedName | pkg/scheduler/scheduler.go:87-90 | a generated name is "worker-" and the decimal numeral of one more than the number of workers |
| Quiescence.SweepStartsPlaced | pkg/scheduler/scheduler.go:336-354 | the tasks cut out of the queue are exactly those started on a registered worker; all others are untouched |
| Quiescence.AlwaysQuiescent | pkg/scheduler/scheduler.go:83-367 | all runs: after every call the policy refuses each queued task |
| Quiescence.RequestTaskAlwaysRefuses | pkg/scheduler/scheduler.go:136-195 | all runs: RequestTask fails and changes nothing |
| Quiescence.StatusAgreement | pkg/scheduler/scheduler.go:228-233 | all runs: a worker is BUSY exactly when it has tasks, else IDLE; under the simple policy it has at most one |
| Exclusion.ReportKeepsExclusionIff | pkg/scheduler/scheduler.go:204-236 | after any report and any course of its sweep all workers' holdings are disjoint, inside the baseline, and availability is exact, if and only if the report is careful |
| Exclusion.ExclusionIffCareful | pkg/scheduler/scheduler.go:197-250 | runs with fresh names and without restarts: exclusion and exact availability hold in all states if and only if all reports are careful |
| Honest.MutualExclusion | pkg/scheduler/scheduler.go:218-236 | honest runs: tasks in one worker's books share no GPU, and a GPU is available exactly when it was registered available and no task holds it |
| Requirements.RequirementsMet | pkg/scheduler/policy.go:31-53 | runs with fresh names, whatever is reported: a booked task is on the worker it names and holds exactly the number of distinct GPUs it asked for, each with enough memory |
| Honest.TaskPartition | pkg/scheduler/scheduler.go:336-354 | honest runs: a known task is in exactly one of the queue (once), one worker's books, or finished |
| Counting.CountersCountTasks | pkg/scheduler/metrics.go:36-60 | honest runs with counters: after every call they are the number of known tasks, of COMPLETED ones and of FAILED ones, as sets read off the task table |
| Counting.StillCounting | pkg/scheduler/metrics.go:36-47 | all runs: counters are there in a state exactly if they were at the start |
| Honest.Conservation | pkg/scheduler/metrics.go:36-60 | honest runs: submitted = queued + in flight + completed + failed after every call |
| Books.HostingKeepsBooks | pkg/scheduler/scheduler.go:341-351 | booking a granted task keeps a worker's holdings disjoint and its availability exact |
| Books.ReleasingKeepsBooks | pkg/scheduler/scheduler.go:218-233 | a final report by the worker that holds the task frees exactly the finished task's GPUs |
| Consequences.FinishedForever | pkg/scheduler/scheduler.go:218-228 | honest runs: a finished task never returns to the queue or to any worker |
| Consequences.DrainedCluster | pkg/scheduler/scheduler.go:326-367 | honest runs: with nothing running, no worker could run a queued task even with all originally available GPUs free |
| Consequences.TasksAndFreeGpusFit | pkg/scheduler/policy.go:100-104 | pigeonhole: tasks plus eligible free GPUs never exceed the worker's GPU count |
| Consequences.BalancedScoreBound | pkg/scheduler/policy.go:99-106 | honest runs whose tasks all need a GPU: no division by zero and each candidate's score lies in [-1, 1) |
| Sharing.SharingReachableIff | pkg/scheduler/scheduler.go:204-236 | after a final report, two tasks can come to hold one GPU, with careful clients from then on, if and only if the policy is balanced and the report frees a GPU that another task of that worker holds |
| Sharing.SimpleNeverShares | pkg/scheduler/policy.go:25-28 | all runs without restarts under the simple policy: no two tasks in one worker's books share a GPU |
| Misreports.ConservationKeptIff | pkg/scheduler/metrics.go:45-60 | the counters add up after a final report if and only if the reporting worker held the task |
| Misreports.PartitionKeptIff | pkg/scheduler/scheduler.go:204-236 | every task is in exactly one place after a final report if and only if the reporting worker held the task or it had finished before |
| Misreports.RepeatedReportSharesGpu | pkg/scheduler/scheduler.go:218-236 | a run, honest but for one repeated final report, in which two tasks hold one GPU |
| Allocation.AllocateGPUs | pkg/worker/worker.go:702-778 | every strategy: with enough free GPUs exactly the required number of distinct free ones is taken and nothing else changes, otherwise none; "memory" leaves nothing larger behind, "performance" nothing that beats a chosen GPU when bandwidth agrees with cores |
| Allocation.FreeInOrder | pkg/worker/worker.go:706-710 | the free GPUs are collected in list order |
| Allocation.EnoughCountWraps | pkg/worker/worker.go:712 | there are enough GPUs if and only if the number of free ones, modulo 2^32, covers the demand |
| Allocation.PackedTakesFirst | pkg/worker/worker.go:722-726 | "packed" and unnamed strategies take free GPUs in front of every free one they leave |
| Allocation.SpreadAlternates | pkg/worker/worker.go:728-741 | "spread" takes the free GPUs with 0, 2, 4, ... free ones in front of them, then those with 1, 3, 5, ... |
| Allocation.MemoryLeavesNothingLarger | pkg/worker/worker.go:743-750 | "memory" leaves no free GPU with more memory than one it took |
| Allocation.PerformanceLeavesNothingFaster | pkg/worker/worker.go:752-762 | where bandwidth agrees with cores, "performance" leaves no free GPU with more cores or, if one of the two reports none, more bandwidth than one it took |
| Allocation.TakeParity | pkg/worker/worker.go:728-741 | one loop of "spread" takes the positions of its parity until the demand is met |
| Allocation.SpreadVisitsAll | pkg/worker/worker.go:728-741 | even then odd positions visit the whole free list, each once |
| Allocation.SpreadKeepsApart | pkg/worker/worker.go:729-734 | up to half the list, rounded up, no two chosen positions are neighbours |
| Allocation.SpreadMustTouch | pkg/worker/worker.go:736-741 | beyond that, two chosen positions are neighbours |
| Allocation.SortedPrefixUnbeaten | pkg/worker/worker.go:743-750 | the prefix of a sorted free list leaves nothing better behind |
| Allocation.ComparatorOrdersIff | pkg/worker/worker.go:753-758 | the "performance" comparator is a strict weak order on the free GPUs if and only if, whenever the bandwidth of one without cores lies between those of two with cores, cores order these two as bandwidth does |
| Allocation.MixedComparatorNeedNotOrder | pkg/worker/worker.go:753-758 | three GPUs, one without cores, for which it is not transitive |
| WorkerProcess.Process.ExecuteTask | pkg/worker/worker.go:177-193 | the critical section at start allocates by strategy, goes BUSY and records the task with its GPUs |
| WorkerProcess.Process.ReleaseTask | pkg/worker/worker.go:251-265 | the critical section at the end drops the task, frees its GPUs and goes IDLE when nothing is active |
| WorkerProcess.Process.AbandonTask | pkg/worker/worker.go:201-208 | a cancelled context marks the task FAILED and ends its goroutine without releasing GPUs |
| WorkerProcess.Process.StopTask | pkg/worker/worker.go:596-602 | a STOP_TASK command marks the task CANCELED and nothing else |
| WorkerProcess.Process.RunReaper | pkg/worker/worker.go:528-540 | the cancellation goroutine drops the task and frees its GPUs |
| WorkerProcess.Process.ProcessStatusUpdate | pkg/worker/worker.go:457-545 | availability is taken over for unused GPUs only; status is taken over; listed tasks take over statuses; unlisted ones are cancelled; each cancellation spawns one goroutine |
| WorkerProcess.Process.UpdateTaskPriority | pkg/worker/worker.go:547-577 | a changed status is taken over and a terminal one spawns one goroutine |
| Synchronisation.MessageSetsAvailability | pkg/worker/worker.go:461-495 | after a message a GPU no active task lists has the availability of the last entry with its id, and keeps its own if there is none; GPUs in use and all other fields are unchanged |
| Synchronisation.OfferedGpusAreGiven | pkg/worker/worker.go:483-485 | if a message offers as many unused GPUs as a task needs, the task started next gets that many, under any strategy |
| Synchronisation.MessageSetsStatuses | pkg/worker/worker.go:498-527 | the worker takes over the message's status and each task the status of the last entry about it, or CANCELED if the message lists only others |
| Synchronisation.MessageSpawns | pkg/worker/worker.go:521-576 | exactly one goroutine is spawned per task that the message does not list, or lists last with a new terminal status |
| WorkerRuns.WorkerStatusIff | pkg/worker/worker.go:191-264 | a run keeps the worker BUSY with tasks and IDLE without in all states if and only if every message carries the status that fits and no cancellation drops the last task |
| WorkerRuns.BetweenMessages | pkg/worker/worker.go:174-269 | between messages a task's status tells what its goroutine does, and a GPU is available exactly when it was at the start and no active task holds it |
| WorkerNode.SyncedUnavailable | pkg/worker/worker.go:468-495 | synchronisation never releases a GPU in use, whatever the message claims |
| WorkerNode.WorkerExclusion | pkg/worker/worker.go:174-269 | over all interleavings with benign messages active tasks hold disjoint GPUs, all unavailable |
| WorkerNode.QuietMessageIsBenign | pkg/worker/worker.go:507-543 | messages that list no tasks, or every active task without a new terminal status, are benign |
| WorkerNode.MessageIsSafeIffBenign | pkg/worker/worker.go:521-576 | a message is safe if and only if it cancels no GPU-holding task that a goroutine is already going to release |
| Calendar.StartOf1970 | pkg/scheduler/scheduler_persistence.go:94-97 | by the Gregorian rules 1970 starts 719162 days of 86400 seconds after year 1 |
| Persistence.StartTimeRoundTrip | pkg/persistence/manager.go:196-199 | the row has the zero time for no start and for the first second of 1970, else the start cut to whole seconds; a restart brings it back cut to whole seconds from one second past the start of 1970 on, and as zero otherwise |
| Persistence.WithWorkersRows | pkg/persistence/database.go:142-157 | after saving all workers, each GPU id has a row, made from a GPU of the worker the row names |
| Database.DatabaseManager.SaveTask | pkg/persistence/database.go:159-181 | the transaction succeeds exactly when the GPU ids are distinct, replacing the task's rows; otherwise it changes nothing |
| Database.SaveToDatabase | pkg/persistence/manager.go:159-234 | saving succeeds exactly when no plain insert meets its primary key, and then the tables are those of the snapshot |
| Database.LoadFromDatabase | pkg/persistence/manager.go:236-330 | the snapshot read back holds each row once and attaches tasks to the workers they name |
| Database.SaveState | pkg/scheduler/scheduler_persistence.go:54-125 | the snapshot taken is the scheduler's, and it is stored exactly when storable |
| Database.LoadState | pkg/scheduler/scheduler_persistence.go:127-234 | the scheduler becomes what the tables say, one fresh object per task, queued tasks PENDING |
| Database.Restart | pkg/scheduler/scheduler_persistence.go:54-234 | saving and loading into a new scheduler, which has no counters, is the round trip of the results below, and fails only where saving does |
| Restart.GpusRestoredIffUnique | pkg/persistence/database.go:53-61 | workers, addresses and statuses always come back; every GPU list does if and only if GPU ids are unique in the cluster |
| Restart.TaskRestored | pkg/scheduler/scheduler_persistence.go:152-172 | every task comes back, GPU list up to order, without metrics, PENDING if queued, its start time cut to whole seconds if it is at least one second past the start of 1970 and zero otherwise |
| Restart.QueueRestored | pkg/scheduler/scheduler_persistence.go:209-225 | the queue comes back with the same tasks, each once |
| Restart.BooksAfterReload | pkg/persistence/manager.go:309-313 | a worker's books become exactly the tasks whose worker id names it |
| Restart.BooksRestoredIff | pkg/persistence/manager.go:309-313 | honest runs: the books are those saved if and only if no task has finished on that worker |
| Recovery.StatusSurvivesRestartIff | pkg/scheduler/scheduler.go:228-233 | runs with restarts and reports about unfinished held tasks: after any restart a worker's status agrees with its books if and only if no task has finished there, or the policy is balanced and it was BUSY |
| Recovery.FinishedTaskBlocksWorker | pkg/scheduler/scheduler.go:228-233 | after a restart a finished task stays in its worker's books until that worker reports it again, and from the first moment the worker is BUSY it stays BUSY and no candidate of the simple policy |
| Life.SavingIsTotal | pkg/persistence/database.go:77-85 | a tidy state is written without any primary-key conflict |
| Life.RestartKeepsQuiescence | pkg/scheduler/scheduler_persistence.go:148-225 | after a reload every pending task is still infeasible and the state is tidy again |
| Life.AlwaysTidy | pkg/scheduler/scheduler.go:83-367 | quiescence over runs with restarts and arbitrary reports |
| Life.AlwaysSavable | pkg/persistence/manager.go:195-224 | in such runs every state is saved without a primary-key conflict and RequestTask is refused |
| Reloading.ReloadExists | pkg/persistence/manager.go:159-330 | every tidy state has a round trip through the tables, so runs with restarts never get stuck |
| Life.HonestRunIsTidyLife | pkg/scheduler/scheduler.go:308-324 | every honest run is such a run, without restarts |
| Reports.ReportKeepsUsesIff | pkg/scheduler/scheduler.go:204-236 | from every state kept apart, restarted or not: after any report and any course of its sweep unfinished tasks use GPUs apart, inside the baseline, and availability is exact for them, if and only if the report is safe |
| LifeExclusion.ReloadKeepsUseInv | pkg/scheduler/scheduler_persistence.go:127-234 | a reload keeps unfinished tasks apart and the availability of the GPUs that come back exact, wherever GPU ids clash |
| LifeExclusion.LifeExclusionIffSafe | pkg/scheduler/scheduler.go:197-250 | runs with restarts, fresh names and arbitrary reports: unfinished tasks use GPUs apart and availability is exact for them in all states if and only if all reports are safe |
| Rereports.HonestRunIsSafe | pkg/scheduler/scheduler.go:218-228 | in honest runs, which have no restarts, every report is safe |
| Rereports.HolderFreesUsedGpu | pkg/persistence/manager.go:309-313 | a run with one restart, all of whose events but the last are safe and whose last one is a completion report by the worker that holds the task: it frees a GPU that an unfinished task uses |
| LiveRestart.RestartKeepsLiveInv | pkg/scheduler/scheduler_persistence.go:127-234 | a reload leaves every unfinished task in the books of its worker with the GPUs it was given, and availability exact; all GPUs come back if and only if their ids are unique in the cluster |
| LiveRestart.LiveExclusion | pkg/persistence/manager.go:236-330 | runs with restarts and reports about unfinished held tasks, GPU ids repeating between workers or not: unfinished tasks in one worker's books hold disjoint GPUs, and a GPU is available exactly when it was registered available and none of them holds it |
| UniqueIds.RestartKeepsUniqueInv | pkg/persistence/database.go:53-61 | with GPU ids unique in the cluster a reload leaves every placed task well served by its worker, and ids unique |
| UniqueIds.PlacedAreServed | pkg/scheduler/policy.go:31-53 | runs with restarts, unique GPU ids and arbitrary reports: every task that names a worker lists as many distinct GPUs of it as it asked for, each with enough memory |

## Left out

- Locking and goroutine scheduling in the scheduler: handlers take the write lock and then ask for the read lock of the same mutex (pkg/scheduler/scheduler.go:84, 389-391), which blocks if taken literally; handlers are atomic steps here.
- The simulated training loop, pausing and progress synchronisation of the worker (pkg/worker/worker.go:199-241, 579-586).
- Worker starts under an id that is still in use, and GPU lists that name one GPU twice, on the worker side.
- Policy.BalancedOptimalIff: with more than twelve candidates Go does not sort by insertion, and only the half that holds of any sort (Policy.ChosenIsOptimal) speaks of the code.
- Floating-point rounding of scores: scores are exact reals in the policies and their contracts; runs do not depend on it, because they may place a task on any candidate.
- MonitorWorker, ListWorkers, reconnects, command parsing and logging: I/O and read-only copies. Of the commands only STOP_TASK is a step; a changed strategy is covered because every start may name any.
- Who calls AddTask: submission is an environment step.
- Autosave and TriggerSave: nothing reads the channel.
- Saves that fail half way, connection errors and crash atomicity: clearing and writing are separate transactions.
- Task durations and the Prometheus gauges, which are set before the sweep; only the counters are modelled.
