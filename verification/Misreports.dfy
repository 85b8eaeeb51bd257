/** What a final report about a task that the reporting worker does not hold does to the accounts and to the
    task table, and a run in which one such report makes two tasks share a GPU.  ReportTaskStatus never
    compares the reporting worker with the task's worker, and a finished task keeps its GPU list. */
module Misreports {
  import opened Cluster
  import opened Policy
  import opened Scheduling
  import opened Quiescence
  import opened Books
  import opened Exclusion
  import opened Honest
  import opened Consequences
  import opened Sharing

  // ---------------------------------------------------------------- conservation

  lemma StrayReportKeepsInFlight(s: State, u: Update)
    requires WellFormed(s) && Accepted(s, u) && u.status.Final() && u.taskId !in s.workers[u.workerId].tasks
    ensures InFlight(Reported(s, u).workers) == InFlight(s.workers)
  {
    StrayReportFrees(s, u);
    assert forall v :: v in s.workers ==> Reported(s, u).workers[v].tasks == s.workers[v].tasks;
  }

  lemma StrayReportMiscounts(s: State, u: Update)
    requires WellFormed(s) && Conserved(s) && s.metrics.Some?
    requires Accepted(s, u) && u.status.Final() && u.taskId !in s.workers[u.workerId].tasks
    ensures !Conserved(Reported(s, u))
  {
    StrayReportKeepsInFlight(s, u);
  }

  lemma SweepKeepsConserved(p: Kind, s: State, ds: seq<Decision>)
    requires WellFormed(s) && Linked(s) && ValidSweep(p, s, 0, ds)
    ensures Conserved(Sweep(p, s, 0, ds)) <==> Conserved(s)
  {
    SweepKeepsLoad(p, s, 0, ds);
  }

  /** The counters still add up after a final report if and only if the reporting worker held the task. */
  lemma ConservationKeptIff(p: Kind, s: State, u: Update, ds: seq<Decision>)
    requires WellFormed(s) && Linked(s) && Conserved(s) && s.metrics.Some?
    requires Accepted(s, u) && u.status.Final() && LegalReport(p, s, u, ds)
    ensures Conserved(AfterReport(p, s, u, ds)) <==> u.taskId in s.workers[u.workerId].tasks
  {
    ReportingKeepsLinked(s, u);
    SweepKeepsConserved(p, Reported(s, u), ds);
    if u.taskId in s.workers[u.workerId].tasks {
      ReportingKeepsCount(s, u);
    } else {
      StrayReportMiscounts(s, u);
    }
  }

  // ---------------------------------------------------------------- the partition of tasks

  lemma {:induction false} SweepKeepsBooked(p: Kind, s: State, i: nat, ds: seq<Decision>, v: string, id: string)
    requires WellFormed(s) && i <= |s.pending| && ValidSweep(p, s, i, ds) && v in s.workers && id in s.workers[v].tasks
    ensures v in Sweep(p, s, i, ds).workers && id in Sweep(p, s, i, ds).workers[v].tasks
    decreases |s.pending| - i
  {
    if i < |s.pending| {
      var (s', i') := Advance(p, s, i, ds[0]);
      SweepKeepsBooked(p, s', i', ds[1..], v, id);
    }
  }

  lemma NothingReleased(p: Kind, w: Worker, t: Task, id: string)
    requires WorkerAgrees(p, w) && id !in w.tasks && t.gpuIds == []
    ensures Released(w, t, id) == w
  {
    assert w.tasks - {id} == w.tasks;
    assert Marked(w.gpus, [], true) == w.gpus;
  }

  lemma ReportedWorkers(s: State, u: Update)
    requires WellFormed(s) && Accepted(s, u) && u.status.Final()
    requires Released(s.workers[u.workerId], Reported(s, u).heap[s.tasks[u.taskId]], u.taskId) == s.workers[u.workerId]
    ensures Reported(s, u).workers == s.workers
  {
    assert s.workers[u.workerId := s.workers[u.workerId]] == s.workers;
  }

  /** A report about a queued task changes no worker: the task has been given no GPU yet. */
  lemma QueuedReportKeepsWorkers(p: Kind, s: State, u: Update)
    requires WellFormed(s) && StatusAgrees(p, s) && Linked(s) && AllWaiting(s)
    requires Accepted(s, u) && u.status.Final() && s.tasks[u.taskId] in s.pending
    ensures Reported(s, u).workers == s.workers
  {
    var w, r := s.workers[u.workerId], s.tasks[u.taskId];
    var k :| 0 <= k < |s.pending| && s.pending[k] == r;
    QueuedIsNotBooked(s, k, u.workerId);
    assert WorkerAgrees(p, w) && Waiting(s.heap[s.pending[k]]);
    NothingReleased(p, w, Reported(s, u).heap[r], u.taskId);
    ReportedWorkers(s, u);
  }

  /** So nothing becomes feasible, and the task stays in the queue although it is marked as finished. */
  lemma QueuedReportStaysQueued(p: Kind, s: State, u: Update, ds: seq<Decision>)
    requires Inv(p, s) && TableInOrder(s) && Accepted(s, u) && u.status.Final() && s.tasks[u.taskId] in s.pending
    requires LegalReport(p, s, u, ds)
    ensures AfterReport(p, s, u, ds) == Reported(s, u)
  {
    var s1 := Reported(s, u);
    QueuedReportKeepsWorkers(p, s, u);
    NotedKeepsQuiescence(p, s, u);
    SecondSweepIsNoOp(p, s1, 0, ds);
  }

  /** A task that runs on another worker is marked as finished and stays in that worker's books. */
  lemma RunningReportStaysRunning(p: Kind, s: State, u: Update, ds: seq<Decision>)
    requires WellFormed(s) && TableInOrder(s) && Accepted(s, u) && u.status.Final() && LegalReport(p, s, u, ds)
    requires Running(s, u.taskId) && u.taskId !in s.workers[u.workerId].tasks
    ensures var s' := AfterReport(p, s, u, ds);
            u.taskId in s'.tasks && Running(s', u.taskId) && Finished(s', u.taskId)
  {
    var s1, r := Reported(s, u), s.tasks[u.taskId];
    var v := s.heap[r].workerId;
    assert Known(s, s.workers[v], u.taskId);
    SweepSparesUnqueued(p, s1, ds, r);
    SweepKeepsBooked(p, s1, 0, ds, v, u.taskId);
  }

  lemma FinishedReportKeepsWaiting(s: State, u: Update)
    requires WellFormed(s) && AllWaiting(s) && Accepted(s, u) && s.tasks[u.taskId] !in s.pending
    ensures AllWaiting(Reported(s, u))
  {
    var s' := Reported(s, u);
    forall k | 0 <= k < |s'.pending| ensures Waiting(s'.heap[s'.pending[k]]) {
      assert s.pending[k] in s.pending;
    }
  }

  lemma FinishedReportKeepsUnfinished(s: State, u: Update)
    requires WellFormed(s) && Linked(s) && Unfinished(s) && Accepted(s, u) && Finished(s, u.taskId)
    ensures Unfinished(Reported(s, u))
  {
    var s' := Reported(s, u);
    forall v, id | v in s'.workers && id in s'.workers[v].tasks ensures !Finished(s', id) {
      assert Known(s, s.workers[v], id) && !Finished(s, id);
      ReportingSparesOthers(s, u, id);
    }
  }

  lemma FinishedReportKeepsAccount(s: State, u: Update)
    requires WellFormed(s) && Linked(s) && Accounted(s) && Accepted(s, u) && u.status.Final()
    ensures Accounted(Reported(s, u))
  {
    var s' := Reported(s, u);
    forall id | id in s'.tasks ensures s'.tasks[id] in s'.pending || Running(s', id) || Finished(s', id) {
      if id != u.taskId {
        ReportingSparesOthers(s, u, id);
      }
    }
  }

  lemma FinishedReportKeepsPartition(p: Kind, s: State, u: Update, ds: seq<Decision>)
    requires WellFormed(s) && TableInOrder(s) && Accepted(s, u) && u.status.Final() && LegalReport(p, s, u, ds)
    requires Finished(s, u.taskId)
    ensures Partitioned(AfterReport(p, s, u, ds))
  {
    ReportingKeepsLinked(s, u);
    FinishedIsNowhere(s, u.taskId);
    FinishedReportKeepsWaiting(s, u);
    FinishedReportKeepsUnfinished(s, u);
    FinishedReportKeepsAccount(s, u);
    SweepKeepsTableInOrder(p, Reported(s, u), 0, ds);
    TableIsPartitioned(AfterReport(p, s, u, ds));
  }

  /** Every task is still in exactly one place after a final report if and only if the reporting worker held
      the task, or the task had finished before. */
  lemma PartitionKeptIff(p: Kind, s: State, u: Update, ds: seq<Decision>, base: Baseline)
    requires Inv(p, s) && HonestInv(s, base) && Accepted(s, u) && u.status.Final() && LegalReport(p, s, u, ds)
    ensures Partitioned(AfterReport(p, s, u, ds)) <==>
              u.taskId in s.workers[u.workerId].tasks || Finished(s, u.taskId)
  {
    if u.taskId in s.workers[u.workerId].tasks {
      ReportKeepsHonestInv(p, s, u, ds, base);
      TableIsPartitioned(AfterReport(p, s, u, ds));
    } else if Finished(s, u.taskId) {
      FinishedReportKeepsPartition(p, s, u, ds);
    } else if s.tasks[u.taskId] in s.pending {
      QueuedReportStaysQueued(p, s, u, ds);
      assert !InOnePlace(Reported(s, u), u.taskId);
    } else {
      RunningReportStaysRunning(p, s, u, ds);
      assert !InOnePlace(AfterReport(p, s, u, ds), u.taskId);
    }
  }

  // ---------------------------------------------------------------- a run that shares a GPU

  ghost function OneGpu(free: bool): seq<GPU> { [GPU("g", "", 0, free)] }

  ghost function Done(id: string): Update { Update(id, "w", COMPLETED, 0.0, []) }

  ghost function OneWorker(free: bool, status: WorkerStatus, books: map<string, TaskRef>): map<string, Worker> {
    map["w" := Worker(OneGpu(free), "", status, books)]
  }

  /** One worker with one GPU, an empty queue, and `n` tasks that have all been given that GPU. */
  ghost predicate At(s: State, free: bool, status: WorkerStatus, books: map<string, TaskRef>,
                     tasks: map<string, TaskRef>, n: nat)
  {
    && WellFormed(s) && s.workers == OneWorker(free, status, books) && s.pending == [] && s.tasks == tasks
    && |s.heap| == n && forall r :: 0 <= r < n ==> s.heap[r].gpuIds == ["g"] && s.heap[r].workerId == "w"
  }

  lemma OneGpuEligible()
    ensures EligibleIds(OneGpu(true), 0) == ["g"]
  {
    assert OneGpu(true)[..0] == [];
  }

  lemma LastPlacement(p: Kind, s: State, w: string)
    requires WellFormed(s) && |s.pending| == 1 && Takes(p, s, 0, Place(w, 0))
    ensures ValidSweep(p, s, 0, [Place(w, 0)]) && Sweep(p, s, 0, [Place(w, 0)]) == Assign(s, 0, w, w, 0)
  {
    var (s', i') := Advance(p, s, 0, Place(w, 0));
    assert [Place(w, 0)][1..] == [] && s'.pending == [];
    assert ValidSweep(p, s', i', []);
  }

  lemma QueuedAt(s: State, status: WorkerStatus, books: map<string, TaskRef>, tasks: map<string, TaskRef>, n: nat,
                 id: string)
    requires At(s, true, status, books, tasks, n) && Admits(Balanced, status)
    ensures var s1 := Submitted(s, NewTask(Job(id)));
            && s1.pending == [n] && |s1.heap| == n + 1 && s1.heap[n] == Job(id)
            && s1.workers == s.workers && s1.tasks == tasks[id := n]
            && Takes(Balanced, s1, 0, Place("w", 0)) && Grant(s1.workers["w"], Job(id)) == ["g"]
  {
    var s1 := Submitted(s, NewTask(Job(id)));
    OneGpuEligible();
  }

  lemma PlacedAt(s: State, status: WorkerStatus, books: map<string, TaskRef>, tasks: map<string, TaskRef>, n: nat,
                 id: string)
    requires At(s, true, status, books, tasks, n)
    requires var s1 := Submitted(s, NewTask(Job(id)));
             && s1.pending == [n] && |s1.heap| == n + 1 && s1.heap[n] == Job(id)
             && s1.workers == s.workers && s1.tasks == tasks[id := n]
             && Takes(Balanced, s1, 0, Place("w", 0)) && Grant(s1.workers["w"], Job(id)) == ["g"]
    ensures At(Assign(Submitted(s, NewTask(Job(id))), 0, "w", "w", 0), false, BUSY,
               books[id := n], tasks[id := n], n + 1)
  {
    var s1 := Submitted(s, NewTask(Job(id)));
    var s' := Assign(s1, 0, "w", "w", 0);
    assert Marked(OneGpu(true), ["g"], false) == OneGpu(false);
    forall r | 0 <= r < n ensures s'.heap[r].gpuIds == ["g"] && s'.heap[r].workerId == "w" {
      assert s1.heap[r] == s.heap[r];
    }
  }

  /** With the one GPU free, the balanced policy gives a new task the one worker. */
  lemma SubmitStep(s: State, status: WorkerStatus, books: map<string, TaskRef>, tasks: map<string, TaskRef>, n: nat,
                   id: string)
    returns (e: Event, s': State)
    requires At(s, true, status, books, tasks, n) && Admits(Balanced, status)
    ensures Step(Balanced, s, e, s') && At(s', false, BUSY, books[id := n], tasks[id := n], n + 1)
    ensures id !in tasks ==> HonestEvent(s, e)
  {
    e := Submit(NewTask(Job(id)), [Place("w", 0)]);
    QueuedAt(s, status, books, tasks, n, id);
    LastPlacement(Balanced, Submitted(s, NewTask(Job(id))), "w");
    PlacedAt(s, status, books, tasks, n, id);
    s' := Exec(Balanced, s, e);
  }

  lemma ReportedAt(s: State, free: bool, status: WorkerStatus, books: map<string, TaskRef>,
                   tasks: map<string, TaskRef>, n: nat, id: string)
    requires At(s, free, status, books, tasks, n) && id in tasks
    ensures At(Reported(s, Done(id)), true, if |books - {id}| == 0 then IDLE else status, books - {id}, tasks, n)
  {
    assert Marked(OneGpu(free), ["g"], true) == OneGpu(true);
  }

  /** A final report about a task that was given the one GPU frees it. */
  lemma ReportStep(s: State, free: bool, status: WorkerStatus, books: map<string, TaskRef>,
                   tasks: map<string, TaskRef>, n: nat, id: string)
    returns (e: Event, s': State)
    requires At(s, free, status, books, tasks, n) && id in tasks
    ensures Step(Balanced, s, e, s')
    ensures At(s', true, if |books - {id}| == 0 then IDLE else status, books - {id}, tasks, n)
    ensures id in books ==> HonestEvent(s, e)
  {
    e := Report(Done(id), []);
    ReportedAt(s, free, status, books, tasks, n, id);
    s' := Reported(s, Done(id));
    assert ValidSweep(Balanced, s', 0, []);
  }

  lemma RegisterStep(s: State) returns (e: Event, s': State)
    requires Initial(s)
    ensures Step(Balanced, s, e, s') && HonestEvent(s, e) && At(s', true, IDLE, map[], map[], 0)
  {
    e := Register("w", OneGpu(true), "", []);
    s' := Registered(s, "w", OneGpu(true), "");
    assert ValidSweep(Balanced, s', 0, []);
  }

  lemma TwoTasksShare(s: State, free: bool, tasks: map<string, TaskRef>)
    requires At(s, free, BUSY, map["b" := 1]["c" := 2], tasks, 3)
    ensures Shared(s)
  {
    var w := s.workers["w"];
    assert "g" in s.heap[w.tasks["b"]].gpuIds && "g" in s.heap[w.tasks["c"]].gpuIds;
    assert !Disjoint(w, s.heap);
  }

  /** The run so far: honest but for its fifth event. */
  ghost predicate Path(ss: seq<State>, es: seq<Event>) {
    Behavior(Balanced, ss, es) && forall i {:trigger es[i]} :: 0 <= i < |es| && i != 4 ==> HonestEvent(ss[i], es[i])
  }

  ghost predicate PathStep(s: State, e: Event, s': State, i: nat) {
    Step(Balanced, s, e, s') && (i != 4 ==> HonestEvent(s, e))
  }

  lemma PathStepAt(ss: seq<State>, es: seq<Event>, i: nat)
    requires Path(ss, es) && i < |es|
    ensures PathStep(ss[i], es[i], ss[i + 1], i)
  {
  }

  lemma ExtendedAt(ss: seq<State>, es: seq<Event>, e: Event, s': State, i: nat)
    requires Path(ss, es) && PathStep(ss[|es|], e, s', |es|) && i <= |es|
    ensures PathStep((ss + [s'])[i], (es + [e])[i], (ss + [s'])[i + 1], i)
  {
    if i < |es| {
      PathStepAt(ss, es, i);
    }
  }

  lemma Extend(ss: seq<State>, es: seq<Event>, e: Event, s': State)
    requires Path(ss, es) && Step(Balanced, ss[|es|], e, s') && (|es| != 4 ==> HonestEvent(ss[|es|], e))
    ensures Path(ss + [s'], es + [e])
  {
    forall i | 0 <= i < |es + [e]| ensures PathStep((ss + [s'])[i], (es + [e])[i], (ss + [s'])[i + 1], i) {
      ExtendedAt(ss, es, e, s', i);
    }
  }

  lemma ThenSubmit(ss: seq<State>, es: seq<Event>, status: WorkerStatus, books: map<string, TaskRef>,
                   tasks: map<string, TaskRef>, n: nat, id: string)
    returns (ss': seq<State>, es': seq<Event>)
    requires Path(ss, es) && At(ss[|es|], true, status, books, tasks, n) && Admits(Balanced, status) && id !in tasks
    ensures Path(ss', es') && |es'| == |es| + 1 && At(ss'[|es'|], false, BUSY, books[id := n], tasks[id := n], n + 1)
  {
    var e, s' := SubmitStep(ss[|es|], status, books, tasks, n, id);
    Extend(ss, es, e, s');
    ss', es' := ss + [s'], es + [e];
  }

  lemma ThenReport(ss: seq<State>, es: seq<Event>, free: bool, status: WorkerStatus, books: map<string, TaskRef>,
                   tasks: map<string, TaskRef>, n: nat, id: string)
    returns (ss': seq<State>, es': seq<Event>)
    requires Path(ss, es) && At(ss[|es|], free, status, books, tasks, n) && id in tasks && (id in books || |es| == 4)
    ensures Path(ss', es') && |es'| == |es| + 1
    ensures At(ss'[|es'|], true, if |books - {id}| == 0 then IDLE else status, books - {id}, tasks, n)
  {
    var e, s' := ReportStep(ss[|es|], free, status, books, tasks, n, id);
    Extend(ss, es, e, s');
    ss', es' := ss + [s'], es + [e];
  }

  lemma StartPath() returns (ss: seq<State>, es: seq<Event>)
    ensures Path(ss, es) && |es| == 1 && At(ss[1], true, IDLE, map[], map[], 0)
  {
    var s0 := State(map[], map[], [], [], None);
    var e, s1 := RegisterStep(s0);
    Extend([s0], [], e, s1);
    ss, es := [s0] + [s1], [] + [e];
  }

  /** Task "a" runs and finishes, and "b" gets the GPU. */
  lemma HonestHalf() returns (ss: seq<State>, es: seq<Event>)
    ensures Path(ss, es) && |es| == 4
    ensures At(ss[4], false, BUSY, map["b" := 1], map["a" := 0]["b" := 1], 2)
  {
    var a := map["a" := 0];
    assert a - {"a"} == map[];
    ss, es := StartPath();
    ss, es := ThenSubmit(ss, es, IDLE, map[], map[], 0, "a");
    ss, es := ThenReport(ss, es, false, BUSY, a, a, 1, "a");
    ss, es := ThenSubmit(ss, es, IDLE, map[], a, 1, "b");
  }

  /** A repeated final report: task "a" is reported as completed a second time while "b" has its GPU, and
      "c" is given that GPU as well.  Everything else in the run is honest. */
  lemma RepeatedReportSharesGpu() returns (ss: seq<State>, es: seq<Event>)
    ensures Path(ss, es) && |es| == 6 && Shared(ss[6])
  {
    var b := map["b" := 1];
    assert b - {"a"} == b;
    ss, es := HonestHalf();
    ss, es := ThenReport(ss, es, false, BUSY, b, map["a" := 0]["b" := 1], 2, "a");
    ss, es := ThenSubmit(ss, es, BUSY, b, map["a" := 0]["b" := 1], 2, "c");
    TwoTasksShare(ss[6], false, map["a" := 0]["b" := 1]["c" := 2]);
  }
}
