/** The books over restarts when workers report only unfinished tasks they hold.  Finished tasks come back into
    the books, but the unfinished ones there stay exactly those the task table places on the worker. */
module LiveBooks {
  import opened Cluster
  import opened Policy
  import opened Scheduling
  import opened Books
  import opened Exclusion
  import opened Honest
  import opened Claims
  import opened Reports

  // ---------------------------------------------------------------- the unfinished tasks of a worker

  ghost function LiveTasks(tasks: map<string, TaskRef>, heap: seq<Task>): map<string, TaskRef>
    requires forall id :: id in tasks ==> tasks[id] < |heap|
  {
    map id | id in tasks && !heap[tasks[id]].status.Final() :: tasks[id]
  }

  /** The worker with its unfinished tasks only. */
  ghost function Live(w: Worker, heap: seq<Task>): (r: Worker)
    requires RefsIn(w, heap)
    ensures RefsIn(r, heap)
  {
    w.(tasks := LiveTasks(w.tasks, heap))
  }

  // ---------------------------------------------------------------- the invariant

  ghost predicate AtHome(s: State, id: string)
    requires WellFormed(s) && id in s.tasks
  {
    var t := s.heap[s.tasks[id]];
    && (t.workerId == "" || t.workerId in s.workers)
    && (t.workerId in s.workers && !t.status.Final() ==> id in s.workers[t.workerId].tasks)
  }

  /** A task that names a worker names a registered one, which has it in its books unless it is finished. */
  ghost predicate Homed(s: State)
    requires WellFormed(s)
  {
    forall id :: id in s.tasks ==> AtHome(s, id)
  }

  /** A task in a worker's books names that worker. */
  ghost predicate BooksNamed(s: State)
    requires WellFormed(s)
  {
    forall w, id :: w in s.workers && id in s.workers[w].tasks && id in s.tasks ==> s.heap[s.tasks[id]].workerId == w
  }

  ghost predicate LiveTable(s: State)
    requires WellFormed(s)
  {
    Linked(s) && AllWaiting(s) && Homed(s) && BooksNamed(s) && "" !in s.workers
  }

  /** The unfinished tasks in the books are those that use the worker's GPUs. */
  lemma LiveIsUse(s: State, w: string, id: string, x: string)
    requires WellFormed(s) && LiveTable(s) && w in s.workers
    ensures RefsIn(s.workers[w], s.heap)
    ensures var live := Live(s.workers[w], s.heap);
            id in live.tasks && x in s.heap[live.tasks[id]].gpuIds <==> Uses(s, w, id, x)
  {
    forall a | a in s.workers[w].tasks ensures s.workers[w].tasks[a] < |s.heap| {
      assert Known(s, s.workers[w], a);
    }
    if id in s.workers[w].tasks {
      assert Known(s, s.workers[w], id);
    }
    assert id in s.tasks ==> AtHome(s, id);
  }

  lemma LiveHeldIsInUse(s: State, w: string, x: string)
    requires WellFormed(s) && LiveTable(s) && w in s.workers
    ensures RefsIn(s.workers[w], s.heap)
    ensures Held(Live(s.workers[w], s.heap), s.heap, x) <==> InUse(s, w, x)
  {
    LiveIsUse(s, w, "", x);
    forall id ensures id in Live(s.workers[w], s.heap).tasks && x in s.heap[Live(s.workers[w], s.heap).tasks[id]].gpuIds
                      <==> Uses(s, w, id, x)
    {
      LiveIsUse(s, w, id, x);
    }
  }

  /** So what the table says of uses is what the books say of holdings. */
  lemma ApartIsExclusive(s: State, w: string, base: set<string>)
    requires WellFormed(s) && LiveTable(s) && w in s.workers && UsedApart(s, w, base)
    ensures RefsIn(s.workers[w], s.heap) && Exclusive(Live(s.workers[w], s.heap), s.heap, base)
  {
    LiveIsUse(s, w, "", "");
    var live := Live(s.workers[w], s.heap);
    forall id, x ensures id in live.tasks && x in s.heap[live.tasks[id]].gpuIds <==> Uses(s, w, id, x) {
      LiveIsUse(s, w, id, x);
    }
    forall x ensures Held(live, s.heap, x) <==> InUse(s, w, x) {
      LiveHeldIsInUse(s, w, x);
    }
  }

  // ---------------------------------------------------------------- the sweep

  lemma PlacingKeepsHomed(p: Kind, s: State, i: nat, w: string, now: Time)
    requires WellFormed(s) && Linked(s) && Homed(s) && i < |s.pending| && Takes(p, s, i, Place(w, now))
    ensures Homed(Assign(s, i, w, w, now))
  {
    var s' := Assign(s, i, w, w, now);
    assert Enqueued(s, s.pending[i]);
    forall id | id in s'.tasks ensures AtHome(s', id) {
      assert AtHome(s, id);
      assert s.tasks[id] == s.pending[i] ==> id == s.heap[s.pending[i]].id;
    }
  }

  lemma PlacingKeepsNamed(p: Kind, s: State, i: nat, w: string, now: Time)
    requires WellFormed(s) && Linked(s) && BooksNamed(s) && i < |s.pending| && Takes(p, s, i, Place(w, now))
    ensures BooksNamed(Assign(s, i, w, w, now))
  {
    var s' := Assign(s, i, w, w, now);
    assert Enqueued(s, s.pending[i]);
    forall v, id | v in s'.workers && id in s'.workers[v].tasks && id in s'.tasks
      ensures s'.heap[s'.tasks[id]].workerId == v
    {
      if id in s.workers[v].tasks {
        QueuedIsNotBooked(s, i, v);
        assert Known(s, s.workers[v], id);
      }
    }
  }

  lemma {:induction false} SweepKeepsLiveTable(p: Kind, s: State, i: nat, ds: seq<Decision>)
    requires WellFormed(s) && LiveTable(s) && i <= |s.pending| && ValidSweep(p, s, i, ds)
    ensures LiveTable(Sweep(p, s, i, ds))
    decreases |s.pending| - i
  {
    if i < |s.pending| {
      var (s', i') := Advance(p, s, i, ds[0]);
      if ds[0].Place? {
        var w, now := ds[0].worker, ds[0].now;
        PlacingKeepsLinked(p, s, i, w, now);
        PlacingKeepsWaiting(p, s, i, w, now);
        PlacingKeepsHomed(p, s, i, w, now);
        PlacingKeepsNamed(p, s, i, w, now);
      }
      SweepKeepsLiveTable(p, s', i', ds[1..]);
    }
  }

  // ---------------------------------------------------------------- registration and submission

  lemma RegisteringKeepsHomed(s: State, id: string, gpus: seq<GPU>, address: string)
    requires WellFormed(s) && Homed(s) && BooksNamed(s) && id !in s.workers && id != "" && |gpus| < 0x1_0000_0000
    ensures WellFormed(Registered(s, id, gpus, address))
    ensures Homed(Registered(s, id, gpus, address)) && BooksNamed(Registered(s, id, gpus, address))
  {
    var s' := Registered(s, id, gpus, address);
    assert forall w :: w in s.workers ==> s'.workers[w] == s.workers[w];
    forall t | t in s'.tasks ensures AtHome(s', t) {
      assert AtHome(s, t);
    }
  }

  lemma RegisteringKeepsLiveTable(s: State, id: string, gpus: seq<GPU>, address: string)
    requires WellFormed(s) && LiveTable(s) && id !in s.workers && id != "" && |gpus| < 0x1_0000_0000
    ensures WellFormed(Registered(s, id, gpus, address)) && LiveTable(Registered(s, id, gpus, address))
  {
    RegisteringKeepsLinked(s, id, gpus, address);
    RegisteringKeepsHomed(s, id, gpus, address);
  }

  lemma SubmittingKeepsLiveTable(s: State, t: Task)
    requires WellFormed(s) && LiveTable(s) && t.id !in s.tasks && Waiting(t)
    ensures LiveTable(Submitted(s, NewTask(t)))
  {
    var s' := Submitted(s, NewTask(t));
    SubmittingKeepsLinked(s, t);
    assert forall id :: id in s.tasks ==> s'.heap[s'.tasks[id]] == s.heap[s.tasks[id]];
    forall id | id in s'.tasks ensures AtHome(s', id) {
      assert id in s.tasks ==> AtHome(s, id);
    }
    forall w, id | w in s'.workers && id in s'.workers[w].tasks ensures s'.heap[s'.tasks[id]].workerId == w {
      assert Known(s, s.workers[w], id);
    }
  }

  // ---------------------------------------------------------------- reports

  /** The report is about an unfinished task that the reporting worker holds. */
  ghost predicate LiveReport(s: State, u: Update)
    requires WellFormed(s)
  {
    HonestReport(s, u) && !Finished(s, u.taskId)
  }

  lemma LiveReportIsSafe(s: State, u: Update)
    requires WellFormed(s) && LiveTable(s) && LiveReport(s, u)
    ensures SafeReport(s, u)
  {
  }

  lemma ReportingKeepsHomed(s: State, u: Update)
    requires WellFormed(s) && LiveTable(s) && LiveReport(s, u)
    ensures Homed(Reported(s, u))
  {
    var s' := Reported(s, u);
    forall id | id in s'.tasks ensures AtHome(s', id) {
      assert AtHome(s, id);
      if id != u.taskId {
        ReportingSparesOthers(s, u, id);
      }
    }
  }

  lemma ReportingKeepsNamed(s: State, u: Update)
    requires WellFormed(s) && BooksNamed(s) && Accepted(s, u)
    ensures BooksNamed(Reported(s, u))
  {
    var s' := Reported(s, u);
    forall v, id | v in s'.workers && id in s'.workers[v].tasks && id in s'.tasks
      ensures s'.heap[s'.tasks[id]].workerId == v
    {
      ReportedWorker(s, u, v);
    }
  }

  lemma ReportingKeepsLiveTable(s: State, u: Update)
    requires WellFormed(s) && LiveTable(s) && LiveReport(s, u)
    ensures LiveTable(Reported(s, u))
  {
    ReportingKeepsLinked(s, u);
    ReportingKeepsWaiting(s, u);
    ReportingKeepsHomed(s, u);
    ReportingKeepsNamed(s, u);
    assert Reported(s, u).workers.Keys == s.workers.Keys;
  }
}
