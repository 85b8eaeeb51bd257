/** What the counters count in honest runs: known, completed and failed tasks. */
module Counting {
  import opened Cluster
  import opened Policy
  import opened Scheduling
  import opened Quiescence
  import opened Books
  import opened Exclusion
  import opened Honest
  import opened Consequences

  /** The ids of the known tasks with that status. */
  ghost function TasksWith(s: State, status: TaskStatus): set<string>
    requires WellFormed(s)
  {
    set id | id in s.tasks && s.heap[s.tasks[id]].status == status
  }

  ghost predicate Tallied(s: State)
    requires WellFormed(s)
  {
    s.metrics.Some? ==>
      var c := s.metrics.value;
      && c.total == |s.tasks|
      && c.completed == |TasksWith(s, COMPLETED)|
      && c.failed == |TasksWith(s, FAILED)|
  }

  // ---------------------------------------------------------------- every step

  /** A sweep starts waiting tasks only, so the sets of finished tasks stay. */
  lemma SweepKeepsFinal(p: Kind, s: State, ds: seq<Decision>, id: string)
    requires WellFormed(s) && AllWaiting(s) && ValidSweep(p, s, 0, ds) && id in s.tasks
    ensures var s' := Sweep(p, s, 0, ds);
            && s'.tasks == s.tasks && s'.metrics == s.metrics
            && var t, t' := s.heap[s.tasks[id]], s'.heap[s.tasks[id]];
               t'.status == t.status || (!t'.status.Final() && !t.status.Final())
  {
    SweepKeepsTable(p, s, 0, ds);
    SweepStartsPlaced(p, s, 0, ds, s.tasks[id]);
    assert s.pending[0..] == s.pending;
    if Placed(s.pending, ds, s.tasks[id]) {
      var k :| 0 <= k < |ds| && s.pending[k] == s.tasks[id] && ds[k].Place?;
      assert Waiting(s.heap[s.pending[k]]);
    }
  }

  lemma SweepKeepsTally(p: Kind, s: State, ds: seq<Decision>)
    requires WellFormed(s) && AllWaiting(s) && Tallied(s) && ValidSweep(p, s, 0, ds)
    ensures Tallied(Sweep(p, s, 0, ds))
    ensures Sweep(p, s, 0, ds).metrics == s.metrics
  {
    var s' := Sweep(p, s, 0, ds);
    SweepKeepsTable(p, s, 0, ds);
    forall id | id in s.tasks
      ensures s'.heap[s.tasks[id]].status == s.heap[s.tasks[id]].status
              || (!s'.heap[s.tasks[id]].status.Final() && !s.heap[s.tasks[id]].status.Final())
    {
      SweepKeepsFinal(p, s, ds, id);
    }
    assert TasksWith(s', COMPLETED) == TasksWith(s, COMPLETED);
    assert TasksWith(s', FAILED) == TasksWith(s, FAILED);
  }

  lemma SubmittedTasksWith(s: State, t: Task, status: TaskStatus)
    requires WellFormed(s) && t.id !in s.tasks && t.status != status
    ensures TasksWith(Submitted(s, NewTask(t)), status) == TasksWith(s, status)
  {
    var s' := Submitted(s, NewTask(t));
    assert s'.tasks[t.id] == |s.heap| && s'.heap[|s.heap|] == t;
    forall id ensures id in TasksWith(s', status) <==> id in TasksWith(s, status) {
      if id in s.tasks {
        assert s'.tasks[id] == s.tasks[id] && s'.heap[s.tasks[id]] == s.heap[s.tasks[id]];
      }
    }
  }

  lemma OneMoreKey(m: map<string, TaskRef>, id: string, r: TaskRef)
    requires id !in m
    ensures |m[id := r]| == |m| + 1
  {
    assert m[id := r].Keys == m.Keys + {id};
    assert |m| == |m.Keys| && |m[id := r]| == |m[id := r].Keys|;
  }

  lemma SubmittedKeepsTally(s: State, t: Task)
    requires WellFormed(s) && Tallied(s) && t.id !in s.tasks && Waiting(t)
    ensures Tallied(Submitted(s, NewTask(t)))
  {
    SubmittedTasksWith(s, t, COMPLETED);
    SubmittedTasksWith(s, t, FAILED);
    OneMoreKey(s.tasks, t.id, |s.heap|);
  }

  /** The report sets the status of its own task and of no other one. */
  lemma ReportedStatus(s: State, u: Update, id: string)
    requires WellFormed(s) && Linked(s) && Accepted(s, u) && id in s.tasks
    ensures Reported(s, u).tasks == s.tasks
    ensures Reported(s, u).heap[s.tasks[id]].status == if id == u.taskId then u.status else s.heap[s.tasks[id]].status
  {
    if id != u.taskId {
      ReportingSparesOthers(s, u, id);
    }
  }

  lemma HeldIsUnfinished(s: State, w: string, id: string)
    requires WellFormed(s) && TableInOrder(s) && w in s.workers && id in s.workers[w].tasks
    ensures id in s.tasks && !s.heap[s.tasks[id]].status.Final()
  {
    assert Known(s, s.workers[w], id) && !Finished(s, id);
  }

  /** One task changes its status. */
  lemma OneMoves(s: State, s': State, moved: string, now: TaskStatus, status: TaskStatus)
    requires WellFormed(s) && WellFormed(s') && s'.tasks == s.tasks && moved in s.tasks
    requires forall id :: id in s.tasks ==>
               s'.heap[s.tasks[id]].status == if id == moved then now else s.heap[s.tasks[id]].status
    requires s.heap[s.tasks[moved]].status != status
    ensures moved !in TasksWith(s, status)
    ensures TasksWith(s', status) == TasksWith(s, status) + if now == status then {moved} else {}
  {
  }

  /** The report of the holder moves its task, and no other one, to the set of its new status. */
  lemma ReportedTasksWith(s: State, u: Update, status: TaskStatus)
    requires WellFormed(s) && TableInOrder(s) && HonestReport(s, u) && status.Final()
    ensures u.taskId !in TasksWith(s, status)
    ensures TasksWith(Reported(s, u), status) == TasksWith(s, status) + if u.status == status then {u.taskId} else {}
  {
    HeldIsUnfinished(s, u.workerId, u.taskId);
    ReportedStatus(s, u, u.taskId);
    var s' := Reported(s, u);
    forall id | id in s.tasks
      ensures s'.heap[s.tasks[id]].status == if id == u.taskId then u.status else s.heap[s.tasks[id]].status
    {
      ReportedStatus(s, u, id);
    }
    OneMoves(s, s', u.taskId, u.status, status);
  }

  lemma CountedTally(s: State, u: Update, completed: nat, failed: nat)
    requires WellFormed(s) && Accepted(s, u) && s.metrics.Some?
    requires completed == s.metrics.value.completed + if u.status == COMPLETED then 1 else 0
    requires failed == s.metrics.value.failed + if u.status == FAILED then 1 else 0
    ensures Reported(s, u).metrics == Some(Counters(s.metrics.value.total, completed, failed))
    ensures Reported(s, u).tasks == s.tasks
  {
  }

  lemma ReportedKeepsTally(s: State, u: Update)
    requires WellFormed(s) && TableInOrder(s) && HonestReport(s, u) && Tallied(s)
    ensures Tallied(Reported(s, u))
  {
    ReportedTasksWith(s, u, COMPLETED);
    ReportedTasksWith(s, u, FAILED);
    if s.metrics.Some? {
      CountedTally(s, u, |TasksWith(Reported(s, u), COMPLETED)|, |TasksWith(Reported(s, u), FAILED)|);
    }
  }

  lemma ReportKeepsTally(p: Kind, s: State, u: Update, ds: seq<Decision>)
    requires WellFormed(s) && TableInOrder(s) && Tallied(s)
    requires LegalReport(p, s, u, ds) && (Accepted(s, u) ==> HonestReport(s, u))
    ensures Tallied(AfterReport(p, s, u, ds))
  {
    if Accepted(s, u) {
      ReportedKeepsTally(s, u);
      if u.status.Final() {
        ReportingKeepsWaiting(s, u);
        SweepKeepsTally(p, Reported(s, u), ds);
      }
    }
  }

  lemma RegisterKeepsTally(p: Kind, s: State, id: string, gpus: seq<GPU>, address: string, ds: seq<Decision>)
    requires WellFormed(s) && AllWaiting(s) && Tallied(s) && LegalRegister(p, s, id, gpus, address, ds)
    ensures Tallied(AfterRegister(p, s, id, gpus, address, ds))
  {
    var wid := WorkerIdFor(id, |s.workers|);
    if wid !in s.workers {
      var s' := Registered(s, wid, gpus, address);
      assert TasksWith(s', COMPLETED) == TasksWith(s, COMPLETED) && TasksWith(s', FAILED) == TasksWith(s, FAILED);
      SweepKeepsTally(p, s', ds);
    }
  }

  lemma SubmitKeepsTally(p: Kind, s: State, t: Task, ds: seq<Decision>)
    requires WellFormed(s) && TableInOrder(s) && Tallied(s) && t.id !in s.tasks && Waiting(t)
    requires LegalSubmit(p, s, NewTask(t), ds)
    ensures Tallied(AfterSubmit(p, s, NewTask(t), ds))
  {
    SubmittedKeepsTally(s, t);
    SubmittingKeepsTable(s, t);
    SweepKeepsTally(p, Submitted(s, NewTask(t)), ds);
  }

  lemma StepKeepsTally(p: Kind, s: State, e: Event, s': State, base: Baseline)
    requires Step(p, s, e, s') && Inv(p, s) && HonestInv(s, base) && HonestEvent(s, e) && Tallied(s)
    ensures WellFormed(s') && Tallied(s')
  {
    match e {
      case Register(id, gpus, address, ds) => RegisterKeepsTally(p, s, id, gpus, address, ds);
      case Submit(sub, ds) => SubmitKeepsTally(p, s, sub.task, ds);
      case Report(u, ds) => ReportKeepsTally(p, s, u, ds);
      case Request(caller, chosen, now) => QuiescentRefuses(p, s, caller);
    }
  }

  // ---------------------------------------------------------------- over honest runs

  lemma TallyNext(p: Kind, ss: seq<State>, es: seq<Event>, bs: seq<Baseline>, n: nat)
    requires HonestBehavior(p, ss, es, bs) && 0 < n < |ss| && WellFormed(ss[n - 1]) && Tallied(ss[n - 1])
    ensures WellFormed(ss[n]) && Tallied(ss[n])
  {
    AlwaysHonestInv(p, ss, es, bs, n - 1);
    assert Step(p, ss[n - 1], es[n - 1], ss[n]) && HonestEvent(ss[n - 1], es[n - 1]);
    StepKeepsTally(p, ss[n - 1], es[n - 1], ss[n], bs[n - 1]);
  }

  lemma {:induction false} AlwaysTallied(p: Kind, ss: seq<State>, es: seq<Event>, bs: seq<Baseline>, n: nat)
    requires HonestBehavior(p, ss, es, bs) && n < |ss|
    ensures WellFormed(ss[n]) && Tallied(ss[n])
  {
    if n > 0 {
      AlwaysTallied(p, ss, es, bs, n - 1);
      TallyNext(p, ss, es, bs, n);
    }
  }

  lemma StepKeepsCounting(p: Kind, s: State, e: Event, s': State)
    requires Step(p, s, e, s') && Inv(p, s)
    ensures s'.metrics.Some? <==> s.metrics.Some?
  {
    match e {
      case Register(id, gpus, address, ds) =>
        if WorkerIdFor(id, |s.workers|) !in s.workers {
          SweepKeepsTable(p, Registered(s, WorkerIdFor(id, |s.workers|), gpus, address), 0, ds);
        }
      case Submit(sub, ds) => SweepKeepsTable(p, Submitted(s, sub), 0, ds);
      case Report(u, ds) =>
        if Accepted(s, u) && u.status.Final() {
          SweepKeepsTable(p, Reported(s, u), 0, ds);
        }
      case Request(caller, chosen, now) => QuiescentRefuses(p, s, caller);
    }
  }

  lemma CountingNext(p: Kind, ss: seq<State>, es: seq<Event>, n: nat)
    requires Behavior(p, ss, es) && 0 < n < |ss|
    ensures ss[n].metrics.Some? <==> ss[n - 1].metrics.Some?
  {
    AlwaysQuiescent(p, ss, es, n - 1);
    assert Step(p, ss[n - 1], es[n - 1], ss[n]);
    StepKeepsCounting(p, ss[n - 1], es[n - 1], ss[n]);
  }

  /** A run that starts with counters has them in every state, and one without never gets them. */
  lemma {:induction false} StillCounting(p: Kind, ss: seq<State>, es: seq<Event>, n: nat)
    requires Behavior(p, ss, es) && n < |ss|
    ensures ss[n].metrics.Some? <==> ss[0].metrics.Some?
  {
    if n > 0 {
      StillCounting(p, ss, es, n - 1);
      CountingNext(p, ss, es, n);
    }
  }

  /** After every call of an honest run that has counters they are the number of known tasks, of those that are
      COMPLETED and of those that are FAILED. */
  lemma CountersCountTasks(p: Kind, ss: seq<State>, es: seq<Event>, bs: seq<Baseline>, n: nat)
    requires HonestBehavior(p, ss, es, bs) && n < |ss| && ss[0].metrics.Some?
    ensures WellFormed(ss[n]) && ss[n].metrics.Some?
    ensures var s := ss[n];
            var c := s.metrics.value;
            && c.total == |s.tasks.Keys|
            && c.completed == |set id | id in s.tasks && s.heap[s.tasks[id]].status == COMPLETED|
            && c.failed == |set id | id in s.tasks && s.heap[s.tasks[id]].status == FAILED|
  {
    AlwaysTallied(p, ss, es, bs, n);
    StillCounting(p, ss, es, n);
    TallyMeans(ss[n]);
  }

  lemma TallyMeans(s: State)
    requires WellFormed(s) && Tallied(s) && s.metrics.Some?
    ensures var c := s.metrics.value;
            && c.total == |s.tasks.Keys|
            && c.completed == |set id | id in s.tasks && s.heap[s.tasks[id]].status == COMPLETED|
            && c.failed == |set id | id in s.tasks && s.heap[s.tasks[id]].status == FAILED|
  {
    assert TasksWith(s, COMPLETED) == set id | id in s.tasks && s.heap[s.tasks[id]].status == COMPLETED;
    assert TasksWith(s, FAILED) == set id | id in s.tasks && s.heap[s.tasks[id]].status == FAILED;
    assert |s.tasks| == |s.tasks.Keys|;
  }
}
