/** Worker statuses over restarts.  Finished tasks come back into the books of their worker, and a worker becomes IDLE
    again only when its books are empty. */
module Recovery {
  import opened Cluster
  import opened Policy
  import opened Scheduling
  import opened Quiescence
  import opened Books
  import opened Exclusion
  import opened Honest
  import opened Restart
  import opened Life
  import opened LiveBooks
  import opened LiveRestart
  import P = Persistence

  // ---------------------------------------------------------------- statuses between restarts

  /** The task is in the worker's books and unfinished. */
  ghost predicate Active(s: State, w: string, id: string)
    requires WellFormed(s) && w in s.workers
  {
    id in s.workers[w].tasks && id in s.tasks && !Finished(s, id)
  }

  /** What a status says.  BUSY: there is an active task, or at least two have finished on the worker, one of which
      keeps it BUSY.  IDLE: no task is active.  Under the simple policy one task is active at most. */
  ghost predicate StatusFits(p: Kind, s: State, w: string)
    requires WellFormed(s) && w in s.workers
  {
    && (s.workers[w].status == IDLE || s.workers[w].status == BUSY)
    && (s.workers[w].status == BUSY ==>
          (exists id :: Active(s, w, id)) || (exists a, b :: a != b && FinishedOn(s, a, w) && FinishedOn(s, b, w)))
    && (s.workers[w].status == IDLE ==> forall id :: !Active(s, w, id))
    && (p == Simple ==> forall a, b :: Active(s, w, a) && Active(s, w, b) ==> a == b)
  }

  ghost predicate StatusesFit(p: Kind, s: State)
    requires WellFormed(s)
  {
    forall w :: w in s.workers ==> StatusFits(p, s, w)
  }

  /** Same status, same active tasks, and no task of the worker is unfinished that was finished. */
  lemma FitsFrame(p: Kind, s: State, s': State, w: string)
    requires WellFormed(s) && WellFormed(s') && w in s.workers && w in s'.workers && StatusFits(p, s, w)
    requires s'.workers[w].status == s.workers[w].status
    requires forall id :: Active(s', w, id) <==> Active(s, w, id)
    requires forall id :: FinishedOn(s, id, w) ==> FinishedOn(s', id, w)
    ensures StatusFits(p, s', w)
  {
  }

  lemma PlacingActive(p: Kind, s: State, i: nat, w: string, now: Time, v: string, id: string)
    requires WellFormed(s) && Linked(s) && i < |s.pending| && Takes(p, s, i, Place(w, now)) && v in s.workers
    ensures var s', r := Assign(s, i, w, w, now), s.pending[i];
            && (Active(s', v, id) <==> Active(s, v, id) || (v == w && id == s.heap[r].id))
            && (id != s.heap[r].id && FinishedOn(s, id, v) ==> FinishedOn(s', id, v))
  {
    assert Enqueued(s, s.pending[i]);
    QueuedIsNotBooked(s, i, v);
    if id in s.tasks {
      assert s.tasks[id] == s.pending[i] <==> id == s.heap[s.pending[i]].id;
    }
  }

  lemma QueuedHasNotFinished(s: State, i: nat, v: string)
    requires WellFormed(s) && LiveTable(s) && i < |s.pending| && v in s.workers
    ensures !FinishedOn(s, s.heap[s.pending[i]].id, v)
  {
    assert Enqueued(s, s.pending[i]) && Waiting(s.heap[s.pending[i]]);
  }

  lemma PlacingKeepsFit(p: Kind, s: State, i: nat, w: string, now: Time, v: string)
    requires WellFormed(s) && LiveTable(s) && i < |s.pending| && Takes(p, s, i, Place(w, now))
    requires v in s.workers && StatusFits(p, s, v)
    ensures StatusFits(p, Assign(s, i, w, w, now), v)
  {
    var s', placed := Assign(s, i, w, w, now), s.heap[s.pending[i]].id;
    forall id
      ensures Active(s', v, id) <==> Active(s, v, id) || (v == w && id == placed)
      ensures id != placed && FinishedOn(s, id, v) ==> FinishedOn(s', id, v)
    {
      PlacingActive(p, s, i, w, now, v, id);
    }
    QueuedHasNotFinished(s, i, v);
    if v == w {
      assert Active(s', w, placed);
    } else {
      FitsFrame(p, s, s', v);
    }
  }

  lemma {:induction false} SweepKeepsFit(p: Kind, s: State, i: nat, ds: seq<Decision>)
    requires WellFormed(s) && LiveTable(s) && StatusesFit(p, s) && i <= |s.pending| && ValidSweep(p, s, i, ds)
    ensures LiveTable(Sweep(p, s, i, ds)) && StatusesFit(p, Sweep(p, s, i, ds))
    decreases |s.pending| - i
  {
    if i < |s.pending| {
      var (s', i') := Advance(p, s, i, ds[0]);
      if ds[0].Place? {
        var w, now := ds[0].worker, ds[0].now;
        forall v | v in s'.workers ensures StatusFits(p, s', v) {
          PlacingKeepsFit(p, s, i, w, now, v);
        }
        PlacingKeepsLinked(p, s, i, w, now);
        PlacingKeepsWaiting(p, s, i, w, now);
        PlacingKeepsHomed(p, s, i, w, now);
        PlacingKeepsNamed(p, s, i, w, now);
      }
      SweepKeepsFit(p, s', i', ds[1..]);
    }
  }

  lemma RegisteringKeepsFit(p: Kind, s: State, id: string, gpus: seq<GPU>, address: string)
    requires WellFormed(s) && StatusesFit(p, s) && id !in s.workers && |gpus| < 0x1_0000_0000
    ensures WellFormed(Registered(s, id, gpus, address)) && StatusesFit(p, Registered(s, id, gpus, address))
  {
    var s' := Registered(s, id, gpus, address);
    forall w | w in s'.workers ensures StatusFits(p, s', w) {
      if w != id {
        assert s'.workers[w] == s.workers[w];
        FitsFrame(p, s, s', w);
      }
    }
  }

  lemma SubmittingKeepsFit(p: Kind, s: State, t: Task)
    requires WellFormed(s) && LiveTable(s) && StatusesFit(p, s) && t.id !in s.tasks && Waiting(t)
    ensures StatusesFit(p, Submitted(s, NewTask(t)))
  {
    var s' := Submitted(s, NewTask(t));
    assert forall r :: 0 <= r < |s.heap| ==> s'.heap[r] == s.heap[r];
    forall w | w in s'.workers ensures StatusFits(p, s', w) {
      forall id ensures Active(s', w, id) <==> Active(s, w, id) {
        if id in s.workers[w].tasks {
          assert Known(s, s.workers[w], id);
        }
      }
      FitsFrame(p, s, s', w);
    }
  }

  // ---------------------------------------------------------------- reports

  /** What a report about an active task of worker `u.workerId` changes for worker `v`. */
  lemma ReportedActive(s: State, u: Update, v: string, id: string)
    requires WellFormed(s) && LiveTable(s) && LiveReport(s, u) && v in s.workers
    ensures var s' := Reported(s, u);
            && (Active(s', v, id) <==> Active(s, v, id) && !(u.status.Final() && id == u.taskId))
            && (FinishedOn(s, id, v) ==> FinishedOn(s', id, v))
            && (u.status.Final() ==> FinishedOn(s', u.taskId, u.workerId))
  {
    assert Known(s, s.workers[u.workerId], u.taskId);
    ReportedWorker(s, u, v);
    if id in s.tasks && id != u.taskId {
      ReportingSparesOthers(s, u, id);
    }
  }

  lemma ReportingKeepsOtherFit(p: Kind, s: State, u: Update, v: string)
    requires WellFormed(s) && LiveTable(s) && LiveReport(s, u) && v in s.workers && StatusFits(p, s, v)
    requires v != u.workerId || !u.status.Final()
    ensures StatusFits(p, Reported(s, u), v)
  {
    var s' := Reported(s, u);
    forall id
      ensures Active(s', v, id) <==> Active(s, v, id)
      ensures FinishedOn(s, id, v) ==> FinishedOn(s', id, v)
    {
      ReportedActive(s, u, v, id);
      assert Active(s, v, id) && id == u.taskId ==> v == u.workerId;
    }
    FitsFrame(p, s, s', v);
  }

  /** If a task is left in the books, either it is active, or it has finished as the reported one has. */
  lemma LeftInBooks(s: State, u: Update, c: string)
    requires WellFormed(s) && LiveTable(s) && LiveReport(s, u) && u.status.Final()
    requires c in Reported(s, u).workers[u.workerId].tasks
    ensures var s', w := Reported(s, u), u.workerId;
            Active(s', w, c) || (c != u.taskId && FinishedOn(s', c, w) && FinishedOn(s', u.taskId, w))
  {
    assert Known(s, s.workers[u.workerId], u.taskId);
    ReportedWorker(s, u, u.workerId);
    assert Known(s, s.workers[u.workerId], c);
    assert c != u.taskId;
    ReportingSparesOthers(s, u, c);
  }

  lemma ReportingKeepsOwnFit(p: Kind, s: State, u: Update)
    requires WellFormed(s) && LiveTable(s) && LiveReport(s, u) && u.status.Final() && StatusFits(p, s, u.workerId)
    ensures StatusFits(p, Reported(s, u), u.workerId)
  {
    var s', w := Reported(s, u), u.workerId;
    assert Known(s, s.workers[w], u.taskId);
    assert Active(s, w, u.taskId);
    forall id ensures Active(s', w, id) <==> Active(s, w, id) && id != u.taskId {
      ReportedActive(s, u, w, id);
    }
    if c :| c in s'.workers[w].tasks {
      assert |s'.workers[w].tasks| > 0;
      LeftInBooks(s, u, c);
    } else {
      assert s'.workers[w].tasks == map[];
    }
  }

  lemma ReportingKeepsFit(p: Kind, s: State, u: Update)
    requires WellFormed(s) && LiveTable(s) && StatusesFit(p, s) && LiveReport(s, u)
    ensures StatusesFit(p, Reported(s, u))
  {
    assert Reported(s, u).workers.Keys == s.workers.Keys;
    forall v | v in Reported(s, u).workers ensures StatusFits(p, Reported(s, u), v) {
      if v == u.workerId && u.status.Final() {
        ReportingKeepsOwnFit(p, s, u);
      } else {
        ReportingKeepsOtherFit(p, s, u, v);
      }
    }
  }

  lemma ReportKeepsFit(p: Kind, s: State, u: Update, ds: seq<Decision>)
    requires WellFormed(s) && LiveTable(s) && StatusesFit(p, s) && LegalReport(p, s, u, ds)
    requires Accepted(s, u) ==> LiveReport(s, u)
    ensures StatusesFit(p, AfterReport(p, s, u, ds))
  {
    if Accepted(s, u) {
      ReportingKeepsFit(p, s, u);
      ReportingKeepsLiveTable(s, u);
      if u.status.Final() {
        SweepKeepsFit(p, Reported(s, u), 0, ds);
      }
    }
  }

  // ---------------------------------------------------------------- restarts

  /** The books afterwards: the active tasks and those that have finished on the worker. */
  lemma ReloadedBooks(s: State, t: P.Trip, s': State, w: string, id: string)
    requires WellFormed(s) && LiveTable(s) && P.Reloads(s, t, s') && WellFormed(s') && w in s.workers
    ensures w in s'.workers && (id in s'.workers[w].tasks <==> Active(s, w, id) || FinishedOn(s, id, w))
    ensures Active(s', w, id) <==> Active(s, w, id)
    ensures FinishedOn(s', id, w) <==> FinishedOn(s, id, w)
  {
    BooksAfterReload(s, t, s', w);
    TaskRestored(s, t, s', id);
    if id in s.tasks {
      ReloadedTask(s, t, s', id);
      assert AtHome(s, id);
    }
  }

  lemma ReloadingKeepsFit(p: Kind, s: State, t: P.Trip, s': State)
    requires WellFormed(s) && LiveTable(s) && StatusesFit(p, s) && P.Reloads(s, t, s') && WellFormed(s')
    ensures StatusesFit(p, s')
  {
    GpusRestoredIffUnique(s, t, s');
    forall w | w in s'.workers ensures StatusFits(p, s', w) {
      forall id
        ensures Active(s', w, id) <==> Active(s, w, id)
        ensures FinishedOn(s', id, w) <==> FinishedOn(s, id, w)
      {
        ReloadedBooks(s, t, s', w, id);
      }
      FitsFrame(p, s, s', w);
    }
  }

  // ---------------------------------------------------------------- runs with restarts

  lemma RegisterKeepsFit(p: Kind, s: State, id: string, gpus: seq<GPU>, address: string, ds: seq<Decision>)
    requires WellFormed(s) && LiveTable(s) && StatusesFit(p, s) && LegalRegister(p, s, id, gpus, address, ds)
    ensures StatusesFit(p, AfterRegister(p, s, id, gpus, address, ds))
  {
    var wid := WorkerIdFor(id, |s.workers|);
    if wid !in s.workers {
      RegisteringKeepsFit(p, s, wid, gpus, address);
      RegisteringKeepsLiveTable(s, wid, gpus, address);
      SweepKeepsFit(p, Registered(s, wid, gpus, address), 0, ds);
    }
  }

  lemma CallKeepsFit(p: Kind, s: State, e: Event)
    requires Tidy(p, s) && LiveTable(s) && StatusesFit(p, s) && Legal(p, s, e) && LiveEvent(s, Call(e))
    ensures StatusesFit(p, Exec(p, s, e))
  {
    match e {
      case Register(id, gpus, address, ds) => RegisterKeepsFit(p, s, id, gpus, address, ds);
      case Submit(sub, ds) =>
        SubmittingKeepsFit(p, s, sub.task);
        SubmittingKeepsLiveTable(s, sub.task);
        SweepKeepsFit(p, Submitted(s, sub), 0, ds);
      case Report(u, ds) => ReportKeepsFit(p, s, u, ds);
      case Request(caller, chosen, now) => QuiescentRefuses(p, s, caller);
    }
  }

  lemma FitNext(p: Kind, ss: seq<State>, es: seq<LifeEvent>, bs: seq<Baseline>, n: nat)
    requires LiveRun(p, ss, es, bs) && 0 < n < |ss|
    requires Tidy(p, ss[n - 1]) && LiveTable(ss[n - 1]) && StatusesFit(p, ss[n - 1]) && WellFormed(ss[n])
    ensures StatusesFit(p, ss[n])
  {
    var s, e := ss[n - 1], es[n - 1];
    assert LiveStep(p, s, e, ss[n]);
    match e {
      case Call(c) => CallKeepsFit(p, s, c);
      case Reboot(t) => ReloadingKeepsFit(p, s, t, ss[n]);
    }
  }

  lemma {:induction false} AlwaysFit(p: Kind, ss: seq<State>, es: seq<LifeEvent>, bs: seq<Baseline>, n: nat)
    requires LiveRun(p, ss, es, bs) && n < |ss|
    ensures Tidy(p, ss[n]) && LiveTable(ss[n]) && StatusesFit(p, ss[n])
  {
    AlwaysLiveTable(p, ss, es, bs, n);
    if n > 0 {
      AlwaysFit(p, ss, es, bs, n - 1);
      FitNext(p, ss, es, bs, n);
    }
  }

  // ---------------------------------------------------------------- status agreement after a restart

  lemma TwoKeys(books: map<string, TaskRef>, a: string, b: string)
    requires a in books && b in books && a != b
    ensures |books| >= 2
  {
    SubsetSize({a, b}, books.Keys);
  }

  lemma AtMostOneKey(books: map<string, TaskRef>)
    requires forall a, b :: a in books && b in books ==> a == b
    ensures |books| <= 1
  {
    if |books| > 0 {
      var a :| a in books;
      assert books.Keys == {a};
    }
  }

  lemma AgreesWithoutFinished(p: Kind, s: State, s': State, w: string)
    requires WellFormed(s) && w in s.workers && StatusFits(p, s, w) && w in s'.workers
    requires s'.workers[w].status == s.workers[w].status
    requires forall id :: id in s'.workers[w].tasks <==> Active(s, w, id) || FinishedOn(s, id, w)
    requires forall id :: !FinishedOn(s, id, w)
    ensures WorkerAgrees(p, s'.workers[w])
  {
    var books := s'.workers[w].tasks;
    if s.workers[w].status == BUSY {
      var id :| Active(s, w, id);
      assert id in books && books != map[];
    } else {
      assert books == map[];
    }
    if p == Simple {
      AtMostOneKey(books);
    }
  }

  lemma AgreesWithFinished(p: Kind, s: State, s': State, w: string, f: string)
    requires WellFormed(s) && w in s.workers && StatusFits(p, s, w) && w in s'.workers
    requires s'.workers[w].status == s.workers[w].status
    requires forall id :: id in s'.workers[w].tasks <==> Active(s, w, id) || FinishedOn(s, id, w)
    requires FinishedOn(s, f, w)
    ensures WorkerAgrees(p, s'.workers[w]) <==> p == Balanced && s.workers[w].status == BUSY
  {
    var books := s'.workers[w].tasks;
    assert f in books && books != map[];
    if s.workers[w].status == BUSY {
      if id :| Active(s, w, id) {
        TwoKeys(books, f, id);
      } else {
        var a, b :| a != b && FinishedOn(s, a, w) && FinishedOn(s, b, w);
        TwoKeys(books, a, b);
      }
    }
  }

  /** Status agreement after a restart, from any state of a run with restarts in which workers report unfinished tasks
      they hold: a worker's status agrees with its books if and only if no task has finished on it, or the policy is
      the balanced one and it was BUSY. */
  lemma StatusSurvivesRestartIff(p: Kind, ss: seq<State>, es: seq<LifeEvent>, bs: seq<Baseline>, n: nat, t: P.Trip,
                                 s': State, w: string)
    requires LiveRun(p, ss, es, bs) && n < |ss| && w in ss[n].workers
    requires WellFormed(ss[n]) && P.Reloads(ss[n], t, s')
    ensures w in s'.workers
    ensures WorkerAgrees(p, s'.workers[w]) <==>
              (!exists id :: FinishedOn(ss[n], id, w)) || (p == Balanced && ss[n].workers[w].status == BUSY)
  {
    AlwaysFit(p, ss, es, bs, n);
    StatusAfterReload(p, ss[n], t, s', w);
  }

  lemma StatusAfterReload(p: Kind, s: State, t: P.Trip, s': State, w: string)
    requires Tidy(p, s) && LiveTable(s) && StatusesFit(p, s) && P.Reloads(s, t, s') && w in s.workers
    ensures w in s'.workers
    ensures WorkerAgrees(p, s'.workers[w]) <==>
              (!exists id :: FinishedOn(s, id, w)) || (p == Balanced && s.workers[w].status == BUSY)
  {
    RestartKeepsQuiescence(p, s, t, s');
    GpusRestoredIffUnique(s, t, s');
    forall id ensures id in s'.workers[w].tasks <==> Active(s, w, id) || FinishedOn(s, id, w) {
      ReloadedBooks(s, t, s', w, id);
    }
    if f :| FinishedOn(s, f, w) {
      AgreesWithFinished(p, s, s', w, f);
    } else {
      AgreesWithoutFinished(p, s, s', w);
    }
  }

  // ---------------------------------------------------------------- what follows a restart

  /** The task is in the worker's books, and the worker is BUSY if `busy` says so. */
  ghost predicate Kept(s: State, w: string, id: string, busy: bool) {
    w in s.workers && id in s.workers[w].tasks && (busy ==> s.workers[w].status == BUSY)
  }

  /** A final report about the task by that worker. */
  ghost predicate Drops(s: State, e: Event, w: string, id: string) {
    e.Report? && Accepted(s, e.update) && e.update.status.Final() && e.update.workerId == w && e.update.taskId == id
  }

  lemma {:induction false} SweepKeeps(p: Kind, s: State, i: nat, ds: seq<Decision>, w: string, id: string, busy: bool)
    requires WellFormed(s) && i <= |s.pending| && ValidSweep(p, s, i, ds) && Kept(s, w, id, busy)
    ensures Kept(Sweep(p, s, i, ds), w, id, busy)
    decreases |s.pending| - i
  {
    if i < |s.pending| {
      var (s', i') := Advance(p, s, i, ds[0]);
      SweepKeeps(p, s', i', ds[1..], w, id, busy);
    }
  }

  lemma ReportedKeeps(s: State, u: Update, w: string, id: string, busy: bool)
    requires WellFormed(s) && Accepted(s, u) && Kept(s, w, id, busy)
    requires !(u.status.Final() && u.workerId == w && u.taskId == id)
    ensures Kept(Reported(s, u), w, id, busy)
  {
    if u.status.Final() && u.workerId == w {
      assert id in s.workers[w].tasks - {u.taskId};
    }
  }

  lemma ReportKeeps(p: Kind, s: State, u: Update, ds: seq<Decision>, w: string, id: string, busy: bool)
    requires WellFormed(s) && LegalReport(p, s, u, ds) && Kept(s, w, id, busy) && !Drops(s, Report(u, ds), w, id)
    ensures Kept(AfterReport(p, s, u, ds), w, id, busy)
  {
    if Accepted(s, u) {
      ReportedKeeps(s, u, w, id, busy);
      if u.status.Final() {
        SweepKeeps(p, Reported(s, u), 0, ds, w, id, busy);
      }
    }
  }

  lemma StepKeeps(p: Kind, s: State, e: Event, s': State, w: string, id: string, busy: bool)
    requires Step(p, s, e, s') && Kept(s, w, id, busy) && !Drops(s, e, w, id)
    ensures Kept(s', w, id, busy)
  {
    match e {
      case Register(name, gpus, address, ds) =>
        var wid := WorkerIdFor(name, |s.workers|);
        if wid !in s.workers {
          SweepKeeps(p, Registered(s, wid, gpus, address), 0, ds, w, id, busy);
        }
      case Submit(sub, ds) => SweepKeeps(p, Submitted(s, sub), 0, ds, w, id, busy);
      case Report(u, ds) => ReportKeeps(p, s, u, ds, w, id, busy);
      case Request(caller, chosen, now) =>
    }
  }

  /** Any steps that do not report the task finished on that worker. */
  ghost predicate PathWithout(p: Kind, ss: seq<State>, es: seq<Event>, w: string, id: string) {
    && |ss| == |es| + 1
    && forall i {:trigger es[i]} :: 0 <= i < |es| ==> Step(p, ss[i], es[i], ss[i + 1]) && !Drops(ss[i], es[i], w, id)
  }

  lemma KeptNext(p: Kind, ss: seq<State>, es: seq<Event>, w: string, id: string, busy: bool, n: nat)
    requires PathWithout(p, ss, es, w, id) && 0 < n < |ss| && Kept(ss[n - 1], w, id, busy)
    ensures Kept(ss[n], w, id, busy)
  {
    assert Step(p, ss[n - 1], es[n - 1], ss[n]) && !Drops(ss[n - 1], es[n - 1], w, id);
    StepKeeps(p, ss[n - 1], es[n - 1], ss[n], w, id, busy);
  }

  lemma {:induction false} PathKeeps(p: Kind, ss: seq<State>, es: seq<Event>, w: string, id: string, busy: bool, m: nat,
                                     n: nat)
    requires PathWithout(p, ss, es, w, id) && m <= n < |ss| && Kept(ss[m], w, id, busy)
    ensures Kept(ss[n], w, id, busy)
    decreases n - m
  {
    if m < n {
      PathKeeps(p, ss, es, w, id, busy, m, n - 1);
      KeptNext(p, ss, es, w, id, busy, n);
    }
  }

  /** A task that had finished on a worker before a restart stays in that worker's books until it is reported again;
      so once the worker is BUSY, at the restart or later, it stays BUSY even when its last running task ends, and the
      simple policy gives it no task. */
  lemma FinishedTaskBlocksWorker(p: Kind, s: State, t: P.Trip, ss: seq<State>, es: seq<Event>, w: string, id: string,
                                 m: nat, n: nat, task: Task)
    requires WellFormed(s) && w in s.workers && w != "" && FinishedOn(s, id, w)
    requires PathWithout(p, ss, es, w, id) && P.Reloads(s, t, ss[0]) && m <= n < |ss|
    ensures w in ss[m].workers && w in ss[n].workers && id in ss[n].workers[w].tasks
    ensures ss[m].workers[w].status == BUSY ==>
              ss[n].workers[w].status == BUSY && !Candidate(Simple, ss[n].workers[w], task)
  {
    BooksAfterReload(s, t, ss[0], w);
    PathKeeps(p, ss, es, w, id, false, 0, m);
    PathKeeps(p, ss, es, w, id, false, m, n);
    if ss[m].workers[w].status == BUSY {
      PathKeeps(p, ss, es, w, id, true, m, n);
    }
  }

  /** A worker's status comes back, so one that was BUSY at the restart is blocked from the start. */
  lemma BusyComesBack(s: State, t: P.Trip, s': State, w: string)
    requires WellFormed(s) && P.Reloads(s, t, s') && w in s.workers && s.workers[w].status == BUSY
    ensures w in s'.workers && s'.workers[w].status == BUSY
  {
    GpusRestoredIffUnique(s, t, s');
  }
}
