/** Runs with restarts in which workers report only unfinished tasks they hold: the unfinished tasks of a worker
    hold disjoint GPUs, restart after restart.  With GPU ids unique in the cluster they also keep their GPUs. */
module LiveRestart {
  import opened Cluster
  import opened Policy
  import opened Scheduling
  import opened Quiescence
  import opened Books
  import opened Exclusion
  import opened Honest
  import opened Claims
  import opened Restart
  import opened Life
  import opened LifeExclusion
  import opened LiveBooks
  import P = Persistence

  // ---------------------------------------------------------------- the reloaded table

  lemma QueuedIsPending(s: State, id: string)
    requires WellFormed(s) && Linked(s) && AllWaiting(s) && Queued(s, id) && id in s.tasks
    ensures s.heap[s.tasks[id]].status == PENDING
  {
    var k :| 0 <= k < |s.pending| && s.heap[s.pending[k]].id == id;
    assert Enqueued(s, s.pending[k]) && Waiting(s.heap[s.pending[k]]);
  }

  /** The task under another pointer, with its GPU list in another order. */
  ghost predicate SameGrant(t: Task, t': Task) {
    SameRequest(t, t') && t'.workerId == t.workerId && multiset(t'.gpuIds) == multiset(t.gpuIds)
  }

  /** A reloaded task is as it was, except for pointer, list order, clock and metrics: queued tasks were PENDING. */
  lemma ReloadedTask(s: State, t: P.Trip, s': State, id: string)
    requires WellFormed(s) && Linked(s) && AllWaiting(s) && P.Reloads(s, t, s') && id in s.tasks
    ensures id in s'.tasks && s'.tasks[id] < |s'.heap|
    ensures var a, b := s.heap[s.tasks[id]], s'.heap[s'.tasks[id]];
            SameGrant(a, b) && b.status == a.status && b.id == id
  {
    TaskRestored(s, t, s', id);
    if Queued(s, id) {
      QueuedIsPending(s, id);
    }
  }

  lemma ReloadedAtHome(s: State, t: P.Trip, s': State, id: string)
    requires WellFormed(s) && LiveTable(s) && P.Reloads(s, t, s') && WellFormed(s')
    requires s'.workers.Keys == s.workers.Keys && id in s'.tasks
    ensures AtHome(s', id)
  {
    TaskRestored(s, t, s', id);
    ReloadedTask(s, t, s', id);
    assert AtHome(s, id);
    var w := s'.heap[s'.tasks[id]].workerId;
    if w in s'.workers {
      BooksAfterReload(s, t, s', w);
    }
  }

  lemma ReloadedEntryWaits(s: State, t: P.Trip, s': State, r: TaskRef)
    requires WellFormed(s) && Linked(s) && AllWaiting(s) && P.Reloads(s, t, s') && BackInQueue(s, s', r)
    ensures Waiting(s'.heap[r])
  {
    var id := s'.heap[r].id;
    var k :| 0 <= k < |s.pending| && s.pending[k] == s.tasks[id];
    assert Waiting(s.heap[s.pending[k]]);
    ReloadedTask(s, t, s', id);
    SameMembers(s'.heap[r].gpuIds, s.heap[s.tasks[id]].gpuIds, "");
  }

  lemma HomedIsNotQueued(s: State, r: TaskRef)
    requires WellFormed(s) && AllWaiting(s) && r < |s.heap| && s.heap[r].workerId != ""
    ensures r !in s.pending
  {
    assert forall k :: 0 <= k < |s.pending| ==> Waiting(s.heap[s.pending[k]]);
  }

  lemma ReloadedBookEntry(s: State, t: P.Trip, s': State, w: string, id: string)
    requires WellFormed(s) && LiveTable(s) && P.Reloads(s, t, s') && TidyBooks(s') && AllWaiting(s')
    requires w in s.workers && w in s'.workers && id in s'.workers[w].tasks
    ensures Known(s', s'.workers[w], id) && s'.heap[s'.tasks[id]].workerId == w
  {
    BooksAfterReload(s, t, s', w);
    ReloadedTask(s, t, s', id);
    HomedIsNotQueued(s', s'.tasks[id]);
  }

  lemma ReloadedLiveTable(s: State, t: P.Trip, s': State)
    requires WellFormed(s) && LiveTable(s) && TidyBooks(s) && P.Reloads(s, t, s')
    ensures WellFormed(s') && TidyBooks(s') && LiveTable(s')
  {
    ReloadedBooksTidy(s, t, s');
    GpusRestoredIffUnique(s, t, s');
    forall k | 0 <= k < |s'.pending| ensures Waiting(s'.heap[s'.pending[k]]) {
      ReloadedEntryWaits(s, t, s', s'.pending[k]);
    }
    forall w, id | w in s'.workers && id in s'.workers[w].tasks
      ensures Known(s', s'.workers[w], id) && s'.heap[s'.tasks[id]].workerId == w
    {
      ReloadedBookEntry(s, t, s', w, id);
    }
    forall id | id in s'.tasks ensures AtHome(s', id) {
      ReloadedAtHome(s, t, s', id);
    }
  }

  lemma ReloadedLiveTask(s: State, t: P.Trip, s': State, w: string, id: string)
    requires WellFormed(s) && LiveTable(s) && P.Reloads(s, t, s') && WellFormed(s') && LiveTable(s')
    requires w in s.workers && w in s'.workers && RefsIn(s.workers[w], s.heap) && RefsIn(s'.workers[w], s'.heap)
    ensures id in Live(s'.workers[w], s'.heap).tasks <==> id in Live(s.workers[w], s.heap).tasks
    ensures id in Live(s.workers[w], s.heap).tasks ==>
              id in s.tasks && id in s'.tasks && SameGrant(s.heap[s.tasks[id]], s'.heap[s'.tasks[id]])
  {
    BooksAfterReload(s, t, s', w);
    if id in s.workers[w].tasks {
      assert Known(s, s.workers[w], id);
    }
    if id in s.tasks {
      ReloadedTask(s, t, s', id);
      assert AtHome(s, id);
    }
  }

  /** The unfinished tasks in the worker's books are the same, each with the GPUs it was given. */
  ghost predicate SameLive(s: State, s': State, w: string)
    requires WellFormed(s) && WellFormed(s') && w in s.workers && w in s'.workers
  {
    && RefsIn(s.workers[w], s.heap) && RefsIn(s'.workers[w], s'.heap)
    && Live(s'.workers[w], s'.heap).tasks.Keys == Live(s.workers[w], s.heap).tasks.Keys
    && forall id :: id in Live(s.workers[w], s.heap).tasks ==>
         id in s.tasks && id in s'.tasks && SameGrant(s.heap[s.tasks[id]], s'.heap[s'.tasks[id]])
  }

  lemma SameKeys(a: map<string, TaskRef>, b: map<string, TaskRef>)
    requires forall id :: id in b <==> id in a
    ensures b.Keys == a.Keys
  {
  }

  lemma ReloadedLive(s: State, t: P.Trip, s': State, w: string)
    requires WellFormed(s) && LiveTable(s) && P.Reloads(s, t, s') && WellFormed(s') && LiveTable(s')
    requires w in s.workers && w in s'.workers
    ensures SameLive(s, s', w)
  {
    LiveIsUse(s, w, "", "");
    LiveIsUse(s', w, "", "");
    forall id
      ensures id in Live(s'.workers[w], s'.heap).tasks <==> id in Live(s.workers[w], s.heap).tasks
      ensures id in Live(s.workers[w], s.heap).tasks ==>
                id in s.tasks && id in s'.tasks && SameGrant(s.heap[s.tasks[id]], s'.heap[s'.tasks[id]])
    {
      ReloadedLiveTask(s, t, s', w, id);
    }
    SameKeys(Live(s.workers[w], s.heap).tasks, Live(s'.workers[w], s'.heap).tasks);
  }

  /** A restart leaves every unfinished task in the books of its worker, with the GPUs it was given, and availability
      exact; the GPUs themselves all come back if and only if their ids are unique in the cluster. */
  lemma RestartKeepsLiveInv(s: State, base: Baseline, t: P.Trip, s': State)
    requires UseInv(s, base) && LiveTable(s) && TidyBooks(s) && P.Reloads(s, t, s')
    ensures UseInv(s', base) && LiveTable(s') && s'.workers.Keys == s.workers.Keys
    ensures forall w :: w in s.workers ==> SameLive(s, s', w)
    ensures SameGpus(s, s') <==> GloballyUnique(s)
  {
    ReloadKeepsUseInv(s, base, t, s');
    ReloadedLiveTable(s, t, s');
    GpusRestoredIffUnique(s, t, s');
    forall w | w in s.workers ensures SameLive(s, s', w) {
      ReloadedLive(s, t, s', w);
    }
  }

  // ---------------------------------------------------------------- runs

  /** What clients send: fresh names, clean submissions, and reports only about unfinished tasks that the reporting
      worker holds (or reports that are rejected). */
  ghost predicate LiveEvent(s: State, e: LifeEvent)
    requires WellFormed(s)
  {
    e.Call? ==>
      && Fresh(s, e.event)
      && match e.event
         case Register(_, _, _, _) => true
         case Submit(sub, _) => Waiting(sub.task)
         case Report(u, _) => Accepted(s, u) ==> LiveReport(s, u)
         case Request(_, _, _) => true
  }

  ghost predicate LiveStep(p: Kind, s: State, e: LifeEvent, s': State) {
    LifeStep(p, s, e, s') && LiveEvent(s, e)
  }

  /** A run with restarts, and the baselines that go with its states. */
  ghost predicate LiveRun(p: Kind, ss: seq<State>, es: seq<LifeEvent>, bs: seq<Baseline>) {
    && |ss| == |bs| == |es| + 1 && Initial(ss[0]) && bs[0] == map[]
    && forall i {:trigger es[i]} :: 0 <= i < |es| ==>
         LiveStep(p, ss[i], es[i], ss[i + 1]) && bs[i + 1] == NextLifeBaseline(ss[i], es[i], bs[i])
  }

  lemma RegisterKeepsLiveTable(p: Kind, s: State, id: string, gpus: seq<GPU>, address: string, ds: seq<Decision>)
    requires WellFormed(s) && LiveTable(s) && LegalRegister(p, s, id, gpus, address, ds)
    ensures LiveTable(AfterRegister(p, s, id, gpus, address, ds))
  {
    var wid := WorkerIdFor(id, |s.workers|);
    if wid !in s.workers {
      RegisteringKeepsLiveTable(s, wid, gpus, address);
      SweepKeepsLiveTable(p, Registered(s, wid, gpus, address), 0, ds);
    }
  }

  lemma ReportKeepsLiveTable(p: Kind, s: State, u: Update, ds: seq<Decision>)
    requires WellFormed(s) && LiveTable(s) && LegalReport(p, s, u, ds) && (Accepted(s, u) ==> LiveReport(s, u))
    ensures LiveTable(AfterReport(p, s, u, ds))
  {
    if Accepted(s, u) {
      ReportingKeepsLiveTable(s, u);
      if u.status.Final() {
        SweepKeepsLiveTable(p, Reported(s, u), 0, ds);
      }
    }
  }

  lemma CallKeepsLiveTable(p: Kind, s: State, e: Event)
    requires Tidy(p, s) && LiveTable(s) && Legal(p, s, e) && LiveEvent(s, Call(e))
    ensures LiveTable(Exec(p, s, e))
  {
    match e {
      case Register(id, gpus, address, ds) => RegisterKeepsLiveTable(p, s, id, gpus, address, ds);
      case Submit(sub, ds) =>
        SubmittingKeepsLiveTable(s, sub.task);
        SweepKeepsLiveTable(p, Submitted(s, sub), 0, ds);
      case Report(u, ds) => ReportKeepsLiveTable(p, s, u, ds);
      case Request(caller, chosen, now) => QuiescentRefuses(p, s, caller);
    }
  }

  /** What clients send is tidy and safe. */
  lemma LiveEventIsSafe(s: State, e: LifeEvent)
    requires WellFormed(s) && LiveTable(s) && LiveEvent(s, e)
    ensures TidyEvent(s, e) && HomelessEvent(e) && SafeEvent(s, e)
  {
    if e.Call? && e.event.Report? && Accepted(s, e.event.update) {
      LiveReportIsSafe(s, e.event.update);
    }
  }

  lemma LiveStepKeepsTable(p: Kind, s: State, e: LifeEvent, s': State)
    requires Tidy(p, s) && LiveTable(s) && LiveStep(p, s, e, s')
    ensures Tidy(p, s') && LiveTable(s')
  {
    LiveEventIsSafe(s, e);
    LifeStepKeepsTidy(p, s, e, s');
    match e {
      case Call(c) => CallKeepsLiveTable(p, s, c);
      case Reboot(t) => ReloadedLiveTable(s, t, s');
    }
  }

  lemma LiveNext(p: Kind, ss: seq<State>, es: seq<LifeEvent>, bs: seq<Baseline>, n: nat)
    requires LiveRun(p, ss, es, bs) && 0 < n < |ss| && Tidy(p, ss[n - 1]) && LiveTable(ss[n - 1])
    ensures Tidy(p, ss[n]) && LiveTable(ss[n])
  {
    assert LiveStep(p, ss[n - 1], es[n - 1], ss[n]);
    LiveStepKeepsTable(p, ss[n - 1], es[n - 1], ss[n]);
  }

  lemma {:induction false} AlwaysLiveTable(p: Kind, ss: seq<State>, es: seq<LifeEvent>, bs: seq<Baseline>, n: nat)
    requires LiveRun(p, ss, es, bs) && n < |ss|
    ensures Tidy(p, ss[n]) && LiveTable(ss[n])
  {
    if n > 0 {
      AlwaysLiveTable(p, ss, es, bs, n - 1);
      LiveNext(p, ss, es, bs, n);
    }
  }

  lemma LiveStepAt(p: Kind, ss: seq<State>, es: seq<LifeEvent>, bs: seq<Baseline>, i: nat)
    requires LiveRun(p, ss, es, bs) && i < |es|
    ensures LifeStep(p, ss[i], es[i], ss[i + 1]) && TidyEvent(ss[i], es[i]) && HomelessEvent(es[i])
    ensures SafeEvent(ss[i], es[i]) && bs[i + 1] == NextLifeBaseline(ss[i], es[i], bs[i])
  {
    AlwaysLiveTable(p, ss, es, bs, i);
    assert LiveStep(p, ss[i], es[i], ss[i + 1]);
    LiveEventIsSafe(ss[i], es[i]);
  }

  /** Such runs are runs of the general kind in which every report is safe. */
  lemma LiveRunIsSafe(p: Kind, ss: seq<State>, es: seq<LifeEvent>, bs: seq<Baseline>)
    requires LiveRun(p, ss, es, bs)
    ensures LifeRun(p, ss, es, bs) && AllSafe(ss, es, |es|)
  {
    forall i {:trigger es[i]} | 0 <= i < |es|
      ensures LifeStep(p, ss[i], es[i], ss[i + 1]) && TidyEvent(ss[i], es[i]) && HomelessEvent(es[i])
      ensures SafeEvent(ss[i], es[i]) && bs[i + 1] == NextLifeBaseline(ss[i], es[i], bs[i])
    {
      LiveStepAt(p, ss, es, bs, i);
    }
  }

  /** Exclusion over restarts, wherever GPU ids repeat in the cluster: in every state of such a run two unfinished
      tasks in one worker's books share no GPU, and a GPU is available exactly when it was registered available and
      no unfinished task there holds it. */
  lemma LiveExclusion(p: Kind, ss: seq<State>, es: seq<LifeEvent>, bs: seq<Baseline>, n: nat, w: string)
    requires LiveRun(p, ss, es, bs) && n < |ss| && w in ss[n].workers
    ensures w in bs[n] && RefsIn(ss[n].workers[w], ss[n].heap)
    ensures Exclusive(Live(ss[n].workers[w], ss[n].heap), ss[n].heap, bs[n][w])
  {
    LiveRunIsSafe(p, ss, es, bs);
    SafeRunsStayApart(p, ss, es, bs, n);
    AlwaysLiveTable(p, ss, es, bs, n);
    assert UsedApart(ss[n], w, bs[n][w]);
    ApartIsExclusive(ss[n], w, bs[n][w]);
  }
}
