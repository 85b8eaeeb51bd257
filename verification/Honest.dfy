/** Results about honest runs, in which workers report only what they hold: exclusion, the partition of
    tasks, and conservation. */
module Honest {
  import opened Cluster
  import opened Policy
  import opened Scheduling
  import opened Quiescence
  import opened Books
  import opened Exclusion

  // ---------------------------------------------------------------- honest runs

  /** A task as it is submitted and as it stays until it is placed. */
  ghost predicate Waiting(t: Task) {
    t.status == PENDING && t.workerId == "" && t.gpuIds == []
  }

  /** What well-behaved clients send: fresh clean submissions, distinct GPU ids per worker, and
      reports only about tasks that the reporting worker holds (or reports that are rejected). */
  ghost predicate HonestEvent(s: State, e: Event) {
    && Fresh(s, e)
    && match e
       case Register(_, _, _, _) => true
       case Submit(sub, _) => Waiting(sub.task)
       case Report(u, _) => Accepted(s, u) ==> u.taskId in s.workers[u.workerId].tasks
       case Request(_, _, _) => true
  }

  ghost predicate HonestBehavior(p: Kind, ss: seq<State>, es: seq<Event>, bs: seq<Baseline>) {
    && Behavior(p, ss, es) && Tracks(ss, es, bs)
    && forall i {:trigger es[i]} :: 0 <= i < |es| ==> HonestEvent(ss[i], es[i])
  }

  // ---------------------------------------------------------------- the invariant

  ghost predicate Running(s: State, id: string)
    requires WellFormed(s) && id in s.tasks
  {
    var w := s.heap[s.tasks[id]].workerId;
    w in s.workers && id in s.workers[w].tasks
  }

  ghost predicate Finished(s: State, id: string)
    requires WellFormed(s)
  {
    id in s.tasks && s.heap[s.tasks[id]].status.Final()
  }

  ghost predicate AllWaiting(s: State)
    requires WellFormed(s)
  {
    forall k :: 0 <= k < |s.pending| ==> Waiting(s.heap[s.pending[k]])
  }

  /** No task in a worker's books is finished. */
  ghost predicate Unfinished(s: State)
    requires WellFormed(s)
  {
    forall w, id :: w in s.workers && id in s.workers[w].tasks ==> !Finished(s, id)
  }

  /** Every known task is queued, in the books of its worker, or finished. */
  ghost predicate Accounted(s: State)
    requires WellFormed(s)
  {
    forall id :: id in s.tasks ==> s.tasks[id] in s.pending || Running(s, id) || Finished(s, id)
  }

  ghost predicate TableInOrder(s: State)
    requires WellFormed(s)
  {
    Linked(s) && AllWaiting(s) && Unfinished(s) && Accounted(s)
  }

  ghost function InFlight(workers: map<string, Worker>): set<(string, string)> {
    set w, id | w in workers && id in workers[w].tasks :: (w, id)
  }

  ghost predicate Conserved(s: State) {
    s.metrics.Some? ==>
      var c := s.metrics.value;
      c.total == |s.pending| + |InFlight(s.workers)| + c.completed + c.failed
  }

  ghost predicate HonestInv(s: State, base: Baseline) {
    CarefulInv(s, base) && TableInOrder(s) && Conserved(s)
  }

  // ---------------------------------------------------------------- placing a task

  lemma PlacingKeepsWaiting(p: Kind, s: State, i: nat, w: string, now: Time)
    requires WellFormed(s) && Linked(s) && AllWaiting(s) && i < |s.pending| && Takes(p, s, i, Place(w, now))
    ensures AllWaiting(Assign(s, i, w, w, now))
  {
    var s' := Assign(s, i, w, w, now);
    forall k | 0 <= k < |s'.pending| ensures Waiting(s'.heap[s'.pending[k]]) {
      var j := if k < i then k else k + 1;
      assert s'.pending[k] == s.pending[j] && s.pending[j] != s.pending[i];
    }
  }

  lemma PlacingKeepsUnfinished(p: Kind, s: State, i: nat, w: string, now: Time)
    requires WellFormed(s) && Linked(s) && Unfinished(s) && i < |s.pending| && Takes(p, s, i, Place(w, now))
    ensures Unfinished(Assign(s, i, w, w, now))
  {
    var s' := Assign(s, i, w, w, now);
    assert Enqueued(s, s.pending[i]);
    forall v, id | v in s'.workers && id in s'.workers[v].tasks ensures !Finished(s', id) {
      if v != w || id != s.heap[s.pending[i]].id {
        assert Known(s, s.workers[v], id) && !Finished(s, id);
      }
    }
  }

  lemma PlacingKeepsAccount(p: Kind, s: State, i: nat, w: string, now: Time)
    requires WellFormed(s) && Linked(s) && Accounted(s) && i < |s.pending| && Takes(p, s, i, Place(w, now))
    ensures Accounted(Assign(s, i, w, w, now))
  {
    var s' := Assign(s, i, w, w, now);
    PlacingKeepsQueue(p, s, i, w, now);
    assert Enqueued(s, s.pending[i]);
    forall id | id in s'.tasks ensures s'.tasks[id] in s'.pending || Running(s', id) || Finished(s', id) {
      if s.tasks[id] == s.pending[i] {
        assert s.heap[s.pending[i]].id == id && Running(s', id);
      } else {
        assert s'.heap[s.tasks[id]] == s.heap[s.tasks[id]];
      }
    }
  }

  lemma {:induction false} SweepKeepsTableInOrder(p: Kind, s: State, i: nat, ds: seq<Decision>)
    requires WellFormed(s) && TableInOrder(s) && i <= |s.pending| && ValidSweep(p, s, i, ds)
    ensures TableInOrder(Sweep(p, s, i, ds))
    decreases |s.pending| - i
  {
    if i < |s.pending| {
      var (s', i') := Advance(p, s, i, ds[0]);
      if ds[0].Place? {
        var w, now := ds[0].worker, ds[0].now;
        PlacingKeepsLinked(p, s, i, w, now);
        PlacingKeepsWaiting(p, s, i, w, now);
        PlacingKeepsUnfinished(p, s, i, w, now);
        PlacingKeepsAccount(p, s, i, w, now);
      }
      SweepKeepsTableInOrder(p, s', i', ds[1..]);
    }
  }

  // ---------------------------------------------------------------- counting

  lemma InFlightGains(workers: map<string, Worker>, w: string, after: Worker, id: string)
    requires w in workers && id !in workers[w].tasks && after.tasks.Keys == workers[w].tasks.Keys + {id}
    ensures |InFlight(workers[w := after])| == |InFlight(workers)| + 1
  {
    assert forall v, a :: (v, a) in InFlight(workers[w := after])
                          <==> (v, a) in InFlight(workers) || (v == w && a == id);
    assert InFlight(workers[w := after]) == InFlight(workers) + {(w, id)};
  }

  lemma InFlightLoses(workers: map<string, Worker>, w: string, after: Worker, id: string)
    requires w in workers && id in workers[w].tasks && after.tasks.Keys == workers[w].tasks.Keys - {id}
    ensures |InFlight(workers[w := after])| == |InFlight(workers)| - 1
  {
    assert forall v, a :: (v, a) in InFlight(workers[w := after])
                          <==> (v, a) in InFlight(workers) && !(v == w && a == id);
    assert InFlight(workers[w := after]) == InFlight(workers) - {(w, id)};
  }

  /** A sweep moves tasks from the queue to the books, one for one. */
  lemma {:induction false} SweepKeepsLoad(p: Kind, s: State, i: nat, ds: seq<Decision>)
    requires WellFormed(s) && Linked(s) && i <= |s.pending| && ValidSweep(p, s, i, ds)
    ensures var s' := Sweep(p, s, i, ds);
            && s'.metrics == s.metrics
            && |s'.pending| + |InFlight(s'.workers)| == |s.pending| + |InFlight(s.workers)|
    decreases |s.pending| - i
  {
    if i < |s.pending| {
      var (s', i') := Advance(p, s, i, ds[0]);
      if ds[0].Place? {
        var w := ds[0].worker;
        QueuedIsNotBooked(s, i, w);
        InFlightGains(s.workers, w, s'.workers[w], s.heap[s.pending[i]].id);
        PlacingKeepsLinked(p, s, i, w, ds[0].now);
      }
      SweepKeepsLoad(p, s', i', ds[1..]);
    }
  }

  lemma SweepKeepsHonestInv(p: Kind, s: State, ds: seq<Decision>, base: Baseline)
    requires HonestInv(s, base) && ValidSweep(p, s, 0, ds)
    ensures HonestInv(Sweep(p, s, 0, ds), base)
  {
    SweepKeepsCarefulInv(p, s, 0, ds, base);
    SweepKeepsTableInOrder(p, s, 0, ds);
    SweepKeepsLoad(p, s, 0, ds);
  }

  // ---------------------------------------------------------------- registration and submission

  lemma RegisteringKeepsAccount(s: State, id: string, gpus: seq<GPU>, address: string)
    requires WellFormed(s) && Accounted(s) && id !in s.workers && |gpus| < 0x1_0000_0000
    ensures WellFormed(Registered(s, id, gpus, address)) && Accounted(Registered(s, id, gpus, address))
  {
    var s' := Registered(s, id, gpus, address);
    forall t | t in s'.tasks ensures s'.tasks[t] in s'.pending || Running(s', t) || Finished(s', t) {
      assert Running(s, t) ==> Running(s', t);
    }
  }

  lemma RegisteringKeepsUnfinished(s: State, id: string, gpus: seq<GPU>, address: string)
    requires WellFormed(s) && Unfinished(s) && id !in s.workers && |gpus| < 0x1_0000_0000
    ensures WellFormed(Registered(s, id, gpus, address)) && Unfinished(Registered(s, id, gpus, address))
  {
    var s' := Registered(s, id, gpus, address);
    forall w, t | w in s'.workers && t in s'.workers[w].tasks ensures !Finished(s', t) {
      assert w in s.workers && !Finished(s, t);
    }
  }

  lemma RegisteringKeepsInFlight(s: State, id: string, gpus: seq<GPU>, address: string)
    requires id !in s.workers
    ensures InFlight(Registered(s, id, gpus, address).workers) == InFlight(s.workers)
  {
    assert forall w :: w in s.workers ==> Registered(s, id, gpus, address).workers[w] == s.workers[w];
  }

  lemma RegisteringKeepsHonestInv(s: State, id: string, gpus: seq<GPU>, address: string, base: Baseline)
    requires HonestInv(s, base) && id !in s.workers && DistinctIds(gpus) && |gpus| < 0x1_0000_0000
    ensures HonestInv(Registered(s, id, gpus, address), base[id := FreeIds(gpus)])
  {
    RegisteringKeepsCarefulInv(s, id, gpus, address, base);
    RegisteringKeepsAccount(s, id, gpus, address);
    RegisteringKeepsUnfinished(s, id, gpus, address);
    RegisteringKeepsInFlight(s, id, gpus, address);
  }

  lemma SubmittingKeepsAccount(s: State, t: Task)
    requires WellFormed(s) && Accounted(s) && t.id !in s.tasks
    ensures Accounted(Submitted(s, NewTask(t)))
  {
    var s' := Submitted(s, NewTask(t));
    assert s'.pending[|s.pending|] == |s.heap|;
    forall id | id in s'.tasks ensures s'.tasks[id] in s'.pending || Running(s', id) || Finished(s', id) {
      if id != t.id {
        assert s.tasks[id] in s.pending || Running(s, id) || Finished(s, id);
        assert s'.heap[s.tasks[id]] == s.heap[s.tasks[id]];
      }
    }
  }

  lemma SubmittingKeepsTable(s: State, t: Task)
    requires WellFormed(s) && TableInOrder(s) && t.id !in s.tasks && Waiting(t)
    ensures TableInOrder(Submitted(s, NewTask(t)))
  {
    var s' := Submitted(s, NewTask(t));
    SubmittingKeepsLinked(s, t);
    SubmittingKeepsAccount(s, t);
    forall w, id | w in s'.workers && id in s'.workers[w].tasks ensures !Finished(s', id) {
      assert Known(s, s.workers[w], id) && !Finished(s, id);
    }
  }

  lemma SubmittingKeepsHonestInv(s: State, t: Task, base: Baseline)
    requires HonestInv(s, base) && t.id !in s.tasks && Waiting(t)
    ensures HonestInv(Submitted(s, NewTask(t)), base)
  {
    SubmittingKeepsCarefulInv(s, t, base);
    SubmittingKeepsTable(s, t);
  }

  // ---------------------------------------------------------------- reports

  ghost predicate HonestReport(s: State, u: Update) {
    Accepted(s, u) && u.taskId in s.workers[u.workerId].tasks
  }

  /** A task is in the books of one worker only. */
  lemma OneBookPerTask(s: State, base: Baseline, id: string, v: string, w: string)
    requires CarefulInv(s, base) && v in s.workers && w in s.workers && id in s.workers[v].tasks
    ensures s.tasks[id] < |s.heap| && s.heap[s.tasks[id]].workerId == v
    ensures id in s.workers[w].tasks ==> v == w
  {
    assert Known(s, s.workers[v], id);
    assert Booked(v, s.workers[v], s.heap[s.tasks[id]], id, base[v]);
    if id in s.workers[w].tasks {
      assert Known(s, s.workers[w], id);
      assert Booked(w, s.workers[w], s.heap[s.tasks[id]], id, base[w]);
    }
  }

  /** A report leaves every other task where it is. */
  lemma ReportingSparesOthers(s: State, u: Update, id: string)
    requires WellFormed(s) && Linked(s) && Accepted(s, u) && id in s.tasks && id != u.taskId
    ensures Reported(s, u).heap[s.tasks[id]] == s.heap[s.tasks[id]]
    ensures Running(Reported(s, u), id) <==> Running(s, id)
  {
    assert s.tasks[id] != s.tasks[u.taskId];
  }

  lemma ReportingKeepsAccount(s: State, u: Update, base: Baseline)
    requires HonestInv(s, base) && HonestReport(s, u)
    ensures Accounted(Reported(s, u))
  {
    var s' := Reported(s, u);
    OneBookPerTask(s, base, u.taskId, u.workerId, u.workerId);
    forall id | id in s'.tasks ensures s'.tasks[id] in s'.pending || Running(s', id) || Finished(s', id) {
      if id != u.taskId {
        ReportingSparesOthers(s, u, id);
      }
    }
  }

  lemma StillUnfinished(s: State, u: Update, base: Baseline, v: string, id: string)
    requires HonestInv(s, base) && HonestReport(s, u)
    requires v in Reported(s, u).workers && id in Reported(s, u).workers[v].tasks
    ensures !Finished(Reported(s, u), id)
  {
    ReportedWorker(s, u, v);
    assert Known(s, s.workers[v], id) && !Finished(s, id);
    if id != u.taskId {
      ReportingSparesOthers(s, u, id);
    } else {
      OneBookPerTask(s, base, id, v, u.workerId);
    }
  }

  lemma ReportingKeepsUnfinished(s: State, u: Update, base: Baseline)
    requires HonestInv(s, base) && HonestReport(s, u)
    ensures Unfinished(Reported(s, u))
  {
    var s' := Reported(s, u);
    forall v, id | v in s'.workers && id in s'.workers[v].tasks ensures !Finished(s', id) {
      StillUnfinished(s, u, base, v, id);
    }
  }

  lemma ReportingKeepsWaiting(s: State, u: Update)
    requires WellFormed(s) && Linked(s) && AllWaiting(s) && HonestReport(s, u)
    ensures AllWaiting(Reported(s, u))
  {
    var s' := Reported(s, u);
    assert Known(s, s.workers[u.workerId], u.taskId);
    forall k | 0 <= k < |s'.pending| ensures Waiting(s'.heap[s'.pending[k]]) {
      assert s.pending[k] in s.pending;
    }
  }

  lemma ReportingKeepsCount(s: State, u: Update)
    requires WellFormed(s) && Conserved(s) && HonestReport(s, u)
    ensures Conserved(Reported(s, u))
  {
    if u.status.Final() {
      var after := Reported(s, u).workers[u.workerId];
      InFlightLoses(s.workers, u.workerId, after, u.taskId);
    }
  }

  lemma ReportingKeepsHonestInv(s: State, u: Update, base: Baseline)
    requires HonestInv(s, base) && HonestReport(s, u)
    ensures HonestInv(Reported(s, u), base)
  {
    ReportingKeepsCarefulInv(s, u, base);
    ReportingKeepsWaiting(s, u);
    ReportingKeepsUnfinished(s, u, base);
    ReportingKeepsAccount(s, u, base);
    ReportingKeepsCount(s, u);
  }

  // ---------------------------------------------------------------- every honest step

  lemma RegisterKeepsHonestInv(p: Kind, s: State, id: string, gpus: seq<GPU>, address: string, ds: seq<Decision>,
                               base: Baseline)
    requires HonestInv(s, base) && LegalRegister(p, s, id, gpus, address, ds) && DistinctIds(gpus)
    ensures HonestInv(AfterRegister(p, s, id, gpus, address, ds),
                      NextBaseline(s, Register(id, gpus, address, ds), base))
  {
    var wid := WorkerIdFor(id, |s.workers|);
    if wid !in s.workers {
      RegisteringKeepsHonestInv(s, wid, gpus, address, base);
      SweepKeepsHonestInv(p, Registered(s, wid, gpus, address), ds, base[wid := FreeIds(gpus)]);
    }
  }

  lemma ReportKeepsHonestInv(p: Kind, s: State, u: Update, ds: seq<Decision>, base: Baseline)
    requires HonestInv(s, base) && LegalReport(p, s, u, ds) && (Accepted(s, u) ==> HonestReport(s, u))
    ensures HonestInv(AfterReport(p, s, u, ds), base)
  {
    if Accepted(s, u) {
      ReportingKeepsHonestInv(s, u, base);
      if u.status.Final() {
        SweepKeepsHonestInv(p, Reported(s, u), ds, base);
      }
    }
  }

  lemma HonestStepKeepsInv(p: Kind, s: State, e: Event, s': State, base: Baseline)
    requires Step(p, s, e, s') && Inv(p, s) && HonestInv(s, base) && HonestEvent(s, e)
    ensures HonestInv(s', NextBaseline(s, e, base))
  {
    match e {
      case Register(id, gpus, address, ds) =>
        RegisterKeepsHonestInv(p, s, id, gpus, address, ds, base);
      case Submit(sub, ds) =>
        SubmittingKeepsHonestInv(s, sub.task, base);
        SweepKeepsHonestInv(p, Submitted(s, sub), ds, base);
      case Report(u, ds) =>
        ReportKeepsHonestInv(p, s, u, ds, base);
      case Request(caller, chosen, now) =>
        QuiescentRefuses(p, s, caller);
    }
  }

  lemma HonestNext(p: Kind, ss: seq<State>, es: seq<Event>, bs: seq<Baseline>, n: nat)
    requires HonestBehavior(p, ss, es, bs) && 0 < n < |ss| && Inv(p, ss[n - 1]) && HonestInv(ss[n - 1], bs[n - 1])
    ensures HonestInv(ss[n], bs[n])
  {
    assert Step(p, ss[n - 1], es[n - 1], ss[n]) && HonestEvent(ss[n - 1], es[n - 1]);
    HonestStepKeepsInv(p, ss[n - 1], es[n - 1], ss[n], bs[n - 1]);
  }

  lemma {:induction false} AlwaysHonestInv(p: Kind, ss: seq<State>, es: seq<Event>, bs: seq<Baseline>, n: nat)
    requires HonestBehavior(p, ss, es, bs) && n < |ss|
    ensures Inv(p, ss[n]) && HonestInv(ss[n], bs[n])
  {
    AlwaysQuiescent(p, ss, es, n);
    if n > 0 {
      AlwaysHonestInv(p, ss, es, bs, n - 1);
      HonestNext(p, ss, es, bs, n);
    }
  }

  // ---------------------------------------------------------------- results over honest runs

  /** GPU mutual exclusion: in every state of every honest run, under either policy, two tasks in one
      worker's books share no GPU, and a GPU is available exactly when it was registered available
      and no task in the books holds it. */
  lemma MutualExclusion(p: Kind, ss: seq<State>, es: seq<Event>, bs: seq<Baseline>, n: nat)
    requires HonestBehavior(p, ss, es, bs) && n < |ss|
    ensures ExclusiveAll(ss[n], bs[n])
  {
    AlwaysHonestInv(p, ss, es, bs, n);
    InOrderIsExclusive(ss[n], bs[n]);
  }

  /** The task is in exactly one place: in the queue, in the books of its worker, or finished. */
  ghost predicate InOnePlace(s: State, id: string)
    requires WellFormed(s) && id in s.tasks
  {
    var queued, running, finished := s.tasks[id] in s.pending, Running(s, id), Finished(s, id);
    (queued || running || finished) && !(queued && running) && !(queued && finished) && !(running && finished)
  }

  ghost predicate Partitioned(s: State)
    requires WellFormed(s)
  {
    NoDuplicates(s.pending) && forall id :: id in s.tasks ==> InOnePlace(s, id)
  }

  lemma TableIsPartitioned(s: State)
    requires WellFormed(s) && TableInOrder(s)
    ensures Partitioned(s)
  {
    forall id | id in s.tasks ensures InOnePlace(s, id) {
      assert s.tasks[id] in s.pending || Running(s, id) || Finished(s, id);
      if Running(s, id) {
        assert Known(s, s.workers[s.heap[s.tasks[id]].workerId], id);
      }
    }
  }

  /** Partition: every known task is in exactly one place: in the queue (once), in the books of one
      worker, or finished. */
  lemma TaskPartition(p: Kind, ss: seq<State>, es: seq<Event>, bs: seq<Baseline>, n: nat)
    requires HonestBehavior(p, ss, es, bs) && n < |ss|
    ensures WellFormed(ss[n]) && Partitioned(ss[n])
    ensures forall w, id :: w in ss[n].workers && id in ss[n].workers[w].tasks ==>
              id in ss[n].tasks && ss[n].tasks[id] < |ss[n].heap| && ss[n].heap[ss[n].tasks[id]].workerId == w
  {
    AlwaysHonestInv(p, ss, es, bs, n);
    TableIsPartitioned(ss[n]);
    forall w, id | w in ss[n].workers && id in ss[n].workers[w].tasks
      ensures id in ss[n].tasks && ss[n].tasks[id] < |ss[n].heap| && ss[n].heap[ss[n].tasks[id]].workerId == w
    {
      assert Known(ss[n], ss[n].workers[w], id);
      OneBookPerTask(ss[n], bs[n], id, w, w);
    }
  }

  /** Conservation: submitted = queued + in flight + completed + failed, after every call. */
  lemma Conservation(p: Kind, ss: seq<State>, es: seq<Event>, bs: seq<Baseline>, n: nat)
    requires HonestBehavior(p, ss, es, bs) && n < |ss| && ss[n].metrics.Some?
    ensures var c := ss[n].metrics.value;
            c.total == |ss[n].pending| + |InFlight(ss[n].workers)| + c.completed + c.failed
  {
    AlwaysHonestInv(p, ss, es, bs, n);
  }
}
