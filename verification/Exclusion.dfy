/** GPU exclusion and exact availability: a report is careful when it frees nothing that is in use, and a
    run keeps exclusion exactly as long as its reports are careful. */
module Exclusion {
  import opened Cluster
  import opened Policy
  import opened Scheduling
  import opened Quiescence
  import opened Books

  // ---------------------------------------------------------------- runs with fresh names

  /** Task ids are fresh and the GPUs of one worker are named apart; reports and requests are arbitrary. */
  ghost predicate Fresh(s: State, e: Event) {
    match e
    case Register(_, gpus, _, _) => DistinctIds(gpus)
    case Submit(sub, _) => sub.NewTask? && sub.task.id !in s.tasks
    case Report(_, _) => true
    case Request(_, _, _) => true
  }

  ghost function NextBaseline(s: State, e: Event, base: Baseline): Baseline {
    if e.Register? && WorkerIdFor(e.id, |s.workers|) !in s.workers
    then base[WorkerIdFor(e.id, |s.workers|) := FreeIds(e.gpus)]
    else base
  }

  /** `bs` lists the baselines that go with the states. */
  ghost predicate Tracks(ss: seq<State>, es: seq<Event>, bs: seq<Baseline>) {
    && |ss| == |bs| == |es| + 1 && bs[0] == map[]
    && forall i {:trigger es[i]} :: 0 <= i < |es| ==> bs[i + 1] == NextBaseline(ss[i], es[i], bs[i])
  }

  lemma {:induction false} BaselinesExist(ss: seq<State>, es: seq<Event>) returns (bs: seq<Baseline>)
    requires |ss| == |es| + 1
    ensures Tracks(ss, es, bs)
  {
    if es == [] {
      bs := [map[]];
    } else {
      var last := |es| - 1;
      var front := BaselinesExist(ss[..|es|], es[..last]);
      bs := front + [NextBaseline(ss[last], es[last], front[last])];
      assert forall i :: 0 <= i < last ==> es[..last][i] == es[i];
    }
  }

  ghost predicate FreshBehavior(p: Kind, ss: seq<State>, es: seq<Event>, bs: seq<Baseline>) {
    && Behavior(p, ss, es) && Tracks(ss, es, bs)
    && forall i {:trigger es[i]} :: 0 <= i < |es| ==> Fresh(ss[i], es[i])
  }

  /** Every GPU of the worker that the list names is free. */
  ghost predicate GivenFree(w: Worker, given: seq<string>) {
    forall i :: 0 <= i < |w.gpus| && w.gpus[i].id in given ==> w.gpus[i].available
  }

  /** If the report ends a task, the reporting worker holds it, or every GPU of that worker that the task
      was ever given is free. */
  ghost predicate CarefulReport(s: State, u: Update)
    requires WellFormed(s)
  {
    Accepted(s, u) && u.status.Final() ==>
      var w := s.workers[u.workerId];
      u.taskId in w.tasks || GivenFree(w, s.heap[s.tasks[u.taskId]].gpuIds)
  }

  ghost predicate Careful(s: State, e: Event) {
    WellFormed(s) && (e.Report? ==> CarefulReport(s, e.update))
  }

  // ---------------------------------------------------------------- exclusion and the invariant behind it

  /** No GPU is held twice, and one is available exactly when it was at registration and nobody holds it. */
  ghost predicate Exclusive(w: Worker, heap: seq<Task>, base: set<string>) {
    && RefsIn(w, heap) && Disjoint(w, heap) && Exact(w, heap, base)
    && forall x :: Held(w, heap, x) ==> x in base
  }

  ghost predicate ExclusiveAll(s: State, base: Baseline) {
    && base.Keys == s.workers.Keys
    && forall w :: w in s.workers ==> Exclusive(s.workers[w], s.heap, base[w])
  }

  ghost predicate WorkersInOrder(s: State, base: Baseline) {
    && base.Keys == s.workers.Keys
    && forall w :: w in s.workers ==> BooksInOrder(w, s.workers[w], s.heap, base[w])
  }

  ghost predicate IdsAgree(s: State)
    requires WellFormed(s)
  {
    forall id :: id in s.tasks ==> s.heap[s.tasks[id]].id == id
  }

  /** The pointer is the one the task table has under the id of its task. */
  ghost predicate Enqueued(s: State, r: TaskRef) {
    r < |s.heap| && s.heap[r].id in s.tasks && s.tasks[s.heap[r].id] == r
  }

  /** The queue holds known tasks, each once. */
  ghost predicate QueueKnown(s: State) {
    NoDuplicates(s.pending) && forall k :: 0 <= k < |s.pending| ==> Enqueued(s, s.pending[k])
  }

  /** A task in a worker's books is the known task of that id, and it is not queued. */
  ghost predicate Known(s: State, w: Worker, id: string)
    requires id in w.tasks
  {
    id in s.tasks && w.tasks[id] == s.tasks[id] && s.tasks[id] !in s.pending
  }

  ghost predicate BooksKnown(s: State) {
    forall w, id :: w in s.workers && id in s.workers[w].tasks ==> Known(s, s.workers[w], id)
  }

  ghost predicate Linked(s: State)
    requires WellFormed(s)
  {
    IdsAgree(s) && QueueKnown(s) && BooksKnown(s)
  }

  ghost predicate CarefulInv(s: State, base: Baseline) {
    WellFormed(s) && WorkersInOrder(s, base) && Linked(s)
  }

  lemma InOrderIsExclusive(s: State, base: Baseline)
    requires WorkersInOrder(s, base)
    ensures ExclusiveAll(s, base)
  {
    forall w | w in s.workers ensures Exclusive(s.workers[w], s.heap, base[w]) {
      var b := s.workers[w];
      assert BooksInOrder(w, b, s.heap, base[w]);
      assert forall id :: id in b.tasks ==> Booked(w, b, s.heap[b.tasks[id]], id, base[w]);
    }
  }

  // ---------------------------------------------------------------- placing a task

  lemma RemovedFromQueue(q: seq<TaskRef>, i: nat)
    requires i < |q| && NoDuplicates(q)
    ensures NoDuplicates(q[..i] + q[i + 1..])
    ensures forall x :: x in q[..i] + q[i + 1..] <==> x in q && x != q[i]
  {
    var q' := q[..i] + q[i + 1..];
    forall x | x in q && x != q[i] ensures x in q' {
      var k :| 0 <= k < |q| && q[k] == x;
      assert x == if k < i then q'[k] else q'[k - 1];
    }
  }

  lemma QueuedIsNotBooked(s: State, i: nat, v: string)
    requires WellFormed(s) && Linked(s) && i < |s.pending| && v in s.workers
    ensures s.heap[s.pending[i]].id !in s.workers[v].tasks
    ensures forall a :: a in s.workers[v].tasks ==> s.workers[v].tasks[a] != s.pending[i]
  {
    var b := s.workers[v];
    assert Enqueued(s, s.pending[i]) && s.pending[i] in s.pending;
    forall a | a in b.tasks ensures b.tasks[a] != s.pending[i] {
      assert Known(s, b, a);
    }
    assert forall a :: a in b.tasks ==> Known(s, b, a);
  }

  /** What a placement is for a worker: the chosen one takes the task over, the others keep their tasks. */
  lemma PlacingTakesOver(p: Kind, s: State, i: nat, w: string, now: Time, v: string)
    requires WellFormed(s) && Linked(s) && i < |s.pending| && Takes(p, s, i, Place(w, now)) && v in s.workers
    ensures var s' := Assign(s, i, w, w, now);
            && TakesOver(s.workers[v], s.heap, s'.heap, s.pending[i], s.heap[s.pending[i]].id)
            && v in s'.workers && s'.workers[v] ==
              if v == w then Hosting(s.workers[w], s.heap[s.pending[i]].id, s.pending[i], s'.heap[s.pending[i]].gpuIds)
              else s.workers[v]
  {
    QueuedIsNotBooked(s, i, v);
    assert forall a :: a in s.workers[v].tasks ==> Known(s, s.workers[v], a);
  }

  lemma PlacingKeepsBooks(p: Kind, s: State, i: nat, w: string, now: Time, base: Baseline, v: string)
    requires CarefulInv(s, base) && i < |s.pending| && Takes(p, s, i, Place(w, now)) && v in s.workers
    ensures BooksInOrder(v, Assign(s, i, w, w, now).workers[v], Assign(s, i, w, w, now).heap, base[v])
  {
    var r := s.pending[i];
    var heap' := Assign(s, i, w, w, now).heap;
    PlacingTakesOver(p, s, i, w, now, v);
    if v == w {
      HostingKeepsBooks(w, s.workers[w], s.heap, heap', base[w], r, s.heap[r].id);
    } else {
      BooksFrame(v, s.workers[v], s.heap, heap', base[v]);
    }
  }

  lemma PlacingKeepsWorkers(p: Kind, s: State, i: nat, w: string, now: Time, base: Baseline)
    requires CarefulInv(s, base) && i < |s.pending| && Takes(p, s, i, Place(w, now))
    ensures WorkersInOrder(Assign(s, i, w, w, now), base)
  {
    var s' := Assign(s, i, w, w, now);
    assert s'.workers.Keys == s.workers.Keys;
    forall v | v in s'.workers ensures BooksInOrder(v, s'.workers[v], s'.heap, base[v]) {
      PlacingKeepsBooks(p, s, i, w, now, base, v);
    }
  }

  lemma PlacingKeepsQueue(p: Kind, s: State, i: nat, w: string, now: Time)
    requires WellFormed(s) && QueueKnown(s) && i < |s.pending| && Takes(p, s, i, Place(w, now))
    ensures QueueKnown(Assign(s, i, w, w, now))
    ensures forall x :: x in Assign(s, i, w, w, now).pending <==> x in s.pending && x != s.pending[i]
  {
    var s' := Assign(s, i, w, w, now);
    RemovedFromQueue(s.pending, i);
    forall k | 0 <= k < |s'.pending| ensures Enqueued(s', s'.pending[k]) {
      assert s'.pending[k] in s.pending && s'.pending[k] != s.pending[i];
      assert Enqueued(s, s'.pending[k]);
    }
  }

  lemma PlacingKeepsKnown(p: Kind, s: State, i: nat, w: string, now: Time)
    requires WellFormed(s) && QueueKnown(s) && BooksKnown(s) && i < |s.pending| && Takes(p, s, i, Place(w, now))
    ensures BooksKnown(Assign(s, i, w, w, now))
  {
    var s' := Assign(s, i, w, w, now);
    PlacingKeepsQueue(p, s, i, w, now);
    assert Enqueued(s, s.pending[i]);
    forall v, id | v in s'.workers && id in s'.workers[v].tasks ensures Known(s', s'.workers[v], id) {
      if v != w || id != s.heap[s.pending[i]].id {
        assert Known(s, s.workers[v], id);
      }
    }
  }

  lemma PlacingKeepsLinked(p: Kind, s: State, i: nat, w: string, now: Time)
    requires WellFormed(s) && Linked(s) && i < |s.pending| && Takes(p, s, i, Place(w, now))
    ensures Linked(Assign(s, i, w, w, now))
  {
    PlacingKeepsQueue(p, s, i, w, now);
    PlacingKeepsKnown(p, s, i, w, now);
    assert IdsAgree(Assign(s, i, w, w, now));
  }

  lemma {:induction false} SweepKeepsCarefulInv(p: Kind, s: State, i: nat, ds: seq<Decision>, base: Baseline)
    requires CarefulInv(s, base) && i <= |s.pending| && ValidSweep(p, s, i, ds)
    ensures CarefulInv(Sweep(p, s, i, ds), base)
    decreases |s.pending| - i
  {
    if i < |s.pending| {
      var (s', i') := Advance(p, s, i, ds[0]);
      if ds[0].Place? {
        PlacingKeepsWorkers(p, s, i, ds[0].worker, ds[0].now, base);
        PlacingKeepsLinked(p, s, i, ds[0].worker, ds[0].now);
      }
      SweepKeepsCarefulInv(p, s', i', ds[1..], base);
    }
  }

  // ---------------------------------------------------------------- registration and submission

  lemma RegisteringKeepsLinked(s: State, id: string, gpus: seq<GPU>, address: string)
    requires WellFormed(s) && Linked(s) && id !in s.workers && |gpus| < 0x1_0000_0000
    ensures WellFormed(Registered(s, id, gpus, address)) && Linked(Registered(s, id, gpus, address))
  {
    var s' := Registered(s, id, gpus, address);
    assert forall k :: 0 <= k < |s'.pending| ==> Enqueued(s, s'.pending[k]);
    forall w, t | w in s'.workers && t in s'.workers[w].tasks ensures Known(s', s'.workers[w], t) {
      assert w in s.workers && Known(s, s.workers[w], t);
    }
  }

  lemma RegisteringKeepsCarefulInv(s: State, id: string, gpus: seq<GPU>, address: string, base: Baseline)
    requires CarefulInv(s, base) && id !in s.workers && DistinctIds(gpus) && |gpus| < 0x1_0000_0000
    ensures CarefulInv(Registered(s, id, gpus, address), base[id := FreeIds(gpus)])
  {
    NewBooks(id, gpus, address, s.heap);
    RegisteringKeepsLinked(s, id, gpus, address);
    assert forall w :: w in s.workers ==> Registered(s, id, gpus, address).workers[w] == s.workers[w];
  }

  lemma SubmittingKeepsLinked(s: State, t: Task)
    requires WellFormed(s) && Linked(s) && t.id !in s.tasks
    ensures Linked(Submitted(s, NewTask(t)))
  {
    var s' := Submitted(s, NewTask(t));
    assert forall x :: x in s'.pending <==> x in s.pending || x == |s.heap|;
    assert forall x :: 0 <= x < |s.heap| ==> s'.heap[x] == s.heap[x];
    forall k | 0 <= k < |s'.pending| ensures Enqueued(s', s'.pending[k]) {
      assert k < |s.pending| ==> Enqueued(s, s.pending[k]);
    }
    forall w, id | w in s'.workers && id in s'.workers[w].tasks ensures Known(s', s'.workers[w], id) {
      assert Known(s, s.workers[w], id);
    }
  }

  lemma SubmittingKeepsCarefulInv(s: State, t: Task, base: Baseline)
    requires CarefulInv(s, base) && t.id !in s.tasks
    ensures CarefulInv(Submitted(s, NewTask(t)), base)
  {
    var s' := Submitted(s, NewTask(t));
    SubmittingKeepsLinked(s, t);
    forall w | w in s'.workers ensures BooksInOrder(w, s'.workers[w], s'.heap, base[w]) {
      assert BooksInOrder(w, s.workers[w], s.heap, base[w]);
      BooksFrame(w, s.workers[w], s.heap, s'.heap, base[w]);
    }
  }

  // ---------------------------------------------------------------- reports

  /** Reports change no worker's devices and add nothing to its books. */
  lemma ReportedWorker(s: State, u: Update, v: string)
    requires WellFormed(s) && Accepted(s, u) && v in s.workers
    ensures var w, w' := s.workers[v], Reported(s, u).workers[v];
            && SameDevices(w.gpus, w'.gpus)
            && forall id :: id in w'.tasks ==> id in w.tasks && w'.tasks[id] == w.tasks[id]
  {
  }

  /** Reports never disturb the pointers. */
  lemma ReportingKeepsLinked(s: State, u: Update)
    requires WellFormed(s) && Linked(s) && Accepted(s, u)
    ensures Linked(Reported(s, u))
  {
    var s' := Reported(s, u);
    forall k | 0 <= k < |s'.pending| ensures Enqueued(s', s'.pending[k]) {
      assert Enqueued(s, s.pending[k]);
    }
    forall v, id | v in s'.workers && id in s'.workers[v].tasks ensures Known(s', s'.workers[v], id) {
      assert Known(s, s.workers[v], id);
    }
  }

  /** A worker's books refer to the reported task only under its own id. */
  lemma ReportedIsBookedOnce(s: State, u: Update, v: string, id: string)
    requires WellFormed(s) && Linked(s) && Accepted(s, u) && v in s.workers && id in s.workers[v].tasks
    ensures s.workers[v].tasks[id] == s.tasks[u.taskId] <==> id == u.taskId
  {
    assert Known(s, s.workers[v], id);
  }

  /** The worker releases a task it holds. */
  lemma HeldReportKeepsBooks(s: State, u: Update, base: Baseline)
    requires CarefulInv(s, base) && Accepted(s, u) && u.status.Final() && u.taskId in s.workers[u.workerId].tasks
    ensures BooksInOrder(u.workerId, Reported(s, u).workers[u.workerId], Reported(s, u).heap, base[u.workerId])
  {
    var heap', r, b := Reported(s, u).heap, s.tasks[u.taskId], s.workers[u.workerId];
    forall id | id in b.tasks ensures b.tasks[id] == r <==> id == u.taskId {
      ReportedIsBookedOnce(s, u, u.workerId, id);
    }
    ReleasingKeepsBooks(u.workerId, b, s.heap, heap', base[u.workerId], u.taskId, heap'[r]);
  }

  /** A final report about a task the worker does not hold: the tasks stay, the named GPUs become free. */
  lemma StrayReportFrees(s: State, u: Update)
    requires WellFormed(s) && Accepted(s, u) && u.status.Final() && u.taskId !in s.workers[u.workerId].tasks
    ensures var w, w' := s.workers[u.workerId], Reported(s, u).workers[u.workerId];
            var given := s.heap[s.tasks[u.taskId]].gpuIds;
            w'.tasks == w.tasks && w'.gpus == Marked(w.gpus, given, true)
  {
    var w := s.workers[u.workerId];
    assert w.tasks - {u.taskId} == w.tasks;
  }

  /** Noting a status does not matter to any books. */
  lemma NotingKeepsBooks(s: State, u: Update, base: Baseline, v: string)
    requires CarefulInv(s, base) && Accepted(s, u) && v in s.workers
    ensures BooksInOrder(v, s.workers[v], Reported(s, u).heap, base[v])
  {
    BooksFrame(v, s.workers[v], s.heap, Reported(s, u).heap, base[v]);
  }

  lemma ReportingKeepsBooks(s: State, u: Update, base: Baseline, v: string)
    requires CarefulInv(s, base) && Accepted(s, u) && CarefulReport(s, u) && v in s.workers
    ensures BooksInOrder(v, Reported(s, u).workers[v], Reported(s, u).heap, base[v])
  {
    NotingKeepsBooks(s, u, base, v);
    if v == u.workerId && u.status.Final() {
      if u.taskId in s.workers[v].tasks {
        HeldReportKeepsBooks(s, u, base);
      } else {
        StrayReportFrees(s, u);
        SameBooks(v, s.workers[v], Reported(s, u).workers[v], Reported(s, u).heap, base[v]);
      }
    }
  }

  /** The status of a worker does not matter to its books. */
  lemma SameBooks(name: string, w: Worker, w': Worker, heap: seq<Task>, base: set<string>)
    requires BooksInOrder(name, w, heap, base) && w'.tasks == w.tasks && w'.gpus == w.gpus
    ensures BooksInOrder(name, w', heap, base)
  {
    assert forall x :: Held(w', heap, x) <==> Held(w, heap, x);
    forall id | id in w'.tasks ensures Booked(name, w', heap[w'.tasks[id]], id, base) {
      assert Booked(name, w, heap[w.tasks[id]], id, base);
      assert forall x :: Suits(w, heap[w.tasks[id]], x) <==> Suits(w', heap[w.tasks[id]], x);
    }
  }

  lemma ReportingKeepsWorkers(s: State, u: Update, base: Baseline)
    requires CarefulInv(s, base) && Accepted(s, u) && CarefulReport(s, u)
    ensures WorkersInOrder(Reported(s, u), base)
  {
    var s' := Reported(s, u);
    assert s'.workers.Keys == s.workers.Keys;
    forall v | v in s'.workers ensures BooksInOrder(v, s'.workers[v], s'.heap, base[v]) {
      ReportingKeepsBooks(s, u, base, v);
    }
  }

  lemma ReportingKeepsCarefulInv(s: State, u: Update, base: Baseline)
    requires CarefulInv(s, base) && Accepted(s, u) && CarefulReport(s, u)
    ensures CarefulInv(Reported(s, u), base)
  {
    ReportingKeepsLinked(s, u);
    ReportingKeepsWorkers(s, u, base);
  }

  // ---------------------------------------------------------------- every careful step

  lemma RegisterKeepsCarefulInv(p: Kind, s: State, id: string, gpus: seq<GPU>, address: string, ds: seq<Decision>,
                                base: Baseline)
    requires CarefulInv(s, base) && LegalRegister(p, s, id, gpus, address, ds) && DistinctIds(gpus)
    ensures CarefulInv(AfterRegister(p, s, id, gpus, address, ds),
                       NextBaseline(s, Register(id, gpus, address, ds), base))
  {
    var wid := WorkerIdFor(id, |s.workers|);
    if wid !in s.workers {
      RegisteringKeepsCarefulInv(s, wid, gpus, address, base);
      SweepKeepsCarefulInv(p, Registered(s, wid, gpus, address), 0, ds, base[wid := FreeIds(gpus)]);
    }
  }

  lemma ReportKeepsCarefulInv(p: Kind, s: State, u: Update, ds: seq<Decision>, base: Baseline)
    requires CarefulInv(s, base) && LegalReport(p, s, u, ds) && CarefulReport(s, u)
    ensures CarefulInv(AfterReport(p, s, u, ds), base)
  {
    if Accepted(s, u) {
      ReportingKeepsCarefulInv(s, u, base);
      if u.status.Final() {
        SweepKeepsCarefulInv(p, Reported(s, u), 0, ds, base);
      }
    }
  }

  lemma StepKeepsCarefulInv(p: Kind, s: State, e: Event, s': State, base: Baseline)
    requires Step(p, s, e, s') && Inv(p, s) && CarefulInv(s, base) && Fresh(s, e) && Careful(s, e)
    ensures CarefulInv(s', NextBaseline(s, e, base))
  {
    match e {
      case Register(id, gpus, address, ds) =>
        RegisterKeepsCarefulInv(p, s, id, gpus, address, ds, base);
      case Submit(sub, ds) =>
        SubmittingKeepsCarefulInv(s, sub.task, base);
        SweepKeepsCarefulInv(p, Submitted(s, sub), 0, ds, base);
      case Report(u, ds) =>
        ReportKeepsCarefulInv(p, s, u, ds, base);
      case Request(caller, chosen, now) =>
        QuiescentRefuses(p, s, caller);
    }
  }

  lemma CarefulNext(p: Kind, ss: seq<State>, es: seq<Event>, bs: seq<Baseline>, n: nat)
    requires FreshBehavior(p, ss, es, bs) && 0 < n < |ss| && Careful(ss[n - 1], es[n - 1])
    requires Inv(p, ss[n - 1]) && CarefulInv(ss[n - 1], bs[n - 1])
    ensures CarefulInv(ss[n], bs[n])
  {
    assert Step(p, ss[n - 1], es[n - 1], ss[n]) && Fresh(ss[n - 1], es[n - 1]);
    StepKeepsCarefulInv(p, ss[n - 1], es[n - 1], ss[n], bs[n - 1]);
  }

  lemma {:induction false} AlwaysCarefulInv(p: Kind, ss: seq<State>, es: seq<Event>, bs: seq<Baseline>, n: nat)
    requires FreshBehavior(p, ss, es, bs) && n < |ss|
    requires forall i {:trigger Careful(ss[i], es[i])} :: 0 <= i < n ==> Careful(ss[i], es[i])
    ensures Inv(p, ss[n]) && CarefulInv(ss[n], bs[n])
  {
    AlwaysQuiescent(p, ss, es, n);
    if n > 0 {
      AlwaysCarefulInv(p, ss, es, bs, n - 1);
      assert Careful(ss[n - 1], es[n - 1]);
      CarefulNext(p, ss, es, bs, n);
    }
  }

  // ---------------------------------------------------------------- what a careless report spoils

  ghost predicate FreeAt(w: Worker, x: string) {
    exists i :: 0 <= i < |w.gpus| && w.gpus[i].id == x && w.gpus[i].available
  }

  /** Two tasks in the books hold the GPU. */
  ghost predicate Doubled(w: Worker, heap: seq<Task>, x: string)
    requires RefsIn(w, heap)
  {
    exists a, b ::
      a in w.tasks && b in w.tasks && a != b && x in heap[w.tasks[a]].gpuIds && x in heap[w.tasks[b]].gpuIds
  }

  /** The GPU is offered although a task holds it, or two tasks hold it already. */
  ghost predicate Exposed(w: Worker, heap: seq<Task>, x: string) {
    RefsIn(w, heap) && ((FreeAt(w, x) && Held(w, heap, x)) || Doubled(w, heap, x))
  }

  /** The GPU is in circulation although it was not available at registration. */
  ghost predicate Stray(w: Worker, heap: seq<Task>, base: set<string>, x: string) {
    RefsIn(w, heap) && x !in base && (FreeAt(w, x) || Held(w, heap, x))
  }

  lemma HostingKeepsFree(w: Worker, id: string, r: TaskRef, ids: seq<string>, x: string)
    requires FreeAt(w, x) && x !in ids
    ensures FreeAt(Hosting(w, id, r, ids), x)
  {
    var i :| 0 <= i < |w.gpus| && w.gpus[i].id == x && w.gpus[i].available;
    assert Hosting(w, id, r, ids).gpus[i] == w.gpus[i];
  }

  lemma HostingKeepsExposed(w: Worker, heap: seq<Task>, heap': seq<Task>, r: TaskRef, id: string, x: string)
    requires TakesOver(w, heap, heap', r, id) && Exposed(w, heap, x)
    ensures Exposed(Hosting(w, id, r, heap'[r].gpuIds), heap', x)
  {
    var ids := heap'[r].gpuIds;
    var w' := Hosting(w, id, r, ids);
    HostingHolds(w, heap, heap', r, id, x);
    if Doubled(w, heap, x) {
      var a, b :| a in w.tasks && b in w.tasks && a != b
                  && x in heap[w.tasks[a]].gpuIds && x in heap[w.tasks[b]].gpuIds;
      assert a in w'.tasks && b in w'.tasks && x in heap'[w'.tasks[a]].gpuIds && x in heap'[w'.tasks[b]].gpuIds;
    } else if x in ids {
      var a :| a in w.tasks && x in heap[w.tasks[a]].gpuIds;
      assert a in w'.tasks && id in w'.tasks && x in heap'[w'.tasks[a]].gpuIds && x in heap'[w'.tasks[id]].gpuIds;
    } else {
      HostingKeepsFree(w, id, r, ids, x);
    }
  }

  lemma HostingKeepsStray(w: Worker, heap: seq<Task>, heap': seq<Task>, r: TaskRef, id: string, base: set<string>,
                          x: string)
    requires TakesOver(w, heap, heap', r, id) && Stray(w, heap, base, x)
    ensures Stray(Hosting(w, id, r, heap'[r].gpuIds), heap', base, x)
  {
    HostingHolds(w, heap, heap', r, id, x);
    if x !in heap'[r].gpuIds && FreeAt(w, x) {
      HostingKeepsFree(w, id, r, heap'[r].gpuIds, x);
    }
  }

  /** What concerns only the GPU lists of a worker's tasks survives changes to other tasks. */
  lemma OthersKeepState(w: Worker, heap: seq<Task>, heap': seq<Task>, base: set<string>, x: string)
    requires RefsIn(w, heap) && RefsIn(w, heap')
    requires forall a :: a in w.tasks ==> heap'[w.tasks[a]].gpuIds == heap[w.tasks[a]].gpuIds
    ensures Exposed(w, heap, x) <==> Exposed(w, heap', x)
    ensures Stray(w, heap, base, x) <==> Stray(w, heap', base, x)
  {
    assert Held(w, heap, x) <==> Held(w, heap', x);
    assert Doubled(w, heap, x) <==> Doubled(w, heap', x);
  }

  lemma PlacingKeepsSpoiled(p: Kind, s: State, i: nat, w: string, now: Time, v: string, base: set<string>, x: string)
    requires WellFormed(s) && Linked(s) && i < |s.pending| && Takes(p, s, i, Place(w, now)) && v in s.workers
    ensures var s' := Assign(s, i, w, w, now);
            && v in s'.workers
            && (Exposed(s.workers[v], s.heap, x) ==> Exposed(s'.workers[v], s'.heap, x))
            && (Stray(s.workers[v], s.heap, base, x) ==> Stray(s'.workers[v], s'.heap, base, x))
  {
    var s', r := Assign(s, i, w, w, now), s.pending[i];
    PlacingTakesOver(p, s, i, w, now, v);
    if v != w {
      OthersKeepState(s.workers[v], s.heap, s'.heap, base, x);
    } else {
      if Exposed(s.workers[v], s.heap, x) {
        HostingKeepsExposed(s.workers[v], s.heap, s'.heap, r, s.heap[r].id, x);
      }
      if Stray(s.workers[v], s.heap, base, x) {
        HostingKeepsStray(s.workers[v], s.heap, s'.heap, r, s.heap[r].id, base, x);
      }
    }
  }

  /** No course of the sweep repairs what is spoiled. */
  lemma {:induction false} SweepKeepsSpoiled(p: Kind, s: State, i: nat, ds: seq<Decision>, v: string, base: set<string>,
                                             x: string)
    requires WellFormed(s) && Linked(s) && i <= |s.pending| && ValidSweep(p, s, i, ds) && v in s.workers
    ensures var s' := Sweep(p, s, i, ds);
            && Linked(s') && v in s'.workers
            && (Exposed(s.workers[v], s.heap, x) ==> Exposed(s'.workers[v], s'.heap, x))
            && (Stray(s.workers[v], s.heap, base, x) ==> Stray(s'.workers[v], s'.heap, base, x))
    decreases |s.pending| - i
  {
    if i < |s.pending| {
      var (s', i') := Advance(p, s, i, ds[0]);
      if ds[0].Place? {
        PlacingKeepsSpoiled(p, s, i, ds[0].worker, ds[0].now, v, base, x);
        PlacingKeepsLinked(p, s, i, ds[0].worker, ds[0].now);
      }
      SweepKeepsSpoiled(p, s', i', ds[1..], v, base, x);
    }
  }

  lemma SpoiledIsNotExclusive(w: Worker, heap: seq<Task>, base: set<string>, x: string)
    requires Exposed(w, heap, x) || Stray(w, heap, base, x)
    ensures !Exclusive(w, heap, base)
  {
  }

  lemma FreedAt(w: Worker, w': Worker, given: seq<string>, i: nat)
    requires i < |w.gpus| && w.gpus[i].id in given && w'.gpus == Marked(w.gpus, given, true)
    ensures FreeAt(w', w.gpus[i].id)
  {
    assert w'.gpus[i] == w.gpus[i].(available := true);
  }

  lemma SameTasksHold(w: Worker, w': Worker, heap: seq<Task>, heap': seq<Task>, x: string)
    requires w'.tasks == w.tasks && RefsIn(w, heap) && RefsIn(w, heap') && Held(w, heap, x)
    requires forall a :: a in w.tasks ==> heap'[w.tasks[a]].gpuIds == heap[w.tasks[a]].gpuIds
    ensures Held(w', heap', x)
  {
    var a :| a in w.tasks && x in heap[w.tasks[a]].gpuIds;
    assert a in w'.tasks;
  }

  /** Freeing a GPU that is not free exposes it, or brings a new one into circulation. */
  lemma FreeingSpoils(w: Worker, w': Worker, heap: seq<Task>, heap': seq<Task>, base: set<string>, given: seq<string>,
                      i: nat)
    requires RefsIn(w, heap) && Exact(w, heap, base) && w'.tasks == w.tasks && w'.gpus == Marked(w.gpus, given, true)
    requires i < |w.gpus| && w.gpus[i].id in given && !w.gpus[i].available && RefsIn(w, heap')
    requires forall a :: a in w.tasks ==> heap'[w.tasks[a]].gpuIds == heap[w.tasks[a]].gpuIds
    ensures Exposed(w', heap', w.gpus[i].id) || Stray(w', heap', base, w.gpus[i].id)
  {
    FreedAt(w, w', given, i);
    if Held(w, heap, w.gpus[i].id) {
      SameTasksHold(w, w', heap, heap', w.gpus[i].id);
    }
  }

  /** A report changes no task's GPU list. */
  lemma ReportedKeepsGrants(s: State, u: Update)
    requires WellFormed(s) && Accepted(s, u)
    ensures |Reported(s, u).heap| == |s.heap|
    ensures forall r :: 0 <= r < |s.heap| ==> Reported(s, u).heap[r].gpuIds == s.heap[r].gpuIds
  {
  }

  /** A careless report frees a GPU that is in use, or one that was never available. */
  lemma CarelessReportSpoils(s: State, u: Update, base: Baseline) returns (x: string)
    requires CarefulInv(s, base) && Accepted(s, u) && !CarefulReport(s, u)
    ensures var w', heap' := Reported(s, u).workers[u.workerId], Reported(s, u).heap;
            Exposed(w', heap', x) || Stray(w', heap', base[u.workerId], x)
  {
    var w, given := s.workers[u.workerId], s.heap[s.tasks[u.taskId]].gpuIds;
    var i: nat :| i < |w.gpus| && w.gpus[i].id in given && !w.gpus[i].available;
    x := w.gpus[i].id;
    assert BooksInOrder(u.workerId, w, s.heap, base[u.workerId]);
    StrayReportFrees(s, u);
    ReportedKeepsGrants(s, u);
    FreeingSpoils(w, Reported(s, u).workers[u.workerId], s.heap, Reported(s, u).heap, base[u.workerId], given, i);
  }

  lemma CarelessReportBreaks(p: Kind, s: State, u: Update, ds: seq<Decision>, base: Baseline)
    requires CarefulInv(s, base) && LegalReport(p, s, u, ds) && !CarefulReport(s, u)
    ensures !ExclusiveAll(AfterReport(p, s, u, ds), base)
  {
    var x := CarelessReportSpoils(s, u, base);
    var s1, s' := Reported(s, u), AfterReport(p, s, u, ds);
    ReportingKeepsLinked(s, u);
    SweepKeepsSpoiled(p, s1, 0, ds, u.workerId, base[u.workerId], x);
    SpoiledIsNotExclusive(s'.workers[u.workerId], s'.heap, base[u.workerId], x);
  }

  // ---------------------------------------------------------------- results

  /** After any report and whatever course its sweep takes, all workers' holdings are disjoint and their
      availability is exact if and only if the report is careful. */
  lemma ReportKeepsExclusionIff(p: Kind, s: State, u: Update, ds: seq<Decision>, base: Baseline)
    requires CarefulInv(s, base) && LegalReport(p, s, u, ds)
    ensures ExclusiveAll(AfterReport(p, s, u, ds), base) <==> CarefulReport(s, u)
  {
    if CarefulReport(s, u) {
      ReportKeepsCarefulInv(p, s, u, ds, base);
      InOrderIsExclusive(AfterReport(p, s, u, ds), base);
    } else {
      CarelessReportBreaks(p, s, u, ds, base);
    }
  }

  ghost predicate AllExclusive(ss: seq<State>, bs: seq<Baseline>)
    requires |ss| == |bs|
  {
    forall n {:trigger ExclusiveAll(ss[n], bs[n])} :: 0 <= n < |ss| ==> ExclusiveAll(ss[n], bs[n])
  }

  ghost predicate AllCareful(ss: seq<State>, es: seq<Event>)
    requires |ss| == |es| + 1
  {
    forall i {:trigger Careful(ss[i], es[i])} :: 0 <= i < |es| ==> Careful(ss[i], es[i])
  }

  lemma ExclusiveNextIsCareful(p: Kind, ss: seq<State>, es: seq<Event>, bs: seq<Baseline>, n: nat)
    requires FreshBehavior(p, ss, es, bs) && 0 < n < |ss| && CarefulInv(ss[n - 1], bs[n - 1])
    requires ExclusiveAll(ss[n], bs[n])
    ensures Careful(ss[n - 1], es[n - 1])
  {
    var s, e := ss[n - 1], es[n - 1];
    assert Step(p, s, e, ss[n]);
    if e.Report? {
      ReportKeepsExclusionIff(p, s, e.update, e.ds, bs[n]);
    }
  }

  lemma ExclusiveNext(p: Kind, ss: seq<State>, es: seq<Event>, bs: seq<Baseline>, n: nat)
    requires FreshBehavior(p, ss, es, bs) && 0 < n < |ss| && AllExclusive(ss, bs)
    requires Inv(p, ss[n - 1]) && CarefulInv(ss[n - 1], bs[n - 1])
    ensures CarefulInv(ss[n], bs[n]) && Careful(ss[n - 1], es[n - 1])
  {
    assert ExclusiveAll(ss[n], bs[n]);
    ExclusiveNextIsCareful(p, ss, es, bs, n);
    CarefulNext(p, ss, es, bs, n);
  }

  lemma {:induction false} AlwaysExclusiveInv(p: Kind, ss: seq<State>, es: seq<Event>, bs: seq<Baseline>, n: nat)
    requires FreshBehavior(p, ss, es, bs) && n < |ss| && AllExclusive(ss, bs)
    ensures Inv(p, ss[n]) && CarefulInv(ss[n], bs[n])
    ensures n > 0 ==> Careful(ss[n - 1], es[n - 1])
  {
    AlwaysQuiescent(p, ss, es, n);
    if n > 0 {
      AlwaysExclusiveInv(p, ss, es, bs, n - 1);
      ExclusiveNext(p, ss, es, bs, n);
    }
  }

  lemma CarefulIsExclusive(p: Kind, ss: seq<State>, es: seq<Event>, bs: seq<Baseline>, n: nat)
    requires FreshBehavior(p, ss, es, bs) && n < |ss| && AllCareful(ss, es)
    ensures ExclusiveAll(ss[n], bs[n])
  {
    AlwaysCarefulInv(p, ss, es, bs, n);
    InOrderIsExclusive(ss[n], bs[n]);
  }

  lemma CarefulRunsAreExclusive(p: Kind, ss: seq<State>, es: seq<Event>, bs: seq<Baseline>)
    requires FreshBehavior(p, ss, es, bs) && AllCareful(ss, es)
    ensures AllExclusive(ss, bs)
  {
    forall n | 0 <= n < |ss| ensures ExclusiveAll(ss[n], bs[n]) {
      CarefulIsExclusive(p, ss, es, bs, n);
    }
  }

  lemma ExclusiveStepIsCareful(p: Kind, ss: seq<State>, es: seq<Event>, bs: seq<Baseline>, i: nat)
    requires FreshBehavior(p, ss, es, bs) && AllExclusive(ss, bs) && i < |es|
    ensures Careful(ss[i], es[i])
  {
    var n := i + 1;
    AlwaysExclusiveInv(p, ss, es, bs, n);
    assert ss[n - 1] == ss[i] && es[n - 1] == es[i];
  }

  lemma ExclusiveRunsAreCareful(p: Kind, ss: seq<State>, es: seq<Event>, bs: seq<Baseline>)
    requires FreshBehavior(p, ss, es, bs) && AllExclusive(ss, bs)
    ensures AllCareful(ss, es)
  {
    forall i | 0 <= i < |es| ensures Careful(ss[i], es[i]) {
      ExclusiveStepIsCareful(p, ss, es, bs, i);
    }
  }

  /** GPU mutual exclusion with its exact condition: a run with fresh task ids and distinct GPU ids per worker
      keeps holdings disjoint and availability exact in all its states if and only if every report that ends
      a task comes from a worker that holds it, or finds all GPUs it names there free. */
  lemma ExclusionIffCareful(p: Kind, ss: seq<State>, es: seq<Event>, bs: seq<Baseline>)
    requires FreshBehavior(p, ss, es, bs)
    ensures AllExclusive(ss, bs) <==> AllCareful(ss, es)
  {
    if AllExclusive(ss, bs) {
      ExclusiveRunsAreCareful(p, ss, es, bs);
    }
    if AllCareful(ss, es) {
      CarefulRunsAreExclusive(p, ss, es, bs);
    }
  }
}
