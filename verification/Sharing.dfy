/** When two tasks come to share a GPU: never under the simple policy, and under the balanced policy exactly
    when a final report frees a GPU that another task holds. */
module Sharing {
  import opened Cluster
  import opened Policy
  import opened Scheduling
  import opened Quiescence
  import opened Books
  import opened Exclusion

  ghost predicate Shared(s: State) {
    exists w :: w in s.workers && RefsIn(s.workers[w], s.heap) && !Disjoint(s.workers[w], s.heap)
  }

  // ---------------------------------------------------------------- the simple policy never shares

  ghost predicate BooksAllocated(s: State) {
    forall w :: w in s.workers ==> RefsIn(s.workers[w], s.heap)
  }

  lemma {:induction false} SweepKeepsAllocated(p: Kind, s: State, i: nat, ds: seq<Decision>)
    requires WellFormed(s) && i <= |s.pending| && ValidSweep(p, s, i, ds) && BooksAllocated(s)
    ensures BooksAllocated(Sweep(p, s, i, ds))
    decreases |s.pending| - i
  {
    if i < |s.pending| {
      var (s', i') := Advance(p, s, i, ds[0]);
      SweepKeepsAllocated(p, s', i', ds[1..]);
    }
  }

  lemma ReportKeepsAllocated(p: Kind, s: State, u: Update, ds: seq<Decision>)
    requires WellFormed(s) && LegalReport(p, s, u, ds) && BooksAllocated(s)
    ensures BooksAllocated(AfterReport(p, s, u, ds))
  {
    if Accepted(s, u) {
      assert BooksAllocated(Reported(s, u));
      if u.status.Final() {
        SweepKeepsAllocated(p, Reported(s, u), 0, ds);
      }
    }
  }

  lemma StepKeepsAllocated(p: Kind, s: State, e: Event, s': State)
    requires Step(p, s, e, s') && Inv(p, s) && BooksAllocated(s)
    ensures BooksAllocated(s')
  {
    match e {
      case Register(id, gpus, address, ds) =>
        var wid := WorkerIdFor(id, |s.workers|);
        if wid !in s.workers {
          SweepKeepsAllocated(p, Registered(s, wid, gpus, address), 0, ds);
        }
      case Submit(sub, ds) => SweepKeepsAllocated(p, Submitted(s, sub), 0, ds);
      case Report(u, ds) => ReportKeepsAllocated(p, s, u, ds);
      case Request(caller, chosen, now) => QuiescentRefuses(p, s, caller);
    }
  }

  lemma AllocatedNext(p: Kind, ss: seq<State>, es: seq<Event>, n: nat)
    requires Behavior(p, ss, es) && 0 < n < |ss| && Inv(p, ss[n - 1]) && BooksAllocated(ss[n - 1])
    ensures BooksAllocated(ss[n])
  {
    assert Step(p, ss[n - 1], es[n - 1], ss[n]);
    StepKeepsAllocated(p, ss[n - 1], es[n - 1], ss[n]);
  }

  lemma {:induction false} AlwaysAllocated(p: Kind, ss: seq<State>, es: seq<Event>, n: nat)
    requires Behavior(p, ss, es) && n < |ss|
    ensures BooksAllocated(ss[n])
  {
    if n > 0 {
      AlwaysAllocated(p, ss, es, n - 1);
      AlwaysQuiescent(p, ss, es, n - 1);
      AllocatedNext(p, ss, es, n);
    }
  }

  lemma OneTaskIsDisjoint(w: Worker, heap: seq<Task>)
    requires RefsIn(w, heap) && |w.tasks| <= 1
    ensures Disjoint(w, heap)
  {
    forall a, b | a in w.tasks && b in w.tasks ensures a == b {
      SubsetSize({a, b}, w.tasks.Keys);
    }
  }

  /** Under the simple policy no run of any kind puts two tasks on one GPU. */
  lemma SimpleNeverShares(ss: seq<State>, es: seq<Event>, n: nat, w: string)
    requires Behavior(Simple, ss, es) && n < |ss| && w in ss[n].workers
    ensures RefsIn(ss[n].workers[w], ss[n].heap) && Disjoint(ss[n].workers[w], ss[n].heap)
  {
    AlwaysAllocated(Simple, ss, es, n);
    StatusAgreement(Simple, ss, es, n, w);
    OneTaskIsDisjoint(ss[n].workers[w], ss[n].heap);
  }

  // ---------------------------------------------------------------- paths from a given state

  ghost predicate CarefulStep(p: Kind, s: State, e: Event, s': State) {
    Step(p, s, e, s') && Fresh(s, e) && Careful(s, e)
  }

  /** Steps with fresh names and careful reports, from any state. */
  ghost predicate CarefulPath(p: Kind, ss: seq<State>, es: seq<Event>) {
    && |ss| == |es| + 1
    && forall i {:trigger es[i]} :: 0 <= i < |es| ==> CarefulStep(p, ss[i], es[i], ss[i + 1])
  }

  ghost predicate LeadsToSharing(p: Kind, s: State, ss: seq<State>, es: seq<Event>) {
    CarefulPath(p, ss, es) && ss[0] == s && Shared(ss[|es|])
  }

  ghost predicate SharingReachable(p: Kind, s: State) {
    exists ss, es :: LeadsToSharing(p, s, ss, es)
  }

  lemma SharedIsReachable(p: Kind, s: State)
    requires Shared(s)
    ensures SharingReachable(p, s)
  {
    assert LeadsToSharing(p, s, [s], []);
  }

  lemma PrependStep(p: Kind, s: State, e: Event, ss: seq<State>, es: seq<Event>)
    requires CarefulPath(p, ss, es) && CarefulStep(p, s, e, ss[0])
    ensures CarefulPath(p, [s] + ss, [e] + es)
  {
    var ss', es' := [s] + ss, [e] + es;
    forall i | 0 <= i < |es'| ensures CarefulStep(p, ss'[i], es'[i], ss'[i + 1]) {
      if i > 0 {
        assert CarefulStep(p, ss[i - 1], es[i - 1], ss[i]);
      }
    }
  }

  lemma ThenShares(p: Kind, s: State, e: Event, s': State, ss: seq<State>, es: seq<Event>)
    requires CarefulStep(p, s, e, s') && LeadsToSharing(p, s', ss, es)
    ensures LeadsToSharing(p, s, [s] + ss, [e] + es)
  {
    PrependStep(p, s, e, ss, es);
    assert ([s] + ss)[|[e] + es|] == ss[|es|];
  }

  lemma OneStepBefore(p: Kind, s: State, e: Event, s': State)
    requires CarefulStep(p, s, e, s') && SharingReachable(p, s')
    ensures SharingReachable(p, s)
  {
    var ss, es :| LeadsToSharing(p, s', ss, es);
    ThenShares(p, s, e, s', ss, es);
  }

  // ---------------------------------------------------------------- freeing what nobody holds

  /** The report frees a GPU that another task in the reporting worker's books holds. */
  ghost predicate FreesHeld(s: State, u: Update)
    requires WellFormed(s) && Accepted(s, u)
  {
    var w, given := s.workers[u.workerId], s.heap[s.tasks[u.taskId]].gpuIds;
    RefsIn(w, s.heap)
    && exists b, x :: b in w.tasks && b != u.taskId && x in given && x in s.heap[w.tasks[b]].gpuIds
  }

  /** GPUs that nobody holds may be freed, as if they had been available from the start. */
  lemma FreeingUnheldKeepsBooks(name: string, w: Worker, w': Worker, heap: seq<Task>, base: set<string>,
                                given: seq<string>)
    requires BooksInOrder(name, w, heap, base) && w'.tasks == w.tasks && w'.gpus == Marked(w.gpus, given, true)
    requires forall x :: x in given ==> !Held(w, heap, x)
    ensures BooksInOrder(name, w', heap, base + set x | x in given)
  {
    var base' := base + set x | x in given;
    assert forall x :: Held(w', heap, x) <==> Held(w, heap, x);
    forall id | id in w'.tasks ensures Booked(name, w', heap[w'.tasks[id]], id, base') {
      MarkedBooked(name, w, given, true, w', heap[w.tasks[id]], id, base);
    }
  }

  lemma StrayReportKeepsWorker(s: State, u: Update, base: Baseline)
    requires CarefulInv(s, base) && Accepted(s, u) && u.status.Final() && !FreesHeld(s, u)
    requires u.taskId !in s.workers[u.workerId].tasks
    ensures var given := s.heap[s.tasks[u.taskId]].gpuIds;
            BooksInOrder(u.workerId, Reported(s, u).workers[u.workerId], Reported(s, u).heap,
                         base[u.workerId] + set x | x in given)
  {
    var s', w, given := Reported(s, u), s.workers[u.workerId], s.heap[s.tasks[u.taskId]].gpuIds;
    StrayReportFrees(s, u);
    assert forall x :: x in given ==> !Held(w, s.heap, x);
    BooksFrame(u.workerId, w, s.heap, s'.heap, base[u.workerId]);
    assert forall x :: Held(w, s'.heap, x) <==> Held(w, s.heap, x);
    FreeingUnheldKeepsBooks(u.workerId, w, s'.workers[u.workerId], s'.heap, base[u.workerId], given);
  }

  lemma StrayReportKeepsWorkers(s: State, u: Update, base: Baseline)
    requires CarefulInv(s, base) && Accepted(s, u) && u.status.Final() && !FreesHeld(s, u)
    requires u.taskId !in s.workers[u.workerId].tasks
    ensures var given := s.heap[s.tasks[u.taskId]].gpuIds;
            WorkersInOrder(Reported(s, u), base[u.workerId := base[u.workerId] + set x | x in given])
  {
    var s', given := Reported(s, u), s.heap[s.tasks[u.taskId]].gpuIds;
    var base' := base[u.workerId := base[u.workerId] + set x | x in given];
    StrayReportKeepsWorker(s, u, base);
    assert s'.workers.Keys == s.workers.Keys && base'.Keys == base.Keys;
    forall v | v in s'.workers ensures BooksInOrder(v, s'.workers[v], s'.heap, base'[v]) {
      if v != u.workerId {
        BooksFrame(v, s.workers[v], s.heap, s'.heap, base[v]);
      }
    }
  }

  /** A report that frees nothing held keeps the invariant, for a baseline that counts what it freed. */
  lemma FreeingUnheldKeepsInv(p: Kind, s: State, u: Update, ds: seq<Decision>, base: Baseline) returns (base': Baseline)
    requires CarefulInv(s, base) && Accepted(s, u) && u.status.Final() && LegalReport(p, s, u, ds) && !FreesHeld(s, u)
    ensures CarefulInv(AfterReport(p, s, u, ds), base')
  {
    if u.taskId in s.workers[u.workerId].tasks {
      base' := base;
      ReportingKeepsCarefulInv(s, u, base);
    } else {
      var given := s.heap[s.tasks[u.taskId]].gpuIds;
      base' := base[u.workerId := base[u.workerId] + set x | x in given];
      StrayReportKeepsWorkers(s, u, base);
      ReportingKeepsLinked(s, u);
    }
    SweepKeepsCarefulInv(p, Reported(s, u), 0, ds, base');
  }

  lemma PathInvNext(p: Kind, ss: seq<State>, es: seq<Event>, n: nat)
    requires CarefulPath(p, ss, es) && 0 < n < |ss| && Inv(p, ss[n - 1])
    ensures Inv(p, ss[n])
  {
    assert CarefulStep(p, ss[n - 1], es[n - 1], ss[n]);
    StepKeepsInv(p, ss[n - 1], es[n - 1], ss[n]);
  }

  lemma PathCarefulNext(p: Kind, ss: seq<State>, es: seq<Event>, base: Baseline, n: nat) returns (base': Baseline)
    requires CarefulPath(p, ss, es) && 0 < n < |ss| && Inv(p, ss[n - 1]) && CarefulInv(ss[n - 1], base)
    ensures CarefulInv(ss[n], base')
  {
    var s, e := ss[n - 1], es[n - 1];
    assert CarefulStep(p, s, e, ss[n]);
    StepKeepsCarefulInv(p, s, e, ss[n], base);
    base' := NextBaseline(s, e, base);
  }

  lemma {:induction false} PathKeepsInv(p: Kind, ss: seq<State>, es: seq<Event>, n: nat)
    requires CarefulPath(p, ss, es) && Inv(p, ss[0]) && n < |ss|
    ensures Inv(p, ss[n])
  {
    if n > 0 {
      PathKeepsInv(p, ss, es, n - 1);
      PathInvNext(p, ss, es, n);
    }
  }

  lemma {:induction false} PathKeepsCareful(p: Kind, ss: seq<State>, es: seq<Event>, base: Baseline, n: nat)
    returns (base': Baseline)
    requires CarefulPath(p, ss, es) && Inv(p, ss[0]) && CarefulInv(ss[0], base) && n < |ss|
    ensures CarefulInv(ss[n], base')
  {
    base' := base;
    if n > 0 {
      var before := PathKeepsCareful(p, ss, es, base, n - 1);
      PathKeepsInv(p, ss, es, n - 1);
      base' := PathCarefulNext(p, ss, es, before, n);
    }
  }

  lemma CarefulNeverShares(p: Kind, s: State, base: Baseline)
    requires Inv(p, s) && CarefulInv(s, base)
    ensures !SharingReachable(p, s)
  {
    if SharingReachable(p, s) {
      var ss, es :| LeadsToSharing(p, s, ss, es);
      var base' := PathKeepsCareful(p, ss, es, base, |es|);
      InOrderIsExclusive(ss[|es|], base');
    }
  }

  // ---------------------------------------------------------------- one task at a time under the simple policy

  lemma SimpleSharesNothing(s: State)
    requires Inv(Simple, s)
    ensures !SharingReachable(Simple, s)
  {
    if SharingReachable(Simple, s) {
      var ss, es :| LeadsToSharing(Simple, s, ss, es);
      PathKeepsInv(Simple, ss, es, |es|);
      var s': State := ss[|es|];
      var w :| w in s'.workers && RefsIn(s'.workers[w], s'.heap) && !Disjoint(s'.workers[w], s'.heap);
      assert WorkerAgrees(Simple, s'.workers[w]);
      OneTaskIsDisjoint(s'.workers[w], s'.heap);
    }
  }

  // ---------------------------------------------------------------- offering a held GPU ends in sharing

  /** The free GPUs of the cluster, by worker and position. */
  ghost function FreeGpus(workers: map<string, Worker>): set<(string, nat)> {
    set w, i: nat | w in workers && i < |workers[w].gpus| && workers[w].gpus[i].available :: (w, i)
  }

  ghost function FreeCount(workers: map<string, Worker>): nat {
    |FreeGpus(workers)|
  }

  lemma MarkingTakesGpus(workers: map<string, Worker>, w: string, b: Worker, ids: seq<string>)
    requires w in workers && b.gpus == Marked(workers[w].gpus, ids, false)
    ensures FreeGpus(workers[w := b]) <= FreeGpus(workers)
    ensures (exists i :: 0 <= i < |workers[w].gpus| && workers[w].gpus[i].available && workers[w].gpus[i].id in ids)
            ==> FreeGpus(workers[w := b]) < FreeGpus(workers)
  {
    if i: nat :| i < |workers[w].gpus| && workers[w].gpus[i].available && workers[w].gpus[i].id in ids {
      assert (w, i) in FreeGpus(workers) && (w, i) !in FreeGpus(workers[w := b]);
    }
  }

  lemma PlacingTakesGpus(p: Kind, s: State, i: nat, w: string, now: Time)
    requires WellFormed(s) && i < |s.pending| && Takes(p, s, i, Place(w, now))
    ensures FreeCount(Assign(s, i, w, w, now).workers) <= FreeCount(s.workers)
    ensures s.heap[s.pending[i]].required >= 1 ==>
              FreeCount(Assign(s, i, w, w, now).workers) < FreeCount(s.workers)
  {
    var s', t, b := Assign(s, i, w, w, now), s.heap[s.pending[i]], s.workers[w];
    MarkingTakesGpus(s.workers, w, s'.workers[w], Grant(b, t));
    SubsetSize(FreeGpus(s'.workers), FreeGpus(s.workers));
    if t.required >= 1 {
      var x := Grant(b, t)[0];
      assert x in Grant(b, t) && x in EligibleIds(b.gpus, t.minMemory);
      EligibleMember(b.gpus, t.minMemory, x);
      ProperSubsetSize(FreeGpus(s'.workers), FreeGpus(s.workers));
    }
  }

  lemma StaysQueued(s: State, i: nat, w: string, now: Time, p: Kind, r: TaskRef)
    requires WellFormed(s) && i < |s.pending| && Takes(p, s, i, Place(w, now)) && r in s.pending && s.pending[i] != r
    ensures r in Assign(s, i, w, w, now).pending
  {
    var k :| 0 <= k < |s.pending| && s.pending[k] == r;
    assert Assign(s, i, w, w, now).pending[if k < i then k else k - 1] == r;
  }

  /** A queued task that needs a GPU is still queued after the sweep, or fewer GPUs are free. */
  lemma {:induction false} SweepTakesGpus(p: Kind, s: State, i: nat, ds: seq<Decision>, r: TaskRef)
    requires WellFormed(s) && i <= |s.pending| && ValidSweep(p, s, i, ds)
    requires r in s.pending && r < |s.heap| && s.heap[r].required >= 1
    ensures r in Sweep(p, s, i, ds).pending || FreeCount(Sweep(p, s, i, ds).workers) < FreeCount(s.workers)
    decreases |s.pending| - i
  {
    if i < |s.pending| {
      var (s', i') := Advance(p, s, i, ds[0]);
      if ds[0].Skip? {
        SweepTakesGpus(p, s, i', ds[1..], r);
      } else {
        PlacingTakesGpus(p, s, i, ds[0].worker, ds[0].now);
        if s.pending[i] == r {
          SweepOnlyTakes(p, s', i', ds[1..]);
        } else {
          StaysQueued(s, i, ds[0].worker, ds[0].now, p, r);
          SweepTakesGpus(p, s', i', ds[1..], r);
        }
      }
    }
  }

  lemma {:induction false} SweepOnlyTakes(p: Kind, s: State, i: nat, ds: seq<Decision>)
    requires WellFormed(s) && i <= |s.pending| && ValidSweep(p, s, i, ds)
    ensures FreeCount(Sweep(p, s, i, ds).workers) <= FreeCount(s.workers)
    decreases |s.pending| - i
  {
    if i < |s.pending| {
      var (s', i') := Advance(p, s, i, ds[0]);
      if ds[0].Place? {
        PlacingTakesGpus(p, s, i, ds[0].worker, ds[0].now);
      }
      SweepOnlyTakes(p, s', i', ds[1..]);
    }
  }

  /** A task that asks for one GPU of any size. */
  ghost function Job(id: string): Task { Task(id, "", 1, 0, [], PENDING, "", [], 0, 0.0, []) }

  /** A worker with a free GPU is a candidate for such a task under the balanced policy. */
  lemma FreeGpuSuitsJob(w: Worker, x: string, t: Task)
    requires FreeAt(w, x) && WorkerAgrees(Balanced, w) && |w.gpus| < 0x1_0000_0000
    requires t.required == 1 && t.minMemory == 0
    ensures Candidate(Balanced, w, t)
  {
    var i :| 0 <= i < |w.gpus| && w.gpus[i].id == x && w.gpus[i].available;
    assert Fits(w.gpus[i], 0);
    EligibleMember(w.gpus, 0, x);
  }

  lemma QueuedIsRefused(p: Kind, s: State, r: TaskRef)
    requires WellFormed(s) && Quiescent(p, s) && r in s.pending
    ensures r < |s.heap| && !Feasible(p, s.workers, s.heap[r])
  {
    var k :| 0 <= k < |s.pending| && s.pending[k] == r;
    assert Refused(p, s, k);
  }

  /** The job is not left in the queue as long as the GPU is free. */
  lemma JobIsPlaced(s: State, ds: seq<Decision>, r: TaskRef, w: string, x: string)
    requires WellFormed(s) && ValidSweep(Balanced, s, 0, ds) && r < |s.heap|
    requires s.heap[r].required == 1 && s.heap[r].minMemory == 0
    requires var s' := Sweep(Balanced, s, 0, ds); Inv(Balanced, s') && w in s'.workers && FreeAt(s'.workers[w], x)
    ensures r !in Sweep(Balanced, s, 0, ds).pending
  {
    var s' := Sweep(Balanced, s, 0, ds);
    SweepStartsPlaced(Balanced, s, 0, ds, r);
    assert WorkerAgrees(Balanced, s'.workers[w]);
    FreeGpuSuitsJob(s'.workers[w], x, s'.heap[r]);
    if r in s'.pending {
      QueuedIsRefused(Balanced, s', r);
    }
  }

  lemma SubmittingKeepsExposed(s: State, t: Task, w: string, x: string)
    requires WellFormed(s) && Linked(s) && t.id !in s.tasks && w in s.workers && Exposed(s.workers[w], s.heap, x)
    ensures var s' := Submitted(s, NewTask(t)); Linked(s') && w in s'.workers && Exposed(s'.workers[w], s'.heap, x)
  {
    SubmittingKeepsLinked(s, t);
    OthersKeepState(s.workers[w], s.heap, Submitted(s, NewTask(t)).heap, {}, x);
  }

  lemma SubmittedJob(s: State, id: string, ds: seq<Decision>, w: string, x: string)
    requires Inv(Balanced, s) && Linked(s) && w in s.workers && Exposed(s.workers[w], s.heap, x) && id !in s.tasks
    requires LegalSubmit(Balanced, s, NewTask(Job(id)), ds)
    ensures var s' := AfterSubmit(Balanced, s, NewTask(Job(id)), ds);
            && Linked(s') && w in s'.workers && Exposed(s'.workers[w], s'.heap, x)
            && (Inv(Balanced, s') ==> !FreeAt(s'.workers[w], x) || FreeCount(s'.workers) < FreeCount(s.workers))
  {
    var s1, r := Submitted(s, NewTask(Job(id))), |s.heap|;
    SubmittingKeepsExposed(s, Job(id), w, x);
    SweepKeepsSpoiled(Balanced, s1, 0, ds, w, {}, x);
    assert s1.pending[|s.pending|] == r;
    SweepTakesGpus(Balanced, s1, 0, ds, r);
    var s' := Sweep(Balanced, s1, 0, ds);
    if Inv(Balanced, s') && FreeAt(s'.workers[w], x) {
      JobIsPlaced(s1, ds, r, w, x);
    }
  }

  /** One more job: the exposed GPU stays exposed, and it is taken or fewer GPUs are free. */
  lemma SubmitJob(s: State, w: string, x: string) returns (e: Event, s': State)
    requires Inv(Balanced, s) && Linked(s) && w in s.workers && Exposed(s.workers[w], s.heap, x)
    ensures CarefulStep(Balanced, s, e, s')
    ensures Inv(Balanced, s') && Linked(s') && w in s'.workers && Exposed(s'.workers[w], s'.heap, x)
    ensures !FreeAt(s'.workers[w], x) || FreeCount(s'.workers) < FreeCount(s.workers)
  {
    var id := FreshId(s.tasks.Keys);
    var ds := SweepExists(Balanced, Submitted(s, NewTask(Job(id))), 0);
    e := Submit(NewTask(Job(id)), ds);
    s' := Exec(Balanced, s, e);
    StepKeepsInv(Balanced, s, e, s');
    SubmittedJob(s, id, ds, w, x);
  }

  lemma DoubledIsShared(s: State, w: string, x: string)
    requires w in s.workers && RefsIn(s.workers[w], s.heap) && Doubled(s.workers[w], s.heap, x)
    ensures Shared(s)
  {
    assert !Disjoint(s.workers[w], s.heap);
  }

  lemma {:induction false} ExposedLeadsToSharing(s: State, w: string, x: string)
    requires Inv(Balanced, s) && Linked(s) && w in s.workers && Exposed(s.workers[w], s.heap, x)
    ensures SharingReachable(Balanced, s)
    decreases FreeCount(s.workers)
  {
    if Doubled(s.workers[w], s.heap, x) {
      DoubledIsShared(s, w, x);
      SharedIsReachable(Balanced, s);
    } else {
      var e, s' := SubmitJob(s, w, x);
      if FreeCount(s'.workers) < FreeCount(s.workers) {
        ExposedLeadsToSharing(s', w, x);
      } else {
        DoubledIsShared(s', w, x);
        SharedIsReachable(Balanced, s');
      }
      OneStepBefore(Balanced, s, e, s');
    }
  }

  lemma BookedIsOwned(name: string, w: Worker, heap: seq<Task>, base: set<string>, b: string, x: string)
    returns (i: nat)
    requires BooksInOrder(name, w, heap, base) && b in w.tasks && x in heap[w.tasks[b]].gpuIds
    ensures i < |w.gpus| && w.gpus[i].id == x
  {
    assert Booked(name, w, heap[w.tasks[b]], b, base);
    assert Suits(w, heap[w.tasks[b]], x);
    i :| 0 <= i < |w.gpus| && w.gpus[i].id == x;
  }

  lemma ReleasingExposes(w: Worker, heap: seq<Task>, t: Task, id: string, b: string, i: nat)
    requires RefsIn(w, heap) && i < |w.gpus| && w.gpus[i].id in t.gpuIds
    requires b in w.tasks && b != id && w.gpus[i].id in heap[w.tasks[b]].gpuIds
    ensures Exposed(Released(w, t, id), heap, w.gpus[i].id)
  {
    var w' := Released(w, t, id);
    FreedAt(w, w', t.gpuIds, i);
    assert b in w'.tasks && w'.tasks[b] == w.tasks[b];
  }

  /** The GPU that a report frees under another task is exposed. */
  lemma FreeingHeldExposes(s: State, u: Update, base: Baseline) returns (x: string)
    requires CarefulInv(s, base) && Accepted(s, u) && u.status.Final() && FreesHeld(s, u)
    ensures Exposed(Reported(s, u).workers[u.workerId], Reported(s, u).heap, x)
  {
    var w, s', r := s.workers[u.workerId], Reported(s, u), s.tasks[u.taskId];
    var b, y :| b in w.tasks && b != u.taskId && y in s.heap[r].gpuIds && y in s.heap[w.tasks[b]].gpuIds;
    x := y;
    var i := BookedIsOwned(u.workerId, w, s.heap, base[u.workerId], b, x);
    ReportedKeepsGrants(s, u);
    ReleasingExposes(w, s'.heap, s'.heap[r], u.taskId, b, i);
  }

  lemma FreeingHeldLeadsToSharing(s: State, u: Update, ds: seq<Decision>, base: Baseline)
    requires Inv(Balanced, s) && CarefulInv(s, base) && Accepted(s, u) && u.status.Final()
    requires LegalReport(Balanced, s, u, ds) && FreesHeld(s, u)
    ensures SharingReachable(Balanced, AfterReport(Balanced, s, u, ds))
  {
    var x := FreeingHeldExposes(s, u, base);
    ReportingKeepsLinked(s, u);
    SweepKeepsSpoiled(Balanced, Reported(s, u), 0, ds, u.workerId, {}, x);
    ReportKeepsInv(Balanced, s, u, ds);
    ExposedLeadsToSharing(AfterReport(Balanced, s, u, ds), u.workerId, x);
  }

  // ---------------------------------------------------------------- result

  /** After a final report, and however carefully everybody behaves from then on, two tasks can come to hold
      one GPU if and only if the policy is the balanced one and the report frees a GPU of the reporting worker
      that another of its tasks holds. */
  lemma SharingReachableIff(p: Kind, s: State, u: Update, ds: seq<Decision>, base: Baseline)
    requires Inv(p, s) && CarefulInv(s, base) && Accepted(s, u) && u.status.Final() && LegalReport(p, s, u, ds)
    ensures SharingReachable(p, AfterReport(p, s, u, ds)) <==> p == Balanced && FreesHeld(s, u)
  {
    ReportKeepsInv(p, s, u, ds);
    if p == Simple {
      SimpleSharesNothing(AfterReport(p, s, u, ds));
    } else if FreesHeld(s, u) {
      FreeingHeldLeadsToSharing(s, u, ds, base);
    } else {
      var base' := FreeingUnheldKeepsInv(p, s, u, ds, base);
      CarefulNeverShares(p, AfterReport(p, s, u, ds), base');
    }
  }
}
