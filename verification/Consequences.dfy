/** What exclusion, exact availability and quiescence imply together: finished tasks never return, a
    drained cluster cannot serve what is queued, and the balanced policy's score is bounded. */
module Consequences {
  import opened Cluster
  import opened Policy
  import opened Scheduling
  import opened Quiescence
  import opened Books
  import opened Honest

  // ---------------------------------------------------------------- finished tasks stay finished

  /** A sweep does not touch a task that is not queued. */
  lemma SweepSparesUnqueued(p: Kind, s: State, ds: seq<Decision>, r: TaskRef)
    requires WellFormed(s) && ValidSweep(p, s, 0, ds) && r < |s.heap| && r !in s.pending
    ensures Sweep(p, s, 0, ds).tasks == s.tasks
    ensures |Sweep(p, s, 0, ds).heap| == |s.heap| && Sweep(p, s, 0, ds).heap[r] == s.heap[r]
  {
    SweepStartsPlaced(p, s, 0, ds, r);
    SweepKeepsTable(p, s, 0, ds);
    assert s.pending[0..] == s.pending;
  }

  lemma {:induction false} SweepKeepsTable(p: Kind, s: State, i: nat, ds: seq<Decision>)
    requires WellFormed(s) && i <= |s.pending| && ValidSweep(p, s, i, ds)
    ensures Sweep(p, s, i, ds).tasks == s.tasks && Sweep(p, s, i, ds).metrics == s.metrics
    decreases |s.pending| - i
  {
    if i < |s.pending| {
      var (s', i') := Advance(p, s, i, ds[0]);
      SweepKeepsTable(p, s', i', ds[1..]);
    }
  }

  lemma FinishedIsNowhere(s: State, id: string)
    requires WellFormed(s) && TableInOrder(s) && Finished(s, id)
    ensures s.tasks[id] !in s.pending
    ensures forall w :: w in s.workers ==> id !in s.workers[w].tasks
  {
    assert forall k :: 0 <= k < |s.pending| ==> Waiting(s.heap[s.pending[k]]);
  }

  ghost predicate StillFinished(s: State, s': State, id: string)
    requires WellFormed(s) && Finished(s, id) && WellFormed(s')
  {
    Finished(s', id) && s'.tasks[id] == s.tasks[id]
  }

  lemma FinishedSurvivesRegister(p: Kind, s: State, name: string, gpus: seq<GPU>, address: string, ds: seq<Decision>,
                                 id: string)
    requires WellFormed(s) && TableInOrder(s) && LegalRegister(p, s, name, gpus, address, ds) && Finished(s, id)
    ensures StillFinished(s, AfterRegister(p, s, name, gpus, address, ds), id)
  {
    var wid := WorkerIdFor(name, |s.workers|);
    FinishedIsNowhere(s, id);
    if wid !in s.workers {
      SweepSparesUnqueued(p, Registered(s, wid, gpus, address), ds, s.tasks[id]);
    }
  }

  lemma FinishedSurvivesSubmit(p: Kind, s: State, t: Task, ds: seq<Decision>, id: string)
    requires WellFormed(s) && TableInOrder(s) && Finished(s, id)
    requires t.id !in s.tasks && LegalSubmit(p, s, NewTask(t), ds)
    ensures StillFinished(s, AfterSubmit(p, s, NewTask(t), ds), id)
  {
    FinishedIsNowhere(s, id);
    var s' := Submitted(s, NewTask(t));
    assert s'.heap[s.tasks[id]] == s.heap[s.tasks[id]] && s.tasks[id] !in s'.pending;
    SweepSparesUnqueued(p, s', ds, s.tasks[id]);
  }

  lemma FinishedSurvivesReport(p: Kind, s: State, u: Update, ds: seq<Decision>, id: string)
    requires WellFormed(s) && TableInOrder(s) && LegalReport(p, s, u, ds) && (Accepted(s, u) ==> HonestReport(s, u))
    requires Finished(s, id)
    ensures StillFinished(s, AfterReport(p, s, u, ds), id)
  {
    FinishedIsNowhere(s, id);
    if Accepted(s, u) {
      ReportingSparesOthers(s, u, id);
      if u.status.Final() {
        SweepSparesUnqueued(p, Reported(s, u), ds, s.tasks[id]);
      }
    }
  }

  lemma FinishedStaysOneStep(p: Kind, s: State, e: Event, s': State, id: string)
    requires Step(p, s, e, s') && Inv(p, s) && TableInOrder(s) && HonestEvent(s, e) && Finished(s, id)
    ensures WellFormed(s') && StillFinished(s, s', id)
  {
    match e {
      case Register(name, gpus, address, ds) => FinishedSurvivesRegister(p, s, name, gpus, address, ds, id);
      case Submit(sub, ds) => FinishedSurvivesSubmit(p, s, sub.task, ds, id);
      case Report(u, ds) => FinishedSurvivesReport(p, s, u, ds, id);
      case Request(caller, chosen, now) => QuiescentRefuses(p, s, caller);
    }
  }

  lemma FinishedNextStep(p: Kind, ss: seq<State>, es: seq<Event>, bs: seq<Baseline>, n: nat, id: string)
    requires HonestBehavior(p, ss, es, bs) && n + 1 < |ss| && WellFormed(ss[n]) && Finished(ss[n], id)
    ensures WellFormed(ss[n + 1]) && Finished(ss[n + 1], id)
  {
    AlwaysHonestInv(p, ss, es, bs, n);
    FinishedStaysOneStep(p, ss[n], es[n], ss[n + 1], id);
  }

  /** Finished tasks never return: not to the queue and not to any worker. */
  lemma {:induction false} FinishedForever(p: Kind, ss: seq<State>, es: seq<Event>, bs: seq<Baseline>, n: nat, m: nat,
                                           id: string)
    requires HonestBehavior(p, ss, es, bs) && n <= m < |ss|
    requires WellFormed(ss[n]) && Finished(ss[n], id)
    ensures WellFormed(ss[m]) && Finished(ss[m], id) && ss[m].tasks[id] !in ss[m].pending
    ensures forall w :: w in ss[m].workers ==> id !in ss[m].workers[w].tasks
    decreases m - n
  {
    if n < m {
      FinishedNextStep(p, ss, es, bs, n, id);
      FinishedForever(p, ss, es, bs, n + 1, m, id);
    } else {
      AlwaysHonestInv(p, ss, es, bs, n);
      FinishedIsNowhere(ss[n], id);
    }
  }

  // ---------------------------------------------------------------- the drained cluster

  /** The worker's GPUs with every originally available one free. */
  ghost function AllFree(gpus: seq<GPU>, base: set<string>): seq<GPU> {
    seq(|gpus|, i requires 0 <= i < |gpus| => gpus[i].(available := gpus[i].id in base))
  }

  /** When nothing runs anywhere, each pending task is one that no registered worker could run even
      with all its originally available GPUs free. */
  lemma DrainedCluster(p: Kind, ss: seq<State>, es: seq<Event>, bs: seq<Baseline>, n: nat, k: nat, w: string)
    requires HonestBehavior(p, ss, es, bs) && n < |ss| && k < |ss[n].pending|
    requires forall v :: v in ss[n].workers ==> ss[n].workers[v].tasks == map[]
    requires w in ss[n].workers
    ensures w in bs[n] && ss[n].pending[k] < |ss[n].heap|
    ensures var t := ss[n].heap[ss[n].pending[k]];
            |EligibleIds(AllFree(ss[n].workers[w].gpus, bs[n][w]), t.minMemory)| < t.required
  {
    AlwaysHonestInv(p, ss, es, bs, n);
    var s, base := ss[n], bs[n];
    var worker := s.workers[w];
    assert BooksInOrder(w, worker, s.heap, base[w]) && WorkerAgrees(p, worker);
    assert AllFree(worker.gpus, base[w]) == worker.gpus;
    assert Refused(p, s, k);
    assert !Candidate(p, worker, s.heap[s.pending[k]]);
    assert |worker.gpus| < 0x1_0000_0000;
  }

  // ---------------------------------------------------------------- the balanced score

  ghost function GpuIds(gpus: seq<GPU>): set<string> {
    set i | 0 <= i < |gpus| :: gpus[i].id
  }

  lemma {:induction false} GpuIdCount(gpus: seq<GPU>)
    ensures |GpuIds(gpus)| <= |gpus|
  {
    if gpus != [] {
      var last := |gpus| - 1;
      GpuIdCount(gpus[..last]);
      assert GpuIds(gpus) == GpuIds(gpus[..last]) + {gpus[last].id} by {
        assert forall i :: 0 <= i < last ==> gpus[..last][i] == gpus[i];
      }
    }
  }

  ghost function HeldBy(w: Worker, heap: seq<Task>, ids: set<string>): set<string>
    requires RefsIn(w, heap) && ids <= w.tasks.Keys
  {
    set id, x | id in ids && x in heap[w.tasks[id]].gpuIds :: x
  }

  /** Disjoint non-empty holdings: at least as many GPUs are held as there are tasks. */
  lemma {:induction false} TasksHoldGpus(w: Worker, heap: seq<Task>, ids: set<string>)
    requires RefsIn(w, heap) && Disjoint(w, heap) && ids <= w.tasks.Keys
    requires forall id :: id in ids ==> heap[w.tasks[id]].gpuIds != []
    ensures |ids| <= |HeldBy(w, heap, ids)|
  {
    if ids != {} {
      var id :| id in ids;
      var rest := ids - {id};
      TasksHoldGpus(w, heap, rest);
      var x := heap[w.tasks[id]].gpuIds[0];
      assert id in ids && x in heap[w.tasks[id]].gpuIds;
      assert x !in HeldBy(w, heap, rest);
      forall y | y in HeldBy(w, heap, rest) ensures y in HeldBy(w, heap, ids) {
        var other :| other in rest && y in heap[w.tasks[other]].gpuIds;
        assert other in ids;
      }
      assert x in HeldBy(w, heap, ids);
      SubsetSize(HeldBy(w, heap, rest) + {x}, HeldBy(w, heap, ids));
    }
  }

  /** Pigeonhole: the tasks of a worker and its eligible free GPUs fit into its GPU list together. */
  lemma TasksAndFreeGpusFit(name: string, w: Worker, heap: seq<Task>, base: set<string>, minMemory: nat)
    requires BooksInOrder(name, w, heap, base)
    requires forall id :: id in w.tasks ==> heap[w.tasks[id]].required >= 1
    ensures |w.tasks| + |EligibleIds(w.gpus, minMemory)| <= |w.gpus|
  {
    var eligible := EligibleIds(w.gpus, minMemory);
    var free := set x | x in eligible;
    EligibleDistinct(w.gpus, minMemory);
    DistinctCount(eligible);
    forall id | id in w.tasks ensures heap[w.tasks[id]].gpuIds != [] {
      assert Booked(name, w, heap[w.tasks[id]], id, base);
    }
    TasksHoldGpus(w, heap, w.tasks.Keys);
    var held := HeldBy(w, heap, w.tasks.Keys);
    FreeAreUnheld(name, w, heap, base, minMemory);
    HeldAreGpus(name, w, heap, base);
    SubsetSize(free + held, GpuIds(w.gpus));
    GpuIdCount(w.gpus);
  }

  lemma FreeAreUnheld(name: string, w: Worker, heap: seq<Task>, base: set<string>, minMemory: nat)
    requires BooksInOrder(name, w, heap, base)
    ensures forall x :: x in EligibleIds(w.gpus, minMemory) ==>
              x in GpuIds(w.gpus) && x !in HeldBy(w, heap, w.tasks.Keys)
  {
    forall x | x in EligibleIds(w.gpus, minMemory) ensures x in GpuIds(w.gpus) && !Held(w, heap, x) {
      EligibleMember(w.gpus, minMemory, x);
    }
  }

  lemma HeldAreGpus(name: string, w: Worker, heap: seq<Task>, base: set<string>)
    requires BooksInOrder(name, w, heap, base)
    ensures HeldBy(w, heap, w.tasks.Keys) <= GpuIds(w.gpus)
  {
    forall x | x in HeldBy(w, heap, w.tasks.Keys) ensures x in GpuIds(w.gpus) {
      var id :| id in w.tasks && x in heap[w.tasks[id]].gpuIds;
      assert Booked(name, w, heap[w.tasks[id]], id, base);
      assert Suits(w, heap[w.tasks[id]], x);
    }
  }

  ghost predicate AsksForGpus(e: Event) {
    e.Submit? && e.sub.NewTask? ==> e.sub.task.required >= 1
  }

  ghost predicate AllAskForGpus(s: State) {
    forall r :: 0 <= r < |s.heap| ==> s.heap[r].required >= 1
  }

  lemma SweepKeepsDemand(p: Kind, s: State, ds: seq<Decision>)
    requires WellFormed(s) && ValidSweep(p, s, 0, ds)
    requires AllAskForGpus(s)
    ensures AllAskForGpus(Sweep(p, s, 0, ds))
  {
    SweepHeapSize(p, s, 0, ds);
    forall r | 0 <= r < |s.heap| ensures Sweep(p, s, 0, ds).heap[r].required >= 1 {
      SweepStartsPlaced(p, s, 0, ds, r);
    }
  }

  lemma {:induction false} SweepHeapSize(p: Kind, s: State, i: nat, ds: seq<Decision>)
    requires WellFormed(s) && i <= |s.pending| && ValidSweep(p, s, i, ds)
    ensures |Sweep(p, s, i, ds).heap| == |s.heap|
    decreases |s.pending| - i
  {
    if i < |s.pending| {
      var (s', i') := Advance(p, s, i, ds[0]);
      SweepHeapSize(p, s', i', ds[1..]);
    }
  }

  lemma ReportKeepsDemand(p: Kind, s: State, u: Update, ds: seq<Decision>)
    requires WellFormed(s) && LegalReport(p, s, u, ds) && AllAskForGpus(s)
    ensures AllAskForGpus(AfterReport(p, s, u, ds))
  {
    if Accepted(s, u) && u.status.Final() {
      assert AllAskForGpus(Reported(s, u));
      SweepKeepsDemand(p, Reported(s, u), ds);
    }
  }

  lemma SubmitKeepsDemand(p: Kind, s: State, sub: Submission, ds: seq<Decision>)
    requires WellFormed(s) && LegalSubmit(p, s, sub, ds) && AllAskForGpus(s)
    requires sub.NewTask? ==> sub.task.required >= 1
    ensures AllAskForGpus(AfterSubmit(p, s, sub, ds))
  {
    assert AllAskForGpus(Submitted(s, sub));
    SweepKeepsDemand(p, Submitted(s, sub), ds);
  }

  lemma StepKeepsDemand(p: Kind, s: State, e: Event, s': State)
    requires Step(p, s, e, s') && Inv(p, s) && AllAskForGpus(s) && AsksForGpus(e)
    ensures AllAskForGpus(s')
  {
    match e {
      case Register(name, gpus, address, ds) =>
        var wid := WorkerIdFor(name, |s.workers|);
        if wid !in s.workers {
          SweepKeepsDemand(p, Registered(s, wid, gpus, address), ds);
        }
      case Submit(sub, ds) => SubmitKeepsDemand(p, s, sub, ds);
      case Report(u, ds) => ReportKeepsDemand(p, s, u, ds);
      case Request(caller, chosen, now) => QuiescentRefuses(p, s, caller);
    }
  }

  lemma DemandNext(p: Kind, ss: seq<State>, es: seq<Event>, n: nat)
    requires Behavior(p, ss, es) && 0 < n < |ss| && Inv(p, ss[n - 1])
    requires AllAskForGpus(ss[n - 1]) && AsksForGpus(es[n - 1])
    ensures AllAskForGpus(ss[n])
  {
    assert Step(p, ss[n - 1], es[n - 1], ss[n]);
    StepKeepsDemand(p, ss[n - 1], es[n - 1], ss[n]);
  }

  lemma {:induction false} AlwaysAsksForGpus(p: Kind, ss: seq<State>, es: seq<Event>, n: nat)
    requires Behavior(p, ss, es) && n < |ss| && forall i :: 0 <= i < |es| ==> AsksForGpus(es[i])
    ensures AllAskForGpus(ss[n])
  {
    if n > 0 {
      AlwaysAsksForGpus(p, ss, es, n - 1);
      AlwaysQuiescent(p, ss, es, n - 1);
      DemandNext(p, ss, es, n);
    }
  }

  /** Balanced score bound: in honest runs where every task asks for a GPU, a candidate's score involves
      no division by zero and lies in [-1, 1). */
  lemma BalancedScoreBound(p: Kind, ss: seq<State>, es: seq<Event>, bs: seq<Baseline>, n: nat, w: string, t: Task)
    requires HonestBehavior(p, ss, es, bs) && n < |ss| && w in ss[n].workers
    requires forall i :: 0 <= i < |es| ==> AsksForGpus(es[i])
    requires t.required >= 1 && Candidate(Balanced, ss[n].workers[w], t)
    ensures var b := ss[n].workers[w];
            && |b.tasks| + |EligibleIds(b.gpus, t.minMemory)| <= |b.gpus|
            && Score(Balanced, b, t).Some? && -1.0 <= Score(Balanced, b, t).value < 1.0
  {
    AlwaysHonestInv(p, ss, es, bs, n);
    AlwaysAsksForGpus(p, ss, es, n);
    var s, base := ss[n], bs[n];
    TasksAndFreeGpusFit(w, s.workers[w], s.heap, base[w], t.minMemory);
    ScoreRange(|s.workers[w].tasks|, |EligibleIds(s.workers[w].gpus, t.minMemory)|, |s.workers[w].gpus|);
  }

  lemma ScoreRange(tasks: nat, eligible: nat, total: nat)
    requires tasks + eligible <= total && eligible >= 1
    ensures -1.0 <= tasks as real / total as real - eligible as real / total as real < 1.0
  {
    Fraction(tasks as real, total as real);
    Fraction(eligible as real, total as real);
  }

  lemma Fraction(a: real, n: real)
    requires 0.0 <= a <= n && n > 0.0
    ensures 0.0 <= a / n <= 1.0
    ensures a > 0.0 ==> a / n > 0.0
    ensures a < n ==> a / n < 1.0
  {
    assert a / n * n == a;
  }
}
