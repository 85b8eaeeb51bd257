/** First come, first served: a task never overtakes one that was submitted before it and asks for no more. */
module FirstCome {
  import opened Cluster
  import opened Policy
  import opened Scheduling
  import opened Quiescence
  import opened Books
  import opened Exclusion
  import opened Requirements
  import opened Consequences

  ghost predicate AsksNoMore(a: Task, b: Task) {
    a.required <= b.required && a.minMemory <= b.minMemory
  }

  /** Wherever `x` stands in the queue, `y` stands further back. */
  ghost predicate Ahead(queue: seq<TaskRef>, x: TaskRef, y: TaskRef) {
    forall k :: 0 <= k < |queue| && queue[k] == x ==> exists m :: k < m < |queue| && queue[m] == y
  }

  // ---------------------------------------------------------------- a larger demand is refused first

  lemma {:induction false} LargerMemoryFitsLess(gpus: seq<GPU>, m: nat, n: nat)
    requires m <= n
    ensures |EligibleIds(gpus, n)| <= |EligibleIds(gpus, m)|
  {
    if gpus != [] {
      LargerMemoryFitsLess(gpus[..|gpus| - 1], m, n);
    }
  }

  lemma LargerDemandIsRefused(p: Kind, s: State, a: Task, b: Task)
    requires WellFormed(s) && AsksNoMore(a, b) && !Feasible(p, s.workers, a)
    ensures !Feasible(p, s.workers, b)
  {
    forall w | w in s.workers ensures !Candidate(p, s.workers[w], b) {
      LargerMemoryFitsLess(s.workers[w].gpus, a.minMemory, b.minMemory);
      assert !Candidate(p, s.workers[w], a);
    }
  }

  // ---------------------------------------------------------------- one sweep

  lemma RemovalKeepsAhead(q: seq<TaskRef>, i: nat, x: TaskRef, y: TaskRef)
    requires i < |q| && Ahead(q, x, y) && q[i] != y
    ensures Ahead(q[..i] + q[i + 1..], x, y)
  {
    var q' := q[..i] + q[i + 1..];
    forall k | 0 <= k < |q'| && q'[k] == x ensures exists m :: k < m < |q'| && q'[m] == y {
      var l := if k < i then k else k + 1;
      assert q[l] == x;
      var m :| l < m < |q| && q[m] == y;
      assert q'[if m < i then m else m - 1] == y;
    }
  }

  /** When the sweep places the later task it has already refused the earlier one, unless that has left. */
  lemma PlacedAfterEarlier(p: Kind, s: State, i: nat, x: TaskRef, y: TaskRef)
    requires WellFormed(s) && NoDuplicates(s.pending) && Ahead(s.pending, x, y) && x < |s.heap| && y < |s.heap|
    requires AsksNoMore(s.heap[x], s.heap[y])
    requires i < |s.pending| && s.pending[i] == y && Feasible(p, s.workers, s.heap[y])
    requires forall k :: 0 <= k < i ==> Refused(p, s, k)
    ensures x !in s.pending
  {
    if x in s.pending {
      var k :| 0 <= k < |s.pending| && s.pending[k] == x;
      var m :| k < m < |s.pending| && s.pending[m] == y;
      assert m == i && Refused(p, s, k);
      LargerDemandIsRefused(p, s, s.heap[x], s.heap[y]);
    }
  }

  lemma PlacingKeepsAhead(p: Kind, s: State, i: nat, w: string, now: Time, x: TaskRef, y: TaskRef)
    requires WellFormed(s) && NoDuplicates(s.pending) && Ahead(s.pending, x, y) && x < |s.heap| && y < |s.heap|
    requires AsksNoMore(s.heap[x], s.heap[y])
    requires i < |s.pending| && Takes(p, s, i, Place(w, now))
    requires forall k :: 0 <= k < i ==> Refused(p, s, k)
    ensures Ahead(Assign(s, i, w, w, now).pending, x, y) && NoDuplicates(Assign(s, i, w, w, now).pending)
  {
    RemovedFromQueue(s.pending, i);
    if s.pending[i] == y {
      PlacedAfterEarlier(p, s, i, x, y);
    } else {
      RemovalKeepsAhead(s.pending, i, x, y);
    }
  }

  lemma {:induction false} SweepKeepsAhead(p: Kind, s: State, i: nat, ds: seq<Decision>, x: TaskRef, y: TaskRef)
    requires WellFormed(s) && NoDuplicates(s.pending) && Ahead(s.pending, x, y) && x < |s.heap| && y < |s.heap|
    requires AsksNoMore(s.heap[x], s.heap[y])
    requires i <= |s.pending| && ValidSweep(p, s, i, ds)
    requires forall k :: 0 <= k < i ==> Refused(p, s, k)
    ensures Ahead(Sweep(p, s, i, ds).pending, x, y)
    decreases |s.pending| - i
  {
    if i < |s.pending| {
      var (s', i') := Advance(p, s, i, ds[0]);
      if ds[0].Place? {
        PlacingKeepsAhead(p, s, i, ds[0].worker, ds[0].now, x, y);
      }
      forall k | 0 <= k < i' ensures Refused(p, s', k) {
        if ds[0].Place? {
          PlacingKeepsRefused(p, s, i, ds[0].worker, ds[0].now, k);
        }
      }
      SweepKeepsAhead(p, s', i', ds[1..], x, y);
    }
  }

  // ---------------------------------------------------------------- a submitted task stays what it is

  /** The task table knows the request under its id. */
  ghost predicate Tracked(s: State, t: Task) {
    t.id in s.tasks && s.tasks[t.id] < |s.heap| && SameRequest(t, s.heap[s.tasks[t.id]])
  }

  lemma SweepKeepsTracked(p: Kind, s: State, ds: seq<Decision>, t: Task)
    requires WellFormed(s) && ValidSweep(p, s, 0, ds) && Tracked(s, t)
    ensures var s' := Sweep(p, s, 0, ds); Tracked(s', t) && s'.tasks == s.tasks
  {
    SweepKeepsTable(p, s, 0, ds);
    SweepStartsPlaced(p, s, 0, ds, s.tasks[t.id]);
  }

  /** The first of the two requests is known; once the second is known too it is queued behind the first. */
  ghost predicate InTurn(s: State, a: Task, b: Task) {
    && WellFormed(s) && QueueKnown(s) && Tracked(s, a)
    && (b.id in s.tasks ==> Tracked(s, b) && Ahead(s.pending, s.tasks[a.id], s.tasks[b.id]))
  }

  lemma SweepKeepsTurn(p: Kind, s: State, ds: seq<Decision>, a: Task, b: Task)
    requires InTurn(s, a, b) && AsksNoMore(a, b) && ValidSweep(p, s, 0, ds)
    requires QueueKnown(Sweep(p, s, 0, ds))
    ensures InTurn(Sweep(p, s, 0, ds), a, b)
  {
    SweepKeepsTracked(p, s, ds, a);
    if b.id in s.tasks {
      SweepKeepsTracked(p, s, ds, b);
      SweepKeepsAhead(p, s, 0, ds, s.tasks[a.id], s.tasks[b.id]);
    }
  }

  // ---------------------------------------------------------------- every step

  lemma RegisterKeepsTurn(p: Kind, s: State, id: string, gpus: seq<GPU>, address: string, ds: seq<Decision>,
                          a: Task, b: Task)
    requires InTurn(s, a, b) && AsksNoMore(a, b) && LegalRegister(p, s, id, gpus, address, ds)
    requires QueueKnown(AfterRegister(p, s, id, gpus, address, ds))
    ensures InTurn(AfterRegister(p, s, id, gpus, address, ds), a, b)
  {
    var wid := WorkerIdFor(id, |s.workers|);
    if wid !in s.workers {
      var s' := Registered(s, wid, gpus, address);
      assert forall k :: 0 <= k < |s'.pending| ==> Enqueued(s, s'.pending[k]);
      assert InTurn(s', a, b);
      SweepKeepsTurn(p, s', ds, a, b);
    }
  }

  /** A new task is queued behind everything that is queued already. */
  lemma SubmittedKeepsTurn(s: State, t: Task, a: Task, b: Task)
    requires InTurn(s, a, b) && t.id !in s.tasks && (t.id == b.id ==> SameRequest(b, t))
    requires WellFormed(s) && QueueKnown(Submitted(s, NewTask(t)))
    ensures InTurn(Submitted(s, NewTask(t)), a, b)
  {
    var s' := Submitted(s, NewTask(t));
    assert forall r :: 0 <= r < |s.heap| ==> s'.heap[r] == s.heap[r];
    assert s'.tasks[a.id] == s.tasks[a.id];
    var last := |s.pending|;
    assert forall k :: 0 <= k < last ==> s'.pending[k] == s.pending[k];
    if t.id == b.id {
      assert s'.pending[last] == s'.tasks[b.id];
    } else if b.id in s.tasks {
      assert s'.tasks[b.id] == s.tasks[b.id];
      forall k | 0 <= k < |s'.pending| && s'.pending[k] == s'.tasks[a.id]
        ensures exists m :: k < m < |s'.pending| && s'.pending[m] == s'.tasks[b.id]
      {
        var m :| k < m < last && s.pending[m] == s.tasks[b.id];
        assert s'.pending[m] == s'.tasks[b.id];
      }
    }
  }

  lemma ReportedKeepsTurn(s: State, u: Update, a: Task, b: Task)
    requires InTurn(s, a, b) && Accepted(s, u)
    ensures InTurn(Reported(s, u), a, b)
  {
    var s' := Reported(s, u);
    forall k | 0 <= k < |s'.pending| ensures Enqueued(s', s'.pending[k]) {
      assert Enqueued(s, s.pending[k]);
    }
  }

  lemma ReportKeepsTurn(p: Kind, s: State, u: Update, ds: seq<Decision>, a: Task, b: Task)
    requires InTurn(s, a, b) && AsksNoMore(a, b) && LegalReport(p, s, u, ds)
    requires QueueKnown(AfterReport(p, s, u, ds))
    ensures InTurn(AfterReport(p, s, u, ds), a, b)
  {
    if Accepted(s, u) {
      ReportedKeepsTurn(s, u, a, b);
      if u.status.Final() {
        SweepKeepsTurn(p, Reported(s, u), ds, a, b);
      }
    }
  }

  /** If the request becomes known in this step, it is as described. */
  ghost predicate AsDescribed(s: State, s': State, b: Task) {
    b.id !in s.tasks && b.id in s'.tasks ==> Tracked(s', b)
  }

  lemma SubmitKeepsTurn(p: Kind, s: State, t: Task, ds: seq<Decision>, a: Task, b: Task)
    requires InTurn(s, a, b) && AsksNoMore(a, b) && t.id !in s.tasks
    requires Linked(s) && LegalSubmit(p, s, NewTask(t), ds)
    requires QueueKnown(AfterSubmit(p, s, NewTask(t), ds)) && AsDescribed(s, AfterSubmit(p, s, NewTask(t), ds), b)
    ensures InTurn(AfterSubmit(p, s, NewTask(t), ds), a, b)
  {
    SubmittingKeepsLinked(s, t);
    SubmittedIsTracked(p, s, t, ds);
    SubmittedKeepsTurn(s, t, a, b);
    SweepKeepsTurn(p, Submitted(s, NewTask(t)), ds, a, b);
  }

  lemma SubmittedIsTracked(p: Kind, s: State, t: Task, ds: seq<Decision>)
    requires WellFormed(s) && LegalSubmit(p, s, NewTask(t), ds)
    ensures Tracked(AfterSubmit(p, s, NewTask(t), ds), t)
  {
    SweepKeepsTracked(p, Submitted(s, NewTask(t)), ds, t);
  }

  lemma StepKeepsTurn(p: Kind, s: State, e: Event, s': State, a: Task, b: Task)
    requires Step(p, s, e, s') && Inv(p, s) && FreshInv(s) && Fresh(s, e) && FreshInv(s')
    requires InTurn(s, a, b) && AsksNoMore(a, b) && AsDescribed(s, s', b)
    ensures InTurn(s', a, b)
  {
    match e {
      case Register(id, gpus, address, ds) => RegisterKeepsTurn(p, s, id, gpus, address, ds, a, b);
      case Submit(sub, ds) => SubmitKeepsTurn(p, s, sub.task, ds, a, b);
      case Report(u, ds) => ReportKeepsTurn(p, s, u, ds, a, b);
      case Request(caller, chosen, now) => QuiescentRefuses(p, s, caller);
    }
  }

  // ---------------------------------------------------------------- over a run

  /** The task table only grows. */
  lemma StepKeepsIds(p: Kind, s: State, e: Event, s': State)
    requires Step(p, s, e, s') && Inv(p, s)
    ensures forall id :: id in s.tasks ==> id in s'.tasks
  {
    match e {
      case Register(id, gpus, address, ds) =>
        if WorkerIdFor(id, |s.workers|) !in s.workers {
          SweepKeepsTable(p, Registered(s, WorkerIdFor(id, |s.workers|), gpus, address), 0, ds);
        }
      case Submit(sub, ds) => SweepKeepsTable(p, Submitted(s, sub), 0, ds);
      case Report(u, ds) =>
        if Accepted(s, u) && u.status.Final() {
          SweepKeepsTable(p, Reported(s, u), 0, ds);
        }
      case Request(caller, chosen, now) => QuiescentRefuses(p, s, caller);
    }
  }

  lemma IdsNext(p: Kind, ss: seq<State>, es: seq<Event>, n: nat)
    requires Behavior(p, ss, es) && 0 < n < |ss|
    ensures forall id :: id in ss[n - 1].tasks ==> id in ss[n].tasks
  {
    AlwaysQuiescent(p, ss, es, n - 1);
    assert Step(p, ss[n - 1], es[n - 1], ss[n]);
    StepKeepsIds(p, ss[n - 1], es[n - 1], ss[n]);
  }

  lemma {:induction false} IdStays(p: Kind, ss: seq<State>, es: seq<Event>, m: nat, n: nat, id: string)
    requires Behavior(p, ss, es) && m <= n < |ss| && id in ss[m].tasks
    ensures id in ss[n].tasks
    decreases n
  {
    if m < n {
      IdStays(p, ss, es, m, n - 1, id);
      IdsNext(p, ss, es, n);
    }
  }

  /** Between these two states the request becomes known. */
  ghost predicate Arrives(ss: seq<State>, j: nat, b: Task) {
    j + 1 < |ss| && b.id !in ss[j].tasks && Tracked(ss[j + 1], b)
  }

  lemma SubmissionArrives(p: Kind, ss: seq<State>, es: seq<Event>, bs: seq<Baseline>, j: nat, b: Task)
    requires FreshBehavior(p, ss, es, bs) && j < |es| && es[j].Submit? && es[j].sub == NewTask(b)
    ensures Arrives(ss, j, b)
  {
    assert Step(p, ss[j], es[j], ss[j + 1]) && Fresh(ss[j], es[j]);
    SubmittedIsTracked(p, ss[j], b, es[j].ds);
  }

  lemma DescribedOnce(p: Kind, ss: seq<State>, es: seq<Event>, j: nat, n: nat, b: Task)
    requires Behavior(p, ss, es) && Arrives(ss, j, b) && n + 1 < |ss|
    ensures AsDescribed(ss[n], ss[n + 1], b)
  {
    if n < j && b.id in ss[n + 1].tasks {
      IdStays(p, ss, es, n + 1, j, b.id);
    } else if n > j {
      IdStays(p, ss, es, j + 1, n, b.id);
    }
  }

  lemma TurnStarts(p: Kind, ss: seq<State>, es: seq<Event>, bs: seq<Baseline>, i: nat, j: nat, a: Task, b: Task)
    requires FreshBehavior(p, ss, es, bs) && i < j && Arrives(ss, i, a) && Arrives(ss, j, b)
    ensures InTurn(ss[i + 1], a, b)
  {
    AlwaysFreshInv(p, ss, es, bs, i + 1);
    if b.id in ss[i + 1].tasks {
      IdStays(p, ss, es, i + 1, j, b.id);
    }
  }

  lemma TurnNext(p: Kind, ss: seq<State>, es: seq<Event>, bs: seq<Baseline>, j: nat, n: nat, a: Task, b: Task)
    requires FreshBehavior(p, ss, es, bs) && Arrives(ss, j, b) && 0 < n < |ss|
    requires AsksNoMore(a, b) && InTurn(ss[n - 1], a, b)
    ensures InTurn(ss[n], a, b)
  {
    AlwaysQuiescent(p, ss, es, n - 1);
    AlwaysFreshInv(p, ss, es, bs, n - 1);
    AlwaysFreshInv(p, ss, es, bs, n);
    DescribedOnce(p, ss, es, j, n - 1, b);
    assert Step(p, ss[n - 1], es[n - 1], ss[n]) && Fresh(ss[n - 1], es[n - 1]);
    StepKeepsTurn(p, ss[n - 1], es[n - 1], ss[n], a, b);
  }

  lemma {:induction false} AlwaysInTurn(p: Kind, ss: seq<State>, es: seq<Event>, bs: seq<Baseline>, i: nat, j: nat,
                                        n: nat, a: Task, b: Task)
    requires FreshBehavior(p, ss, es, bs) && i < j && Arrives(ss, i, a) && Arrives(ss, j, b) && AsksNoMore(a, b)
    requires i < n < |ss|
    ensures InTurn(ss[n], a, b)
    decreases n
  {
    if n == i + 1 {
      TurnStarts(p, ss, es, bs, i, j, a, b);
    } else {
      AlwaysInTurn(p, ss, es, bs, i, j, n - 1, a, b);
      TurnNext(p, ss, es, bs, j, n, a, b);
    }
  }

  /** The task of that id waits at position `k` of the queue. */
  ghost predicate QueuedAt(s: State, id: string, k: int) {
    0 <= k < |s.pending| && s.pending[k] < |s.heap| && s.heap[s.pending[k]].id == id
  }

  lemma QueuedInTurn(s: State, a: Task, b: Task, k: int)
    requires InTurn(s, a, b) && b.id in s.tasks && QueuedAt(s, a.id, k)
    ensures exists m :: k < m && QueuedAt(s, b.id, m)
  {
    assert Enqueued(s, s.pending[k]);
    var m :| k < m < |s.pending| && s.pending[m] == s.tasks[b.id];
    assert QueuedAt(s, b.id, m);
  }

  /** First come, first served: in every run with fresh names and without restarts, if a task is submitted before
      another one and asks for no more GPUs and no more memory per GPU, then in every state in which it is still
      queued the other one, once submitted, is queued too, further back. */
  lemma FirstComeFirstServed(p: Kind, ss: seq<State>, es: seq<Event>, bs: seq<Baseline>, i: nat, j: nat, n: nat,
                             a: Task, b: Task, k: int)
    requires FreshBehavior(p, ss, es, bs) && i < j < n < |ss|
    requires es[i].Submit? && es[i].sub == NewTask(a) && es[j].Submit? && es[j].sub == NewTask(b)
    requires a.required <= b.required && a.minMemory <= b.minMemory
    requires QueuedAt(ss[n], a.id, k)
    ensures exists m :: k < m && QueuedAt(ss[n], b.id, m)
  {
    SubmissionArrives(p, ss, es, bs, i, a);
    SubmissionArrives(p, ss, es, bs, j, b);
    AlwaysInTurn(p, ss, es, bs, i, j, n, a, b);
    IdStays(p, ss, es, j + 1, n, b.id);
    QueuedInTurn(ss[n], a, b, k);
  }
}
