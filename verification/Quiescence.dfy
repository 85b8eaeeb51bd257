/** Results about every run of the scheduler, whatever its clients send: no task the policy would
    accept is ever left waiting, RequestTask never hands anything out, and worker statuses agree
    with the workers' books. */
module Quiescence {
  import opened Cluster
  import opened Policy
  import opened Scheduling

  // ---------------------------------------------------------------- runs

  ghost predicate Initial(s: State) {
    && s.workers == map[] && s.tasks == map[] && s.heap == [] && s.pending == []
    && (s.metrics.Some? ==> s.metrics.value == Counters(0, 0, 0))
  }

  ghost predicate Step(p: Kind, s: State, e: Event, s': State) {
    WellFormed(s) && Legal(p, s, e) && s' == Exec(p, s, e)
  }

  /** `ss` is the sequence of states that the events `es` lead through, from an empty scheduler. */
  ghost predicate Behavior(p: Kind, ss: seq<State>, es: seq<Event>) {
    && |ss| == |es| + 1 && Initial(ss[0])
    && forall i {:trigger es[i]} :: 0 <= i < |es| ==> Step(p, ss[i], es[i], ss[i + 1])
  }

  // ---------------------------------------------------------------- the invariant

  ghost predicate Refused(p: Kind, s: State, k: nat)
    requires WellFormed(s) && k < |s.pending|
  {
    !Feasible(p, s.workers, s.heap[s.pending[k]])
  }

  ghost predicate Quiescent(p: Kind, s: State)
    requires WellFormed(s)
  {
    forall k :: 0 <= k < |s.pending| ==> Refused(p, s, k)
  }

  ghost predicate WorkerAgrees(p: Kind, w: Worker) {
    && w.status == (if |w.tasks| == 0 then IDLE else BUSY)
    && (p == Simple ==> |w.tasks| <= 1)
  }

  /** BUSY exactly when there are tasks, otherwise IDLE; one task at most under the simple policy. */
  ghost predicate StatusAgrees(p: Kind, s: State) {
    forall w :: w in s.workers ==> WorkerAgrees(p, s.workers[w])
  }

  ghost predicate Inv(p: Kind, s: State) {
    WellFormed(s) && Quiescent(p, s) && StatusAgrees(p, s) && "" !in s.workers
  }

  // ---------------------------------------------------------------- infeasibility is monotone

  lemma MarkedShrinks(gpus: seq<GPU>, ids: seq<string>)
    ensures Shrunk(gpus, Marked(gpus, ids, false))
  {
  }

  /** Placing a task never makes another one feasible: it only takes GPUs away, and under the simple
      policy it takes the whole worker away. */
  lemma PlacingKeepsRefusal(p: Kind, s: State, i: nat, w: string, now: Time, t: Task)
    requires WellFormed(s) && i < |s.pending| && Takes(p, s, i, Place(w, now))
    requires !Feasible(p, s.workers, t)
    ensures !Feasible(p, Assign(s, i, w, w, now).workers, t)
  {
    var s' := Assign(s, i, w, w, now);
    forall v | v in s'.workers ensures !Candidate(p, s'.workers[v], t) {
      assert v in s.workers && !Candidate(p, s.workers[v], t);
      if v == w {
        var before, after := s.workers[w].gpus, s'.workers[w].gpus;
        MarkedShrinks(before, Grant(s.workers[w], s.heap[s.pending[i]]));
        ShrunkEligible(before, after, t.minMemory);
        assert |EligibleIds(before, t.minMemory)| < 0x1_0000_0000;
      }
    }
  }

  /** Feasibility looks only at what the task asks for. */
  lemma SameDemand(p: Kind, workers: map<string, Worker>, t: Task, t': Task)
    requires t.required == t'.required && t.minMemory == t'.minMemory
    ensures Feasible(p, workers, t) <==> Feasible(p, workers, t')
  {
    assert forall w :: w in workers ==> (Candidate(p, workers[w], t) <==> Candidate(p, workers[w], t'));
  }

  lemma PlacingKeepsRefused(p: Kind, s: State, i: nat, w: string, now: Time, k: nat)
    requires WellFormed(s) && i < |s.pending| && Takes(p, s, i, Place(w, now))
    requires k < |s.pending| && Refused(p, s, k)
    requires k != i
    ensures Refused(p, Assign(s, i, w, w, now), if k < i then k else k - 1)
  {
    var s' := Assign(s, i, w, w, now);
    var k' := if k < i then k else k - 1;
    assert s'.pending[k'] == s.pending[k];
    PlacingKeepsRefusal(p, s, i, w, now, s.heap[s.pending[k]]);
    SameDemand(p, s'.workers, s.heap[s.pending[k]], s'.heap[s.pending[k]]);
  }

  // ---------------------------------------------------------------- the sweep

  /** One sweep is enough: afterwards the policy refuses everything that is still queued. */
  lemma {:induction false} SweepQuiesces(p: Kind, s: State, i: nat, ds: seq<Decision>)
    requires WellFormed(s) && i <= |s.pending| && ValidSweep(p, s, i, ds)
    requires forall k :: 0 <= k < i ==> Refused(p, s, k)
    ensures Quiescent(p, Sweep(p, s, i, ds))
    decreases |s.pending| - i
  {
    if i < |s.pending| {
      var (s', i') := Advance(p, s, i, ds[0]);
      forall k | 0 <= k < i' ensures Refused(p, s', k) {
        if ds[0].Place? {
          PlacingKeepsRefused(p, s, i, ds[0].worker, ds[0].now, k);
        }
      }
      SweepQuiesces(p, s', i', ds[1..]);
    }
  }

  /** A sweep of a quiescent state changes nothing. */
  lemma {:induction false} SecondSweepIsNoOp(p: Kind, s: State, i: nat, ds: seq<Decision>)
    requires WellFormed(s) && i <= |s.pending| && ValidSweep(p, s, i, ds) && Quiescent(p, s)
    ensures Sweep(p, s, i, ds) == s
    decreases |s.pending| - i
  {
    if i < |s.pending| {
      assert Refused(p, s, i);
      SecondSweepIsNoOp(p, s, i + 1, ds[1..]);
    }
  }

  /** The worker that takes a task was IDLE without tasks under the simple policy, and is BUSY with one more now. */
  lemma PlacingKeepsStatus(p: Kind, s: State, i: nat, w: string, now: Time)
    requires WellFormed(s) && i < |s.pending| && Takes(p, s, i, Place(w, now)) && StatusAgrees(p, s)
    ensures StatusAgrees(p, Assign(s, i, w, w, now))
  {
    var b, b' := s.workers[w], Assign(s, i, w, w, now).workers[w];
    var id := s.heap[s.pending[i]].id;
    assert WorkerAgrees(p, b);
    assert b'.tasks.Keys == b.tasks.Keys + {id};
    assert b.status == IDLE ==> b.tasks.Keys == {};
    assert WorkerAgrees(p, b');
  }

  lemma {:induction false} SweepKeepsStatus(p: Kind, s: State, i: nat, ds: seq<Decision>)
    requires WellFormed(s) && i <= |s.pending| && ValidSweep(p, s, i, ds) && StatusAgrees(p, s)
    ensures StatusAgrees(p, Sweep(p, s, i, ds))
    decreases |s.pending| - i
  {
    if i < |s.pending| {
      var (s', i') := Advance(p, s, i, ds[0]);
      if ds[0].Place? {
        PlacingKeepsStatus(p, s, i, ds[0].worker, ds[0].now);
      }
      SweepKeepsStatus(p, s', i', ds[1..]);
    }
  }

  lemma {:induction false} SweepKeepsNames(p: Kind, s: State, i: nat, ds: seq<Decision>)
    requires WellFormed(s) && i <= |s.pending| && ValidSweep(p, s, i, ds)
    ensures Sweep(p, s, i, ds).workers.Keys == s.workers.Keys
    decreases |s.pending| - i
  {
    if i < |s.pending| {
      var (s', i') := Advance(p, s, i, ds[0]);
      assert s'.workers.Keys == s.workers.Keys;
      SweepKeepsNames(p, s', i', ds[1..]);
    }
  }

  ghost function Kept(r: TaskRef, d: Decision): seq<TaskRef> {
    if d.Skip? then [r] else []
  }

  /** The queue entries that a course of decisions leaves, in order. */
  ghost function Survivors(queue: seq<TaskRef>, ds: seq<Decision>): seq<TaskRef>
    requires |queue| == |ds|
  {
    if ds == [] then []
    else Kept(queue[0], ds[0]) + Survivors(queue[1..], ds[1..])
  }

  /** `r` is given to a worker somewhere in the course of decisions. */
  ghost predicate Placed(queue: seq<TaskRef>, ds: seq<Decision>, r: TaskRef)
    requires |queue| == |ds|
  {
    exists k :: 0 <= k < |ds| && queue[k] == r && ds[k].Place?
  }

  lemma PlacedCons(queue: seq<TaskRef>, ds: seq<Decision>, r: TaskRef)
    requires |queue| == |ds| > 0
    ensures Placed(queue, ds, r) <==> (ds[0].Place? && r == queue[0]) || Placed(queue[1..], ds[1..], r)
  {
    if Placed(queue[1..], ds[1..], r) {
      var k :| 0 <= k < |ds[1..]| && queue[1..][k] == r && ds[1..][k].Place?;
      assert queue[k + 1] == r && ds[k + 1].Place?;
    }
    if Placed(queue, ds, r) {
      var k :| 0 <= k < |ds| && queue[k] == r && ds[k].Place?;
      assert k > 0 ==> queue[1..][k - 1] == r && ds[1..][k - 1].Place?;
    }
  }

  /** The rest of the queue after one decision. */
  lemma AdvanceQueue(p: Kind, s: State, i: nat, d: Decision)
    requires WellFormed(s) && i < |s.pending| && Takes(p, s, i, d)
    ensures var (s', i') := Advance(p, s, i, d);
            && s'.pending[i'..] == s.pending[i..][1..]
            && s'.pending[..i'] == s.pending[..i] + (if d.Skip? then [s.pending[i]] else [])
  {
  }

  lemma ConcatAssociative<T>(a: seq<T>, b: seq<T>, c: seq<T>)
    ensures (a + b) + c == a + (b + c)
  {
  }

  lemma AdvanceSplits(p: Kind, s: State, done: seq<TaskRef>, queue: seq<TaskRef>, d: Decision)
    requires WellFormed(s) && queue != [] && s.pending == done + queue && Takes(p, s, |done|, d)
    ensures Advance(p, s, |done|, d).0.pending == (done + Kept(queue[0], d)) + queue[1..]
    ensures Advance(p, s, |done|, d).1 == |done + Kept(queue[0], d)|
  {
  }

  /** The in-place loop treats every entry of the original queue once, left to right, and the
      survivors keep their order. */
  lemma {:induction false} SweepKeepsOrder(p: Kind, s: State, done: seq<TaskRef>, queue: seq<TaskRef>,
                                           ds: seq<Decision>)
    requires WellFormed(s) && s.pending == done + queue && ValidSweep(p, s, |done|, ds)
    ensures |ds| == |queue|
    ensures Sweep(p, s, |done|, ds).pending == done + Survivors(queue, ds)
    decreases |queue|
  {
    if queue == [] {
      assert done + [] == done;
    } else {
      var (s', i') := Advance(p, s, |done|, ds[0]);
      var kept := Kept(queue[0], ds[0]);
      AdvanceSplits(p, s, done, queue, ds[0]);
      SweepKeepsOrder(p, s', done + kept, queue[1..], ds[1..]);
      ConcatAssociative(done, kept, Survivors(queue[1..], ds[1..]));
    }
  }

  ghost predicate SameRequest(t: Task, t': Task) {
    t'.id == t.id && t'.required == t.required && t'.minMemory == t.minMemory
  }

  /** The task is started on a registered worker if it is placed, and unchanged otherwise. */
  ghost predicate StartedIf(placed: bool, t: Task, t': Task, names: set<string>) {
    && SameRequest(t, t')
    && if placed then t'.status == RUNNING && t'.workerId in names else t' == t
  }

  lemma AdvanceStarts(p: Kind, s: State, i: nat, d: Decision, r: TaskRef)
    requires WellFormed(s) && i < |s.pending| && Takes(p, s, i, d) && r < |s.heap|
    ensures var s' := Advance(p, s, i, d).0;
            && |s'.heap| == |s.heap| && s'.workers.Keys == s.workers.Keys
            && StartedIf(d.Place? && r == s.pending[i], s.heap[r], s'.heap[r], s.workers.Keys)
  {
  }

  /** The tasks cut out of the queue are exactly those that were started; no other task changes. */
  lemma {:induction false} SweepStartsPlaced(p: Kind, s: State, i: nat, ds: seq<Decision>, r: TaskRef)
    requires WellFormed(s) && i <= |s.pending| && ValidSweep(p, s, i, ds) && r < |s.heap|
    ensures |ds| == |s.pending| - i && |Sweep(p, s, i, ds).heap| == |s.heap|
    ensures StartedIf(Placed(s.pending[i..], ds, r), s.heap[r], Sweep(p, s, i, ds).heap[r], s.workers.Keys)
    decreases |s.pending| - i
  {
    if i < |s.pending| {
      var (s', i') := Advance(p, s, i, ds[0]);
      AdvanceQueue(p, s, i, ds[0]);
      AdvanceStarts(p, s, i, ds[0], r);
      SweepStartsPlaced(p, s', i', ds[1..], r);
      PlacedCons(s.pending[i..], ds, r);
    }
  }

  // ---------------------------------------------------------------- every step keeps the invariant

  lemma SweepEstablishes(p: Kind, s: State, ds: seq<Decision>)
    requires WellFormed(s) && ValidSweep(p, s, 0, ds) && StatusAgrees(p, s) && "" !in s.workers
    ensures Inv(p, Sweep(p, s, 0, ds))
  {
    SweepQuiesces(p, s, 0, ds);
    SweepKeepsStatus(p, s, 0, ds);
    SweepKeepsNames(p, s, 0, ds);
  }

  lemma ReportedKeepsStatus(p: Kind, s: State, u: Update)
    requires WellFormed(s) && Accepted(s, u) && StatusAgrees(p, s)
    ensures StatusAgrees(p, Reported(s, u))
  {
    if u.status.Final() {
      var w := s.workers[u.workerId];
      assert WorkerAgrees(p, w);
      assert (w.tasks - {u.taskId}).Keys == w.tasks.Keys - {u.taskId};
    }
  }

  /** A report changes no demand, and one that is not final changes no worker. */
  lemma NotedKeepsQuiescence(p: Kind, s: State, u: Update)
    requires WellFormed(s) && Quiescent(p, s) && Accepted(s, u) && Reported(s, u).workers == s.workers
    ensures Quiescent(p, Reported(s, u))
  {
    var s' := Reported(s, u);
    forall k | 0 <= k < |s'.pending| ensures Refused(p, s', k) {
      assert Refused(p, s, k);
      SameDemand(p, s.workers, s.heap[s.pending[k]], s'.heap[s.pending[k]]);
    }
  }

  /** In a quiescent state RequestTask finds nothing to hand out. */
  lemma QuiescentRefuses(p: Kind, s: State, caller: string)
    requires WellFormed(s) && Quiescent(p, s)
    ensures !Grants(p, s, caller)
  {
    var k := FirstFeasible(p, s, 0);
    assert k < |s.pending| ==> Refused(p, s, k);
  }

  lemma RegisterKeepsInv(p: Kind, s: State, id: string, gpus: seq<GPU>, address: string, ds: seq<Decision>)
    requires Inv(p, s) && LegalRegister(p, s, id, gpus, address, ds)
    ensures Inv(p, AfterRegister(p, s, id, gpus, address, ds))
  {
    var wid := WorkerIdFor(id, |s.workers|);
    if wid !in s.workers {
      SweepEstablishes(p, Registered(s, wid, gpus, address), ds);
    }
  }

  lemma ReportKeepsInv(p: Kind, s: State, u: Update, ds: seq<Decision>)
    requires Inv(p, s) && LegalReport(p, s, u, ds)
    ensures Inv(p, AfterReport(p, s, u, ds))
  {
    if Accepted(s, u) {
      ReportedKeepsStatus(p, s, u);
      if u.status.Final() {
        SweepEstablishes(p, Reported(s, u), ds);
      } else {
        NotedKeepsQuiescence(p, s, u);
      }
    }
  }

  lemma StepKeepsInv(p: Kind, s: State, e: Event, s': State)
    requires Step(p, s, e, s') && Inv(p, s)
    ensures Inv(p, s')
  {
    match e {
      case Register(id, gpus, address, ds) => RegisterKeepsInv(p, s, id, gpus, address, ds);
      case Submit(sub, ds) => SweepEstablishes(p, Submitted(s, sub), ds);
      case Report(u, ds) => ReportKeepsInv(p, s, u, ds);
      case Request(caller, chosen, now) => QuiescentRefuses(p, s, caller);
    }
  }

  // ---------------------------------------------------------------- results over all runs

  lemma InvNext(p: Kind, ss: seq<State>, es: seq<Event>, n: nat)
    requires Behavior(p, ss, es) && 0 < n < |ss| && Inv(p, ss[n - 1])
    ensures Inv(p, ss[n])
  {
    assert Step(p, ss[n - 1], es[n - 1], ss[n]);
    StepKeepsInv(p, ss[n - 1], es[n - 1], ss[n]);
  }

  /** After every call, under either policy and any request contents, the policy refuses every task
      that is still queued, and every worker's status agrees with its books. */
  lemma {:induction false} AlwaysQuiescent(p: Kind, ss: seq<State>, es: seq<Event>, n: nat)
    requires Behavior(p, ss, es) && n < |ss|
    ensures Inv(p, ss[n])
  {
    if n > 0 {
      AlwaysQuiescent(p, ss, es, n - 1);
      InvNext(p, ss, es, n);
    }
  }

  /** In every reachable state RequestTask fails and changes nothing, so the branch that books a task
      on the calling worker is dead. */
  lemma RequestTaskAlwaysRefuses(p: Kind, ss: seq<State>, es: seq<Event>, n: nat, caller: string, chosen: string,
                                 now: Time)
    requires Behavior(p, ss, es) && n < |ss|
    ensures WellFormed(ss[n]) && !Grants(p, ss[n], caller)
    ensures LegalRequest(p, ss[n], caller, chosen) && AfterRequest(p, ss[n], caller, chosen, now) == ss[n]
  {
    AlwaysQuiescent(p, ss, es, n);
    QuiescentRefuses(p, ss[n], caller);
  }

  /** Status agreement: in every reachable state a worker is BUSY exactly when it has tasks and IDLE
      otherwise, and under the simple policy it never has more than one. */
  lemma StatusAgreement(p: Kind, ss: seq<State>, es: seq<Event>, n: nat, w: string)
    requires Behavior(p, ss, es) && n < |ss| && w in ss[n].workers
    ensures ss[n].workers[w].status == BUSY <==> ss[n].workers[w].tasks != map[]
    ensures ss[n].workers[w].status == IDLE <==> ss[n].workers[w].tasks == map[]
    ensures p == Simple ==> |ss[n].workers[w].tasks| <= 1
  {
    AlwaysQuiescent(p, ss, es, n);
    assert WorkerAgrees(p, ss[n].workers[w]);
  }
}
