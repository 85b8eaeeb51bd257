/** Runs of the scheduler that are interrupted by restarts.  Reports and requests are arbitrary; clients
    only have to submit under fresh ids and to name the GPUs of one worker apart. */
module Life {
  import opened Cluster
  import opened Policy
  import opened Scheduling
  import opened Quiescence
  import opened Books
  import opened Exclusion
  import opened Claims
  import opened Honest
  import opened Restart
  import P = Persistence

  // ---------------------------------------------------------------- runs with restarts

  datatype LifeEvent = Call(event: Event) | Reboot(trip: P.Trip)

  ghost predicate LifeStep(p: Kind, s: State, e: LifeEvent, s': State) {
    && WellFormed(s)
    && match e
       case Call(c) => Legal(p, s, c) && s' == Exec(p, s, c)
       case Reboot(t) => P.Reloads(s, t, s')
  }

  ghost predicate TidyEvent(s: State, e: LifeEvent) {
    e.Call? ==> Fresh(s, e.event) && (e.event.Submit? ==> NoDuplicates(e.event.sub.task.gpuIds))
  }

  ghost predicate TidyLife(p: Kind, ss: seq<State>, es: seq<LifeEvent>) {
    && |ss| == |es| + 1 && Initial(ss[0])
    && forall i {:trigger es[i]} :: 0 <= i < |es| ==> LifeStep(p, ss[i], es[i], ss[i + 1]) && TidyEvent(ss[i], es[i])
  }

  // ---------------------------------------------------------------- the invariant

  ghost predicate GrantsApart(s: State)
    requires WellFormed(s)
  {
    forall id :: id in s.tasks ==> NoDuplicates(s.heap[s.tasks[id]].gpuIds)
  }

  ghost predicate TidyBooks(s: State) {
    WellFormed(s) && QueueKnown(s) && IdsAgree(s) && IdsApart(s) && GrantsApart(s)
  }

  ghost predicate Tidy(p: Kind, s: State) {
    TidyBooks(s) && Quiescent(p, s)
  }

  lemma PlacingKeepsTidy(p: Kind, s: State, i: nat, w: string, now: Time)
    requires TidyBooks(s) && i < |s.pending| && Takes(p, s, i, Place(w, now))
    ensures TidyBooks(Assign(s, i, w, w, now))
  {
    var s' := Assign(s, i, w, w, now);
    GrantFacts(s.workers[w], s.heap[s.pending[i]]);
    RemovedFromQueue(s.pending, i);
    forall k | 0 <= k < |s'.pending|
      ensures Enqueued(s', s'.pending[k])
    {
      assert s'.pending[k] == s.pending[if k < i then k else k + 1];
    }
  }

  lemma {:induction false} SweepKeepsTidy(p: Kind, s: State, i: nat, ds: seq<Decision>)
    requires TidyBooks(s) && i <= |s.pending| && ValidSweep(p, s, i, ds)
    ensures TidyBooks(Sweep(p, s, i, ds))
    decreases |s.pending| - i
  {
    if i < |s.pending| {
      var (s', i') := Advance(p, s, i, ds[0]);
      if ds[0].Place? {
        PlacingKeepsTidy(p, s, i, ds[0].worker, ds[0].now);
      }
      SweepKeepsTidy(p, s', i', ds[1..]);
    }
  }

  lemma SweptTidy(p: Kind, s: State, ds: seq<Decision>)
    requires TidyBooks(s) && ValidSweep(p, s, 0, ds)
    ensures Tidy(p, Sweep(p, s, 0, ds))
  {
    SweepKeepsTidy(p, s, 0, ds);
    SweepQuiesces(p, s, 0, ds);
  }

  lemma SubmittedTidy(s: State, t: Task)
    requires TidyBooks(s) && t.id !in s.tasks && NoDuplicates(t.gpuIds)
    ensures TidyBooks(Submitted(s, NewTask(t)))
  {
    var s' := Submitted(s, NewTask(t));
    assert forall r :: 0 <= r < |s.heap| ==> s'.heap[r] == s.heap[r];
  }

  lemma ReportedTidy(s: State, u: Update)
    requires TidyBooks(s) && Accepted(s, u)
    ensures TidyBooks(Reported(s, u))
  {
    var s' := Reported(s, u);
    assert forall r :: 0 <= r < |s.heap| ==> s'.heap[r].id == s.heap[r].id && s'.heap[r].gpuIds == s.heap[r].gpuIds;
  }

  lemma RegisterKeepsTidy(p: Kind, s: State, id: string, gpus: seq<GPU>, address: string, ds: seq<Decision>)
    requires Tidy(p, s) && LegalRegister(p, s, id, gpus, address, ds) && DistinctIds(gpus)
    ensures Tidy(p, AfterRegister(p, s, id, gpus, address, ds))
  {
    var wid := WorkerIdFor(id, |s.workers|);
    if wid !in s.workers {
      SweptTidy(p, Registered(s, wid, gpus, address), ds);
    }
  }

  lemma ReportKeepsTidy(p: Kind, s: State, u: Update, ds: seq<Decision>)
    requires Tidy(p, s) && LegalReport(p, s, u, ds)
    ensures Tidy(p, AfterReport(p, s, u, ds))
  {
    if Accepted(s, u) {
      ReportedTidy(s, u);
      if u.status.Final() {
        SweptTidy(p, Reported(s, u), ds);
      } else {
        NotedKeepsQuiescence(p, s, u);
      }
    }
  }

  lemma CallKeepsTidy(p: Kind, s: State, e: Event)
    requires Tidy(p, s) && Legal(p, s, e) && TidyEvent(s, Call(e))
    ensures Tidy(p, Exec(p, s, e))
  {
    match e {
      case Register(id, gpus, address, ds) => RegisterKeepsTidy(p, s, id, gpus, address, ds);
      case Submit(sub, ds) =>
        SubmittedTidy(s, sub.task);
        SweptTidy(p, Submitted(s, sub), ds);
      case Report(u, ds) => ReportKeepsTidy(p, s, u, ds);
      case Request(caller, chosen, now) => QuiescentRefuses(p, s, caller);
    }
  }

  // ---------------------------------------------------------------- saving is total

  /** A tidy state can always be written: no insert meets a primary key that is already there. */
  lemma SavingIsTotal(s: State, saved: P.Snapshot)
    requires TidyBooks(s) && P.Snaps(s, saved)
    ensures P.Storable(saved)
  {
    forall j, k | 0 <= j < k < |saved.pending| ensures saved.pending[j] != saved.pending[k] {
      assert s.pending[j] != s.pending[k];
    }
  }

  // ---------------------------------------------------------------- a restart keeps quiescence

  /** A list of GPUs taken from another one, without repeating an id, has no more eligible ones. */
  lemma FewerEligible(before: seq<GPU>, after: seq<GPU>, minMemory: nat)
    requires DistinctIds(after) && forall g :: g in after ==> g in before
    ensures |after| <= |before| && |EligibleIds(after, minMemory)| <= |EligibleIds(before, minMemory)|
  {
    DistinctIdsNoDuplicates(after);
    NoLonger(after, before);
    EligibleDistinct(after, minMemory);
    forall x | x in EligibleIds(after, minMemory) ensures x in EligibleIds(before, minMemory) {
      EligibleMember(after, minMemory, x);
      EligibleMember(before, minMemory, x);
      var i :| 0 <= i < |after| && Fits(after[i], minMemory) && after[i].id == x;
      assert after[i] in before;
    }
    NoLonger(EligibleIds(after, minMemory), EligibleIds(before, minMemory));
  }

  lemma ReloadedWorkerRefuses(p: Kind, s: State, states: map<string, P.WorkerState>, order: seq<string>, s': State,
                              w: string, t: Task)
    requires WellFormed(s) && WorkersBack(s, states, order, s') && w in s.workers && !Candidate(p, s.workers[w], t)
    ensures !Candidate(p, s'.workers[w], t) && |s'.workers[w].gpus| < 0x1_0000_0000
  {
    LoadedGpusWereSaved(s, states, order, s', w);
    FewerEligible(s.workers[w].gpus, s'.workers[w].gpus, t.minMemory);
    assert WorkerBack(w, s.workers[w], s'.workers[w], P.WithWorkers(order, states));
  }

  lemma ReloadedRefuses(p: Kind, s: State, states: map<string, P.WorkerState>, order: seq<string>, s': State, t: Task)
    requires WellFormed(s) && WorkersBack(s, states, order, s') && !Feasible(p, s.workers, t)
    ensures !Feasible(p, s'.workers, t)
  {
    forall w | w in s'.workers ensures !Candidate(p, s'.workers[w], t) {
      ReloadedWorkerRefuses(p, s, states, order, s', w, t);
    }
  }

  lemma ReloadedQueueEntryRefused(p: Kind, s: State, t: P.Trip, s': State, k: nat)
    requires Tidy(p, s) && P.Reloads(s, t, s') && WellFormed(s')
    requires k < |s'.pending| && BackInQueue(s, s', s'.pending[k])
    ensures Refused(p, s', k)
  {
    var id := s'.heap[s'.pending[k]].id;
    var j :| 0 <= j < |s.pending| && s.pending[j] == s.tasks[id];
    assert Refused(p, s, j);
    WorkersComeBack(s, t, s');
    ReloadedRefuses(p, s, t.saved.workers, t.order, s', s.heap[s.tasks[id]]);
    TaskRestored(s, t, s', id);
    SameDemand(p, s'.workers, s.heap[s.tasks[id]], s'.heap[s'.tasks[id]]);
  }

  lemma SameListApart(xs: seq<string>, ys: seq<string>)
    requires NoDuplicates(ys) && multiset(xs) == multiset(ys)
    ensures NoDuplicates(xs)
  {
    DistinctMultiset(ys);
    forall i, j | 0 <= i < j < |xs| ensures xs[i] != xs[j] {
      assert xs == xs[..j] + [xs[j]] + xs[j + 1..];
      assert multiset(xs)[xs[j]] >= 1 + multiset(xs[..j])[xs[j]];
      assert xs[..j][i] == xs[i];
    }
  }

  lemma ReloadedWorkersTidy(s: State, t: P.Trip, s': State)
    requires TidyBooks(s) && P.Reloads(s, t, s')
    ensures IdsApart(s') && forall w :: w in s'.workers ==> |s'.workers[w].gpus| < 0x1_0000_0000
  {
    WorkersComeBack(s, t, s');
    forall w | w in s'.workers ensures DistinctIds(s'.workers[w].gpus) && |s'.workers[w].gpus| < 0x1_0000_0000 {
      LoadedGpusWereSaved(s, t.saved.workers, t.order, s', w);
      FewerEligible(s.workers[w].gpus, s'.workers[w].gpus, 0);
    }
  }

  lemma ReloadedTaskTidy(s: State, t: P.Trip, s': State, id: string)
    requires TidyBooks(s) && P.Reloads(s, t, s') && id in s'.tasks
    ensures s'.tasks[id] < |s'.heap| && s'.heap[s'.tasks[id]].id == id && NoDuplicates(s'.heap[s'.tasks[id]].gpuIds)
  {
    TaskRestored(s, t, s', id);
    SameListApart(s'.heap[s'.tasks[id]].gpuIds, s.heap[s.tasks[id]].gpuIds);
  }

  lemma ReloadedTasksTidy(s: State, t: P.Trip, s': State)
    requires TidyBooks(s) && P.Reloads(s, t, s')
    ensures forall id :: id in s'.tasks ==>
              s'.tasks[id] < |s'.heap| && s'.heap[s'.tasks[id]].id == id && NoDuplicates(s'.heap[s'.tasks[id]].gpuIds)
  {
    forall id | id in s'.tasks
      ensures s'.tasks[id] < |s'.heap| && s'.heap[s'.tasks[id]].id == id && NoDuplicates(s'.heap[s'.tasks[id]].gpuIds)
    {
      ReloadedTaskTidy(s, t, s', id);
    }
  }

  lemma ReloadedBooksTidy(s: State, t: P.Trip, s': State)
    requires TidyBooks(s) && P.Reloads(s, t, s')
    ensures TidyBooks(s') && forall k :: 0 <= k < |s'.pending| ==> BackInQueue(s, s', s'.pending[k])
  {
    ReloadedWorkersTidy(s, t, s');
    QueueRestored(s, t, s');
    ReloadedTasksTidy(s, t, s');
  }

  /** After a reload the policy still refuses every pending task, and the state is tidy again. */
  lemma RestartKeepsQuiescence(p: Kind, s: State, t: P.Trip, s': State)
    requires Tidy(p, s) && P.Reloads(s, t, s')
    ensures Tidy(p, s')
  {
    ReloadedBooksTidy(s, t, s');
    forall k | 0 <= k < |s'.pending| ensures Refused(p, s', k) {
      ReloadedQueueEntryRefused(p, s, t, s', k);
    }
  }

  // ---------------------------------------------------------------- results over runs with restarts

  lemma LifeStepKeepsTidy(p: Kind, s: State, e: LifeEvent, s': State)
    requires Tidy(p, s) && LifeStep(p, s, e, s') && TidyEvent(s, e)
    ensures Tidy(p, s')
  {
    match e {
      case Call(c) => CallKeepsTidy(p, s, c);
      case Reboot(t) => RestartKeepsQuiescence(p, s, t, s');
    }
  }

  /** Quiescence over restarts: whatever is reported and requested and however often the scheduler is
      restarted from its database, no task the policy would accept is left waiting. */
  lemma {:induction false} AlwaysTidy(p: Kind, ss: seq<State>, es: seq<LifeEvent>, n: nat)
    requires TidyLife(p, ss, es) && n < |ss|
    ensures Tidy(p, ss[n])
  {
    if n > 0 {
      AlwaysTidy(p, ss, es, n - 1);
      LifeStepKeepsTidy(p, ss[n - 1], es[n - 1], ss[n]);
    }
  }

  /** So every state can be saved, and RequestTask is refused in every state. */
  lemma AlwaysSavable(p: Kind, ss: seq<State>, es: seq<LifeEvent>, n: nat, saved: P.Snapshot, caller: string)
    requires TidyLife(p, ss, es) && n < |ss|
    ensures WellFormed(ss[n]) && (P.Snaps(ss[n], saved) ==> P.Storable(saved)) && !Grants(p, ss[n], caller)
  {
    AlwaysTidy(p, ss, es, n);
    QuiescentRefuses(p, ss[n], caller);
    if P.Snaps(ss[n], saved) {
      SavingIsTotal(ss[n], saved);
    }
  }

  /** Honest runs are tidy lives without restarts, so all of this holds of them too. */
  lemma HonestRunIsTidyLife(p: Kind, ss: seq<State>, es: seq<Event>, bs: seq<Baseline>)
    requires HonestBehavior(p, ss, es, bs)
    ensures TidyLife(p, ss, seq(|es|, i requires 0 <= i < |es| => Call(es[i])))
  {
    var calls := seq(|es|, i requires 0 <= i < |es| => Call(es[i]));
    forall i | 0 <= i < |es| ensures LifeStep(p, ss[i], calls[i], ss[i + 1]) && TidyEvent(ss[i], calls[i]) {
      assert Step(p, ss[i], es[i], ss[i + 1]) && HonestEvent(ss[i], es[i]);
    }
  }
}
