/** With GPU ids unique in the cluster a placed task keeps the GPUs it asked for through every restart, whatever
    is reported. */
module UniqueIds {
  import opened Cluster
  import opened Policy
  import opened Scheduling
  import opened Quiescence
  import opened Books
  import opened Exclusion
  import opened Requirements
  import opened Claims
  import opened Reports
  import opened Restart
  import opened Life
  import opened LifeExclusion
  import P = Persistence

  /** The task names no worker, or it was given as many distinct GPUs of a registered one as it asked for, each large
      enough. */
  ghost predicate WellPlaced(s: State, t: Task) {
    t.workerId == "" || (t.workerId in s.workers && Served(s.workers[t.workerId], t))
  }

  ghost predicate AllWellPlaced(s: State)
    requires WellFormed(s)
  {
    forall id :: id in s.tasks ==> WellPlaced(s, s.heap[s.tasks[id]])
  }

  ghost predicate UniqueInv(s: State) {
    WellFormed(s) && TableLinked(s) && AllWellPlaced(s) && GloballyUnique(s)
  }

  // ---------------------------------------------------------------- changes of availability

  /** The same workers with the same GPUs, whatever their availability. */
  ghost predicate SameInventory(s: State, s': State) {
    && s'.workers.Keys == s.workers.Keys
    && forall w :: w in s.workers ==> SameDevices(s.workers[w].gpus, s'.workers[w].gpus)
  }

  lemma InventoryKeepsPlaced(s: State, s': State, t: Task, t': Task)
    requires SameInventory(s, s') && WellPlaced(s, t)
    requires t'.workerId == t.workerId && t'.gpuIds == t.gpuIds && SameRequest(t, t')
    ensures WellPlaced(s', t')
  {
    if t.workerId != "" {
      forall x | x in t'.gpuIds ensures Suits(s'.workers[t.workerId], t', x) {
        SameDevicesSuit(s.workers[t.workerId], s'.workers[t.workerId], t', x);
      }
    }
  }

  lemma InventoryKeepsUnique(s: State, s': State)
    requires GloballyUnique(s) && SameInventory(s, s')
    ensures GloballyUnique(s')
  {
    forall v, w, x | v in s'.workers && w in s'.workers
                     && P.Owns(s'.workers[v].gpus, x) && P.Owns(s'.workers[w].gpus, x)
      ensures v == w
    {
      var i :| 0 <= i < |s'.workers[v].gpus| && s'.workers[v].gpus[i].id == x;
      var j :| 0 <= j < |s'.workers[w].gpus| && s'.workers[w].gpus[j].id == x;
      assert s.workers[v].gpus[i].id == x && s.workers[w].gpus[j].id == x;
      assert P.Owns(s.workers[v].gpus, x) && P.Owns(s.workers[w].gpus, x);
    }
  }

  // ---------------------------------------------------------------- the sweep

  lemma PlacingKeepsInventory(p: Kind, s: State, i: nat, w: string, now: Time)
    requires WellFormed(s) && i < |s.pending| && Takes(p, s, i, Place(w, now))
    ensures SameInventory(s, Assign(s, i, w, w, now))
  {
    assert Assign(s, i, w, w, now).workers.Keys == s.workers.Keys;
  }

  lemma PlacingKeepsWellPlaced(p: Kind, s: State, i: nat, w: string, now: Time, id: string)
    requires UniqueInv(s) && i < |s.pending| && Takes(p, s, i, Place(w, now)) && id in s.tasks
    ensures WellPlaced(Assign(s, i, w, w, now), Assign(s, i, w, w, now).heap[s.tasks[id]])
  {
    var s', r := Assign(s, i, w, w, now), s.pending[i];
    PlacingKeepsInventory(p, s, i, w, now);
    if s.tasks[id] == r {
      GrantIsServed(s.workers[w], s'.workers[w], s'.heap[r]);
    } else {
      InventoryKeepsPlaced(s, s', s.heap[s.tasks[id]], s'.heap[s.tasks[id]]);
    }
  }

  lemma PlacingKeepsUniqueInv(p: Kind, s: State, i: nat, w: string, now: Time)
    requires UniqueInv(s) && i < |s.pending| && Takes(p, s, i, Place(w, now))
    ensures UniqueInv(Assign(s, i, w, w, now))
  {
    PlacingKeepsTableLinked(p, s, i, w, now);
    PlacingKeepsInventory(p, s, i, w, now);
    InventoryKeepsUnique(s, Assign(s, i, w, w, now));
    forall id | id in s.tasks ensures WellPlaced(Assign(s, i, w, w, now), Assign(s, i, w, w, now).heap[s.tasks[id]]) {
      PlacingKeepsWellPlaced(p, s, i, w, now, id);
    }
  }

  lemma {:induction false} SweepKeepsUniqueInv(p: Kind, s: State, i: nat, ds: seq<Decision>)
    requires UniqueInv(s) && i <= |s.pending| && ValidSweep(p, s, i, ds)
    ensures UniqueInv(Sweep(p, s, i, ds))
    decreases |s.pending| - i
  {
    if i < |s.pending| {
      var (s', i') := Advance(p, s, i, ds[0]);
      if ds[0].Place? {
        PlacingKeepsUniqueInv(p, s, i, ds[0].worker, ds[0].now);
      }
      SweepKeepsUniqueInv(p, s', i', ds[1..]);
    }
  }

  // ---------------------------------------------------------------- calls

  /** None of the GPU ids is owned by a registered worker. */
  ghost predicate NewIds(s: State, gpus: seq<GPU>) {
    DistinctIds(gpus) && forall w, x :: w in s.workers && P.Owns(s.workers[w].gpus, x) ==> !P.Owns(gpus, x)
  }

  lemma RegisteringKeepsUniqueInv(s: State, id: string, gpus: seq<GPU>, address: string)
    requires UniqueInv(s) && id !in s.workers && id != "" && NewIds(s, gpus) && |gpus| < 0x1_0000_0000
    ensures UniqueInv(Registered(s, id, gpus, address))
  {
    var s' := Registered(s, id, gpus, address);
    RegisteringKeepsTableLinked(s, id, gpus, address);
    assert forall w :: w in s.workers ==> s'.workers[w] == s.workers[w];
    forall t | t in s'.tasks ensures WellPlaced(s', s'.heap[s'.tasks[t]]) {
      assert WellPlaced(s, s.heap[s.tasks[t]]);
    }
  }

  lemma SubmittingKeepsUniqueInv(s: State, t: Task)
    requires UniqueInv(s) && t.id !in s.tasks && t.workerId == ""
    ensures UniqueInv(Submitted(s, NewTask(t)))
  {
    var s' := Submitted(s, NewTask(t));
    SubmittingKeepsTableLinked(s, t);
    forall id | id in s'.tasks ensures WellPlaced(s', s'.heap[s'.tasks[id]]) {
      assert id in s.tasks ==> s'.heap[s'.tasks[id]] == s.heap[s.tasks[id]] && WellPlaced(s, s.heap[s.tasks[id]]);
    }
  }

  lemma ReportedKeepsInventory(s: State, u: Update)
    requires WellFormed(s) && Accepted(s, u)
    ensures SameInventory(s, Reported(s, u))
  {
    assert Reported(s, u).workers.Keys == s.workers.Keys;
    forall w | w in s.workers ensures SameDevices(s.workers[w].gpus, Reported(s, u).workers[w].gpus) {
      ReportedWorker(s, u, w);
    }
  }

  lemma ReportedKeepsUniqueInv(s: State, u: Update)
    requires UniqueInv(s) && Accepted(s, u)
    ensures UniqueInv(Reported(s, u))
  {
    var s' := Reported(s, u);
    ReportedKeepsQueue(s, u);
    ReportedKeepsInventory(s, u);
    InventoryKeepsUnique(s, s');
    forall id | id in s'.tasks ensures WellPlaced(s', s'.heap[s'.tasks[id]]) {
      InventoryKeepsPlaced(s, s', s.heap[s.tasks[id]], s'.heap[s.tasks[id]]);
    }
  }

  lemma RegisterKeepsUniqueInv(p: Kind, s: State, id: string, gpus: seq<GPU>, address: string, ds: seq<Decision>)
    requires UniqueInv(s) && LegalRegister(p, s, id, gpus, address, ds) && NewIds(s, gpus)
    ensures UniqueInv(AfterRegister(p, s, id, gpus, address, ds))
  {
    var wid := WorkerIdFor(id, |s.workers|);
    if wid !in s.workers {
      RegisteringKeepsUniqueInv(s, wid, gpus, address);
      SweepKeepsUniqueInv(p, Registered(s, wid, gpus, address), 0, ds);
    }
  }

  lemma ReportKeepsUniqueInv(p: Kind, s: State, u: Update, ds: seq<Decision>)
    requires UniqueInv(s) && LegalReport(p, s, u, ds)
    ensures UniqueInv(AfterReport(p, s, u, ds))
  {
    if Accepted(s, u) {
      ReportedKeepsUniqueInv(s, u);
      if u.status.Final() {
        SweepKeepsUniqueInv(p, Reported(s, u), 0, ds);
      }
    }
  }

  /** Registered GPU ids are new to the cluster, and submitted tasks name no worker. */
  ghost predicate UniqueEvent(s: State, e: LifeEvent) {
    HomelessEvent(e) && (e.Call? && e.event.Register? ==> NewIds(s, e.event.gpus))
  }

  lemma CallKeepsUniqueInv(p: Kind, s: State, e: Event)
    requires Tidy(p, s) && UniqueInv(s) && Legal(p, s, e) && TidyEvent(s, Call(e)) && UniqueEvent(s, Call(e))
    ensures UniqueInv(Exec(p, s, e))
  {
    match e {
      case Register(id, gpus, address, ds) => RegisterKeepsUniqueInv(p, s, id, gpus, address, ds);
      case Submit(sub, ds) =>
        SubmittingKeepsUniqueInv(s, sub.task);
        SweepKeepsUniqueInv(p, Submitted(s, sub), 0, ds);
      case Report(u, ds) => ReportKeepsUniqueInv(p, s, u, ds);
      case Request(caller, chosen, now) => QuiescentRefuses(p, s, caller);
    }
  }

  // ---------------------------------------------------------------- restarts

  lemma ReloadedUnique(s: State, t: P.Trip, s': State)
    requires WellFormed(s) && GloballyUnique(s) && P.Reloads(s, t, s') && TidyBooks(s')
    ensures GloballyUnique(s')
  {
    GpusRestoredIffUnique(s, t, s');
    forall v, w, x | v in s'.workers && w in s'.workers
                     && P.Owns(s'.workers[v].gpus, x) && P.Owns(s'.workers[w].gpus, x)
      ensures v == w
    {
      SameMultisetSameIds(s'.workers[v].gpus, s.workers[v].gpus, x);
      SameMultisetSameIds(s'.workers[w].gpus, s.workers[w].gpus, x);
    }
  }

  lemma PermutedSuits(w: Worker, w': Worker, t: Task, t': Task, x: string)
    requires multiset(w'.gpus) == multiset(w.gpus) && t'.minMemory == t.minMemory && Suits(w, t, x)
    ensures Suits(w', t', x)
  {
    var i :| 0 <= i < |w.gpus| && w.gpus[i].id == x && t.minMemory <= w.gpus[i].memory;
    SameMembers(w'.gpus, w.gpus, w.gpus[i]);
    var j :| 0 <= j < |w'.gpus| && w'.gpus[j] == w.gpus[i];
    assert w'.gpus[j].id == x;
  }

  lemma PermutedServed(w: Worker, w': Worker, t: Task, t': Task)
    requires multiset(w'.gpus) == multiset(w.gpus) && multiset(t'.gpuIds) == multiset(t.gpuIds)
    requires t'.minMemory == t.minMemory && t'.required == t.required && Served(w, t)
    ensures Served(w', t')
  {
    SameListApart(t'.gpuIds, t.gpuIds);
    SameMembers(t'.gpuIds, t.gpuIds, "");
    forall x | x in t'.gpuIds ensures Suits(w', t', x) {
      SameMembers(t'.gpuIds, t.gpuIds, x);
      PermutedSuits(w, w', t, t', x);
    }
  }

  lemma ReloadedWellPlaced(s: State, t: P.Trip, s': State, id: string)
    requires UniqueInv(s) && P.Reloads(s, t, s') && SameGpus(s, s') && s'.workers.Keys == s.workers.Keys
    requires id in s'.tasks
    ensures s'.tasks[id] < |s'.heap| && WellPlaced(s', s'.heap[s'.tasks[id]])
  {
    TaskRestored(s, t, s', id);
    var a, b := s.heap[s.tasks[id]], s'.heap[s'.tasks[id]];
    assert WellPlaced(s, a);
    if a.workerId != "" {
      PermutedServed(s.workers[a.workerId], s'.workers[a.workerId], a, b);
    }
  }

  /** A restart loses nothing: every placed task still has its GPUs on its worker, and ids stay unique. */
  lemma RestartKeepsUniqueInv(s: State, t: P.Trip, s': State)
    requires UniqueInv(s) && TidyBooks(s) && P.Reloads(s, t, s')
    ensures UniqueInv(s') && SameGpus(s, s')
  {
    ReloadedQueueHomeless(s, t, s');
    GpusRestoredIffUnique(s, t, s');
    ReloadedUnique(s, t, s');
    forall id | id in s'.tasks ensures WellPlaced(s', s'.heap[s'.tasks[id]]) {
      ReloadedWellPlaced(s, t, s', id);
    }
  }

  // ---------------------------------------------------------------- runs

  /** A run with restarts and arbitrary reports in which GPU ids are unique in the cluster. */
  ghost predicate UniqueRun(p: Kind, ss: seq<State>, es: seq<LifeEvent>) {
    && TidyLife(p, ss, es)
    && forall i {:trigger es[i]} :: 0 <= i < |es| ==> UniqueEvent(ss[i], es[i])
  }

  lemma UniqueNext(p: Kind, ss: seq<State>, es: seq<LifeEvent>, n: nat)
    requires UniqueRun(p, ss, es) && 0 < n < |ss| && Tidy(p, ss[n - 1]) && UniqueInv(ss[n - 1])
    ensures UniqueInv(ss[n])
  {
    var s, e := ss[n - 1], es[n - 1];
    assert LifeStep(p, s, e, ss[n]) && TidyEvent(s, e) && UniqueEvent(s, e);
    match e {
      case Call(c) => CallKeepsUniqueInv(p, s, c);
      case Reboot(t) => RestartKeepsUniqueInv(s, t, ss[n]);
    }
  }

  lemma {:induction false} AlwaysUniqueInv(p: Kind, ss: seq<State>, es: seq<LifeEvent>, n: nat)
    requires UniqueRun(p, ss, es) && n < |ss|
    ensures UniqueInv(ss[n])
  {
    if n > 0 {
      AlwaysTidy(p, ss, es, n - 1);
      AlwaysUniqueInv(p, ss, es, n - 1);
      UniqueNext(p, ss, es, n);
    }
  }

  /** Requirement satisfaction over restarts: whatever is reported, every task that names a worker names a registered
      one and lists as many distinct GPUs of it as it asked for, each large enough. */
  lemma PlacedAreServed(p: Kind, ss: seq<State>, es: seq<LifeEvent>, n: nat, id: string)
    requires UniqueRun(p, ss, es) && n < |ss| && id in ss[n].tasks
    ensures ss[n].tasks[id] < |ss[n].heap|
    ensures var t := ss[n].heap[ss[n].tasks[id]];
            t.workerId != "" ==> t.workerId in ss[n].workers && Served(ss[n].workers[t.workerId], t)
  {
    AlwaysUniqueInv(p, ss, es, n);
    assert WellPlaced(ss[n], ss[n].heap[ss[n].tasks[id]]);
  }
}
