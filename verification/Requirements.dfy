/** Requirement satisfaction over all runs with fresh names, whatever is reported: a task in a worker's
    books was placed there and holds exactly what it asked for. */
module Requirements {
  import opened Cluster
  import opened Policy
  import opened Scheduling
  import opened Quiescence
  import opened Books
  import opened Exclusion

  ghost predicate BooksServed(name: string, w: Worker, heap: seq<Task>) {
    && RefsIn(w, heap) && DistinctIds(w.gpus)
    && forall id :: id in w.tasks ==> PlacedOn(name, w, heap[w.tasks[id]], id)
  }

  ghost predicate AllServed(s: State) {
    forall w :: w in s.workers ==> BooksServed(w, s.workers[w], s.heap)
  }

  ghost predicate FreshInv(s: State) {
    WellFormed(s) && Linked(s) && AllServed(s)
  }

  // ---------------------------------------------------------------- one worker at a time

  /** Tasks may leave and availability may change. */
  lemma ServedFrame(name: string, w: Worker, w': Worker, heap: seq<Task>, heap': seq<Task>)
    requires BooksServed(name, w, heap) && SameDevices(w.gpus, w'.gpus) && RefsIn(w', heap')
    requires forall id :: id in w'.tasks ==>
               && id in w.tasks
               && var t, t' := heap[w.tasks[id]], heap'[w'.tasks[id]];
                  SameRequest(t, t') && t'.workerId == t.workerId && t'.gpuIds == t.gpuIds
    ensures BooksServed(name, w', heap')
  {
    forall id | id in w'.tasks ensures PlacedOn(name, w', heap'[w'.tasks[id]], id) {
      var t, t' := heap[w.tasks[id]], heap'[w'.tasks[id]];
      assert PlacedOn(name, w, t, id);
      forall x | x in t'.gpuIds ensures Suits(w', t', x) {
        SameDevicesSuit(w, w', t, x);
      }
    }
  }

  lemma GrantIsServed(w: Worker, w': Worker, t: Task)
    requires DistinctIds(w.gpus) && SameDevices(w.gpus, w'.gpus)
    requires t.required <= |EligibleIds(w.gpus, t.minMemory)| && t.gpuIds == Grant(w, t)
    ensures Served(w', t)
  {
    GrantFacts(w, t);
    forall x | x in t.gpuIds ensures Suits(w', t, x) {
      var i :| 0 <= i < |w.gpus| && w.gpus[i].id == x && Fits(w.gpus[i], t.minMemory);
      assert w'.gpus[i].id == x;
    }
  }

  lemma HostingKeepsServed(name: string, w: Worker, heap: seq<Task>, heap': seq<Task>, r: TaskRef, id: string)
    requires BooksServed(name, w, heap) && TakesOver(w, heap, heap', r, id)
    requires var t := heap'[r];
             && t.id == id && t.workerId == name
             && t.required <= |EligibleIds(w.gpus, t.minMemory)| && t.gpuIds == Grant(w, t)
    ensures BooksServed(name, Hosting(w, id, r, heap'[r].gpuIds), heap')
  {
    var w' := Hosting(w, id, r, heap'[r].gpuIds);
    var kept := w'.(tasks := w.tasks);
    ServedFrame(name, w, kept, heap, heap');
    GrantIsServed(w, w', heap'[r]);
    forall a | a in w'.tasks ensures PlacedOn(name, w', heap'[w'.tasks[a]], a) {
      if a != id {
        assert PlacedOn(name, kept, heap'[kept.tasks[a]], a);
        assert forall x :: Suits(kept, heap'[kept.tasks[a]], x) <==> Suits(w', heap'[kept.tasks[a]], x);
      }
    }
  }

  // ---------------------------------------------------------------- every step

  lemma PlacingKeepsServed(p: Kind, s: State, i: nat, w: string, now: Time)
    requires FreshInv(s) && i < |s.pending| && Takes(p, s, i, Place(w, now))
    ensures AllServed(Assign(s, i, w, w, now))
  {
    var s', r := Assign(s, i, w, w, now), s.pending[i];
    forall v | v in s'.workers ensures BooksServed(v, s'.workers[v], s'.heap) {
      PlacingTakesOver(p, s, i, w, now, v);
      if v == w {
        HostingKeepsServed(w, s.workers[w], s.heap, s'.heap, r, s.heap[r].id);
      } else {
        ServedFrame(v, s.workers[v], s.workers[v], s.heap, s'.heap);
      }
    }
  }

  lemma {:induction false} SweepKeepsFreshInv(p: Kind, s: State, i: nat, ds: seq<Decision>)
    requires FreshInv(s) && i <= |s.pending| && ValidSweep(p, s, i, ds)
    ensures FreshInv(Sweep(p, s, i, ds))
    decreases |s.pending| - i
  {
    if i < |s.pending| {
      var (s', i') := Advance(p, s, i, ds[0]);
      if ds[0].Place? {
        PlacingKeepsServed(p, s, i, ds[0].worker, ds[0].now);
        PlacingKeepsLinked(p, s, i, ds[0].worker, ds[0].now);
      }
      SweepKeepsFreshInv(p, s', i', ds[1..]);
    }
  }

  lemma RegisteringKeepsServed(s: State, id: string, gpus: seq<GPU>, address: string)
    requires AllServed(s) && id !in s.workers && DistinctIds(gpus)
    ensures AllServed(Registered(s, id, gpus, address))
  {
    var s' := Registered(s, id, gpus, address);
    forall w | w in s'.workers ensures BooksServed(w, s'.workers[w], s'.heap) {
      assert w != id ==> w in s.workers && s'.workers[w] == s.workers[w];
    }
  }

  lemma RegisterKeepsFreshInv(p: Kind, s: State, id: string, gpus: seq<GPU>, address: string, ds: seq<Decision>)
    requires FreshInv(s) && LegalRegister(p, s, id, gpus, address, ds) && DistinctIds(gpus)
    ensures FreshInv(AfterRegister(p, s, id, gpus, address, ds))
  {
    var wid := WorkerIdFor(id, |s.workers|);
    if wid !in s.workers {
      RegisteringKeepsLinked(s, wid, gpus, address);
      RegisteringKeepsServed(s, wid, gpus, address);
      SweepKeepsFreshInv(p, Registered(s, wid, gpus, address), 0, ds);
    }
  }

  lemma SubmitKeepsFreshInv(p: Kind, s: State, t: Task, ds: seq<Decision>)
    requires FreshInv(s) && LegalSubmit(p, s, NewTask(t), ds) && t.id !in s.tasks
    ensures FreshInv(AfterSubmit(p, s, NewTask(t), ds))
  {
    var s' := Submitted(s, NewTask(t));
    SubmittingKeepsLinked(s, t);
    forall w | w in s'.workers ensures BooksServed(w, s'.workers[w], s'.heap) {
      ServedFrame(w, s.workers[w], s.workers[w], s.heap, s'.heap);
    }
    SweepKeepsFreshInv(p, s', 0, ds);
  }

  lemma ReportedKeepsServed(s: State, u: Update, v: string)
    requires FreshInv(s) && Accepted(s, u) && v in s.workers
    ensures BooksServed(v, Reported(s, u).workers[v], Reported(s, u).heap)
  {
    ReportedWorker(s, u, v);
    assert BooksServed(v, s.workers[v], s.heap);
    ServedFrame(v, s.workers[v], Reported(s, u).workers[v], s.heap, Reported(s, u).heap);
  }

  lemma ReportKeepsFreshInv(p: Kind, s: State, u: Update, ds: seq<Decision>)
    requires FreshInv(s) && LegalReport(p, s, u, ds)
    ensures FreshInv(AfterReport(p, s, u, ds))
  {
    if Accepted(s, u) {
      var s' := Reported(s, u);
      ReportingKeepsLinked(s, u);
      forall v | v in s'.workers ensures BooksServed(v, s'.workers[v], s'.heap) {
        ReportedKeepsServed(s, u, v);
      }
      if u.status.Final() {
        SweepKeepsFreshInv(p, s', 0, ds);
      }
    }
  }

  lemma StepKeepsFreshInv(p: Kind, s: State, e: Event, s': State)
    requires Step(p, s, e, s') && Inv(p, s) && FreshInv(s) && Fresh(s, e)
    ensures FreshInv(s')
  {
    match e {
      case Register(id, gpus, address, ds) => RegisterKeepsFreshInv(p, s, id, gpus, address, ds);
      case Submit(sub, ds) => SubmitKeepsFreshInv(p, s, sub.task, ds);
      case Report(u, ds) => ReportKeepsFreshInv(p, s, u, ds);
      case Request(caller, chosen, now) => QuiescentRefuses(p, s, caller);
    }
  }

  lemma FreshNext(p: Kind, ss: seq<State>, es: seq<Event>, bs: seq<Baseline>, n: nat)
    requires FreshBehavior(p, ss, es, bs) && 0 < n < |ss| && Inv(p, ss[n - 1]) && FreshInv(ss[n - 1])
    ensures FreshInv(ss[n])
  {
    assert Step(p, ss[n - 1], es[n - 1], ss[n]) && Fresh(ss[n - 1], es[n - 1]);
    StepKeepsFreshInv(p, ss[n - 1], es[n - 1], ss[n]);
  }

  lemma {:induction false} AlwaysFreshInv(p: Kind, ss: seq<State>, es: seq<Event>, bs: seq<Baseline>, n: nat)
    requires FreshBehavior(p, ss, es, bs) && n < |ss|
    ensures FreshInv(ss[n])
  {
    if n > 0 {
      AlwaysFreshInv(p, ss, es, bs, n - 1);
      AlwaysQuiescent(p, ss, es, n - 1);
      FreshNext(p, ss, es, bs, n);
    }
  }

  /** Requirement satisfaction: in every run with fresh names a task in a worker's books is the known task of
      that id, was placed on that worker, and holds as many distinct GPUs of it as it asked for, each large
      enough.  No report, careful or not, can undo this. */
  lemma RequirementsMet(p: Kind, ss: seq<State>, es: seq<Event>, bs: seq<Baseline>, n: nat, w: string, id: string)
    requires FreshBehavior(p, ss, es, bs) && n < |ss| && w in ss[n].workers && id in ss[n].workers[w].tasks
    ensures id in ss[n].tasks && ss[n].tasks[id] == ss[n].workers[w].tasks[id] < |ss[n].heap|
    ensures var t := ss[n].heap[ss[n].tasks[id]];
            t.id == id && t.workerId == w && Served(ss[n].workers[w], t)
  {
    AlwaysFreshInv(p, ss, es, bs, n);
    var s := ss[n];
    assert Known(s, s.workers[w], id);
    assert BooksServed(w, s.workers[w], s.heap);
    assert PlacedOn(w, s.workers[w], s.heap[s.workers[w].tasks[id]], id);
  }
}
