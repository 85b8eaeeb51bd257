/** GPU exclusion over runs that are interrupted by restarts, with its exact condition on reports. */
module LifeExclusion {
  import opened Cluster
  import opened Policy
  import opened Scheduling
  import opened Quiescence
  import opened Books
  import opened Exclusion
  import opened Claims
  import opened Reports
  import opened Restart
  import opened Life
  import P = Persistence

  // ---------------------------------------------------------------- a restart changes no use

  lemma QueuedIsHomeless(s: State, id: string)
    requires WellFormed(s) && TableLinked(s) && Queued(s, id) && id in s.tasks
    ensures s.heap[s.tasks[id]].workerId == ""
  {
    var k :| 0 <= k < |s.pending| && s.heap[s.pending[k]].id == id;
    assert Enqueued(s, s.pending[k]);
  }

  lemma ReloadedUses(s: State, t: P.Trip, s': State, w: string, id: string, x: string)
    requires WellFormed(s) && TableLinked(s) && P.Reloads(s, t, s') && WellFormed(s') && w in s.workers
    ensures Uses(s', w, id, x) <==> Uses(s, w, id, x)
  {
    TaskRestored(s, t, s', id);
    if id in s.tasks {
      SameMembers(s'.heap[s'.tasks[id]].gpuIds, s.heap[s.tasks[id]].gpuIds, x);
      if Queued(s, id) {
        QueuedIsHomeless(s, id);
      }
    }
  }

  lemma ReloadedKeepsUses(s: State, base: Baseline, t: P.Trip, s': State, w: string)
    requires UseInv(s, base) && P.Reloads(s, t, s') && WellFormed(s') && w in s.workers && w in s'.workers
    ensures UsedApart(s', w, base[w])
  {
    forall id, x ensures Uses(s', w, id, x) <==> Uses(s, w, id, x) {
      ReloadedUses(s, t, s', w, id, x);
    }
    WorkersComeBack(s, t, s');
    LoadedGpusWereSaved(s, t.saved.workers, t.order, s', w);
    UseFrame(s, s', w, base[w]);
  }

  lemma ReloadedPlacement(s: State, base: Baseline, t: P.Trip, s': State, id: string)
    requires UseInv(s, base) && P.Reloads(s, t, s') && id in s'.tasks && s'.workers.Keys == s.workers.Keys
    ensures s'.tasks[id] < |s'.heap|
    ensures var a := s'.heap[s'.tasks[id]];
            && (a.workerId == "" || (a.workerId in s'.workers && a.workerId in base))
            && (a.workerId in base ==> forall x :: x in a.gpuIds ==> x in base[a.workerId])
  {
    TaskRestored(s, t, s', id);
    forall x | x in s'.heap[s'.tasks[id]].gpuIds ensures x in s.heap[s.tasks[id]].gpuIds {
      SameMembers(s'.heap[s'.tasks[id]].gpuIds, s.heap[s.tasks[id]].gpuIds, x);
    }
  }

  lemma ReloadedQueueHomeless(s: State, t: P.Trip, s': State)
    requires WellFormed(s) && TableLinked(s) && TidyBooks(s) && P.Reloads(s, t, s')
    ensures WellFormed(s') && TidyBooks(s') && QueueHomeless(s')
  {
    ReloadedBooksTidy(s, t, s');
    forall k | 0 <= k < |s'.pending| ensures s'.heap[s'.pending[k]].workerId == "" {
      assert BackInQueue(s, s', s'.pending[k]);
      var id := s'.heap[s'.pending[k]].id;
      TaskRestored(s, t, s', id);
      var j :| 0 <= j < |s.pending| && s.pending[j] == s.tasks[id];
      assert s.heap[s.pending[j]].workerId == "";
    }
  }

  /** A restart never takes a GPU from an unfinished task or gives it to another one; if ids clash in the
      cluster it loses GPUs, but not those records that come back. */
  lemma ReloadKeepsUseInv(s: State, base: Baseline, t: P.Trip, s': State)
    requires UseInv(s, base) && TidyBooks(s) && P.Reloads(s, t, s')
    ensures UseInv(s', base)
  {
    ReloadedQueueHomeless(s, t, s');
    GpusRestoredIffUnique(s, t, s');
    forall w | w in s'.workers ensures UsedApart(s', w, base[w]) {
      ReloadedKeepsUses(s, base, t, s', w);
    }
    forall id | id in s'.tasks
      ensures var a := s'.heap[s'.tasks[id]];
              && (a.workerId == "" || (a.workerId in s'.workers && a.workerId in base))
              && (a.workerId in base ==> forall x :: x in a.gpuIds ==> x in base[a.workerId])
    {
      ReloadedPlacement(s, base, t, s', id);
    }
  }

  // ---------------------------------------------------------------- runs

  ghost function NextLifeBaseline(s: State, e: LifeEvent, base: Baseline): Baseline {
    if e.Call? then NextBaseline(s, e.event, base) else base
  }

  /** The baselines can always be listed. */
  lemma {:induction false} LifeBaselinesExist(ss: seq<State>, es: seq<LifeEvent>) returns (bs: seq<Baseline>)
    requires |ss| == |es| + 1
    ensures |bs| == |ss| && bs[0] == map[]
    ensures forall i {:trigger es[i]} :: 0 <= i < |es| ==> bs[i + 1] == NextLifeBaseline(ss[i], es[i], bs[i])
  {
    if es == [] {
      bs := [map[]];
    } else {
      var last := |es| - 1;
      var front := LifeBaselinesExist(ss[..|es|], es[..last]);
      bs := front + [NextLifeBaseline(ss[last], es[last], front[last])];
      assert forall i :: 0 <= i < last ==> es[..last][i] == es[i];
    }
  }

  /** A submitted task names no worker. */
  ghost predicate HomelessEvent(e: LifeEvent) {
    e.Call? && e.event.Submit? && e.event.sub.NewTask? ==> e.event.sub.task.workerId == ""
  }

  /** A run with restarts, fresh names and arbitrary reports; `bs` lists the baselines that go with its states. */
  ghost predicate LifeRun(p: Kind, ss: seq<State>, es: seq<LifeEvent>, bs: seq<Baseline>) {
    && TidyLife(p, ss, es) && |bs| == |ss| && bs[0] == map[]
    && forall i {:trigger es[i]} :: 0 <= i < |es| ==>
         HomelessEvent(es[i]) && bs[i + 1] == NextLifeBaseline(ss[i], es[i], bs[i])
  }

  ghost predicate SafeEvent(s: State, e: LifeEvent) {
    WellFormed(s) && (e.Call? && e.event.Report? ==> SafeReport(s, e.event.update))
  }

  lemma RegisterKeepsUseInv(p: Kind, s: State, id: string, gpus: seq<GPU>, address: string, ds: seq<Decision>,
                            base: Baseline)
    requires UseInv(s, base) && LegalRegister(p, s, id, gpus, address, ds) && DistinctIds(gpus)
    ensures UseInv(AfterRegister(p, s, id, gpus, address, ds), NextBaseline(s, Register(id, gpus, address, ds), base))
  {
    var wid := WorkerIdFor(id, |s.workers|);
    if wid !in s.workers {
      RegisteringKeepsUseInv(s, wid, gpus, address, base);
      SweepKeepsUseInv(p, Registered(s, wid, gpus, address), 0, ds, base[wid := FreeIds(gpus)]);
    }
  }

  lemma CallKeepsUseInv(p: Kind, s: State, e: Event, base: Baseline)
    requires Tidy(p, s) && UseInv(s, base) && Legal(p, s, e)
    requires Fresh(s, e) && HomelessEvent(Call(e)) && SafeEvent(s, Call(e))
    ensures UseInv(Exec(p, s, e), NextBaseline(s, e, base))
  {
    match e {
      case Register(id, gpus, address, ds) => RegisterKeepsUseInv(p, s, id, gpus, address, ds, base);
      case Submit(sub, ds) =>
        SubmittingKeepsUseInv(s, sub.task, base);
        SweepKeepsUseInv(p, Submitted(s, sub), 0, ds, base);
      case Report(u, ds) => SafeReportKeepsUseInv(p, s, u, ds, base);
      case Request(caller, chosen, now) => QuiescentRefuses(p, s, caller);
    }
  }

  lemma SafeStepKeepsUseInv(p: Kind, s: State, e: LifeEvent, s': State, base: Baseline)
    requires Tidy(p, s) && UseInv(s, base) && LifeStep(p, s, e, s')
    requires TidyEvent(s, e) && HomelessEvent(e) && SafeEvent(s, e)
    ensures UseInv(s', NextLifeBaseline(s, e, base))
  {
    match e {
      case Call(c) => CallKeepsUseInv(p, s, c, base);
      case Reboot(t) => ReloadKeepsUseInv(s, base, t, s');
    }
  }

  /** A step that keeps the property is safe: only reports can break it. */
  lemma ApartStepIsSafe(p: Kind, s: State, e: LifeEvent, s': State, base: Baseline)
    requires UseInv(s, base) && LifeStep(p, s, e, s') && AllUsedApart(s', NextLifeBaseline(s, e, base))
    ensures SafeEvent(s, e)
  {
    if e.Call? && e.event.Report? {
      ReportKeepsUsesIff(p, s, e.event.update, e.event.ds, base);
    }
  }

  lemma SafeNext(p: Kind, ss: seq<State>, es: seq<LifeEvent>, bs: seq<Baseline>, n: nat)
    requires LifeRun(p, ss, es, bs) && 0 < n < |ss| && Tidy(p, ss[n - 1]) && UseInv(ss[n - 1], bs[n - 1])
    requires SafeEvent(ss[n - 1], es[n - 1])
    ensures UseInv(ss[n], bs[n])
  {
    assert LifeStep(p, ss[n - 1], es[n - 1], ss[n]) && TidyEvent(ss[n - 1], es[n - 1]) && HomelessEvent(es[n - 1]);
    SafeStepKeepsUseInv(p, ss[n - 1], es[n - 1], ss[n], bs[n - 1]);
  }

  ghost predicate AllSafe(ss: seq<State>, es: seq<LifeEvent>, n: nat)
    requires n <= |es| && n <= |ss|
  {
    forall i {:trigger SafeEvent(ss[i], es[i])} :: 0 <= i < n ==> SafeEvent(ss[i], es[i])
  }

  lemma {:induction false} AlwaysUseInv(p: Kind, ss: seq<State>, es: seq<LifeEvent>, bs: seq<Baseline>, n: nat)
    requires LifeRun(p, ss, es, bs) && n < |ss| && AllSafe(ss, es, n)
    ensures Tidy(p, ss[n]) && UseInv(ss[n], bs[n])
  {
    AlwaysTidy(p, ss, es, n);
    if n > 0 {
      AlwaysUseInv(p, ss, es, bs, n - 1);
      assert SafeEvent(ss[n - 1], es[n - 1]);
      SafeNext(p, ss, es, bs, n);
    }
  }

  ghost predicate AlwaysApart(ss: seq<State>, bs: seq<Baseline>)
    requires |ss| == |bs|
  {
    forall n {:trigger AllUsedApart(ss[n], bs[n])} :: 0 <= n < |ss| ==> AllUsedApart(ss[n], bs[n])
  }

  lemma ApartNext(p: Kind, ss: seq<State>, es: seq<LifeEvent>, bs: seq<Baseline>, n: nat)
    requires LifeRun(p, ss, es, bs) && 0 < n < |ss| && AlwaysApart(ss, bs)
    requires Tidy(p, ss[n - 1]) && UseInv(ss[n - 1], bs[n - 1])
    ensures SafeEvent(ss[n - 1], es[n - 1]) && UseInv(ss[n], bs[n])
  {
    assert LifeStep(p, ss[n - 1], es[n - 1], ss[n]) && AllUsedApart(ss[n], bs[n]);
    ApartStepIsSafe(p, ss[n - 1], es[n - 1], ss[n], bs[n - 1]);
    SafeNext(p, ss, es, bs, n);
  }

  lemma {:induction false} AlwaysApartInv(p: Kind, ss: seq<State>, es: seq<LifeEvent>, bs: seq<Baseline>, n: nat)
    requires LifeRun(p, ss, es, bs) && n < |ss| && AlwaysApart(ss, bs)
    ensures Tidy(p, ss[n]) && UseInv(ss[n], bs[n])
    ensures n > 0 ==> SafeEvent(ss[n - 1], es[n - 1])
  {
    AlwaysTidy(p, ss, es, n);
    if n > 0 {
      AlwaysApartInv(p, ss, es, bs, n - 1);
      ApartNext(p, ss, es, bs, n);
    }
  }

  lemma ApartStepAt(p: Kind, ss: seq<State>, es: seq<LifeEvent>, bs: seq<Baseline>, i: nat)
    requires LifeRun(p, ss, es, bs) && i < |es| && AlwaysApart(ss, bs)
    ensures SafeEvent(ss[i], es[i])
  {
    var n := i + 1;
    AlwaysApartInv(p, ss, es, bs, n);
    assert ss[n - 1] == ss[i] && es[n - 1] == es[i];
  }

  lemma SafeRunsStayApart(p: Kind, ss: seq<State>, es: seq<LifeEvent>, bs: seq<Baseline>, n: nat)
    requires LifeRun(p, ss, es, bs) && n < |ss| && AllSafe(ss, es, |es|)
    ensures AllUsedApart(ss[n], bs[n])
  {
    assert AllSafe(ss, es, n);
    AlwaysUseInv(p, ss, es, bs, n);
  }

  // ---------------------------------------------------------------- result

  /** GPU exclusion over restarts with its exact condition: in all states of a run with restarts, fresh names and
      arbitrary reports, unfinished tasks of one worker use no GPU twice and a GPU is available exactly when it was
      registered available and no unfinished task uses it, if and only if every report is safe. */
  lemma LifeExclusionIffSafe(p: Kind, ss: seq<State>, es: seq<LifeEvent>, bs: seq<Baseline>)
    requires LifeRun(p, ss, es, bs)
    ensures AlwaysApart(ss, bs) <==> AllSafe(ss, es, |es|)
  {
    if AlwaysApart(ss, bs) {
      forall i | 0 <= i < |es| ensures SafeEvent(ss[i], es[i]) {
        ApartStepAt(p, ss, es, bs, i);
      }
    }
    if AllSafe(ss, es, |es|) {
      forall n | 0 <= n < |ss| ensures AllUsedApart(ss[n], bs[n]) {
        SafeRunsStayApart(p, ss, es, bs, n);
      }
    }
  }
}
