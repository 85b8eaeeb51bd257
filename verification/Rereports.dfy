/** Honest runs are safe as long as nothing is restarted; after a restart a report by the very worker that holds the
    task can free a GPU that another task uses. */
module Rereports {
  import opened Cluster
  import opened Policy
  import opened Scheduling
  import opened Quiescence
  import opened Books
  import opened Exclusion
  import opened Honest
  import opened Misreports
  import opened Claims
  import opened Reports
  import opened Restart
  import opened Life
  import opened LifeExclusion
  import opened LiveRestart
  import opened Reloading
  import P = Persistence

  // ---------------------------------------------------------------- honest runs are safe

  lemma HonestReportIsSafe(s: State, u: Update, base: Baseline)
    requires HonestInv(s, base) && (Accepted(s, u) ==> HonestReport(s, u))
    ensures SafeReport(s, u)
  {
    if Accepted(s, u) {
      OneBookPerTask(s, base, u.taskId, u.workerId, u.workerId);
      assert !Finished(s, u.taskId);
    }
  }

  ghost function Calls(es: seq<Event>): seq<LifeEvent> {
    seq(|es|, i requires 0 <= i < |es| => Call(es[i]))
  }

  lemma HonestEventIsSafe(p: Kind, ss: seq<State>, es: seq<Event>, bs: seq<Baseline>, i: nat)
    requires HonestBehavior(p, ss, es, bs) && i < |es|
    ensures HomelessEvent(Call(es[i])) && SafeEvent(ss[i], Call(es[i]))
    ensures bs[i + 1] == NextLifeBaseline(ss[i], Call(es[i]), bs[i])
  {
    AlwaysHonestInv(p, ss, es, bs, i);
    assert HonestEvent(ss[i], es[i]);
    if es[i].Report? {
      HonestReportIsSafe(ss[i], es[i].update, bs[i]);
    }
  }

  /** Honest runs, which have no restarts, are runs with restarts in which every report is safe. */
  lemma HonestRunIsSafe(p: Kind, ss: seq<State>, es: seq<Event>, bs: seq<Baseline>)
    requires HonestBehavior(p, ss, es, bs)
    ensures LifeRun(p, ss, Calls(es), bs) && AllSafe(ss, Calls(es), |es|)
  {
    HonestRunIsTidyLife(p, ss, es, bs);
    forall i | 0 <= i < |es|
      ensures HomelessEvent(Calls(es)[i]) && SafeEvent(ss[i], Calls(es)[i])
      ensures bs[i + 1] == NextLifeBaseline(ss[i], Calls(es)[i], bs[i])
    {
      HonestEventIsSafe(p, ss, es, bs, i);
    }
  }

  lemma HonestEventIsLive(p: Kind, ss: seq<State>, es: seq<Event>, bs: seq<Baseline>, i: nat)
    requires HonestBehavior(p, ss, es, bs) && i < |es|
    ensures LiveStep(p, ss[i], Call(es[i]), ss[i + 1])
    ensures bs[i + 1] == NextLifeBaseline(ss[i], Call(es[i]), bs[i])
  {
    AlwaysHonestInv(p, ss, es, bs, i);
    assert Step(p, ss[i], es[i], ss[i + 1]) && HonestEvent(ss[i], es[i]);
    assert es[i].Report? && Accepted(ss[i], es[i].update) ==> !Finished(ss[i], es[i].update.taskId);
  }

  /** They are also runs in which workers report unfinished tasks they hold. */
  lemma HonestRunIsLive(p: Kind, ss: seq<State>, es: seq<Event>, bs: seq<Baseline>)
    requires HonestBehavior(p, ss, es, bs)
    ensures LiveRun(p, ss, Calls(es), bs)
  {
    forall i | 0 <= i < |es|
      ensures LiveStep(p, ss[i], Calls(es)[i], ss[i + 1]) && bs[i + 1] == NextLifeBaseline(ss[i], Calls(es)[i], bs[i])
    {
      HonestEventIsLive(p, ss, es, bs, i);
    }
  }

  // ---------------------------------------------------------------- a restart, then a report by the holder

  lemma ExtendLife(p: Kind, ss: seq<State>, es: seq<LifeEvent>, bs: seq<Baseline>, e: LifeEvent, s': State)
    returns (ss': seq<State>, es': seq<LifeEvent>, bs': seq<Baseline>)
    requires LifeRun(p, ss, es, bs)
    requires LifeStep(p, ss[|es|], e, s') && TidyEvent(ss[|es|], e) && HomelessEvent(e)
    ensures ss' == ss + [s'] && es' == es + [e] && bs' == bs + [NextLifeBaseline(ss[|es|], e, bs[|es|])]
    ensures LifeRun(p, ss', es', bs')
  {
    ss', es', bs' := ss + [s'], es + [e], bs + [NextLifeBaseline(ss[|es|], e, bs[|es|])];
    forall i | 0 <= i < |es'|
      ensures LifeStep(p, ss'[i], es'[i], ss'[i + 1]) && TidyEvent(ss'[i], es'[i])
      ensures HomelessEvent(es'[i]) && bs'[i + 1] == NextLifeBaseline(ss'[i], es'[i], bs'[i])
    {
      assert ss'[i] == ss[i] && bs'[i] == bs[i];
      if i < |es| {
        assert ss'[i + 1] == ss[i + 1] && bs'[i + 1] == bs[i + 1] && es'[i] == es[i];
      }
    }
  }

  lemma StillSafe(ss: seq<State>, es: seq<LifeEvent>, s': State, e: LifeEvent, n: nat)
    requires n <= |es| && n <= |ss| && AllSafe(ss, es, n)
    ensures AllSafe(ss + [s'], es + [e], n)
  {
    forall i | 0 <= i < n ensures SafeEvent((ss + [s'])[i], (es + [e])[i]) {
      assert SafeEvent(ss[i], es[i]);
    }
  }

  /** Worker "w" has its one GPU taken; task "a" has finished on it, task "b" runs on it, and both list the GPU. */
  ghost predicate BeforeRestart(s: State) {
    && WellFormed(s) && s.workers.Keys == {"w"} && s.workers["w"].gpus == OneGpu(false) && s.pending == []
    && FinishedOn(s, "a", "w") && s.heap[s.tasks["a"]].gpuIds == ["g"]
  }

  lemma HalfIsBeforeRestart(s: State, base: Baseline)
    requires HonestInv(s, base) && At(s, false, BUSY, map["b" := 1], map["a" := 0]["b" := 1], 2)
    ensures BeforeRestart(s)
  {
    assert "a" in s.tasks && s.tasks["a"] !in s.pending;
    assert Running(s, "a") || Finished(s, "a");
  }

  lemma OneGpuUnique(s: State)
    requires BeforeRestart(s)
    ensures GloballyUnique(s)
  {
  }

  lemma GpuStillTaken(s: State, s': State)
    requires BeforeRestart(s) && SameGpus(s, s')
    ensures "w" in s'.workers
    ensures exists i :: 0 <= i < |s'.workers["w"].gpus| && s'.workers["w"].gpus[i] == OneGpu(false)[0]
  {
    SameMembers(s'.workers["w"].gpus, OneGpu(false), OneGpu(false)[0]);
  }

  /** After the restart the worker has the finished task in its books again, and its report is not safe. */
  lemma HolderIsUnsafe(s: State, t: P.Trip, s': State)
    requires BeforeRestart(s) && P.Reloads(s, t, s') && WellFormed(s')
    ensures HonestReport(s', Done("a")) && !SafeReport(s', Done("a"))
  {
    OneGpuUnique(s);
    GpusRestoredIffUnique(s, t, s');
    BooksAfterReload(s, t, s', "w");
    TaskRestored(s, t, s', "a");
    GpuStillTaken(s, s');
    SameMembers(s'.heap[s'.tasks["a"]].gpuIds, ["g"], "g");
    var i :| 0 <= i < |s'.workers["w"].gpus| && s'.workers["w"].gpus[i] == OneGpu(false)[0];
    assert s'.workers["w"].gpus[i].id in s'.heap[s'.tasks["a"]].gpuIds;
  }

  lemma HonestPrefix() returns (ss: seq<State>, es: seq<LifeEvent>, bs: seq<Baseline>)
    ensures LifeRun(Balanced, ss, es, bs) && |es| == 4 && AllSafe(ss, es, 4) && BeforeRestart(ss[4])
  {
    var calls;
    ss, calls := HonestHalf();
    bs := BaselinesExist(ss, calls);
    assert forall i :: 0 <= i < |calls| ==> HonestEvent(ss[i], calls[i]);
    es := Calls(calls);
    HonestRunIsSafe(Balanced, ss, calls, bs);
    AlwaysHonestInv(Balanced, ss, calls, bs, 4);
    HalfIsBeforeRestart(ss[4], bs[4]);
  }

  /** The restart: the worker holds task "a" although it has finished. */
  lemma RestartStep(s: State) returns (e: LifeEvent, s': State)
    requires Tidy(Balanced, s) && BeforeRestart(s)
    ensures LifeStep(Balanced, s, e, s') && TidyEvent(s, e) && HomelessEvent(e) && SafeEvent(s, e) && e.Reboot?
    ensures WellFormed(s') && HonestReport(s', Done("a")) && !SafeReport(s', Done("a"))
  {
    var t, r := ReloadExists(s);
    RestartKeepsQuiescence(Balanced, s, t, r);
    HolderIsUnsafe(s, t, r);
    e, s' := Reboot(t), r;
  }

  /** What is known of a run that was extended by one event. */
  lemma Extended(ss: seq<State>, es: seq<LifeEvent>, bs: seq<Baseline>, e: LifeEvent, s': State, base: Baseline)
    requires |ss| == |es| + 1 == |bs| && AllSafe(ss, es, |es|)
    ensures var ss', es', bs' := ss + [s'], es + [e], bs + [base];
            && AllSafe(ss', es', |es|) && (SafeEvent(ss[|es|], e) ==> AllSafe(ss', es', |es'|))
            && ss'[|es|] == ss[|es|] && bs'[|es|] == bs[|es|]
            && ss'[|es'|] == s' && es'[|es|] == e && bs'[|es'|] == base
  {
    StillSafe(ss, es, s', e, |es|);
  }

  lemma Restarted() returns (ss: seq<State>, es: seq<LifeEvent>, bs: seq<Baseline>)
    ensures LifeRun(Balanced, ss, es, bs) && |es| == 5 && AllSafe(ss, es, 5) && es[4].Reboot?
    ensures WellFormed(ss[5]) && HonestReport(ss[5], Done("a")) && !SafeReport(ss[5], Done("a"))
  {
    ss, es, bs := HonestPrefix();
    AlwaysTidy(Balanced, ss, es, 4);
    var e, s' := RestartStep(ss[4]);
    Extended(ss, es, bs, e, s', NextLifeBaseline(ss[4], e, bs[4]));
    ss, es, bs := ExtendLife(Balanced, ss, es, bs, e, s');
  }

  /** The state after the second report about task "a". */
  lemma ReportedAgain(s: State, base: Baseline) returns (e: LifeEvent, s': State)
    requires UseInv(s, base) && HonestReport(s, Done("a")) && !SafeReport(s, Done("a"))
    ensures LifeStep(Balanced, s, e, s') && TidyEvent(s, e) && HomelessEvent(e) && NextLifeBaseline(s, e, base) == base
    ensures e.Call? && HonestEvent(s, e.event) && !SafeEvent(s, e) && !AllUsedApart(s', base)
  {
    var u := Done("a");
    var ds := SweepExists(Balanced, Reported(s, u), 0);
    ReportStepOf(s, u, ds);
    UnsafeReportBreaks(s, base, u, ds);
    e, s' := Call(Report(u, ds)), AfterReport(Balanced, s, u, ds);
  }

  lemma ReportStepOf(s: State, u: Update, ds: seq<Decision>)
    requires WellFormed(s) && LegalReport(Balanced, s, u, ds)
    ensures LifeStep(Balanced, s, Call(Report(u, ds)), AfterReport(Balanced, s, u, ds))
  {
  }

  lemma UnsafeReportBreaks(s: State, base: Baseline, u: Update, ds: seq<Decision>)
    requires UseInv(s, base) && !SafeReport(s, u) && LegalReport(Balanced, s, u, ds)
    ensures !AllUsedApart(AfterReport(Balanced, s, u, ds), base)
  {
    ReportKeepsUsesIff(Balanced, s, u, ds, base);
  }

  /** Task "a" runs and finishes on worker "w", task "b" gets its GPU, the scheduler restarts, and "w" reports "a" as
      completed once more.  All events before are safe, and "w" holds "a" when it reports; but the report frees the GPU
      that "b" uses. */
  lemma HolderFreesUsedGpu() returns (ss: seq<State>, es: seq<LifeEvent>, bs: seq<Baseline>)
    ensures LifeRun(Balanced, ss, es, bs) && |es| == 6 && AllSafe(ss, es, 5) && es[4].Reboot?
    ensures es[5].Call? && HonestEvent(ss[5], es[5].event) && !SafeEvent(ss[5], es[5])
    ensures AllUsedApart(ss[5], bs[5]) && !AllUsedApart(ss[6], bs[6])
  {
    ss, es, bs := Restarted();
    AlwaysUseInv(Balanced, ss, es, bs, 5);
    var e, s' := ReportedAgain(ss[5], bs[5]);
    Extended(ss, es, bs, e, s', bs[5]);
    ss, es, bs := ExtendLife(Balanced, ss, es, bs, e, s');
  }
}
