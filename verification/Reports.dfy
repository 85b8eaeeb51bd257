/** Which reports keep the GPUs of unfinished tasks apart, whether or not the scheduler has been restarted.
    After a restart finished tasks are back in the books of their worker, so holding the task is not enough. */
module Reports {
  import opened Cluster
  import opened Policy
  import opened Scheduling
  import opened Books
  import opened Exclusion
  import opened Claims

  // ---------------------------------------------------------------- safe reports

  /** The worker has a GPU that the list names. */
  ghost predicate OwnsOne(w: Worker, given: seq<string>) {
    exists i :: 0 <= i < |w.gpus| && w.gpus[i].id in given
  }

  /** An unfinished task of the reporting worker ends; or all GPUs the report frees are free already, and no
      other worker is left with GPUs of a task that has ended. */
  ghost predicate SafeEnd(s: State, u: Update)
    requires WellFormed(s) && Accepted(s, u)
  {
    var t := s.heap[s.tasks[u.taskId]];
    || (!t.status.Final() && t.workerId == u.workerId)
    || (GivenFree(s.workers[u.workerId], t.gpuIds)
        && (!t.status.Final() && t.workerId in s.workers ==> !OwnsOne(s.workers[t.workerId], t.gpuIds)))
  }

  /** A finished task becomes unfinished again: its worker has lost all the GPUs it lists, and no unfinished task
      there lists one of them. */
  ghost predicate SafeRevival(s: State, u: Update)
    requires WellFormed(s) && Accepted(s, u)
  {
    var t := s.heap[s.tasks[u.taskId]];
    t.status.Final() && t.workerId in s.workers ==>
      !OwnsOne(s.workers[t.workerId], t.gpuIds) && forall x :: x in t.gpuIds ==> !InUse(s, t.workerId, x)
  }

  ghost predicate SafeReport(s: State, u: Update)
    requires WellFormed(s)
  {
    Accepted(s, u) ==> if u.status.Final() then SafeEnd(s, u) else SafeRevival(s, u)
  }

  // ---------------------------------------------------------------- what a report does to uses

  lemma ReportedUses(s: State, u: Update, v: string, a: string, x: string)
    requires WellFormed(s) && IdsAgree(s) && Accepted(s, u)
    ensures Uses(Reported(s, u), v, a, x) <==>
              if a == u.taskId then
                !u.status.Final() && s.heap[s.tasks[a]].workerId == v && x in s.heap[s.tasks[a]].gpuIds
              else Uses(s, v, a, x)
  {
    assert a in s.tasks && a != u.taskId ==> s.tasks[a] != s.tasks[u.taskId];
  }

  lemma ReportedGpus(s: State, u: Update, v: string)
    requires WellFormed(s) && Accepted(s, u) && v in s.workers
    ensures v in Reported(s, u).workers
    ensures Reported(s, u).workers[v].gpus ==
              if u.status.Final() && v == u.workerId
              then Marked(s.workers[v].gpus, s.heap[s.tasks[u.taskId]].gpuIds, true)
              else s.workers[v].gpus
  {
  }

  lemma ReportedKeepsQueue(s: State, u: Update)
    requires WellFormed(s) && QueueKnown(s) && QueueHomeless(s) && Accepted(s, u)
    ensures QueueKnown(Reported(s, u)) && QueueHomeless(Reported(s, u))
  {
    var s' := Reported(s, u);
    forall k | 0 <= k < |s'.pending| ensures Enqueued(s', s'.pending[k]) && s'.heap[s'.pending[k]].workerId == "" {
      assert Enqueued(s, s.pending[k]) && s.heap[s.pending[k]].workerId == "";
    }
  }

  lemma ReportedKeepsPlacements(s: State, u: Update, base: Baseline)
    requires WellFormed(s) && Placements(s, base) && Accepted(s, u)
    ensures Reported(s, u).workers.Keys == s.workers.Keys && Placements(Reported(s, u), base)
  {
    assert Reported(s, u).workers.Keys == s.workers.Keys;
  }

  lemma ReportedKeepsIdsApart(s: State, u: Update)
    requires WellFormed(s) && IdsApart(s) && Accepted(s, u)
    ensures IdsApart(Reported(s, u))
  {
    forall w | w in Reported(s, u).workers ensures DistinctIds(Reported(s, u).workers[w].gpus) {
      ReportedGpus(s, u, w);
    }
  }

  lemma ReportedKeepsTable(s: State, u: Update, base: Baseline)
    requires UseInv(s, base) && Accepted(s, u)
    ensures TableLinked(Reported(s, u)) && Placements(Reported(s, u), base)
    ensures Reported(s, u).workers.Keys == s.workers.Keys
  {
    ReportedKeepsQueue(s, u);
    ReportedKeepsPlacements(s, u, base);
    ReportedKeepsIdsApart(s, u);
  }

  /** A worker without users of these GPUs, and whose GPUs stay, stays apart when the task's uses do not change. */
  lemma UnchangedUses(s: State, u: Update, v: string, base: set<string>)
    requires WellFormed(s) && IdsAgree(s) && Accepted(s, u) && v in s.workers && UsedApart(s, v, base)
    requires Reported(s, u).workers[v].gpus == s.workers[v].gpus
    requires s.heap[s.tasks[u.taskId]].workerId == v ==>
               (u.status.Final() <==> s.heap[s.tasks[u.taskId]].status.Final())
               || s.heap[s.tasks[u.taskId]].gpuIds == []
    ensures UsedApart(Reported(s, u), v, base)
  {
    forall a, x ensures Uses(Reported(s, u), v, a, x) <==> Uses(s, v, a, x) {
      ReportedUses(s, u, v, a, x);
    }
    UseFrame(s, Reported(s, u), v, base);
  }

  // ---------------------------------------------------------------- final reports

  lemma MarkedFree(w: Worker, given: seq<string>)
    requires GivenFree(w, given)
    ensures Marked(w.gpus, given, true) == w.gpus
  {
  }

  /** The reporting worker ends an unfinished task of its own: its GPUs become available and unused. */
  lemma EndingOwnTask(s: State, u: Update, base: set<string>)
    requires WellFormed(s) && IdsAgree(s) && Accepted(s, u) && u.status.Final() && UsedApart(s, u.workerId, base)
    requires var t := s.heap[s.tasks[u.taskId]]; !t.status.Final() && t.workerId == u.workerId
    ensures UsedApart(Reported(s, u), u.workerId, base)
  {
    var s', w, id, given := Reported(s, u), u.workerId, u.taskId, s.heap[s.tasks[u.taskId]].gpuIds;
    ReportedGpus(s, u, w);
    forall a, x ensures Uses(s', w, a, x) <==> a != id && Uses(s, w, a, x) {
      ReportedUses(s, u, w, a, x);
    }
    forall i | 0 <= i < |s'.workers[w].gpus|
      ensures var g := s'.workers[w].gpus[i]; g.available <==> g.id in base && !InUse(s', w, g.id)
    {
      EndedUse(s, s', w, id, given, s.workers[w].gpus[i].id);
      assert s.workers[w].gpus[i].id in given <==> Uses(s, w, id, s.workers[w].gpus[i].id);
    }
  }

  lemma EndedUse(s: State, s': State, w: string, id: string, given: seq<string>, x: string)
    requires WellFormed(s) && WellFormed(s') && id in s.tasks
    requires var t := s.heap[s.tasks[id]]; !t.status.Final() && t.workerId == w && t.gpuIds == given
    requires forall a, b, y :: Uses(s, w, a, y) && Uses(s, w, b, y) ==> a == b
    requires forall a, y :: Uses(s', w, a, y) <==> a != id && Uses(s, w, a, y)
    ensures InUse(s', w, x) <==> InUse(s, w, x) && x !in given
  {
    assert x in given <==> Uses(s, w, id, x);
    if InUse(s, w, x) && x !in given {
      var a :| Uses(s, w, a, x);
      assert Uses(s', w, a, x);
    }
  }

  lemma SafeEndKeepsUses(s: State, u: Update, base: Baseline, v: string)
    requires UseInv(s, base) && Accepted(s, u) && u.status.Final() && SafeEnd(s, u) && v in s.workers
    ensures UsedApart(Reported(s, u), v, base[v])
  {
    var t := s.heap[s.tasks[u.taskId]];
    ReportedGpus(s, u, v);
    if !t.status.Final() && t.workerId == v {
      if v == u.workerId {
        EndingOwnTask(s, u, base[v]);
      } else {
        EndingUnowned(s, u, base, v);
      }
    } else {
      if v == u.workerId && GivenFree(s.workers[v], t.gpuIds) {
        MarkedFree(s.workers[v], t.gpuIds);
      }
      UnchangedUses(s, u, v, base[v]);
    }
  }

  /** The task ends on another worker, which has lost its GPUs. */
  lemma EndingUnowned(s: State, u: Update, base: Baseline, v: string)
    requires UseInv(s, base) && Accepted(s, u) && u.status.Final() && v in s.workers && v != u.workerId
    requires var t := s.heap[s.tasks[u.taskId]];
             !t.status.Final() && t.workerId == v && !OwnsOne(s.workers[v], t.gpuIds)
    ensures UsedApart(Reported(s, u), v, base[v])
  {
    var s', given := Reported(s, u), s.heap[s.tasks[u.taskId]].gpuIds;
    ReportedGpus(s, u, v);
    forall a, x ensures Uses(s', v, a, x) <==> a != u.taskId && Uses(s, v, a, x) {
      ReportedUses(s, u, v, a, x);
    }
    forall i | 0 <= i < |s'.workers[v].gpus|
      ensures var g := s'.workers[v].gpus[i]; g.available <==> g.id in base[v] && !InUse(s', v, g.id)
    {
      EndedUse(s, s', v, u.taskId, given, s.workers[v].gpus[i].id);
    }
  }

  // ---------------------------------------------------------------- reports that are not final

  /** The GPUs of a revived task are its worker's no longer, so nothing available is affected. */
  lemma RevivingUnowned(s: State, u: Update, base: Baseline, v: string)
    requires UseInv(s, base) && Accepted(s, u) && !u.status.Final() && SafeRevival(s, u) && v in s.workers
    requires var t := s.heap[s.tasks[u.taskId]]; t.status.Final() && t.workerId == v
    ensures UsedApart(Reported(s, u), v, base[v])
  {
    var s', given := Reported(s, u), s.heap[s.tasks[u.taskId]].gpuIds;
    forall a, x ensures Uses(s', v, a, x) <==> if a == u.taskId then x in given else Uses(s, v, a, x) {
      ReportedUses(s, u, v, a, x);
    }
    forall i | 0 <= i < |s'.workers[v].gpus|
      ensures var g := s'.workers[v].gpus[i]; g.available <==> g.id in base[v] && !InUse(s', v, g.id)
    {
      RevivedUse(s, s', v, u.taskId, given, s.workers[v].gpus[i].id);
    }
  }

  lemma RevivedUse(s: State, s': State, w: string, id: string, given: seq<string>, x: string)
    requires WellFormed(s) && WellFormed(s') && x !in given
    requires forall y :: !Uses(s, w, id, y)
    requires forall a, y :: Uses(s', w, a, y) <==> if a == id then y in given else Uses(s, w, a, y)
    ensures InUse(s', w, x) <==> InUse(s, w, x)
  {
    if InUse(s, w, x) {
      var a :| Uses(s, w, a, x);
      assert Uses(s', w, a, x);
    }
  }

  lemma SafeRevivalKeepsUses(s: State, u: Update, base: Baseline, v: string)
    requires UseInv(s, base) && Accepted(s, u) && !u.status.Final() && SafeRevival(s, u) && v in s.workers
    ensures UsedApart(Reported(s, u), v, base[v])
  {
    var t := s.heap[s.tasks[u.taskId]];
    if t.status.Final() && t.workerId == v {
      RevivingUnowned(s, u, base, v);
    } else {
      UnchangedUses(s, u, v, base[v]);
    }
  }

  lemma SafeReportedKeepsUseInv(s: State, u: Update, base: Baseline)
    requires UseInv(s, base) && Accepted(s, u) && SafeReport(s, u)
    ensures UseInv(Reported(s, u), base)
  {
    ReportedKeepsTable(s, u, base);
    forall v | v in s.workers ensures UsedApart(Reported(s, u), v, base[v]) {
      if u.status.Final() {
        SafeEndKeepsUses(s, u, base, v);
      } else {
        SafeRevivalKeepsUses(s, u, base, v);
      }
    }
  }

  lemma SafeReportKeepsUseInv(p: Kind, s: State, u: Update, ds: seq<Decision>, base: Baseline)
    requires UseInv(s, base) && LegalReport(p, s, u, ds) && SafeReport(s, u)
    ensures UseInv(AfterReport(p, s, u, ds), base)
  {
    if Accepted(s, u) {
      SafeReportedKeepsUseInv(s, u, base);
      if u.status.Final() {
        SweepKeepsUseInv(p, Reported(s, u), 0, ds, base);
      }
    }
  }

  // ---------------------------------------------------------------- what an unsafe report spoils

  /** The GPU is offered although an unfinished task uses it, two use it, or it should not be in circulation. */
  ghost predicate Loose(s: State, base: set<string>, v: string, x: string)
    requires WellFormed(s) && v in s.workers
  {
    var free := FreeAt(s.workers[v], x);
    || (x !in base && (free || InUse(s, v, x)))
    || (free && InUse(s, v, x))
    || exists a, b :: a != b && Uses(s, v, a, x) && Uses(s, v, b, x)
  }

  /** The GPU is withheld although nobody uses it. */
  ghost predicate Leaked(s: State, base: set<string>, v: string, x: string)
    requires WellFormed(s) && v in s.workers
  {
    && x in base && !InUse(s, v, x)
    && exists i :: 0 <= i < |s.workers[v].gpus| && s.workers[v].gpus[i].id == x && !s.workers[v].gpus[i].available
  }

  lemma SpoiltIsNotApart(s: State, base: set<string>, v: string, x: string)
    requires WellFormed(s) && v in s.workers && (Loose(s, base, v, x) || Leaked(s, base, v, x))
    ensures !UsedApart(s, v, base)
  {
  }

  lemma MarkedKeepsFreeAt(w: Worker, w': Worker, ids: seq<string>, x: string)
    requires FreeAt(w, x) && x !in ids && w'.gpus == Marked(w.gpus, ids, false)
    ensures FreeAt(w', x)
  {
    var i :| 0 <= i < |w.gpus| && w.gpus[i].id == x && w.gpus[i].available;
    assert w'.gpus[i] == w.gpus[i];
  }

  lemma PlacingKeepsLoose(p: Kind, s: State, i: nat, w: string, now: Time, base: set<string>, v: string, x: string)
    requires WellFormed(s) && TableLinked(s) && i < |s.pending| && Takes(p, s, i, Place(w, now))
    requires v in s.workers && Loose(s, base, v, x)
    ensures v in Assign(s, i, w, w, now).workers && Loose(Assign(s, i, w, w, now), base, v, x)
  {
    var s', t := Assign(s, i, w, w, now), s.heap[s.pending[i]];
    PlacingInUse(p, s, i, w, now, v, x);
    forall a ensures Uses(s, v, a, x) ==> Uses(s', v, a, x) {
      PlacingUses(p, s, i, w, now, v, a, x);
    }
    PlacingUses(p, s, i, w, now, v, t.id, x);
    if v == w && x in Grant(s.workers[w], t) {
      if a :| Uses(s, v, a, x) {
        assert a != t.id && Uses(s', v, a, x) && Uses(s', v, t.id, x);
      }
    } else if v == w && FreeAt(s.workers[v], x) {
      MarkedKeepsFreeAt(s.workers[w], s'.workers[w], Grant(s.workers[w], t), x);
    }
  }

  lemma PlacingKeepsLeaked(p: Kind, s: State, i: nat, w: string, now: Time, base: set<string>, v: string, x: string)
    requires WellFormed(s) && TableLinked(s) && i < |s.pending| && Takes(p, s, i, Place(w, now))
    requires v in s.workers && Leaked(s, base, v, x)
    ensures v in Assign(s, i, w, w, now).workers && Leaked(Assign(s, i, w, w, now), base, v, x)
  {
    var s', t := Assign(s, i, w, w, now), s.heap[s.pending[i]];
    var k :| 0 <= k < |s.workers[v].gpus| && s.workers[v].gpus[k].id == x && !s.workers[v].gpus[k].available;
    PlacingInUse(p, s, i, w, now, v, x);
    GrantFacts(s.workers[w], t);
    assert v == w ==> x !in Grant(s.workers[w], t);
    assert s'.workers[v].gpus[k].id == x && !s'.workers[v].gpus[k].available;
  }

  lemma {:induction false} SweepKeepsSpoilt(p: Kind, s: State, i: nat, ds: seq<Decision>, base: set<string>, v: string,
                                            x: string)
    requires WellFormed(s) && TableLinked(s) && i <= |s.pending| && ValidSweep(p, s, i, ds)
    requires v in s.workers && (Loose(s, base, v, x) || Leaked(s, base, v, x))
    ensures var s' := Sweep(p, s, i, ds); v in s'.workers && (Loose(s', base, v, x) || Leaked(s', base, v, x))
    decreases |s.pending| - i
  {
    if i < |s.pending| {
      var (s', i') := Advance(p, s, i, ds[0]);
      if ds[0].Place? {
        PlacingKeepsTableLinked(p, s, i, ds[0].worker, ds[0].now);
        if Loose(s, base, v, x) {
          PlacingKeepsLoose(p, s, i, ds[0].worker, ds[0].now, base, v, x);
        } else {
          PlacingKeepsLeaked(p, s, i, ds[0].worker, ds[0].now, base, v, x);
        }
      }
      SweepKeepsSpoilt(p, s', i', ds[1..], base, v, x);
    }
  }

  /** The report frees a GPU of the reporting worker that is not free. */
  lemma FreeingLoosens(s: State, u: Update, base: Baseline) returns (x: string)
    requires UseInv(s, base) && Accepted(s, u) && u.status.Final()
    requires var t := s.heap[s.tasks[u.taskId]];
             && !GivenFree(s.workers[u.workerId], t.gpuIds) && (t.status.Final() || t.workerId != u.workerId)
    ensures u.workerId in Reported(s, u).workers && Loose(Reported(s, u), base[u.workerId], u.workerId, x)
  {
    var s', w, given := Reported(s, u), s.workers[u.workerId], s.heap[s.tasks[u.taskId]].gpuIds;
    var i: nat :| i < |w.gpus| && w.gpus[i].id in given && !w.gpus[i].available;
    x := w.gpus[i].id;
    ReportedGpus(s, u, u.workerId);
    FreedAt(w, s'.workers[u.workerId], given, i);
    assert UsedApart(s, u.workerId, base[u.workerId]);
    if a :| Uses(s, u.workerId, a, x) {
      ReportedUses(s, u, u.workerId, a, x);
    }
  }

  /** The report ends a task of another worker, which keeps withholding its GPUs. */
  lemma EndingLeaks(s: State, u: Update, base: Baseline) returns (x: string)
    requires UseInv(s, base) && Accepted(s, u) && u.status.Final()
    requires var t := s.heap[s.tasks[u.taskId]];
             && !t.status.Final() && t.workerId != u.workerId && t.workerId in s.workers
             && OwnsOne(s.workers[t.workerId], t.gpuIds)
    ensures var v := s.heap[s.tasks[u.taskId]].workerId;
            v in Reported(s, u).workers && Leaked(Reported(s, u), base[v], v, x)
  {
    var s', id, t := Reported(s, u), u.taskId, s.heap[s.tasks[u.taskId]];
    var v := t.workerId;
    var i: nat :| i < |s.workers[v].gpus| && s.workers[v].gpus[i].id in t.gpuIds;
    x := s.workers[v].gpus[i].id;
    ReportedGpus(s, u, v);
    assert UsedApart(s, v, base[v]) && Uses(s, v, id, x);
    forall a, y ensures Uses(s', v, a, y) <==> a != id && Uses(s, v, a, y) {
      ReportedUses(s, u, v, a, y);
    }
    EndedUse(s, s', v, id, t.gpuIds, x);
    assert !s.workers[v].gpus[i].available;
  }

  lemma UnsafeEndBreaks(p: Kind, s: State, u: Update, ds: seq<Decision>, base: Baseline)
    requires UseInv(s, base) && LegalReport(p, s, u, ds) && Accepted(s, u) && u.status.Final() && !SafeEnd(s, u)
    ensures !AllUsedApart(AfterReport(p, s, u, ds), base)
  {
    var t := s.heap[s.tasks[u.taskId]];
    var v, x := u.workerId, "";
    if !GivenFree(s.workers[u.workerId], t.gpuIds) {
      x := FreeingLoosens(s, u, base);
    } else {
      v := t.workerId;
      x := EndingLeaks(s, u, base);
    }
    ReportedKeepsTable(s, u, base);
    SweepKeepsSpoilt(p, Reported(s, u), 0, ds, base[v], v, x);
    SpoiltIsNotApart(AfterReport(p, s, u, ds), base[v], v, x);
  }

  /** A revived task claims GPUs that are available, or that another unfinished task uses. */
  lemma UnsafeRevivalBreaks(s: State, u: Update, base: Baseline)
    requires UseInv(s, base) && Accepted(s, u) && !u.status.Final() && !SafeRevival(s, u)
    ensures !AllUsedApart(Reported(s, u), base)
  {
    var s', id, t := Reported(s, u), u.taskId, s.heap[s.tasks[u.taskId]];
    var v := t.workerId;
    assert UsedApart(s, v, base[v]);
    var x: string;
    if y :| y in t.gpuIds && InUse(s, v, y) {
      x := y;
      var a :| Uses(s, v, a, x);
      ReportedUses(s, u, v, a, x);
      ReportedUses(s, u, v, id, x);
      assert a != id && Uses(s', v, a, x) && Uses(s', v, id, x);
    } else {
      var i: nat :| i < |s.workers[v].gpus| && s.workers[v].gpus[i].id in t.gpuIds;
      x := s.workers[v].gpus[i].id;
      ReportedUses(s, u, v, id, x);
      assert Uses(s', v, id, x) && s'.workers[v].gpus[i].available;
      assert FreeAt(s'.workers[v], x);
    }
    SpoiltIsNotApart(s', base[v], v, x);
  }

  // ---------------------------------------------------------------- result

  /** Whatever has happened before, restarts included: after a report and its sweep unfinished tasks use GPUs
      apart and availability is exact if and only if the report is safe. */
  lemma ReportKeepsUsesIff(p: Kind, s: State, u: Update, ds: seq<Decision>, base: Baseline)
    requires UseInv(s, base) && LegalReport(p, s, u, ds)
    ensures AllUsedApart(AfterReport(p, s, u, ds), base) <==> SafeReport(s, u)
  {
    if SafeReport(s, u) {
      SafeReportKeepsUseInv(p, s, u, ds, base);
    } else if u.status.Final() {
      UnsafeEndBreaks(p, s, u, ds, base);
    } else {
      UnsafeRevivalBreaks(s, u, base);
    }
  }
}
