/** Who uses a GPU according to the task table: the unfinished tasks that were placed on its worker and list
    it.  Unlike the workers' books the table looks the same before and after a restart. */
module Claims {
  import opened Cluster
  import opened Policy
  import opened Scheduling
  import opened Books
  import opened Exclusion

  // ---------------------------------------------------------------- uses

  /** The known task `id` is unfinished, was placed on worker `w` and lists GPU `x`. */
  ghost predicate Uses(s: State, w: string, id: string, x: string)
    requires WellFormed(s)
  {
    && id in s.tasks
    && var t := s.heap[s.tasks[id]];
       !t.status.Final() && t.workerId == w && x in t.gpuIds
  }

  ghost predicate InUse(s: State, w: string, x: string)
    requires WellFormed(s)
  {
    exists id :: Uses(s, w, id, x)
  }

  /** No GPU of the worker is used twice, and one is available exactly when it was at registration and nobody
      uses it. */
  ghost predicate UsedApart(s: State, w: string, base: set<string>)
    requires WellFormed(s) && w in s.workers
  {
    && (forall a, b, x :: Uses(s, w, a, x) && Uses(s, w, b, x) ==> a == b)
    && (forall i :: 0 <= i < |s.workers[w].gpus| ==>
          var g := s.workers[w].gpus[i];
          g.available <==> g.id in base && !InUse(s, w, g.id))
    && forall id, x :: Uses(s, w, id, x) ==> x in base
  }

  ghost predicate AllUsedApart(s: State, base: Baseline) {
    && WellFormed(s) && base.Keys == s.workers.Keys
    && forall w :: w in s.workers ==> UsedApart(s, w, base[w])
  }

  /** A task names a registered worker, and then lists GPUs of its baseline, or none. */
  ghost predicate Placements(s: State, base: Baseline)
    requires WellFormed(s)
  {
    forall id :: id in s.tasks ==>
      var t := s.heap[s.tasks[id]];
      && (t.workerId == "" || (t.workerId in s.workers && t.workerId in base))
      && (t.workerId in base ==> forall x :: x in t.gpuIds ==> x in base[t.workerId])
  }

  ghost predicate QueueHomeless(s: State)
    requires WellFormed(s)
  {
    forall k :: 0 <= k < |s.pending| ==> s.heap[s.pending[k]].workerId == ""
  }

  ghost predicate IdsApart(s: State) {
    forall w :: w in s.workers ==> DistinctIds(s.workers[w].gpus)
  }

  ghost predicate TableLinked(s: State)
    requires WellFormed(s)
  {
    IdsAgree(s) && QueueKnown(s) && QueueHomeless(s) && IdsApart(s) && "" !in s.workers
  }

  ghost predicate UseInv(s: State, base: Baseline) {
    WellFormed(s) && AllUsedApart(s, base) && Placements(s, base) && TableLinked(s)
  }

  /** Nothing changes for a worker whose users are the same and whose GPUs are among those it had. */
  lemma UseFrame(s: State, s': State, w: string, base: set<string>)
    requires WellFormed(s) && WellFormed(s') && w in s.workers && w in s'.workers && UsedApart(s, w, base)
    requires forall id, x :: Uses(s', w, id, x) <==> Uses(s, w, id, x)
    requires forall g :: g in s'.workers[w].gpus ==> g in s.workers[w].gpus
    ensures UsedApart(s', w, base)
  {
    assert forall x :: InUse(s', w, x) <==> InUse(s, w, x);
    forall i | 0 <= i < |s'.workers[w].gpus|
      ensures var g := s'.workers[w].gpus[i]; g.available <==> g.id in base && !InUse(s', w, g.id)
    {
      assert s'.workers[w].gpus[i] in s.workers[w].gpus;
    }
  }

  // ---------------------------------------------------------------- placing a task

  /** The granted GPUs gain a user; nobody else's use changes. */
  lemma PlacingUses(p: Kind, s: State, i: nat, w: string, now: Time, v: string, a: string, x: string)
    requires WellFormed(s) && TableLinked(s) && i < |s.pending| && Takes(p, s, i, Place(w, now)) && v in s.workers
    ensures var s', t := Assign(s, i, w, w, now), s.heap[s.pending[i]];
            && (Uses(s', v, a, x) <==> if a == t.id then v == w && x in Grant(s.workers[w], t) else Uses(s, v, a, x))
            && !Uses(s, v, t.id, x)
  {
    assert Enqueued(s, s.pending[i]);
    assert s.heap[s.pending[i]].workerId == "";
    if a in s.tasks {
      assert s.tasks[a] == s.pending[i] <==> a == s.heap[s.pending[i]].id;
    }
  }

  /** A granted GPU was available, so it is in the baseline and unused. */
  lemma GrantIsUnused(s: State, w: string, base: set<string>, t: Task, x: string)
    requires WellFormed(s) && w in s.workers && DistinctIds(s.workers[w].gpus) && UsedApart(s, w, base)
    requires t.required <= |EligibleIds(s.workers[w].gpus, t.minMemory)| && x in Grant(s.workers[w], t)
    ensures x in base && !InUse(s, w, x)
  {
    GrantFacts(s.workers[w], t);
    var i :| 0 <= i < |s.workers[w].gpus| && s.workers[w].gpus[i].id == x && Fits(s.workers[w].gpus[i], t.minMemory);
  }

  lemma PlacingInUse(p: Kind, s: State, i: nat, w: string, now: Time, v: string, x: string)
    requires WellFormed(s) && TableLinked(s) && i < |s.pending| && Takes(p, s, i, Place(w, now)) && v in s.workers
    ensures InUse(Assign(s, i, w, w, now), v, x) <==>
              InUse(s, v, x) || (v == w && x in Grant(s.workers[w], s.heap[s.pending[i]]))
  {
    var s', id := Assign(s, i, w, w, now), s.heap[s.pending[i]].id;
    forall a ensures Uses(s', v, a, x)
                     <==> if a == id then v == w && x in Grant(s.workers[w], s.heap[s.pending[i]]) else Uses(s, v, a, x)
    {
      PlacingUses(p, s, i, w, now, v, a, x);
    }
    PlacingUses(p, s, i, w, now, v, id, x);
    if v == w && x in Grant(s.workers[w], s.heap[s.pending[i]]) {
      assert Uses(s', v, id, x);
    }
    if InUse(s, v, x) {
      var a :| Uses(s, v, a, x);
      assert Uses(s', v, a, x);
    }
  }

  lemma PlacingKeepsHost(p: Kind, s: State, i: nat, w: string, now: Time, base: set<string>)
    requires WellFormed(s) && TableLinked(s) && i < |s.pending| && Takes(p, s, i, Place(w, now))
    requires UsedApart(s, w, base)
    ensures UsedApart(Assign(s, i, w, w, now), w, base)
  {
    var s', t := Assign(s, i, w, w, now), s.heap[s.pending[i]];
    forall x | x in Grant(s.workers[w], t) ensures x in base && !InUse(s, w, x) {
      GrantIsUnused(s, w, base, t, x);
    }
    forall a, x ensures Uses(s', w, a, x) <==> if a == t.id then x in Grant(s.workers[w], t) else Uses(s, w, a, x) {
      PlacingUses(p, s, i, w, now, w, a, x);
    }
    forall k | 0 <= k < |s'.workers[w].gpus|
      ensures var g := s'.workers[w].gpus[k]; g.available <==> g.id in base && !InUse(s', w, g.id)
    {
      PlacingInUse(p, s, i, w, now, w, s.workers[w].gpus[k].id);
    }
  }

  lemma PlacingKeepsUses(p: Kind, s: State, i: nat, w: string, now: Time, v: string, base: set<string>)
    requires WellFormed(s) && TableLinked(s) && i < |s.pending| && Takes(p, s, i, Place(w, now))
    requires v in s.workers && UsedApart(s, v, base)
    ensures UsedApart(Assign(s, i, w, w, now), v, base)
  {
    if v == w {
      PlacingKeepsHost(p, s, i, w, now, base);
    } else {
      forall a, x ensures Uses(Assign(s, i, w, w, now), v, a, x) <==> Uses(s, v, a, x) {
        PlacingUses(p, s, i, w, now, v, a, x);
      }
      UseFrame(s, Assign(s, i, w, w, now), v, base);
    }
  }

  lemma PlacingKeepsTableLinked(p: Kind, s: State, i: nat, w: string, now: Time)
    requires WellFormed(s) && TableLinked(s) && i < |s.pending| && Takes(p, s, i, Place(w, now))
    ensures TableLinked(Assign(s, i, w, w, now))
  {
    var s' := Assign(s, i, w, w, now);
    PlacingKeepsQueue(p, s, i, w, now);
    assert s'.workers.Keys == s.workers.Keys;
    forall k | 0 <= k < |s'.pending| ensures s'.heap[s'.pending[k]].workerId == "" {
      var j := if k < i then k else k + 1;
      assert s'.pending[k] == s.pending[j] && s.pending[j] != s.pending[i];
    }
  }

  lemma PlacingKeepsPlacements(p: Kind, s: State, i: nat, w: string, now: Time, base: Baseline)
    requires UseInv(s, base) && i < |s.pending| && Takes(p, s, i, Place(w, now))
    ensures Placements(Assign(s, i, w, w, now), base)
  {
    var t := s.heap[s.pending[i]];
    forall x | x in Grant(s.workers[w], t) ensures x in base[w] {
      GrantIsUnused(s, w, base[w], t, x);
    }
  }

  lemma PlacingKeepsAllUses(p: Kind, s: State, i: nat, w: string, now: Time, base: Baseline)
    requires UseInv(s, base) && i < |s.pending| && Takes(p, s, i, Place(w, now))
    ensures AllUsedApart(Assign(s, i, w, w, now), base)
  {
    var s' := Assign(s, i, w, w, now);
    assert s'.workers.Keys == s.workers.Keys;
    forall v | v in s'.workers ensures UsedApart(s', v, base[v]) {
      PlacingKeepsUses(p, s, i, w, now, v, base[v]);
    }
  }

  lemma {:induction false} SweepKeepsUseInv(p: Kind, s: State, i: nat, ds: seq<Decision>, base: Baseline)
    requires UseInv(s, base) && i <= |s.pending| && ValidSweep(p, s, i, ds)
    ensures UseInv(Sweep(p, s, i, ds), base)
    decreases |s.pending| - i
  {
    if i < |s.pending| {
      var (s', i') := Advance(p, s, i, ds[0]);
      if ds[0].Place? {
        PlacingKeepsAllUses(p, s, i, ds[0].worker, ds[0].now, base);
        PlacingKeepsPlacements(p, s, i, ds[0].worker, ds[0].now, base);
        PlacingKeepsTableLinked(p, s, i, ds[0].worker, ds[0].now);
      }
      SweepKeepsUseInv(p, s', i', ds[1..], base);
    }
  }

  // ---------------------------------------------------------------- registration and submission

  lemma RegisteringKeepsTableLinked(s: State, id: string, gpus: seq<GPU>, address: string)
    requires WellFormed(s) && TableLinked(s) && id !in s.workers && id != ""
    requires DistinctIds(gpus) && |gpus| < 0x1_0000_0000
    ensures WellFormed(Registered(s, id, gpus, address)) && TableLinked(Registered(s, id, gpus, address))
  {
    var s' := Registered(s, id, gpus, address);
    assert forall k :: 0 <= k < |s'.pending| ==> Enqueued(s, s'.pending[k]);
  }

  /** Nobody uses the GPUs of a new worker. */
  lemma NewWorkerIsUnused(s: State, base: Baseline, id: string)
    requires WellFormed(s) && Placements(s, base) && id !in s.workers && id != ""
    ensures forall a, x :: !Uses(s, id, a, x)
  {
  }

  lemma RegisteringKeepsUses(s: State, id: string, gpus: seq<GPU>, address: string, base: Baseline)
    requires UseInv(s, base) && id !in s.workers && id != "" && DistinctIds(gpus) && |gpus| < 0x1_0000_0000
    ensures AllUsedApart(Registered(s, id, gpus, address), base[id := FreeIds(gpus)])
  {
    var s', base' := Registered(s, id, gpus, address), base[id := FreeIds(gpus)];
    assert forall w, a, x :: Uses(s', w, a, x) <==> Uses(s, w, a, x);
    NewWorkerIsUnused(s, base, id);
    forall w | w in s'.workers ensures UsedApart(s', w, base'[w]) {
      if w != id {
        UseFrame(s, s', w, base[w]);
      }
    }
  }

  lemma RegisteringKeepsUseInv(s: State, id: string, gpus: seq<GPU>, address: string, base: Baseline)
    requires UseInv(s, base) && id !in s.workers && id != "" && DistinctIds(gpus) && |gpus| < 0x1_0000_0000
    ensures UseInv(Registered(s, id, gpus, address), base[id := FreeIds(gpus)])
  {
    RegisteringKeepsTableLinked(s, id, gpus, address);
    RegisteringKeepsUses(s, id, gpus, address, base);
  }

  lemma SubmittingUses(s: State, t: Task, w: string, a: string, x: string)
    requires WellFormed(s) && t.id !in s.tasks && t.workerId == "" && w != ""
    ensures Uses(Submitted(s, NewTask(t)), w, a, x) <==> Uses(s, w, a, x)
  {
    assert forall r :: 0 <= r < |s.heap| ==> Submitted(s, NewTask(t)).heap[r] == s.heap[r];
  }

  lemma SubmittingKeepsTableLinked(s: State, t: Task)
    requires WellFormed(s) && TableLinked(s) && t.id !in s.tasks && t.workerId == ""
    ensures TableLinked(Submitted(s, NewTask(t)))
  {
    var s' := Submitted(s, NewTask(t));
    assert forall r :: 0 <= r < |s.heap| ==> s'.heap[r] == s.heap[r];
    forall k | 0 <= k < |s'.pending| ensures Enqueued(s', s'.pending[k]) && s'.heap[s'.pending[k]].workerId == "" {
      assert k < |s.pending| ==> Enqueued(s, s.pending[k]) && s.heap[s.pending[k]].workerId == "";
    }
  }

  lemma SubmittingKeepsUseInv(s: State, t: Task, base: Baseline)
    requires UseInv(s, base) && t.id !in s.tasks && t.workerId == ""
    ensures UseInv(Submitted(s, NewTask(t)), base)
  {
    var s' := Submitted(s, NewTask(t));
    SubmittingKeepsTableLinked(s, t);
    assert forall r :: 0 <= r < |s.heap| ==> s'.heap[r] == s.heap[r];
    forall w | w in s'.workers ensures UsedApart(s', w, base[w]) {
      forall a, x ensures Uses(s', w, a, x) <==> Uses(s, w, a, x) {
        SubmittingUses(s, t, w, a, x);
      }
      UseFrame(s, s', w, base[w]);
    }
  }
}
