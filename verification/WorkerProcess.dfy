/** The critical sections of the worker process, proved against the step system of `WorkerNode`. */
module WorkerProcess {
  import opened Cluster
  import opened Allocation
  import opened WorkerNode

  /** Some active task's GPU list contains `x`. */
  method UsedByTask(active: map<string, ActiveTask>, x: string) returns (used: bool)
    ensures used <==> InUse(active, x)
  {
    used := false;
    var ids := active.Keys;
    while ids != {} && !used
      invariant ids <= active.Keys
      invariant used ==> InUse(active, x)
      invariant !used ==> forall id :: id in active && id !in ids ==> x !in active[id].gpuIds
      decreases |ids|, !used
    {
      var id :| id in ids;
      ids := ids - {id};
      if x in active[id].gpuIds {
        used := true;
      }
    }
  }

  method CollectClaims(list: seq<Claim>) returns (m: map<string, bool>)
    ensures m == Claims(list)
  {
    m := map[];
    for i := 0 to |list|
      invariant m == Claims(list[..i])
    {
      assert list[..i + 1][..i] == list[..i];
      m := m[list[i].id := list[i].available];
    }
    assert list[..|list|] == list;
  }

  method CollectSummaries(list: seq<Summary>) returns (m: map<string, TaskStatus>)
    ensures m == Listed(list)
  {
    m := map[];
    for i := 0 to |list|
      invariant m == Listed(list[..i])
    {
      assert list[..i + 1][..i] == list[..i];
      m := m[list[i].id := list[i].status];
    }
    assert list[..|list|] == list;
  }

  /** The tasks in `done` have been looked at, the others not yet. */
  ghost function Partly(active: map<string, ActiveTask>, listed: map<string, TaskStatus>,
                        done: set<string>): map<string, ActiveTask>
  {
    map id | id in active :: if id in done then UpdatedTask(listed, active[id], id) else active[id]
  }

  ghost function PartReapers(active: map<string, ActiveTask>, listed: map<string, TaskStatus>,
                             done: set<string>): set<Reaper>
  {
    set id | id in active && id in done && Cancels(listed, active[id], id) :: Reaper(id, active[id].gpuIds)
  }

  lemma OneMoreTask(active: map<string, ActiveTask>, listed: map<string, TaskStatus>, done: set<string>, id: string)
    requires id !in done
    ensures id in active ==>
              Partly(active, listed, done + {id})
              == Partly(active, listed, done)[id := UpdatedTask(listed, active[id], id)]
    ensures id !in active ==> Partly(active, listed, done + {id}) == Partly(active, listed, done)
    ensures multiset(PartReapers(active, listed, done + {id}))
            == multiset(PartReapers(active, listed, done))
               + if id in active && Cancels(listed, active[id], id)
                 then multiset{Reaper(id, active[id].gpuIds)}
                 else multiset{}
  {
    var before, after := PartReapers(active, listed, done), PartReapers(active, listed, done + {id});
    if id in active && Cancels(listed, active[id], id) {
      var r := Reaper(id, active[id].gpuIds);
      assert after == before + {r} && r !in before;
    } else {
      assert after == before;
    }
  }

  lemma AllLookedAt(active: map<string, ActiveTask>, listed: map<string, TaskStatus>)
    ensures Partly(active, listed, listed.Keys + active.Keys) == Partly(active, listed, active.Keys)
    ensures PartReapers(active, listed, listed.Keys + active.Keys) == NewReapers(listed, active)
  {
  }

  class Process {
    var gpus: seq<Gpu>
    var status: WorkerStatus
    var active: map<string, ActiveTask>
    var runners: map<string, Runner>
    var reapers: multiset<Reaper>
    var strategy: string

    ghost function Abs(): Node
      reads this
    {
      Node(gpus, status, active, runners, reapers)
    }

    constructor (gpus: seq<Gpu>)
      ensures Abs() == Node(gpus, IDLE, map[], map[], multiset{}) && strategy == "packed"
    {
      this.gpus, status, active, runners, reapers, strategy := gpus, IDLE, map[], map[], multiset{}, "packed";
    }

    method ExecuteTask(id: string, required: U32) returns (ghost chosen: seq<nat>)
      modifies this
      ensures Allocated(old(gpus), required, chosen) && Strategic(old(strategy), old(gpus), required, chosen)
      ensures Abs() == Started(old(Abs()), id, chosen) && strategy == old(strategy)
    {
      var after, ids;
      after, ids, chosen := AllocateGPUs(strategy, gpus, required);
      gpus := after;
      status := BUSY;
      active := active[id := ActiveTask(RUNNING, ids)];
      runners := runners[id := Runner(ids, false)];
    }

    method AbandonTask(id: string)
      requires id in runners && !runners[id].concluded
      modifies this
      ensures Abs() == Abandoned(old(Abs()), id) && strategy == old(strategy)
    {
      if id in active {
        active := active[id := active[id].(status := FAILED)];
      }
      runners := runners - {id};
    }

    /** The STOP_TASK command. */
    method StopTask(id: string)
      modifies this
      ensures Abs() == Stopped(old(Abs()), id) && strategy == old(strategy)
    {
      if id in active {
        active := active[id := active[id].(status := CANCELED)];
      }
    }

    method ConcludeTask(id: string)
      requires id in runners && !runners[id].concluded
      modifies this
      ensures Abs() == Concluded(old(Abs()), id) && strategy == old(strategy)
    {
      if id in active {
        active := active[id := active[id].(status := COMPLETED)];
      }
      runners := runners[id := runners[id].(concluded := true)];
    }

    method ReleaseTask(id: string)
      requires id in runners && runners[id].concluded
      modifies this
      ensures Abs() == Released(old(Abs()), id) && strategy == old(strategy)
    {
      active := active - {id};
      gpus := FreeGPUs(gpus, runners[id].gpuIds);
      if |active| == 0 {
        status := IDLE;
      }
      runners := runners - {id};
    }

    method RunReaper(r: Reaper)
      requires r in reapers
      modifies this
      ensures Abs() == Reaped(old(Abs()), r) && strategy == old(strategy)
    {
      active := active - {r.id};
      gpus := FreeGPUs(gpus, r.gpuIds);
      reapers := reapers - multiset{r};
    }

    method ProcessStatusUpdate(m: Message)
      modifies this
      ensures Abs() == Processed(old(Abs()), m) && strategy == old(strategy)
    {
      SyncGPUs(m);
      if m.status != status {
        status := m.status;
      }
      ListedEmpty(m.tasks);
      if |m.tasks| > 0 {
        SyncTasks(m);
      }
      assert active == Processed(old(Abs()), m).active;
    }

    method SyncGPUs(m: Message)
      modifies this`gpus
      ensures gpus == Synced(old(gpus), Claims(m.gpus), active)
    {
      if |m.gpus| > 0 {
        var claims := CollectClaims(m.gpus);
        ghost var target := Synced(gpus, claims, active);
        for i := 0 to |gpus|
          invariant |gpus| == |old(gpus)|
          invariant forall k :: 0 <= k < |gpus| ==> gpus[k] == if k < i then target[k] else old(gpus)[k]
        {
          if gpus[i].id in claims {
            var used := UsedByTask(active, gpus[i].id);
            if !used {
              gpus := gpus[i := gpus[i].(available := claims[gpus[i].id])];
            }
          }
        }
      }
      assert m.gpus == [] ==> Claims(m.gpus) == map[];
    }

    method SyncTasks(m: Message)
      requires m.tasks != []
      modifies this`active, this`reapers
      ensures active == Partly(old(active), Listed(m.tasks), old(active).Keys)
      ensures reapers == old(reapers) + multiset(NewReapers(Listed(m.tasks), old(active)))
    {
      var listed := CollectSummaries(m.tasks);
      ListedEmpty(m.tasks);
      ghost var was := active;
      AdoptSummaries(listed);
      CancelMissing(listed, was, old(reapers));
      AllLookedAt(was, listed);
    }

    /** The loop over the scheduler's list. */
    method AdoptSummaries(listed: map<string, TaskStatus>)
      requires listed != map[]
      modifies this`active, this`reapers
      ensures active == Partly(old(active), listed, listed.Keys)
      ensures reapers == old(reapers) + multiset(PartReapers(old(active), listed, listed.Keys))
    {
      ghost var was, done := active, {};
      assert Partly(was, listed, {}) == was;
      var todo := listed.Keys;
      while todo != {}
        invariant todo <= listed.Keys && done == listed.Keys - todo
        invariant active == Partly(was, listed, done)
        invariant reapers == old(reapers) + multiset(PartReapers(was, listed, done))
        decreases todo
      {
        var id :| id in todo;
        OneMoreTask(was, listed, done, id);
        if id in active {
          assert active[id] == was[id];
          UpdateTaskPriority(id, listed[id]);
          assert active == Partly(was, listed, done + {id});
        }
        todo, done := todo - {id}, done + {id};
      }
      assert done == listed.Keys;
    }

    /** The loop over the worker's own tasks. */
    method CancelMissing(listed: map<string, TaskStatus>, ghost was: map<string, ActiveTask>,
                         ghost before: multiset<Reaper>)
      requires listed != map[] && active == Partly(was, listed, listed.Keys)
      requires reapers == before + multiset(PartReapers(was, listed, listed.Keys))
      modifies this`active, this`reapers
      ensures active == Partly(was, listed, listed.Keys + was.Keys)
      ensures reapers == before + multiset(PartReapers(was, listed, listed.Keys + was.Keys))
    {
      ghost var done := listed.Keys;
      var todo := active.Keys;
      while todo != {}
        invariant todo <= was.Keys && done == listed.Keys + (was.Keys - todo)
        invariant active == Partly(was, listed, done)
        invariant reapers == before + multiset(PartReapers(was, listed, done))
        decreases todo
      {
        var id :| id in todo;
        if id !in listed {
          OneMoreTask(was, listed, done, id);
          assert active[id] == was[id];
          reapers := reapers + multiset{Reaper(id, active[id].gpuIds)};
          active := active[id := active[id].(status := CANCELED)];
        } else {
          assert done + {id} == done;
        }
        todo, done := todo - {id}, done + {id};
      }
      assert done == listed.Keys + was.Keys;
    }

    /** A changed status is taken over; a terminal one spawns a goroutine that drops the task. */
    method UpdateTaskPriority(id: string, reported: TaskStatus)
      requires id in active
      modifies this`active, this`reapers
      ensures active == old(active)[id := old(active)[id].(status := reported)]
      ensures reapers == old(reapers) + if reported != old(active)[id].status && Terminal(reported)
                                        then multiset{Reaper(id, old(active)[id].gpuIds)} else multiset{}
    {
      if active[id].status != reported {
        active := active[id := active[id].(status := reported)];
        if Terminal(reported) {
          reapers := reapers + multiset{Reaper(id, active[id].gpuIds)};
        }
      }
    }
  }

  method FreeGPUs(gpus: seq<Gpu>, ids: seq<string>) returns (r: seq<Gpu>)
    ensures r == Freed(gpus, ids)
  {
    r := gpus;
    for i := 0 to |gpus|
      invariant |r| == |gpus|
      invariant forall k :: 0 <= k < |gpus| ==> r[k] == if k < i then Freed(gpus, ids)[k] else gpus[k]
    {
      for j := 0 to |ids|
        invariant |r| == |gpus|
        invariant forall k :: 0 <= k < |gpus| && k != i ==> r[k] == if k < i then Freed(gpus, ids)[k] else gpus[k]
        invariant r[i] == if gpus[i].id in ids[..j] then gpus[i].(available := true) else gpus[i]
      {
        if r[i].id == ids[j] {
          r := r[i := r[i].(available := true)];
        }
      }
    }
  }
}
