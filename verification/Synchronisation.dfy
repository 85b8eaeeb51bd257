/** What a status message does to the worker, said by positions in the message. */
module Synchronisation {
  import opened Cluster
  import opened Allocation
  import opened WorkerNode

  // ---------------------------------------------------------------- the last entry counts

  /** Entry `k` is the last one about GPU `x`. */
  ghost predicate LastClaim(list: seq<Claim>, x: string, k: int) {
    0 <= k < |list| && list[k].id == x && forall j :: k < j < |list| ==> list[j].id != x
  }

  ghost predicate NoClaim(list: seq<Claim>, x: string) {
    forall k :: 0 <= k < |list| ==> list[k].id != x
  }

  /** Entry `k` is the last one about task `id`. */
  ghost predicate LastSummary(list: seq<Summary>, id: string, k: int) {
    0 <= k < |list| && list[k].id == id && forall j :: k < j < |list| ==> list[j].id != id
  }

  ghost predicate NoSummary(list: seq<Summary>, id: string) {
    forall k :: 0 <= k < |list| ==> list[k].id != id
  }

  lemma {:induction false} LastClaimCounts(list: seq<Claim>, x: string, k: int)
    requires LastClaim(list, x, k)
    ensures x in Claims(list) && Claims(list)[x] == list[k].available
  {
    var last := |list| - 1;
    if k < last {
      LastClaimCounts(list[..last], x, k);
    }
  }

  lemma {:induction false} UnclaimedIsAbsent(list: seq<Claim>, x: string)
    requires NoClaim(list, x)
    ensures x !in Claims(list)
  {
    if list != [] {
      UnclaimedIsAbsent(list[..|list| - 1], x);
    }
  }

  lemma {:induction false} LastSummaryCounts(list: seq<Summary>, id: string, k: int)
    requires LastSummary(list, id, k)
    ensures id in Listed(list) && Listed(list)[id] == list[k].status
  {
    var last := |list| - 1;
    if k < last {
      LastSummaryCounts(list[..last], id, k);
    }
  }

  lemma {:induction false} UnlistedIsAbsent(list: seq<Summary>, id: string)
    requires NoSummary(list, id)
    ensures id !in Listed(list)
  {
    if list != [] {
      UnlistedIsAbsent(list[..|list| - 1], id);
    }
  }

  lemma {:induction false} SomeSummary(list: seq<Summary>, id: string) returns (k: int)
    ensures LastSummary(list, id, k) || NoSummary(list, id)
  {
    k := -1;
    if list != [] {
      var last := |list| - 1;
      if list[last].id == id {
        k := last;
      } else {
        k := SomeSummary(list[..last], id);
        assert forall j :: 0 <= j < last ==> list[..last][j] == list[j];
      }
    }
  }

  // ---------------------------------------------------------------- GPUs

  /** What becomes of the GPU at position `i` when a message comes in: its availability is that of the last entry
      about it, unless there is none or an active task lists the GPU; everything else stays. */
  lemma MessageSetsAvailability(s: Node, m: Message, i: nat)
    requires i < |s.gpus|
    ensures var s' := Processed(s, m);
            && |s'.gpus| == |s.gpus|
            && s'.gpus[i] == s.gpus[i].(available := s'.gpus[i].available)
            && (forall id :: id in s.active && s.gpus[i].id in s.active[id].gpuIds ==> s'.gpus[i] == s.gpus[i])
            && (NoClaim(m.gpus, s.gpus[i].id) ==> s'.gpus[i] == s.gpus[i])
            && forall k :: LastClaim(m.gpus, s.gpus[i].id, k)
                           && (forall id :: id in s.active ==> s.gpus[i].id !in s.active[id].gpuIds) ==>
                 s'.gpus[i].available == m.gpus[k].available
  {
    var x := s.gpus[i].id;
    if NoClaim(m.gpus, x) {
      UnclaimedIsAbsent(m.gpus, x);
    }
    forall k | LastClaim(m.gpus, x, k) && (forall id :: id in s.active ==> x !in s.active[id].gpuIds)
      ensures Processed(s, m).gpus[i].available == m.gpus[k].available
    {
      LastClaimCounts(m.gpus, x, k);
    }
  }

  /** The GPU at position `i` is used by no task, and the last word of the message about it is that it is free. */
  ghost predicate OfferedBy(s: Node, m: Message, i: nat) {
    && i < |s.gpus|
    && (forall id :: id in s.active ==> s.gpus[i].id !in s.active[id].gpuIds)
    && exists k :: LastClaim(m.gpus, s.gpus[i].id, k) && m.gpus[k].available
  }

  lemma OfferedIsFree(s: Node, m: Message, i: nat)
    requires OfferedBy(s, m, i)
    ensures i < |Processed(s, m).gpus| && Processed(s, m).gpus[i].available
  {
    MessageSetsAvailability(s, m, i);
  }

  /** If a message offers at least as many GPUs of the worker as a task asks for, the task gets them when it is
      started next, whatever the strategy. */
  lemma OfferedGpusAreGiven(s: Node, m: Message, offered: seq<nat>, id: string, required: U32, strategy: string,
                            chosen: seq<nat>)
    requires |s.gpus| < 0x1_0000_0000
    requires NoDuplicates(offered) && forall k :: 0 <= k < |offered| ==> OfferedBy(s, m, offered[k])
    requires required <= |offered| && Can(Processed(s, m), Start(id, required, strategy, chosen))
    ensures var s' := Next(Processed(s, m), Start(id, required, strategy, chosen));
            id in s'.active && |s'.active[id].gpuIds| == required
  {
    var free := Free(Processed(s, m).gpus);
    forall i | i in offered ensures i in free {
      OfferedIsFree(s, m, i);
      FreeMember(Processed(s, m).gpus, i);
    }
    NoLonger(offered, free);
    FreeBound(Processed(s, m).gpus);
  }

  // ---------------------------------------------------------------- tasks

  /** The status an active task has after the message. */
  ghost predicate NewStatus(m: Message, id: string, before: TaskStatus, after: TaskStatus) {
    && (m.tasks == [] ==> after == before)
    && (m.tasks != [] && NoSummary(m.tasks, id) ==> after == CANCELED)
    && forall k :: LastSummary(m.tasks, id, k) ==> after == m.tasks[k].status
  }

  /** A message sets the worker's status, and for each active task the status of the last entry about it; a task the
      message should have listed but did not is CANCELED.  No task is added or removed and no goroutine of a task
      touched. */
  lemma MessageSetsStatuses(s: Node, m: Message)
    ensures var s' := Processed(s, m);
            && s'.status == m.status && s'.runners == s.runners
            && (forall id :: id in s'.active <==> id in s.active)
            && forall id :: id in s.active ==>
                 && s'.active[id].gpuIds == s.active[id].gpuIds
                 && NewStatus(m, id, s.active[id].status, s'.active[id].status)
  {
    ListedEmpty(m.tasks);
    forall id | id in s.active ensures NewStatus(m, id, s.active[id].status, Processed(s, m).active[id].status) {
      if NoSummary(m.tasks, id) {
        UnlistedIsAbsent(m.tasks, id);
      }
      forall k | LastSummary(m.tasks, id, k) ensures Processed(s, m).active[id].status == m.tasks[k].status {
        LastSummaryCounts(m.tasks, id, k);
      }
    }
  }

  /** The message gives up the task: it lists tasks, and this one not, or last with a terminal status that it does
      not have yet. */
  ghost predicate GivesUp(s: Node, m: Message, id: string) {
    && id in s.active && m.tasks != []
    && (NoSummary(m.tasks, id)
        || exists k :: LastSummary(m.tasks, id, k) && m.tasks[k].status != s.active[id].status
                       && m.tasks[k].status in {COMPLETED, FAILED, CANCELED})
  }

  lemma GivesUpIff(s: Node, m: Message, id: string)
    ensures GivesUp(s, m, id) <==> id in s.active && Cancels(Listed(m.tasks), s.active[id], id)
  {
    ListedEmpty(m.tasks);
    var k := SomeSummary(m.tasks, id);
    if NoSummary(m.tasks, id) {
      UnlistedIsAbsent(m.tasks, id);
    } else {
      LastSummaryCounts(m.tasks, id, k);
    }
  }

  /** A message spawns one goroutine per task it gives up, and nothing else does. */
  lemma MessageSpawns(s: Node, m: Message, r: Reaper)
    ensures Processed(s, m).reapers[r]
            == s.reapers[r] + if GivesUp(s, m, r.id) && s.active[r.id].gpuIds == r.gpuIds then 1 else 0
  {
    GivesUpIff(s, m, r.id);
    var fresh' := NewReapers(Listed(m.tasks), s.active);
    assert r in fresh' <==> r.id in s.active && Cancels(Listed(m.tasks), s.active[r.id], r.id)
                            && s.active[r.id].gpuIds == r.gpuIds;
    assert multiset(fresh')[r] == if r in fresh' then 1 else 0;
  }
}
