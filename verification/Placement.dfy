/** What a placement is, said by positions in the GPU list: which workers qualify, which GPUs are handed out, and
    what is written down about the task. */
module Placement {
  import opened Cluster
  import opened Policy
  import opened Scheduling
  import opened Quiescence

  // ---------------------------------------------------------------- first fit

  /** The GPU at position `i` is free and has enough memory. */
  ghost predicate Usable(gpus: seq<GPU>, m: nat, i: int) {
    0 <= i < |gpus| && gpus[i].available && m <= gpus[i].memory
  }

  /** Positions of usable GPUs, in list order, with none passed over. */
  ghost predicate FirstFit(gpus: seq<GPU>, m: nat, at: seq<nat>) {
    && Increasing(at)
    && (forall k :: 0 <= k < |at| ==> Usable(gpus, m, at[k]))
    && forall i, k :: 0 <= k < |at| && i < at[k] && Usable(gpus, m, i) ==> i in at
  }

  /** The positions of all usable GPUs. */
  ghost function UsableAt(gpus: seq<GPU>, m: nat): seq<nat> {
    if gpus == [] then []
    else
      var last := |gpus| - 1;
      UsableAt(gpus[..last], m) + if Fits(gpus[last], m) then [last] else []
  }

  lemma {:induction false} UsableAtMember(gpus: seq<GPU>, m: nat, i: nat)
    ensures i in UsableAt(gpus, m) <==> Usable(gpus, m, i)
  {
    if gpus != [] {
      UsableAtMember(gpus[..|gpus| - 1], m, i);
    }
  }

  lemma {:induction false} UsableAtIncreases(gpus: seq<GPU>, m: nat)
    ensures Increasing(UsableAt(gpus, m))
  {
    if gpus != [] {
      var last := |gpus| - 1;
      UsableAtIncreases(gpus[..last], m);
      forall x | x in UsableAt(gpus[..last], m) ensures x < last {
        UsableAtMember(gpus[..last], m, x);
      }
      IncreasingAppend(UsableAt(gpus[..last], m), last);
    }
  }

  lemma {:induction false} UsableAtIds(gpus: seq<GPU>, m: nat)
    ensures |UsableAt(gpus, m)| == |EligibleIds(gpus, m)|
    ensures forall k :: 0 <= k < |UsableAt(gpus, m)| ==>
              UsableAt(gpus, m)[k] < |gpus| && EligibleIds(gpus, m)[k] == gpus[UsableAt(gpus, m)[k]].id
  {
    if gpus != [] {
      UsableAtIds(gpus[..|gpus| - 1], m);
    }
  }

  /** The eligible ids are those of all usable GPUs, in list order. */
  lemma EligiblePositions(gpus: seq<GPU>, m: nat) returns (at: seq<nat>)
    ensures |at| == |EligibleIds(gpus, m)| && FirstFit(gpus, m, at)
    ensures forall k :: 0 <= k < |at| ==> EligibleIds(gpus, m)[k] == gpus[at[k]].id
    ensures forall i :: Usable(gpus, m, i) ==> i in at
  {
    at := UsableAt(gpus, m);
    UsableAtIncreases(gpus, m);
    UsableAtIds(gpus, m);
    forall k | 0 <= k < |at| ensures Usable(gpus, m, at[k]) {
      UsableAtMember(gpus, m, at[k]);
    }
    forall i | Usable(gpus, m, i) ensures i in at {
      UsableAtMember(gpus, m, i);
    }
  }

  /** The GPUs handed out are the first usable ones of the list. */
  lemma GrantIsFirstFit(w: Worker, t: Task) returns (at: seq<nat>)
    requires t.required <= |EligibleIds(w.gpus, t.minMemory)|
    ensures |at| == |Grant(w, t)| == t.required && FirstFit(w.gpus, t.minMemory, at)
    ensures forall k :: 0 <= k < t.required ==> Grant(w, t)[k] == w.gpus[at[k]].id
  {
    var all := EligiblePositions(w.gpus, t.minMemory);
    at := all[..t.required];
    forall i, k | 0 <= k < |at| && i < at[k] && Usable(w.gpus, t.minMemory, i) ensures i in at {
      var j :| 0 <= j < |all| && all[j] == i;
      assert j < k && at[j] == i;
    }
  }

  ghost predicate LooksAt(p: Kind, status: WorkerStatus) {
    if p == Simple then status == IDLE else status == IDLE || status == BUSY
  }

  /** As many distinct usable GPUs as the task asks for. */
  ghost predicate Suffices(w: Worker, t: Task, at: seq<nat>) {
    |at| == t.required && NoDuplicates(at) && forall k :: 0 <= k < |at| ==> Usable(w.gpus, t.minMemory, at[k])
  }

  /** A worker qualifies if and only if it is idle (or, under the balanced policy, busy) and the task can be given as
      many different GPUs as it asks for, each free and large enough. */
  lemma CandidateIff(p: Kind, w: Worker, t: Task)
    requires |w.gpus| < 0x1_0000_0000
    ensures Candidate(p, w, t) <==> LooksAt(p, w.status) && exists at :: Suffices(w, t, at)
  {
    var all := EligiblePositions(w.gpus, t.minMemory);
    if Candidate(p, w, t) {
      var at := GrantIsFirstFit(w, t);
      assert Suffices(w, t, at);
    }
    if at :| Suffices(w, t, at) {
      NoLonger(at, all);
    }
  }

  /** The positions of all usable GPUs, each once. */
  ghost predicate AllUsable(w: Worker, t: Task, all: seq<nat>) {
    NoDuplicates(all) && forall i :: i in all <==> Usable(w.gpus, t.minMemory, i)
  }

  /** For lists of any length the number of usable GPUs is taken modulo 2^32 before it is compared. */
  lemma CandidateCountWraps(p: Kind, w: Worker, t: Task, all: seq<nat>)
    requires AllUsable(w, t, all)
    ensures Candidate(p, w, t) <==> LooksAt(p, w.status) && t.required <= |all| % 0x1_0000_0000
  {
    var at := EligiblePositions(w.gpus, t.minMemory);
    forall k | 0 <= k < |at| ensures at[k] in all {
      assert Usable(w.gpus, t.minMemory, at[k]);
    }
    NoLonger(at, all);
    NoLonger(all, at);
  }

  // ---------------------------------------------------------------- one placement

  /** The list after the GPUs with the given ids are taken. */
  ghost predicate TakesIds(before: seq<GPU>, after: seq<GPU>, ids: seq<string>) {
    && |after| == |before|
    && forall i :: 0 <= i < |before| ==>
         after[i] == before[i].(available := before[i].available && before[i].id !in ids)
  }

  /** A placement hands out the first usable GPUs, writes the decision into the task and touches nothing else. */
  lemma PlacingTakesFirstFit(p: Kind, s: State, i: nat, w: string, now: Time) returns (at: seq<nat>)
    requires WellFormed(s) && i < |s.pending| && Takes(p, s, i, Place(w, now))
    ensures var t := s.heap[s.pending[i]];
            |at| == t.required && FirstFit(s.workers[w].gpus, t.minMemory, at)
    ensures var r, s' := s.pending[i], Assign(s, i, w, w, now);
            var t, t' := s.heap[r], s'.heap[r];
            && t' == t.(status := RUNNING, workerId := w, start := now, gpuIds := t'.gpuIds)
            && |t'.gpuIds| == |at| && (forall k :: 0 <= k < |at| ==> t'.gpuIds[k] == s.workers[w].gpus[at[k]].id)
            && TakesIds(s.workers[w].gpus, s'.workers[w].gpus, t'.gpuIds)
            && (forall q :: 0 <= q < |s.heap| && q != r ==> s'.heap[q] == s.heap[q])
            && (forall v :: v in s.workers && v != w ==> v in s'.workers && s'.workers[v] == s.workers[v])
  {
    at := GrantIsFirstFit(s.workers[w], s.heap[s.pending[i]]);
  }

  // ---------------------------------------------------------------- a whole sweep

  /** What a decision makes of a task. */
  ghost predicate Decided(t: Task, t': Task, d: Decision) {
    match d
    case Skip => t' == t
    case Place(w, now) =>
      t' == t.(status := RUNNING, workerId := w, start := now, gpuIds := t'.gpuIds) && |t'.gpuIds| == t.required
  }

  lemma AdvanceDecides(p: Kind, s: State, i: nat, d: Decision)
    requires WellFormed(s) && i < |s.pending| && Takes(p, s, i, d)
    ensures var s' := Advance(p, s, i, d).0;
            && |s'.heap| == |s.heap| && Decided(s.heap[s.pending[i]], s'.heap[s.pending[i]], d)
            && forall r :: 0 <= r < |s.heap| && r != s.pending[i] ==> s'.heap[r] == s.heap[r]
  {
  }

  /** The task decided first keeps what was decided through the rest of the sweep. */
  lemma FirstStaysDecided(p: Kind, s: State, i: nat, queue: seq<TaskRef>, ds: seq<Decision>)
    requires WellFormed(s) && i < |s.pending| && s.pending[i..] == queue && NoDuplicates(queue)
    requires ValidSweep(p, s, i, ds)
    ensures |ds| == |queue| && |Sweep(p, s, i, ds).heap| == |s.heap|
    ensures Decided(s.heap[queue[0]], Sweep(p, s, i, ds).heap[queue[0]], ds[0])
  {
    var (s', i') := Advance(p, s, i, ds[0]);
    AdvanceQueue(p, s, i, ds[0]);
    AdvanceDecides(p, s, i, ds[0]);
    SweepStartsPlaced(p, s, i, ds, queue[0]);
    SweepStartsPlaced(p, s', i', ds[1..], queue[0]);
    assert forall k :: 0 <= k < |queue[1..]| ==> queue[1..][k] != queue[0];
  }

  lemma AdvanceSparesRest(p: Kind, s: State, i: nat, queue: seq<TaskRef>, d: Decision, k: nat)
    requires WellFormed(s) && i < |s.pending| && s.pending[i..] == queue && NoDuplicates(queue)
    requires Takes(p, s, i, d) && 0 < k < |queue|
    ensures var (s', i') := Advance(p, s, i, d);
            && s'.pending[i'..] == queue[1..] && |s'.heap| == |s.heap|
            && queue[1..][k - 1] == queue[k] && s'.heap[queue[k]] == s.heap[queue[k]]
  {
    AdvanceQueue(p, s, i, d);
    AdvanceDecides(p, s, i, d);
    assert queue[k] != queue[0];
  }

  /** Every decision of a sweep is what the task says afterwards: worker, start time and number of GPUs if it was
      placed, and nothing new if it was not. */
  lemma {:induction false} SweepRecordsDecisions(p: Kind, s: State, i: nat, queue: seq<TaskRef>, ds: seq<Decision>,
                                                 k: nat)
    requires WellFormed(s) && i <= |s.pending| && s.pending[i..] == queue && NoDuplicates(queue)
    requires ValidSweep(p, s, i, ds) && k < |queue|
    ensures |ds| == |queue| && |Sweep(p, s, i, ds).heap| == |s.heap|
    ensures Decided(s.heap[queue[k]], Sweep(p, s, i, ds).heap[queue[k]], ds[k])
    decreases |queue|
  {
    if k == 0 {
      FirstStaysDecided(p, s, i, queue, ds);
    } else {
      var (s', i') := Advance(p, s, i, ds[0]);
      AdvanceSparesRest(p, s, i, queue, ds[0], k);
      SweepRecordsDecisions(p, s', i', queue[1..], ds[1..], k - 1);
    }
  }

  // ---------------------------------------------------------------- RequestTask

  /** Where RequestTask would hand out a task, the caller's books get it, the caller's GPUs with the granted ids are
      marked, and the task names the worker the policy chose, which keeps its own books and GPUs. */
  lemma RequestBooksOnCaller(p: Kind, s: State, caller: string, chosen: string, now: Time, k: nat)
    requires WellFormed(s) && caller in s.workers && LegalRequest(p, s, caller, chosen)
    requires k < |s.pending| && !Refused(p, s, k) && forall j :: 0 <= j < k ==> Refused(p, s, j)
    ensures var r, s' := s.pending[k], AfterRequest(p, s, caller, chosen, now);
            && s'.heap[r] == s.heap[r].(status := RUNNING, workerId := chosen, start := now,
                                        gpuIds := s'.heap[r].gpuIds)
            && caller in s'.workers && s'.workers[caller].status == BUSY
            && s'.workers[caller].tasks == s.workers[caller].tasks[s.heap[r].id := r]
            && TakesIds(s.workers[caller].gpus, s'.workers[caller].gpus, s'.heap[r].gpuIds)
            && forall v :: v in s.workers && v != caller ==> v in s'.workers && s'.workers[v] == s.workers[v]
  {
    var first := FirstFeasible(p, s, 0);
    assert first == k by {
      assert first < k ==> Refused(p, s, first);
    }
  }
}
