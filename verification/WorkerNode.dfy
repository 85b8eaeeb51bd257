/** The worker process as a step system: tasks start, finish or are abandoned, status messages arrive
    from the scheduler, and messages that cancel tasks spawn goroutines that release GPUs later. */
module WorkerNode {
  import opened Cluster
  import opened Allocation

  // ---------------------------------------------------------------- state

  datatype ActiveTask = ActiveTask(status: TaskStatus, gpuIds: seq<string>)

  /** The goroutine that executes a task; `concluded` once it has reported completion and only the
      release of the GPUs is left to do. */
  datatype Runner = Runner(gpuIds: seq<string>, concluded: bool)

  /** A goroutine, spawned by a status message, that will drop the task and release its GPUs. */
  datatype Reaper = Reaper(id: string, gpuIds: seq<string>)

  datatype Node = Node(
    gpus: seq<Gpu>,
    status: WorkerStatus,
    active: map<string, ActiveTask>,
    runners: map<string, Runner>,
    reapers: multiset<Reaper>)

  ghost function Freed(gpus: seq<Gpu>, ids: seq<string>): seq<Gpu> {
    seq(|gpus|, i requires 0 <= i < |gpus| => if gpus[i].id in ids then gpus[i].(available := true) else gpus[i])
  }

  // ---------------------------------------------------------------- task life cycle

  /** The critical section at the start of executeTask. */
  ghost function Started(s: Node, id: string, chosen: seq<nat>): Node
    requires forall k :: 0 <= k < |chosen| ==> chosen[k] < |s.gpus|
  {
    var ids := IdsAt(s.gpus, chosen);
    Node(Taken(s.gpus, chosen), BUSY, s.active[id := ActiveTask(RUNNING, ids)],
         s.runners[id := Runner(ids, false)], s.reapers)
  }

  /** The context is cancelled: the task is marked FAILED and its goroutine returns, GPUs and all. */
  ghost function Abandoned(s: Node, id: string): Node {
    s.(active := WithStatus(s.active, id, FAILED), runners := s.runners - {id})
  }

  ghost function WithStatus(active: map<string, ActiveTask>, id: string, status: TaskStatus): map<string, ActiveTask> {
    if id in active then active[id := active[id].(status := status)] else active
  }

  /** A STOP_TASK command only marks the task; its goroutine runs on. */
  ghost function Stopped(s: Node, id: string): Node {
    s.(active := WithStatus(s.active, id, CANCELED))
  }

  /** The loop is over: the task is marked COMPLETED. */
  ghost function Concluded(s: Node, id: string): Node
    requires id in s.runners
  {
    s.(active := WithStatus(s.active, id, COMPLETED), runners := s.runners[id := s.runners[id].(concluded := true)])
  }

  /** The last critical section of the goroutine. */
  ghost function Released(s: Node, id: string): Node
    requires id in s.runners
  {
    var left := s.active - {id};
    s.(active := left, gpus := Freed(s.gpus, s.runners[id].gpuIds), runners := s.runners - {id},
       status := if |left| == 0 then IDLE else s.status)
  }

  ghost function Reaped(s: Node, r: Reaper): Node {
    s.(active := s.active - {r.id}, gpus := Freed(s.gpus, r.gpuIds), reapers := s.reapers - multiset{r})
  }

  // ---------------------------------------------------------------- status messages

  datatype Claim = Claim(id: string, available: bool)
  datatype Summary = Summary(id: string, status: TaskStatus)
  datatype Message = Message(gpus: seq<Claim>, status: WorkerStatus, tasks: seq<Summary>)

  /** The scheduler's lists as maps: the last entry for an id counts. */
  ghost function Claims(list: seq<Claim>): map<string, bool> {
    if list == [] then map[]
    else Claims(list[..|list| - 1])[list[|list| - 1].id := list[|list| - 1].available]
  }

  ghost function Listed(list: seq<Summary>): map<string, TaskStatus> {
    if list == [] then map[]
    else Listed(list[..|list| - 1])[list[|list| - 1].id := list[|list| - 1].status]
  }

  lemma ListedEmpty(list: seq<Summary>)
    ensures Listed(list) == map[] <==> list == []
  {
    if list != [] {
      assert list[|list| - 1].id in Listed(list);
    }
  }

  ghost predicate InUse(active: map<string, ActiveTask>, x: string) {
    exists id :: id in active && x in active[id].gpuIds
  }

  /** GPU availability is taken over from the message for GPUs that no active task uses. */
  ghost function Synced(gpus: seq<Gpu>, claims: map<string, bool>, active: map<string, ActiveTask>): seq<Gpu> {
    seq(|gpus|, i requires 0 <= i < |gpus| =>
      if gpus[i].id in claims && !InUse(active, gpus[i].id) then gpus[i].(available := claims[gpus[i].id]) else gpus[i])
  }

  predicate Terminal(status: TaskStatus) {
    status == COMPLETED || status == FAILED || status == CANCELED
  }

  /** The message makes the worker give up the task: it lists tasks but not this one, or it lists it
      with a different, terminal status. */
  ghost predicate Cancels(listed: map<string, TaskStatus>, t: ActiveTask, id: string) {
    listed != map[] && (id in listed ==> listed[id] != t.status && Terminal(listed[id]))
  }

  ghost function UpdatedTask(listed: map<string, TaskStatus>, t: ActiveTask, id: string): ActiveTask {
    if listed == map[] then t
    else if id in listed then t.(status := listed[id])
    else t.(status := CANCELED)
  }

  ghost function NewReapers(listed: map<string, TaskStatus>, active: map<string, ActiveTask>): set<Reaper> {
    set id | id in active && Cancels(listed, active[id], id) :: Reaper(id, active[id].gpuIds)
  }

  ghost function Processed(s: Node, m: Message): Node {
    var listed := Listed(m.tasks);
    Node(Synced(s.gpus, Claims(m.gpus), s.active), m.status,
         map id | id in s.active :: UpdatedTask(listed, s.active[id], id),
         s.runners,
         s.reapers + multiset(NewReapers(listed, s.active)))
  }

  // ---------------------------------------------------------------- steps

  datatype NodeEvent =
    | Start(id: string, required: U32, strategy: string, chosen: seq<nat>)
    | Abandon(id: string)
    | Stop(id: string)
    | Conclude(id: string)
    | Release(id: string)
    | Receive(message: Message)
    | Reap(reaper: Reaper)

  /** A task may start only under an id that no task, goroutine or reaper of this worker uses. */
  ghost predicate Unused(s: Node, id: string) {
    id !in s.active && id !in s.runners && forall r :: r in s.reapers ==> r.id != id
  }

  ghost predicate Can(s: Node, e: NodeEvent) {
    match e
    case Start(id, required, strategy, chosen) =>
      Unused(s, id) && Allocated(s.gpus, required, chosen) && Strategic(strategy, s.gpus, required, chosen)
    case Abandon(id) => id in s.runners && !s.runners[id].concluded
    case Stop(_) => true
    case Conclude(id) => id in s.runners && !s.runners[id].concluded
    case Release(id) => id in s.runners && s.runners[id].concluded
    case Receive(_) => true
    case Reap(r) => r in s.reapers
  }

  ghost function Next(s: Node, e: NodeEvent): Node
    requires Can(s, e)
  {
    match e
    case Start(id, _, _, chosen) => Started(s, id, chosen)
    case Abandon(id) => Abandoned(s, id)
    case Stop(id) => Stopped(s, id)
    case Conclude(id) => Concluded(s, id)
    case Release(id) => Released(s, id)
    case Receive(m) => Processed(s, m)
    case Reap(r) => Reaped(s, r)
  }

  ghost predicate NodeRun(ss: seq<Node>, es: seq<NodeEvent>) {
    && |ss| == |es| + 1
    && forall i {:trigger es[i]} :: 0 <= i < |es| ==> Can(ss[i], es[i]) && ss[i + 1] == Next(ss[i], es[i])
  }

  ghost predicate NodeDistinct(s: Node) {
    forall i, j :: 0 <= i < j < |s.gpus| ==> s.gpus[i].id != s.gpus[j].id
  }

  /** A freshly created worker: distinct GPU ids, in any state of availability, and nothing going on. */
  ghost predicate Idle(s: Node) {
    && NodeDistinct(s)
    && s.active == map[] && s.runners == map[] && s.reapers == multiset{}
  }

  // ---------------------------------------------------------------- exclusion

  ghost predicate Unavailable(gpus: seq<Gpu>, x: string) {
    exists i :: 0 <= i < |gpus| && gpus[i].id == x && !gpus[i].available
  }

  /** Active tasks hold disjoint GPUs, all of them marked unavailable. */
  ghost predicate Exclusive(s: Node) {
    && (forall a, b, x ::
          a in s.active && b in s.active && x in s.active[a].gpuIds && x in s.active[b].gpuIds ==> a == b)
    && (forall a, x :: a in s.active && x in s.active[a].gpuIds ==> Unavailable(s.gpus, x))
  }

  /** A goroutine that will release GPUs does so for a task that is still active, with that task's GPUs. */
  ghost predicate Owns(s: Node, id: string, gpuIds: seq<string>) {
    && (id in s.active ==> s.active[id].gpuIds == gpuIds)
    && (gpuIds != [] ==> id in s.active)
  }

  /** Each task that holds GPUs is released by one goroutine at most. */
  ghost predicate OneReleaser(s: Node) {
    && (forall id :: id in s.runners ==> Owns(s, id, s.runners[id].gpuIds))
    && (forall r :: r in s.reapers ==>
          Owns(s, r.id, r.gpuIds) && (r.gpuIds != [] ==> r.id !in s.runners && s.reapers[r] == 1))
  }

  ghost predicate NodeInv(s: Node) {
    NodeDistinct(s) && Exclusive(s) && OneReleaser(s)
  }

  /** The message gives up no GPU-holding task that a goroutine is already going to release. */
  ghost predicate Benign(s: Node, m: Message) {
    forall id :: id in s.active && Cancels(Listed(m.tasks), s.active[id], id) && s.active[id].gpuIds != [] ==>
      id !in s.runners && Reaper(id, s.active[id].gpuIds) !in s.reapers
  }

  ghost predicate BenignEvent(s: Node, e: NodeEvent) {
    e.Receive? ==> Benign(s, e.message)
  }

  lemma FreedUnavailable(gpus: seq<Gpu>, ids: seq<string>, x: string)
    requires Unavailable(gpus, x) && x !in ids
    ensures Unavailable(Freed(gpus, ids), x)
  {
    var i :| 0 <= i < |gpus| && gpus[i].id == x && !gpus[i].available;
    assert Freed(gpus, ids)[i] == gpus[i];
  }

  lemma TakenUnavailable(gpus: seq<Gpu>, chosen: seq<nat>, x: string)
    requires Unavailable(gpus, x)
    ensures Unavailable(Taken(gpus, chosen), x)
  {
    var i :| 0 <= i < |gpus| && gpus[i].id == x && !gpus[i].available;
    assert !Taken(gpus, chosen)[i].available;
  }

  /** Synchronisation never releases a GPU that is in use, whatever the message claims. */
  lemma SyncedUnavailable(gpus: seq<Gpu>, claims: map<string, bool>, active: map<string, ActiveTask>, x: string)
    requires Unavailable(gpus, x) && InUse(active, x)
    ensures Unavailable(Synced(gpus, claims, active), x)
  {
    var i :| 0 <= i < |gpus| && gpus[i].id == x && !gpus[i].available;
    assert Synced(gpus, claims, active)[i] == gpus[i];
  }

  lemma UsedIsUnavailable(s: Node, x: string)
    requires Exclusive(s) && InUse(s.active, x)
    ensures Unavailable(s.gpus, x)
  {
  }

  lemma FreeIsNotUnavailable(gpus: seq<Gpu>, i: nat)
    requires forall j, k :: 0 <= j < k < |gpus| ==> gpus[j].id != gpus[k].id
    requires i < |gpus| && gpus[i].available
    ensures !Unavailable(gpus, gpus[i].id)
  {
  }

  lemma GrantIsFree(s: Node, required: U32, chosen: seq<nat>, x: string)
    requires NodeInv(s) && Allocated(s.gpus, required, chosen) && x in IdsAt(s.gpus, chosen)
    ensures !InUse(s.active, x) && Unavailable(Taken(s.gpus, chosen), x)
  {
    var k :| 0 <= k < |chosen| && IdsAt(s.gpus, chosen)[k] == x;
    var g := chosen[k];
    assert Taken(s.gpus, chosen)[g] == s.gpus[g].(available := false);
    FreeIsNotUnavailable(s.gpus, g);
    if InUse(s.active, x) {
      UsedIsUnavailable(s, x);
    }
  }

  lemma StartKeepsInv(s: Node, id: string, required: U32, chosen: seq<nat>)
    requires NodeInv(s) && Unused(s, id) && Allocated(s.gpus, required, chosen)
    ensures NodeInv(Started(s, id, chosen))
  {
    var s' := Started(s, id, chosen);
    var ids := IdsAt(s.gpus, chosen);
    forall x | x in ids ensures !InUse(s.active, x) && Unavailable(s'.gpus, x) {
      GrantIsFree(s, required, chosen, x);
    }
    forall a, x | a in s'.active && x in s'.active[a].gpuIds ensures Unavailable(s'.gpus, x) {
      if a != id {
        TakenUnavailable(s.gpus, chosen, x);
      }
    }
    forall a, b, x | a in s'.active && b in s'.active && x in s'.active[a].gpuIds && x in s'.active[b].gpuIds
      ensures a == b
    {
      assert a != id ==> InUse(s.active, x);
      assert b != id ==> InUse(s.active, x);
    }
  }

  /** Dropping a task together with its GPUs keeps exclusion for the others. */
  lemma DropKeepsExclusive(s: Node, s': Node, id: string, gpuIds: seq<string>)
    requires Exclusive(s) && Owns(s, id, gpuIds)
    requires s'.active == s.active - {id} && s'.gpus == Freed(s.gpus, gpuIds)
    ensures Exclusive(s')
  {
    forall a, x | a in s'.active && x in s'.active[a].gpuIds ensures Unavailable(s'.gpus, x) {
      FreedUnavailable(s.gpus, gpuIds, x);
    }
  }

  lemma ReleaseKeepsReleasers(s: Node, id: string)
    requires OneReleaser(s) && id in s.runners
    ensures OneReleaser(Released(s, id))
  {
    var s' := Released(s, id);
    forall r | r in s'.reapers ensures Owns(s', r.id, r.gpuIds) {
      assert Owns(s, r.id, r.gpuIds);
    }
  }

  lemma ReleaseKeepsInv(s: Node, id: string)
    requires NodeInv(s) && id in s.runners
    ensures NodeInv(Released(s, id))
  {
    DropKeepsExclusive(s, Released(s, id), id, s.runners[id].gpuIds);
    ReleaseKeepsReleasers(s, id);
  }

  lemma ReapKeepsInv(s: Node, r: Reaper)
    requires NodeInv(s) && r in s.reapers
    ensures NodeInv(Reaped(s, r))
  {
    var s' := Reaped(s, r);
    DropKeepsExclusive(s, s', r.id, r.gpuIds);
    forall q | q in s'.reapers ensures Owns(s', q.id, q.gpuIds) {
      assert q in s.reapers;
    }
  }

  lemma ReceiveKeepsExclusive(s: Node, m: Message)
    requires NodeInv(s)
    ensures Exclusive(Processed(s, m))
  {
    var s' := Processed(s, m);
    forall a, x | a in s'.active && x in s'.active[a].gpuIds ensures Unavailable(s'.gpus, x) {
      assert InUse(s.active, x);
      SyncedUnavailable(s.gpus, Claims(m.gpus), s.active, x);
    }
  }

  lemma ReceiveKeepsReleasers(s: Node, m: Message)
    requires NodeInv(s) && Benign(s, m)
    ensures OneReleaser(Processed(s, m))
  {
    var s', fresh' := Processed(s, m), NewReapers(Listed(m.tasks), s.active);
    forall r | r in s'.reapers
      ensures Owns(s', r.id, r.gpuIds) && (r.gpuIds != [] ==> r.id !in s'.runners && s'.reapers[r] == 1)
    {
      assert r in s.reapers || r in fresh';
    }
  }

  lemma ReceiveKeepsInv(s: Node, m: Message)
    requires NodeInv(s) && Benign(s, m)
    ensures NodeInv(Processed(s, m))
  {
    ReceiveKeepsExclusive(s, m);
    ReceiveKeepsReleasers(s, m);
  }

  lemma StepKeepsNodeInv(s: Node, e: NodeEvent)
    requires NodeInv(s) && Can(s, e) && BenignEvent(s, e)
    ensures NodeInv(Next(s, e))
  {
    match e {
      case Start(id, required, _, chosen) => StartKeepsInv(s, id, required, chosen);
      case Abandon(_) =>
      case Stop(_) =>
      case Conclude(_) =>
      case Release(id) => ReleaseKeepsInv(s, id);
      case Receive(m) => ReceiveKeepsInv(s, m);
      case Reap(r) => ReapKeepsInv(s, r);
    }
  }

  /** Worker-side exclusion: over all interleavings whose messages are benign, active tasks hold disjoint
      GPUs, all marked unavailable, whatever availability the messages claim. */
  lemma {:induction false} WorkerExclusion(ss: seq<Node>, es: seq<NodeEvent>, n: nat)
    requires NodeRun(ss, es) && Idle(ss[0]) && n < |ss|
    requires forall i {:trigger es[i]} :: 0 <= i < |es| ==> BenignEvent(ss[i], es[i])
    ensures NodeInv(ss[n]) && Exclusive(ss[n])
  {
    if n > 0 {
      WorkerExclusion(ss, es, n - 1);
      StepKeepsNodeInv(ss[n - 1], es[n - 1]);
    }
  }

  /** Messages that list no tasks, or list every active task without a new terminal status, are benign. */
  lemma QuietMessageIsBenign(s: Node, m: Message)
    requires m.tasks == [] || forall id :: id in s.active ==>
               id in Listed(m.tasks) && (Listed(m.tasks)[id] == s.active[id].status || !Terminal(Listed(m.tasks)[id]))
    ensures Benign(s, m)
  {
  }

  // ---------------------------------------------------------------- and no further

  /** The events `es`, all of them benign, lead from `s` to `s'`. */
  ghost predicate Leads(s: Node, es: seq<NodeEvent>, s': Node)
    decreases |es|
  {
    if es == [] then s == s' else Can(s, es[0]) && BenignEvent(s, es[0]) && Leads(Next(s, es[0]), es[1..], s')
  }

  /** A new task that asks for all free GPUs gets every one of them. */
  lemma TakeEverything(s: Node, id: string, x: string) returns (start: NodeEvent)
    requires Unused(s, id) && |s.gpus| < 0x1_0000_0000
    requires exists i :: 0 <= i < |s.gpus| && s.gpus[i].id == x && s.gpus[i].available
    ensures start.Start? && Can(s, start)
    ensures var s' := Next(s, start);
            && id in s'.active && x in s'.active[id].gpuIds
            && s'.runners == s.runners[id := Runner(s'.active[id].gpuIds, false)] && s'.reapers == s.reapers
  {
    var free := Free(s.gpus);
    FreeBound(s.gpus);
    PrefixAllocates(s.gpus, |free|, free);
    assert free[..|free|] == free;
    start := Start(id, |free|, "packed", free);
    TakesAll(s, x);
  }

  lemma ReapFrees(s: Node, r: Reaper, x: string)
    requires HasGpu(s, x) && x in r.gpuIds
    ensures exists i :: 0 <= i < |s.gpus| && Reaped(s, r).gpus[i].id == x && Reaped(s, r).gpus[i].available
  {
    var i :| 0 <= i < |s.gpus| && s.gpus[i].id == x;
    assert Reaped(s, r).gpus[i].id == x && Reaped(s, r).gpus[i].available;
  }

  /** A goroutine that releases GPUs which task `id` holds now takes them away from it. */
  lemma SecondReleaser(s: Node, r: Reaper, id: string) returns (es: seq<NodeEvent>, s': Node)
    requires r.gpuIds != [] && id != r.id && id in s.active && r.gpuIds[0] in s.active[id].gpuIds
    requires (r.id in s.runners && s.runners[r.id].gpuIds == r.gpuIds) || r in s.reapers
    ensures Leads(s, es, s') && !Exclusive(s')
  {
    var x := r.gpuIds[0];
    if r in s.reapers {
      es, s' := [Reap(r)], Reaped(s, r);
      StolenGpu(s, s', id, x, r.gpuIds);
      LeadsOne(s, Reap(r));
    } else if s.runners[r.id].concluded {
      es, s' := [Release(r.id)], Released(s, r.id);
      StolenGpu(s, s', id, x, r.gpuIds);
      LeadsOne(s, Release(r.id));
    } else {
      var s1 := Concluded(s, r.id);
      es, s' := [Conclude(r.id)] + [Release(r.id)], Released(s1, r.id);
      StolenGpu(s1, s', id, x, r.gpuIds);
      LeadsOne(s1, Release(r.id));
      LeadsCons(s, Conclude(r.id), [Release(r.id)], s');
    }
  }

  /** A second goroutine is still going to release GPUs that are free now. */
  lemma StartThenRelease(s: Node, r: Reaper, id: string) returns (es: seq<NodeEvent>, s': Node)
    requires r.gpuIds != [] && id != r.id && Unused(s, id) && |s.gpus| < 0x1_0000_0000
    requires exists i :: 0 <= i < |s.gpus| && s.gpus[i].id == r.gpuIds[0] && s.gpus[i].available
    requires (r.id in s.runners && s.runners[r.id].gpuIds == r.gpuIds) || r in s.reapers
    ensures Leads(s, es, s') && !Exclusive(s')
  {
    var start := TakeEverything(s, id, r.gpuIds[0]);
    var tail;
    tail, s' := SecondReleaser(Next(s, start), r, id);
    LeadsCons(s, start, tail, s');
    es := [start] + tail;
  }

  /** Once two goroutines are going to release the same GPUs, the first to run lets a new task have them
      and the second takes them away from it again. */
  lemma DoubleReleaseBreaksExclusion(s: Node, r: Reaper, id: string)
    requires r in s.reapers && r.gpuIds != [] && HasGpu(s, r.gpuIds[0])
    requires |s.gpus| < 0x1_0000_0000 && id != r.id && Unused(s, id)
    requires (r.id in s.runners && s.runners[r.id].gpuIds == r.gpuIds) || s.reapers[r] >= 2
    ensures exists es, s' :: Leads(s, es, s') && !Exclusive(s')
  {
    ReapFrees(s, r, r.gpuIds[0]);
    var es, s' := StartThenRelease(Reaped(s, r), r, id);
    LeadsCons(s, Reap(r), es, s');
  }

  ghost predicate HasGpu(s: Node, x: string) {
    exists i :: 0 <= i < |s.gpus| && s.gpus[i].id == x
  }

  lemma {:induction false} FreeBound(gpus: seq<Gpu>)
    ensures |Free(gpus)| <= |gpus|
  {
    if gpus != [] {
      FreeBound(gpus[..|gpus| - 1]);
    }
  }

  /** Asking for every free GPU gets the one that was just released. */
  lemma TakesAll(s: Node, x: string)
    requires exists i :: 0 <= i < |s.gpus| && s.gpus[i].id == x && s.gpus[i].available
    requires forall k :: 0 <= k < |Free(s.gpus)| ==> Free(s.gpus)[k] < |s.gpus|
    ensures x in IdsAt(s.gpus, Free(s.gpus))
  {
    var i :| 0 <= i < |s.gpus| && s.gpus[i].id == x && s.gpus[i].available;
    FreeMember(s.gpus, i);
    var k :| 0 <= k < |Free(s.gpus)| && Free(s.gpus)[k] == i;
    assert IdsAt(s.gpus, Free(s.gpus))[k] == x;
  }

  /** A GPU that an active task holds has been released under it. */
  lemma StolenGpu(s: Node, s': Node, id: string, x: string, gpuIds: seq<string>)
    requires x in gpuIds && s'.gpus == Freed(s.gpus, gpuIds)
    requires id in s'.active && x in s'.active[id].gpuIds
    ensures !Exclusive(s')
  {
    assert !Unavailable(s'.gpus, x);
  }

  lemma LeadsCons(s: Node, e: NodeEvent, es: seq<NodeEvent>, s': Node)
    requires Can(s, e) && BenignEvent(s, e) && Leads(Next(s, e), es, s')
    ensures Leads(s, [e] + es, s')
  {
    assert ([e] + es)[1..] == es;
  }

  lemma LeadsOne(s: Node, e: NodeEvent)
    requires Can(s, e) && BenignEvent(s, e)
    ensures Leads(s, [e], Next(s, e))
  {
    assert Leads(Next(s, e), [], Next(s, e));
    LeadsCons(s, e, [], Next(s, e));
    assert [e] + [] == [e];
  }

  lemma {:induction false} BenignPathKeepsInv(s: Node, es: seq<NodeEvent>, s': Node)
    requires NodeInv(s) && Leads(s, es, s')
    ensures NodeInv(s')
    decreases |es|
  {
    if es != [] {
      StepKeepsNodeInv(s, es[0]);
      BenignPathKeepsInv(Next(s, es[0]), es[1..], s');
    }
  }

  /** There is always an id that nothing uses yet. */
  lemma UnusedId(s: Node, other: string) returns (id: string)
    ensures id != other && Unused(s, id)
  {
    var ids := set r | r in s.reapers :: r.id;
    id := FreshId(s.active.Keys + s.runners.Keys + ids + {other});
    forall r | r in s.reapers ensures r.id != id {
      assert r.id in ids;
    }
  }

  lemma HarmfulMessage(s: Node, m: Message)
    requires NodeInv(s) && !Benign(s, m) && |s.gpus| < 0x1_0000_0000
    ensures exists es, s' :: Leads(Processed(s, m), es, s') && !Exclusive(s')
  {
    var id :| id in s.active && Cancels(Listed(m.tasks), s.active[id], id) && s.active[id].gpuIds != []
              && (id in s.runners || Reaper(id, s.active[id].gpuIds) in s.reapers);
    var s1 := Processed(s, m);
    var r := Reaper(id, s.active[id].gpuIds);
    assert r in NewReapers(Listed(m.tasks), s.active);
    assert Unavailable(s.gpus, r.gpuIds[0]);
    SyncKeepsIds(s, m, r.gpuIds[0]);
    var other := UnusedId(s1, id);
    DoubleReleaseBreaksExclusion(s1, r, other);
  }

  lemma SyncKeepsIds(s: Node, m: Message, x: string)
    requires NodeDistinct(s) && Unavailable(s.gpus, x)
    ensures NodeDistinct(Processed(s, m)) && HasGpu(Processed(s, m), x)
  {
    var i :| 0 <= i < |s.gpus| && s.gpus[i].id == x && !s.gpus[i].available;
    assert Processed(s, m).gpus[i].id == x;
  }

  /** A status message is safe if and only if it is benign: whatever benign steps follow it, active tasks
      keep exclusive GPUs; after any other message some such steps break exclusion. */
  lemma MessageIsSafeIffBenign(s: Node, m: Message)
    requires NodeInv(s) && |s.gpus| < 0x1_0000_0000
    ensures Benign(s, m) <==> forall es, s' :: Leads(Processed(s, m), es, s') ==> Exclusive(s')
  {
    if Benign(s, m) {
      ReceiveKeepsInv(s, m);
      forall es, s' | Leads(Processed(s, m), es, s') ensures Exclusive(s') {
        BenignPathKeepsInv(Processed(s, m), es, s');
      }
    } else {
      HarmfulMessage(s, m);
    }
  }
}
