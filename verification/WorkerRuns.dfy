/** What the worker's own bookkeeping tells: when its status agrees with its tasks, and what holds between
    messages. */
module WorkerRuns {
  import opened Cluster
  import opened Allocation
  import opened WorkerNode

  // ---------------------------------------------------------------- status

  ghost function FittingStatus(active: map<string, ActiveTask>): WorkerStatus {
    if active == map[] then IDLE else BUSY
  }

  /** BUSY with active tasks, IDLE without. */
  ghost predicate StatusFits(s: Node) {
    s.status == FittingStatus(s.active)
  }

  /** A message carries the status that fits, and a cancelled task is not the last one to be dropped. */
  ghost predicate StatusKept(s: Node, e: NodeEvent) {
    && (e.Receive? ==> e.message.status == FittingStatus(s.active))
    && (e.Reap? && e.reaper.id in s.active ==> exists id :: id in s.active && id != e.reaper.id)
  }

  lemma SameTasks(active: map<string, ActiveTask>, id: string, status: TaskStatus)
    ensures WithStatus(active, id, status) == map[] <==> active == map[]
  {
    if id in active {
      assert id in WithStatus(active, id, status);
    }
  }

  lemma DroppedLast(active: map<string, ActiveTask>, id: string)
    ensures active - {id} == map[] <==> forall a :: a in active ==> a == id
  {
    if a :| a in active && a != id {
      assert a in active - {id};
    }
  }

  lemma UpdatedTasks(s: Node, m: Message)
    ensures Processed(s, m).active == map[] <==> s.active == map[]
  {
    assert Processed(s, m).active.Keys == s.active.Keys;
    assert s.active == map[] <==> s.active.Keys == {};
    assert Processed(s, m).active == map[] <==> Processed(s, m).active.Keys == {};
  }

  lemma NoTasksLeft(active: map<string, ActiveTask>, id: string)
    ensures |active - {id}| == 0 <==> active - {id} == map[]
  {
  }

  lemma ReapKeepsStatusIff(s: Node, r: Reaper)
    requires StatusFits(s) && r in s.reapers
    ensures StatusFits(Reaped(s, r)) <==> (r.id in s.active ==> exists id :: id in s.active && id != r.id)
  {
    DroppedLast(s.active, r.id);
    assert r.id !in s.active ==> s.active - {r.id} == s.active;
  }

  lemma ReleaseKeepsStatus(s: Node, id: string)
    requires StatusFits(s) && id in s.runners
    ensures StatusFits(Released(s, id))
  {
    NoTasksLeft(s.active, id);
    DroppedLast(s.active, id);
  }

  lemma StepKeepsStatusIff(s: Node, e: NodeEvent)
    requires StatusFits(s) && Can(s, e)
    ensures StatusFits(Next(s, e)) <==> StatusKept(s, e)
  {
    match e {
      case Start(id, _, _, chosen) => assert id in Started(s, id, chosen).active;
      case Abandon(id) => SameTasks(s.active, id, FAILED);
      case Stop(id) => SameTasks(s.active, id, CANCELED);
      case Conclude(id) => SameTasks(s.active, id, COMPLETED);
      case Release(id) => ReleaseKeepsStatus(s, id);
      case Receive(m) => UpdatedTasks(s, m);
      case Reap(r) => ReapKeepsStatusIff(s, r);
    }
  }

  lemma {:induction false} FitsSoFar(ss: seq<Node>, es: seq<NodeEvent>, n: nat)
    requires NodeRun(ss, es) && StatusFits(ss[0]) && n < |ss|
    requires forall i {:trigger es[i]} :: 0 <= i < |es| ==> StatusKept(ss[i], es[i])
    ensures StatusFits(ss[n])
  {
    if n > 0 {
      FitsSoFar(ss, es, n - 1);
      StepKeepsStatusIff(ss[n - 1], es[n - 1]);
    }
  }

  /** The worker's status agrees with its tasks in all states of a run if and only if every message carries the
      status that fits and no cancellation drops the last task: nothing makes the worker IDLE again after that. */
  lemma WorkerStatusIff(ss: seq<Node>, es: seq<NodeEvent>)
    requires NodeRun(ss, es) && StatusFits(ss[0])
    ensures (forall n :: 0 <= n < |ss| ==> StatusFits(ss[n]))
            <==> forall i {:trigger es[i]} :: 0 <= i < |es| ==> StatusKept(ss[i], es[i])
  {
    if forall i {:trigger es[i]} :: 0 <= i < |es| ==> StatusKept(ss[i], es[i]) {
      forall n | 0 <= n < |ss| ensures StatusFits(ss[n]) {
        FitsSoFar(ss, es, n);
      }
    }
    if forall n :: 0 <= n < |ss| ==> StatusFits(ss[n]) {
      forall i {:trigger es[i]} | 0 <= i < |es| ensures StatusKept(ss[i], es[i]) {
        StepKeepsStatusIff(ss[i], es[i]);
      }
    }
  }

  // ---------------------------------------------------------------- between messages

  /** The status of a task tells what its goroutine is doing: running it, about to release its GPUs, or gone.  A task
      that was stopped tells nothing. */
  ghost predicate TellsGoroutine(s: Node, id: string)
    requires id in s.active
  {
    match s.active[id].status
    case RUNNING => id in s.runners && !s.runners[id].concluded
    case COMPLETED => id in s.runners && s.runners[id].concluded
    case FAILED => id !in s.runners
    case CANCELED => true
    case PENDING => false
  }

  ghost predicate GoroutinesAgree(s: Node) {
    && s.reapers == multiset{}
    && (forall id :: id in s.runners ==> id in s.active && s.active[id].gpuIds == s.runners[id].gpuIds)
    && forall id :: id in s.active ==> TellsGoroutine(s, id)
  }

  /** The same GPUs as in `base`; one is available exactly when it is there and no active task uses it. */
  ghost predicate ExactlyFree(s: Node, base: seq<Gpu>) {
    && |s.gpus| == |base|
    && (forall i :: 0 <= i < |base| ==>
          && s.gpus[i] == base[i].(available := s.gpus[i].available)
          && (s.gpus[i].available <==> base[i].available && !InUse(s.active, base[i].id)))
    && forall id, i :: id in s.active && 0 <= i < |base| && base[i].id in s.active[id].gpuIds ==> base[i].available
  }

  lemma StartKeepsAgreement(s: Node, id: string, chosen: seq<nat>)
    requires GoroutinesAgree(s) && Unused(s, id) && forall k :: 0 <= k < |chosen| ==> chosen[k] < |s.gpus|
    ensures GoroutinesAgree(Started(s, id, chosen))
  {
    var s' := Started(s, id, chosen);
    forall a | a in s'.active ensures TellsGoroutine(s', a) {
      assert a != id ==> TellsGoroutine(s, a);
    }
  }

  lemma AbandonKeepsAgreement(s: Node, id: string)
    requires GoroutinesAgree(s) && id in s.runners
    ensures GoroutinesAgree(Abandoned(s, id))
  {
    var s' := Abandoned(s, id);
    forall a | a in s'.active ensures TellsGoroutine(s', a) {
      assert TellsGoroutine(s, a);
    }
  }

  lemma StopKeepsAgreement(s: Node, id: string)
    requires GoroutinesAgree(s)
    ensures GoroutinesAgree(Stopped(s, id))
  {
    var s' := Stopped(s, id);
    forall a | a in s'.active ensures TellsGoroutine(s', a) {
      assert TellsGoroutine(s, a);
    }
  }

  lemma ConcludeKeepsAgreement(s: Node, id: string)
    requires GoroutinesAgree(s) && id in s.runners
    ensures GoroutinesAgree(Concluded(s, id))
  {
    var s' := Concluded(s, id);
    forall a | a in s'.active ensures TellsGoroutine(s', a) {
      assert TellsGoroutine(s, a);
    }
  }

  lemma ReleaseKeepsAgreement(s: Node, id: string)
    requires GoroutinesAgree(s) && id in s.runners
    ensures GoroutinesAgree(Released(s, id))
  {
    var s' := Released(s, id);
    forall a | a in s'.active ensures TellsGoroutine(s', a) {
      assert TellsGoroutine(s, a);
    }
  }

  lemma StartTakesExactly(s: Node, id: string, required: U32, chosen: seq<nat>, i: nat)
    requires NodeDistinct(s) && id !in s.active && Allocated(s.gpus, required, chosen) && i < |s.gpus|
    ensures var s' := Started(s, id, chosen);
            && (s.gpus[i].id in s'.active[id].gpuIds <==> i in chosen)
            && (InUse(s'.active, s.gpus[i].id) <==> InUse(s.active, s.gpus[i].id) || i in chosen)
            && (s'.gpus[i].available <==> s.gpus[i].available && i !in chosen)
  {
    var s', x := Started(s, id, chosen), s.gpus[i].id;
    if k :| 0 <= k < |chosen| && chosen[k] == i {
      assert s'.active[id].gpuIds[k] == x;
    }
    if x in s'.active[id].gpuIds {
      var k :| 0 <= k < |chosen| && s'.active[id].gpuIds[k] == x;
      assert chosen[k] == i;
    }
    if InUse(s.active, x) {
      var a :| a in s.active && x in s.active[a].gpuIds;
      assert a in s'.active && s'.active[a] == s.active[a];
    }
    if InUse(s'.active, x) {
      var a :| a in s'.active && x in s'.active[a].gpuIds;
      assert a != id ==> InUse(s.active, x);
    }
  }

  lemma StartKeepsExact(s: Node, id: string, required: U32, chosen: seq<nat>, base: seq<Gpu>)
    requires NodeDistinct(s) && ExactlyFree(s, base) && id !in s.active && Allocated(s.gpus, required, chosen)
    ensures ExactlyFree(Started(s, id, chosen), base)
  {
    var s' := Started(s, id, chosen);
    forall i | 0 <= i < |base|
      ensures s'.gpus[i] == base[i].(available := s'.gpus[i].available)
              && (s'.gpus[i].available <==> base[i].available && !InUse(s'.active, base[i].id))
              && (base[i].id in s'.active[id].gpuIds ==> base[i].available)
    {
      StartTakesExactly(s, id, required, chosen, i);
    }
  }

  lemma SameUse(s: Node, id: string, status: TaskStatus, x: string)
    ensures InUse(WithStatus(s.active, id, status), x) <==> InUse(s.active, x)
  {
    var after := WithStatus(s.active, id, status);
    assert forall a :: a in after <==> a in s.active;
    assert forall a :: a in s.active ==> after[a].gpuIds == s.active[a].gpuIds;
  }

  lemma StatusKeepsExact(s: Node, s': Node, id: string, status: TaskStatus, base: seq<Gpu>)
    requires ExactlyFree(s, base) && s'.gpus == s.gpus && s'.active == WithStatus(s.active, id, status)
    ensures ExactlyFree(s', base)
  {
    forall i | 0 <= i < |base| ensures InUse(s'.active, base[i].id) <==> InUse(s.active, base[i].id) {
      SameUse(s, id, status, base[i].id);
    }
  }

  /** Dropping a task leaves in use what the others use. */
  lemma DropUses(s: Node, id: string, x: string)
    requires Exclusive(s) && id in s.active
    ensures InUse(s.active - {id}, x) <==> InUse(s.active, x) && x !in s.active[id].gpuIds
  {
    var left := s.active - {id};
    if a :| a in left && x in left[a].gpuIds {
      assert a in s.active && x in s.active[a].gpuIds;
    }
    if a :| a in s.active && x in s.active[a].gpuIds && x !in s.active[id].gpuIds {
      assert a in left && x in left[a].gpuIds;
    }
  }

  lemma ReleaseKeepsExact(s: Node, id: string, base: seq<Gpu>)
    requires Exclusive(s) && ExactlyFree(s, base)
    requires id in s.runners && id in s.active && s.active[id].gpuIds == s.runners[id].gpuIds
    ensures ExactlyFree(Released(s, id), base)
  {
    var s' := Released(s, id);
    forall i | 0 <= i < |base|
      ensures s'.gpus[i] == base[i].(available := s'.gpus[i].available)
              && (s'.gpus[i].available <==> base[i].available && !InUse(s'.active, base[i].id))
    {
      DropUses(s, id, base[i].id);
      assert base[i].id in s.active[id].gpuIds ==> InUse(s.active, base[i].id);
    }
  }

  ghost predicate QuietInv(s: Node, base: seq<Gpu>) {
    NodeInv(s) && GoroutinesAgree(s) && ExactlyFree(s, base)
  }

  lemma StepKeepsQuiet(s: Node, e: NodeEvent, base: seq<Gpu>)
    requires QuietInv(s, base) && Can(s, e) && !e.Receive?
    ensures QuietInv(Next(s, e), base)
  {
    StepKeepsNodeInv(s, e);
    match e {
      case Start(id, required, _, chosen) =>
        StartKeepsAgreement(s, id, chosen);
        StartKeepsExact(s, id, required, chosen, base);
      case Abandon(id) =>
        AbandonKeepsAgreement(s, id);
        StatusKeepsExact(s, Abandoned(s, id), id, FAILED, base);
      case Stop(id) =>
        StopKeepsAgreement(s, id);
        StatusKeepsExact(s, Stopped(s, id), id, CANCELED, base);
      case Conclude(id) =>
        ConcludeKeepsAgreement(s, id);
        StatusKeepsExact(s, Concluded(s, id), id, COMPLETED, base);
      case Release(id) =>
        ReleaseKeepsAgreement(s, id);
        ReleaseKeepsExact(s, id, base);
      case Reap(_) => assert false;
    }
  }

  /** A run without messages from a worker on which nothing goes on: the status of each active task tells what its
      goroutine is doing, unless it was stopped, and a GPU is available exactly when it was at the start and no active
      task holds it; so FAILED and stopped tasks keep their GPUs. */
  lemma {:induction false} BetweenMessages(ss: seq<Node>, es: seq<NodeEvent>, n: nat)
    requires NodeRun(ss, es) && Idle(ss[0]) && n < |ss|
    requires forall i {:trigger es[i]} :: 0 <= i < |es| ==> !es[i].Receive?
    ensures NodeInv(ss[n]) && GoroutinesAgree(ss[n]) && ExactlyFree(ss[n], ss[0].gpus)
  {
    if n > 0 {
      BetweenMessages(ss, es, n - 1);
      StepKeepsQuiet(ss[n - 1], es[n - 1], ss[0].gpus);
    }
  }
}
