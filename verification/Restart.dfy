/** What a restart keeps: the persistence round trip for GPUs, tasks, books and queue, and when it is exact. */
module Restart {
  import opened Calendar
  import opened Cluster
  import opened Policy
  import opened Scheduling
  import opened Books
  import opened Exclusion
  import opened Honest
  import P = Persistence

  // ---------------------------------------------------------------- workers and GPUs

  ghost predicate WorkerBack(w: string, before: Worker, after: Worker, table: map<string, P.GpuRow>) {
    after.address == before.address && after.status == before.status && P.ReadsGpus(table, w, after.gpus)
  }

  /** The workers read back from the GPU table that saving them in the given order produced. */
  ghost predicate WorkersBack(s: State, states: map<string, P.WorkerState>, order: seq<string>, s': State) {
    && states.Keys == s.workers.Keys == s'.workers.Keys
    && (forall k :: 0 <= k < |order| ==> order[k] in states)
    && forall w :: w in s.workers ==>
         && w in order && states[w].gpus == s.workers[w].gpus
         && WorkerBack(w, s.workers[w], s'.workers[w], P.WithWorkers(order, states))
  }

  lemma WorkerComesBack(s: State, t: P.Trip, s': State, w: string)
    requires P.ReloadsWorkers(s, t, s') && w in s.workers
    ensures w in t.order && w in s'.workers && w in t.saved.workers && t.saved.workers[w].gpus == s.workers[w].gpus
    ensures WorkerBack(w, s.workers[w], s'.workers[w], t.db.gpus)
  {
    assert P.SnapsWorker(s.workers[w], t.saved.workers[w]);
    assert w in t.db.workers && P.ReadsWorker(t.db, w, t.loaded.workers[w]);
  }

  lemma OrderKnown(order: seq<string>, states: map<string, P.WorkerState>)
    requires P.Lists(order, states.Keys)
    ensures forall k :: 0 <= k < |order| ==> order[k] in states
  {
  }

  lemma KeysComeBack(s: State, t: P.Trip, s': State)
    requires P.ReloadsWorkers(s, t, s')
    ensures t.saved.workers.Keys == s.workers.Keys == s'.workers.Keys
  {
    assert t.db.workers.Keys == t.saved.workers.Keys;
  }

  lemma WorkersComeBack(s: State, t: P.Trip, s': State)
    requires P.ReloadsWorkers(s, t, s')
    ensures WorkersBack(s, t.saved.workers, t.order, s')
  {
    OrderKnown(t.order, t.saved.workers);
    KeysComeBack(s, t, s');
    forall w | w in s.workers
      ensures w in t.order && t.saved.workers[w].gpus == s.workers[w].gpus
              && WorkerBack(w, s.workers[w], s'.workers[w], t.db.gpus)
    {
      WorkerComesBack(s, t, s', w);
    }
  }

  /** Every GPU that comes back is one that was saved for that worker; none comes back twice. */
  lemma LoadedGpusWereSaved(s: State, states: map<string, P.WorkerState>, order: seq<string>, s': State, w: string)
    requires WorkersBack(s, states, order, s') && w in s.workers
    ensures DistinctIds(s'.workers[w].gpus)
    ensures forall g :: g in s'.workers[w].gpus ==> g in s.workers[w].gpus
  {
    var table := P.WithWorkers(order, states);
    assert WorkerBack(w, s.workers[w], s'.workers[w], table);
    forall g | g in s'.workers[w].gpus ensures g in s.workers[w].gpus {
      P.WithWorkersRows(order, states, g.id);
      assert P.RowFrom(s.workers[w].gpus, w, g.id, table[g.id]);
    }
  }

  /** No two GPUs of the cluster carry the same id. */
  ghost predicate GloballyUnique(s: State) {
    && (forall w :: w in s.workers ==> DistinctIds(s.workers[w].gpus))
    && forall v, w, x ::
         v in s.workers && w in s.workers && P.Owns(s.workers[v].gpus, x) && P.Owns(s.workers[w].gpus, x)
         ==> v == w
  }

  ghost predicate SameGpus(s: State, s': State) {
    forall w :: w in s.workers ==> w in s'.workers && multiset(s'.workers[w].gpus) == multiset(s.workers[w].gpus)
  }

  lemma DistinctIdsNoDuplicates(gpus: seq<GPU>)
    requires DistinctIds(gpus)
    ensures NoDuplicates(gpus)
  {
  }

  lemma UniqueGpuComesBack(s: State, states: map<string, P.WorkerState>, order: seq<string>, s': State, w: string,
                           k: nat)
    requires WorkersBack(s, states, order, s') && w in s.workers && GloballyUnique(s) && k < |s.workers[w].gpus|
    ensures s.workers[w].gpus[k] in s'.workers[w].gpus
  {
    var before, after := s.workers[w].gpus, s'.workers[w].gpus;
    var table := P.WithWorkers(order, states);
    var g := before[k];
    assert WorkerBack(w, s.workers[w], s'.workers[w], table);
    assert P.Owns(before, g.id);
    P.WithWorkersRows(order, states, g.id);
    var v := table[g.id].workerId;
    var j :| 0 <= j < |s.workers[v].gpus| && s.workers[v].gpus[j].id == g.id
             && table[g.id] == P.GpuRowOf(v, s.workers[v].gpus[j]);
    assert P.Owns(s.workers[v].gpus, g.id);
    assert v == w && j == k;
    var i :| 0 <= i < |after| && after[i].id == g.id;
    assert after[i] == g;
  }

  lemma UniqueGpusComeBack(s: State, states: map<string, P.WorkerState>, order: seq<string>, s': State, w: string)
    requires WorkersBack(s, states, order, s') && w in s.workers && GloballyUnique(s)
    ensures multiset(s'.workers[w].gpus) == multiset(s.workers[w].gpus)
  {
    LoadedGpusWereSaved(s, states, order, s', w);
    var before, after := s.workers[w].gpus, s'.workers[w].gpus;
    forall g | g in before ensures g in after {
      var k :| 0 <= k < |before| && before[k] == g;
      UniqueGpuComesBack(s, states, order, s', w, k);
    }
    DistinctIdsNoDuplicates(before);
    DistinctIdsNoDuplicates(after);
    SameElements(after, before);
  }

  lemma SameMultisetSameIds(a: seq<GPU>, b: seq<GPU>, x: string)
    requires multiset(a) == multiset(b) && P.Owns(a, x)
    ensures P.Owns(b, x)
  {
    var i :| 0 <= i < |a| && a[i].id == x;
    assert a[i] in multiset(b);
  }

  lemma PermutedDistinct(a: seq<GPU>, b: seq<GPU>)
    requires multiset(a) == multiset(b) && DistinctIds(b)
    ensures DistinctIds(a)
  {
    DistinctIdsNoDuplicates(b);
    DistinctMultiset(b);
    forall i, j | 0 <= i < j < |a| ensures a[i].id != a[j].id {
      assert a == a[..j] + [a[j]] + a[j + 1..];
      assert multiset(a)[a[j]] >= 1 + multiset(a[..j])[a[j]];
      assert a[..j][i] == a[i];
      assert a[i] in multiset(b) && a[j] in multiset(b);
    }
  }

  lemma SameGpusAreUnique(s: State, states: map<string, P.WorkerState>, order: seq<string>, s': State)
    requires WorkersBack(s, states, order, s') && SameGpus(s, s')
    ensures GloballyUnique(s)
  {
    forall w | w in s.workers ensures DistinctIds(s.workers[w].gpus) {
      LoadedGpusWereSaved(s, states, order, s', w);
      PermutedDistinct(s.workers[w].gpus, s'.workers[w].gpus);
    }
    forall v, w, x | v in s.workers && w in s.workers && P.Owns(s.workers[v].gpus, x) && P.Owns(s.workers[w].gpus, x)
      ensures v == w
    {
      OwnedRow(s, states, order, s', v, x);
      OwnedRow(s, states, order, s', w, x);
    }
  }

  lemma OwnedRow(s: State, states: map<string, P.WorkerState>, order: seq<string>, s': State, w: string, x: string)
    requires WorkersBack(s, states, order, s') && SameGpus(s, s') && w in s.workers && P.Owns(s.workers[w].gpus, x)
    ensures x in P.WithWorkers(order, states) && P.WithWorkers(order, states)[x].workerId == w
  {
    SameMultisetSameIds(s.workers[w].gpus, s'.workers[w].gpus, x);
    assert WorkerBack(w, s.workers[w], s'.workers[w], P.WithWorkers(order, states));
  }

  /** The round trip gives every worker its GPUs back if and only if no two GPUs of the cluster carry the
      same id; otherwise one row of the table has overwritten another. */
  lemma GpusRestoredIffUnique(s: State, t: P.Trip, s': State)
    requires WellFormed(s) && P.Reloads(s, t, s')
    ensures s'.workers.Keys == s.workers.Keys
    ensures forall w :: w in s.workers ==>
              s'.workers[w].address == s.workers[w].address && s'.workers[w].status == s.workers[w].status
    ensures SameGpus(s, s') <==> GloballyUnique(s)
  {
    WorkersComeBack(s, t, s');
    GpusBackIff(s, t.saved.workers, t.order, s');
  }

  lemma GpusBackIff(s: State, states: map<string, P.WorkerState>, order: seq<string>, s': State)
    requires WorkersBack(s, states, order, s')
    ensures SameGpus(s, s') <==> GloballyUnique(s)
    ensures forall w :: w in s.workers ==> WorkerBack(w, s.workers[w], s'.workers[w], P.WithWorkers(order, states))
  {
    if GloballyUnique(s) {
      forall w | w in s.workers ensures w in s'.workers && multiset(s'.workers[w].gpus) == multiset(s.workers[w].gpus) {
        UniqueGpusComeBack(s, states, order, s', w);
      }
    }
    if SameGpus(s, s') {
      SameGpusAreUnique(s, states, order, s');
    }
  }

  // ---------------------------------------------------------------- tasks

  ghost predicate Queued(s: State, id: string)
    requires WellFormed(s)
  {
    exists k :: 0 <= k < |s.pending| && s.heap[s.pending[k]].id == id
  }

  /** The task comes back: GPU list up to order, start time cut to whole seconds if it is at least one second past
      the start of 1970 and zero otherwise, no metrics, and PENDING if it is queued. */
  ghost predicate SameTask(id: string, t: Task, t': Task, queued: bool) {
    && t' == Task(id, t.name, t.required, t.minMemory, t.configuration, if queued then PENDING else t.status,
                  t.workerId, t'.gpuIds,
                  if t.start >= StartOfYear(1970) + SECOND then t.start - t.start % SECOND else 0, t.progress, [])
    && multiset(t'.gpuIds) == multiset(t.gpuIds)
  }

  lemma TaskComesBack(s: State, t: P.Trip, s': State, id: string)
    requires WellFormed(s) && P.ReloadsTasks(s, t, s') && P.Storable(t.saved) && id in s.tasks
    ensures id in s'.tasks && s'.tasks[id] < |s'.heap|
    ensures SameTask(id, s.heap[s.tasks[id]], s'.heap[s'.tasks[id]], id in t.loaded.pending)
  {
    assert P.ReadsTask(t.db, id, t.loaded.tasks[id]);
    P.StartTimeRoundTrip(s.heap[s.tasks[id]].start);
    assert NoDuplicates(t.saved.tasks[id].gpuIds);
    SameElements(t.loaded.tasks[id].gpuIds, t.saved.tasks[id].gpuIds);
  }

  lemma QueuedMeansPending(s: State, t: P.Trip, s': State, id: string)
    requires WellFormed(s) && P.ReloadsQueue(s, t, s')
    ensures id in t.loaded.pending <==> Queued(s, id)
  {
    assert id in t.loaded.pending <==> id in t.saved.pending;
    if id in t.saved.pending {
      var k :| 0 <= k < |t.saved.pending| && t.saved.pending[k] == id;
      assert s.heap[s.pending[k]].id == id;
    }
    if Queued(s, id) {
      var k :| 0 <= k < |s.pending| && s.heap[s.pending[k]].id == id;
      assert t.saved.pending[k] == id;
    }
  }

  /** The round trip restores every task. */
  lemma TaskRestored(s: State, t: P.Trip, s': State, id: string)
    requires WellFormed(s) && P.Reloads(s, t, s')
    ensures id in s'.tasks <==> id in s.tasks
    ensures id in s.tasks ==> s'.tasks[id] < |s'.heap|
    ensures id in s.tasks ==> SameTask(id, s.heap[s.tasks[id]], s'.heap[s'.tasks[id]], Queued(s, id))
  {
    if id in s.tasks {
      TaskComesBack(s, t, s', id);
      QueuedMeansPending(s, t, s', id);
    }
  }

  lemma BooksComeBack(s: State, t: P.Trip, s': State, w: string, id: string)
    requires WellFormed(s) && P.ReloadsWorkers(s, t, s') && P.ReloadsTasks(s, t, s') && w in s.workers && w != ""
    ensures w in s'.workers
    ensures id in s'.workers[w].tasks <==> id in s.tasks && s.heap[s.tasks[id]].workerId == w
    ensures id in s'.workers[w].tasks ==> id in s'.tasks && s'.workers[w].tasks[id] == s'.tasks[id]
  {
    assert P.ReadsWorker(t.db, w, t.loaded.workers[w]);
    assert s'.workers[w] == P.InstalledWorker(t.loaded.workers[w], s'.tasks);
    assert id in t.loaded.workers[w].tasks <==> id in t.db.tasks && t.db.tasks[id].workerId == w;
  }

  /** Each worker's books afterwards: exactly the tasks whose worker id names it. */
  lemma BooksAfterReload(s: State, t: P.Trip, s': State, w: string)
    requires WellFormed(s) && P.Reloads(s, t, s') && w in s.workers && w != ""
    ensures w in s'.workers
    ensures forall id :: id in s'.workers[w].tasks <==> id in s.tasks && s.heap[s.tasks[id]].workerId == w
    ensures forall id :: id in s'.workers[w].tasks ==> id in s'.tasks && s'.workers[w].tasks[id] == s'.tasks[id]
  {
    BooksComeBack(s, t, s', w, "");
    forall id
      ensures id in s'.workers[w].tasks <==> id in s.tasks && s.heap[s.tasks[id]].workerId == w
      ensures id in s'.workers[w].tasks ==> id in s'.tasks && s'.workers[w].tasks[id] == s'.tasks[id]
    {
      BooksComeBack(s, t, s', w, id);
    }
  }

  lemma InBooksIff(s: State, base: Baseline, id: string, w: string)
    requires HonestInv(s, base) && id in s.tasks && w in s.workers && w != ""
    ensures id in s.workers[w].tasks <==> s.heap[s.tasks[id]].workerId == w && !Finished(s, id)
  {
    if id in s.workers[w].tasks {
      OneBookPerTask(s, base, id, w, w);
    }
    if s.tasks[id] in s.pending {
      var k :| 0 <= k < |s.pending| && s.pending[k] == s.tasks[id];
      assert Waiting(s.heap[s.pending[k]]);
    }
    assert s.tasks[id] in s.pending || Running(s, id) || Finished(s, id);
  }

  ghost predicate FinishedOn(s: State, id: string, w: string)
    requires WellFormed(s)
  {
    Finished(s, id) && s.heap[s.tasks[id]].workerId == w
  }

  lemma SameBooksIff(s: State, base: Baseline, after: set<string>, w: string)
    requires HonestInv(s, base) && w in s.workers && w != ""
    requires forall id :: id in after <==> id in s.tasks && s.heap[s.tasks[id]].workerId == w
    ensures after == s.workers[w].tasks.Keys <==> !exists id :: FinishedOn(s, id, w)
  {
    forall id ensures id in s.workers[w].tasks <==> id in after && !FinishedOn(s, id, w) {
      if id in s.tasks {
        InBooksIff(s, base, id, w);
      }
      if id in s.workers[w].tasks {
        assert Known(s, s.workers[w], id);
      }
    }
    assert forall id :: FinishedOn(s, id, w) ==> id in after;
  }

  /** In honest runs a worker's books come back as they were exactly when no task has finished on it. */
  lemma BooksRestoredIff(p: Kind, ss: seq<State>, es: seq<Event>, bs: seq<Baseline>, n: nat, t: P.Trip, s': State,
                         w: string)
    requires HonestBehavior(p, ss, es, bs) && n < |ss| && w in ss[n].workers
    requires WellFormed(ss[n]) && P.Reloads(ss[n], t, s')
    ensures w in s'.workers
    ensures s'.workers[w].tasks.Keys == ss[n].workers[w].tasks.Keys <==> !exists id :: FinishedOn(ss[n], id, w)
  {
    AlwaysHonestInv(p, ss, es, bs, n);
    BooksAfterReload(ss[n], t, s', w);
    SameBooksIff(ss[n], bs[n], s'.workers[w].tasks.Keys, w);
  }

  // ---------------------------------------------------------------- the queue

  /** `refs` are the task objects of `ids`, one for one. */
  ghost predicate RefsOf(ids: seq<string>, tasks: map<string, TaskRef>, refs: seq<TaskRef>) {
    |refs| == |ids| && forall k :: 0 <= k < |ids| ==> ids[k] in tasks && refs[k] == tasks[ids[k]]
  }

  lemma {:induction false} AllKnownRefs(pending: seq<string>, tasks: map<string, TaskRef>)
    requires forall id :: id in pending ==> id in tasks
    ensures RefsOf(pending, tasks, P.KnownRefs(pending, tasks))
  {
    if pending != [] {
      var last := |pending| - 1;
      assert pending == pending[..last] + [pending[last]];
      AllKnownRefs(pending[..last], tasks);
    }
  }

  /** `r` is the task object that the reloaded scheduler has for a task that was queued before. */
  ghost predicate BackInQueue(s: State, s': State, r: TaskRef) {
    && r < |s'.heap|
    && var id := s'.heap[r].id;
       id in s.tasks && s.tasks[id] in s.pending && id in s'.tasks && s'.tasks[id] == r
  }

  lemma QueueEntryComesBack(s: State, t: P.Trip, s': State, k: nat)
    requires WellFormed(s) && QueueKnown(s)
    requires P.ReloadsTasks(s, t, s') && P.ReloadsQueue(s, t, s') && P.Storable(t.saved)
    requires k < |s'.pending|
    ensures BackInQueue(s, s', s'.pending[k])
  {
    QueueRefsComeBack(s, t, s');
    QueuedIdIsKnown(s, t, s', t.loaded.pending[k]);
    TaskComesBack(s, t, s', t.loaded.pending[k]);
  }

  lemma QueuedIsKnown(s: State, id: string)
    requires WellFormed(s) && QueueKnown(s) && Queued(s, id)
    ensures id in s.tasks && s.tasks[id] in s.pending
  {
    var k :| 0 <= k < |s.pending| && s.heap[s.pending[k]].id == id;
    assert Enqueued(s, s.pending[k]) && s.pending[k] in s.pending;
  }

  lemma QueuedIdIsKnown(s: State, t: P.Trip, s': State, id: string)
    requires WellFormed(s) && P.ReloadsQueue(s, t, s') && P.ReloadsTasks(s, t, s') && QueueKnown(s)
    requires id in t.loaded.pending
    ensures id in s.tasks && s.tasks[id] in s.pending && id in s'.tasks
  {
    QueuedMeansPending(s, t, s', id);
    QueuedIsKnown(s, id);
  }

  lemma QueuedIdsAreKnown(s: State, t: P.Trip, s': State)
    requires WellFormed(s) && P.ReloadsQueue(s, t, s') && P.ReloadsTasks(s, t, s') && QueueKnown(s)
    ensures forall id :: id in t.loaded.pending ==> id in s'.tasks
  {
    forall id | id in t.loaded.pending ensures id in s'.tasks {
      QueuedIdIsKnown(s, t, s', id);
    }
  }

  lemma QueueRefsComeBack(s: State, t: P.Trip, s': State)
    requires WellFormed(s) && P.ReloadsQueue(s, t, s') && P.ReloadsTasks(s, t, s') && QueueKnown(s)
    ensures RefsOf(t.loaded.pending, s'.tasks, s'.pending)
  {
    QueuedIdsAreKnown(s, t, s');
    AllKnownRefs(t.loaded.pending, s'.tasks);
  }

  lemma QueueSizeComesBack(s: State, t: P.Trip, s': State)
    requires WellFormed(s) && QueueKnown(s)
    requires P.ReloadsTasks(s, t, s') && P.ReloadsQueue(s, t, s') && P.Storable(t.saved)
    ensures |s'.pending| == |s.pending| && NoDuplicates(s'.pending)
  {
    QueueRefsComeBack(s, t, s');
    SameSize(t.loaded.pending, t.saved.pending, t.db.pending);
    DistinctRefs(t.loaded.pending, s', t.loaded.tasks.Keys);
  }

  lemma SameSize(xs: seq<string>, ys: seq<string>, elements: set<string>)
    requires P.Lists(xs, elements) && P.Lists(ys, elements)
    ensures |xs| == |ys|
  {
    SameElements(xs, ys);
    assert |multiset(xs)| == |xs| && |multiset(ys)| == |ys|;
  }

  /** The queue comes back with the same tasks, each once, in some order. */
  lemma QueueRestored(s: State, t: P.Trip, s': State)
    requires WellFormed(s) && P.Reloads(s, t, s') && QueueKnown(s)
    ensures |s'.pending| == |s.pending| && NoDuplicates(s'.pending)
    ensures forall k :: 0 <= k < |s'.pending| ==> BackInQueue(s, s', s'.pending[k])
  {
    QueueSizeComesBack(s, t, s');
    forall k | 0 <= k < |s'.pending| ensures BackInQueue(s, s', s'.pending[k]) {
      QueueEntryComesBack(s, t, s', k);
    }
  }

  lemma DistinctRefs(ids: seq<string>, s': State, keys: set<string>)
    requires NoDuplicates(ids) && P.FreshObjects(s', keys) && RefsOf(ids, s'.tasks, s'.pending)
    ensures NoDuplicates(s'.pending)
  {
  }
}
