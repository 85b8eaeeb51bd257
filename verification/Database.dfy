/** The five tables as an object, and the four translations as they run: scheduler to snapshot, snapshot to
    tables, tables to snapshot, snapshot to scheduler. */
module Database {
  import opened Cluster
  import opened Scheduling
  import opened Persistence

  /** The elements of a set, in an order the caller cannot rely on. */
  method ListOf<T(==, !new)>(s: set<T>) returns (xs: seq<T>)
    ensures Lists(xs, s)
  {
    xs := [];
    var todo := s;
    while todo != {}
      invariant todo <= s && Lists(xs, s - todo)
      decreases todo
    {
      var x :| x in todo;
      xs, todo := xs + [x], todo - {x};
    }
  }

  class DatabaseManager {
    var workers: map<string, WorkerRow>
    var gpus: map<string, GpuRow>
    var tasks: map<string, TaskRow>
    var taskGpus: set<(string, string)>
    var pending: set<string>

    ghost function Abs(): Tables
      reads this
    {
      Tables(workers, gpus, tasks, taskGpus, pending)
    }

    constructor ()
      ensures Abs() == Tables(map[], map[], map[], {}, {})
    {
      workers, gpus, tasks, taskGpus, pending := map[], map[], map[], {}, {};
    }

    method ClearAllState()
      modifies this
      ensures Abs() == Tables(map[], map[], map[], {}, {})
    {
      workers, gpus, tasks, taskGpus, pending := map[], map[], map[], {}, {};
    }

    /** Upserts the worker row and one row per GPU id. */
    method SaveWorker(w: string, row: WorkerRow, list: seq<GPU>)
      modifies this`workers, this`gpus
      ensures workers == old(workers)[w := row]
      ensures gpus == WithGpus(old(gpus), w, list)
    {
      workers := workers[w := row];
      for i := 0 to |list|
        invariant workers == old(workers)[w := row]
        invariant gpus == WithGpus(old(gpus), w, list[..i])
      {
        assert list[..i + 1][..i] == list[..i];
        gpus := gpus[list[i].id := GpuRowOf(w, list[i])];
      }
      assert list[..|list|] == list;
    }

    /** Upserts the task row and replaces its GPU rows; a repeated id is a primary-key conflict, which rolls
        the transaction back. */
    method SaveTask(id: string, row: TaskRow, gpuIds: seq<string>) returns (ok: bool)
      modifies this`tasks, this`taskGpus
      ensures ok <==> NoDuplicates(gpuIds)
      ensures ok ==> tasks == old(tasks)[id := row]
      ensures ok ==> forall a, x :: (a, x) in taskGpus <==> if a == id then x in gpuIds else (a, x) in old(taskGpus)
      ensures !ok ==> tasks == old(tasks) && taskGpus == old(taskGpus)
    {
      var rows := set r | r in taskGpus && r.0 != id;
      for i := 0 to |gpuIds|
        invariant NoDuplicates(gpuIds[..i])
        invariant forall a, x :: (a, x) in rows <==> if a == id then x in gpuIds[..i] else (a, x) in taskGpus
      {
        assert gpuIds[..i + 1] == gpuIds[..i] + [gpuIds[i]];
        if (id, gpuIds[i]) in rows {
          assert gpuIds[i] in gpuIds[..i];
          return false;
        }
        rows := rows + {(id, gpuIds[i])};
      }
      assert gpuIds[..|gpuIds|] == gpuIds;
      tasks := tasks[id := row];
      taskGpus := rows;
      ok := true;
    }

    /** A plain insert. */
    method SavePendingTask(id: string) returns (ok: bool)
      modifies this`pending
      ensures ok <==> id !in old(pending)
      ensures pending == old(pending) + {id}
    {
      ok := id !in pending;
      pending := pending + {id};
    }

    method GetWorkerGPUs(w: string) returns (list: seq<GPU>)
      ensures ReadsGpus(gpus, w, list)
    {
      var ids := ListOf(set x | x in gpus && gpus[x].workerId == w);
      list := [];
      for i := 0 to |ids|
        invariant |list| == i
        invariant forall k :: 0 <= k < i ==> ids[k] in gpus && list[k] == GpuOf(ids[k], gpus[ids[k]])
      {
        assert ids[i] in ids;
        list := list + [GpuOf(ids[i], gpus[ids[i]])];
      }
      forall k | 0 <= k < |list| ensures ids[k] in gpus && gpus[ids[k]].workerId == w {
        assert ids[k] in ids;
      }
      forall x | x in gpus && gpus[x].workerId == w ensures exists i :: 0 <= i < |list| && list[i].id == x {
        assert x in ids;
        var i :| 0 <= i < |ids| && ids[i] == x;
        assert list[i].id == x;
      }
    }

    method GetTaskGPUs(id: string) returns (gpuIds: seq<string>)
      ensures NoDuplicates(gpuIds) && forall x :: x in gpuIds <==> (id, x) in taskGpus
    {
      var found := set r | r in taskGpus && r.0 == id :: r.1;
      gpuIds := ListOf(found);
      forall x ensures x in gpuIds <==> (id, x) in taskGpus {
        if (id, x) in taskGpus {
          assert (id, x).1 in found;
        }
      }
    }
  }

  // ---------------------------------------------------------------- snapshot to tables

  method SaveToDatabase(db: DatabaseManager, snap: Snapshot) returns (ok: bool, ghost order: seq<string>)
    modifies db
    ensures ok <==> Storable(snap)
    ensures ok ==> Stores(snap, order, db.Abs())
  {
    db.ClearAllState();
    order := SaveWorkers(db, snap);
    ok := SaveTasks(db, snap);
    if ok {
      ok := SavePending(db, snap);
    }
  }

  /** The worker rows after saving the workers in `done`. */
  ghost predicate RowsSoFar(workers: map<string, WorkerState>, done: seq<string>, rows: map<string, WorkerRow>) {
    && (forall w :: w in rows <==> w in done)
    && (forall w :: w in rows ==> w in workers && rows[w] == WorkerRow(workers[w].address, workers[w].status))
  }

  /** The GPU rows after saving the workers in `done`, in that order. */
  ghost predicate GpusSoFar(workers: map<string, WorkerState>, done: seq<string>, gpus: map<string, GpuRow>) {
    (forall k :: 0 <= k < |done| ==> done[k] in workers) && gpus == WithWorkers(done, workers)
  }

  lemma RowsOneMore(workers: map<string, WorkerState>, done: seq<string>, w: string, rows: map<string, WorkerRow>)
    requires RowsSoFar(workers, done, rows) && w in workers
    ensures RowsSoFar(workers, done + [w], rows[w := WorkerRow(workers[w].address, workers[w].status)])
  {
    assert forall v :: v in done + [w] <==> v in done || v == w;
  }

  lemma GpusOneMore(workers: map<string, WorkerState>, done: seq<string>, w: string, gpus: map<string, GpuRow>)
    requires GpusSoFar(workers, done, gpus) && w in workers
    ensures GpusSoFar(workers, done + [w], WithGpus(gpus, w, workers[w].gpus))
  {
    assert (done + [w])[..|done|] == done;
  }

  lemma AllRows(workers: map<string, WorkerState>, order: seq<string>, rows: map<string, WorkerRow>)
    requires RowsSoFar(workers, order, rows) && Lists(order, workers.Keys)
    ensures rows == map w | w in workers :: WorkerRow(workers[w].address, workers[w].status)
  {
  }

  method SaveWorkers(db: DatabaseManager, snap: Snapshot) returns (order: seq<string>)
    requires db.workers == map[] && db.gpus == map[]
    modifies db`workers, db`gpus
    ensures Lists(order, snap.workers.Keys)
    ensures db.workers == map w | w in snap.workers :: WorkerRow(snap.workers[w].address, snap.workers[w].status)
    ensures (forall k :: 0 <= k < |order| ==> order[k] in snap.workers) && db.gpus == WithWorkers(order, snap.workers)
  {
    order := ListOf(snap.workers.Keys);
    for i := 0 to |order|
      invariant RowsSoFar(snap.workers, order[..i], db.workers) && GpusSoFar(snap.workers, order[..i], db.gpus)
    {
      assert order[i] in order;
      var ws := snap.workers[order[i]];
      RowsOneMore(snap.workers, order[..i], order[i], db.workers);
      GpusOneMore(snap.workers, order[..i], order[i], db.gpus);
      assert order[..i + 1] == order[..i] + [order[i]];
      db.SaveWorker(order[i], WorkerRow(ws.address, ws.status), ws.gpus);
    }
    assert order[..|order|] == order;
    AllRows(snap.workers, order, db.workers);
  }

  method SaveTasks(db: DatabaseManager, snap: Snapshot) returns (ok: bool)
    requires db.tasks == map[] && db.taskGpus == {}
    modifies db`tasks, db`taskGpus
    ensures ok <==> forall id :: id in snap.tasks ==> NoDuplicates(snap.tasks[id].gpuIds)
    ensures ok ==> StoresTasks(snap, db.Abs())
  {
    var todo := snap.tasks.Keys;
    while todo != {}
      invariant todo <= snap.tasks.Keys
      invariant forall id :: id in snap.tasks && id !in todo ==> NoDuplicates(snap.tasks[id].gpuIds)
      invariant db.tasks == map id | id in snap.tasks && id !in todo :: TaskRowOf(snap.tasks[id])
      invariant forall id, x :: (id, x) in db.taskGpus
                                <==> id in snap.tasks && id !in todo && x in snap.tasks[id].gpuIds
      decreases todo
    {
      var id :| id in todo;
      var saved := db.SaveTask(id, TaskRowOf(snap.tasks[id]), snap.tasks[id].gpuIds);
      if !saved {
        return false;
      }
      todo := todo - {id};
    }
    ok := true;
  }

  method SavePending(db: DatabaseManager, snap: Snapshot) returns (ok: bool)
    requires db.pending == {}
    modifies db`pending
    ensures ok <==> NoDuplicates(snap.pending)
    ensures ok ==> StoresQueue(snap, db.Abs())
  {
    for i := 0 to |snap.pending|
      invariant NoDuplicates(snap.pending[..i])
      invariant forall id :: id in db.pending <==> id in snap.pending[..i]
    {
      assert snap.pending[..i + 1] == snap.pending[..i] + [snap.pending[i]];
      var saved := db.SavePendingTask(snap.pending[i]);
      if !saved {
        assert snap.pending[i] in snap.pending[..i];
        return false;
      }
    }
    assert snap.pending[..|snap.pending|] == snap.pending;
    ok := true;
  }

  // ---------------------------------------------------------------- tables to snapshot

  method LoadFromDatabase(db: DatabaseManager) returns (snap: Snapshot)
    ensures Reads(db.Abs(), snap)
  {
    var workers := LoadWorkers(db);
    var tasks;
    tasks, workers := LoadTasks(db, workers);
    var pending := ListOf(db.pending);
    snap := Snapshot(workers, tasks, pending);
    forall w | w in db.workers ensures ReadsWorker(db.Abs(), w, snap.workers[w]) {
      assert Attached(db.tasks, {}, w) == set id | id in db.tasks && w != "" && db.tasks[id].workerId == w;
    }
  }

  method LoadWorkers(db: DatabaseManager) returns (workers: map<string, WorkerState>)
    ensures workers.Keys == db.workers.Keys
    ensures forall w :: w in workers ==>
              workers[w].address == db.workers[w].address && workers[w].status == db.workers[w].status
              && ReadsGpus(db.gpus, w, workers[w].gpus) && workers[w].tasks == []
  {
    workers := map[];
    var todo := db.workers.Keys;
    while todo != {}
      invariant todo <= db.workers.Keys && workers.Keys == db.workers.Keys - todo
      invariant forall w :: w in workers ==>
                  workers[w].address == db.workers[w].address && workers[w].status == db.workers[w].status
                  && ReadsGpus(db.gpus, w, workers[w].gpus) && workers[w].tasks == []
      decreases todo
    {
      var w :| w in todo;
      var gpus := db.GetWorkerGPUs(w);
      workers := workers[w := WorkerState(gpus, db.workers[w].address, db.workers[w].status, [])];
      todo := todo - {w};
    }
  }

  /** Of the task rows looked at, those that name worker `w`. */
  ghost function Attached(rows: map<string, TaskRow>, todo: set<string>, w: string): set<string> {
    set id | id in rows && id !in todo && w != "" && rows[id].workerId == w
  }

  lemma AttachOne(rows: map<string, TaskRow>, todo: set<string>, id: string, w: string, ids: seq<string>)
    requires id in todo && id in rows && Lists(ids, Attached(rows, todo, w))
    ensures w != "" && rows[id].workerId == w ==> Lists(ids + [id], Attached(rows, todo - {id}, w))
    ensures w == "" || rows[id].workerId != w ==> Lists(ids, Attached(rows, todo - {id}, w))
  {
    assert id !in ids;
    assert forall x :: x in ids + [id] <==> x in ids || x == id;
  }

  /** The loop over task rows also appends each task to the worker it names. */
  method LoadTasks(db: DatabaseManager, before: map<string, WorkerState>)
    returns (tasks: map<string, TaskState>, workers: map<string, WorkerState>)
    requires forall w :: w in before ==> before[w].tasks == []
    ensures tasks.Keys == db.tasks.Keys && forall id :: id in db.tasks ==> ReadsTask(db.Abs(), id, tasks[id])
    ensures workers.Keys == before.Keys
    ensures forall w :: w in workers ==>
              workers[w] == before[w].(tasks := workers[w].tasks) && Lists(workers[w].tasks, Attached(db.tasks, {}, w))
  {
    tasks, workers := map[], before;
    var todo := db.tasks.Keys;
    while todo != {}
      invariant todo <= db.tasks.Keys && tasks.Keys == db.tasks.Keys - todo
      invariant forall id :: id in tasks ==> ReadsTask(db.Abs(), id, tasks[id])
      invariant workers.Keys == before.Keys
      invariant forall w :: w in workers ==>
                  workers[w] == before[w].(tasks := workers[w].tasks)
                  && Lists(workers[w].tasks, Attached(db.tasks, todo, w))
      decreases todo
    {
      var id :| id in todo;
      var row := db.tasks[id];
      var gpuIds := db.GetTaskGPUs(id);
      tasks := tasks[id := TaskState(row.name, row.required, row.minMemory, row.configuration, row.status, row.workerId,
                                     gpuIds, SnapStart(row.start), row.progress)];
      forall w | w in workers
        ensures w != "" && row.workerId == w ==> Lists(workers[w].tasks + [id], Attached(db.tasks, todo - {id}, w))
        ensures w == "" || row.workerId != w ==> Lists(workers[w].tasks, Attached(db.tasks, todo - {id}, w))
      {
        AttachOne(db.tasks, todo, id, w, workers[w].tasks);
      }
      if row.workerId != "" && row.workerId in workers {
        var ws := workers[row.workerId];
        workers := workers[row.workerId := ws.(tasks := ws.tasks + [id])];
      }
      todo := todo - {id};
    }
  }

  // ---------------------------------------------------------------- the scheduler's side

  method SaveState(scheduler: Scheduler, db: DatabaseManager)
    returns (ok: bool, ghost saved: Snapshot, ghost order: seq<string>)
    requires scheduler.Valid()
    modifies db
    ensures Snaps(scheduler.Abs(), saved)
    ensures ok <==> Storable(saved)
    ensures ok ==> Stores(saved, order, db.Abs())
  {
    var workers := SnapWorkers(scheduler.workers);
    var tasks: map<string, TaskState> := map[];
    var todo := scheduler.tasks.Keys;
    while todo != {}
      invariant todo <= scheduler.tasks.Keys && tasks.Keys == scheduler.tasks.Keys - todo
      invariant forall id :: id in tasks ==> tasks[id] == TaskStateOf(scheduler.heap[scheduler.tasks[id]])
      decreases todo
    {
      var id :| id in todo;
      tasks := tasks[id := TaskStateOf(scheduler.heap[scheduler.tasks[id]])];
      todo := todo - {id};
    }
    var pending := [];
    for i := 0 to |scheduler.pending|
      invariant |pending| == i
      invariant forall k :: 0 <= k < i ==> pending[k] == scheduler.heap[scheduler.pending[k]].id
    {
      pending := pending + [scheduler.heap[scheduler.pending[i]].id];
    }
    saved := Snapshot(workers, tasks, pending);
    ok, order := SaveToDatabase(db, Snapshot(workers, tasks, pending));
  }

  method SnapWorkers(workers: map<string, Worker>) returns (states: map<string, WorkerState>)
    ensures states.Keys == workers.Keys && forall w :: w in workers ==> SnapsWorker(workers[w], states[w])
  {
    states := map[];
    var todo := workers.Keys;
    while todo != {}
      invariant todo <= workers.Keys && states.Keys == workers.Keys - todo
      invariant forall w :: w in states ==> SnapsWorker(workers[w], states[w])
      decreases todo
    {
      var w :| w in todo;
      var ids := ListOf(workers[w].tasks.Keys);
      states := states[w := WorkerState(workers[w].gpus, workers[w].address, workers[w].status, ids)];
      todo := todo - {w};
    }
  }

  method LoadState(scheduler: Scheduler, db: DatabaseManager) returns (ghost loaded: Snapshot)
    modifies scheduler
    ensures Reads(db.Abs(), loaded) && Installs(loaded, scheduler.Abs())
    ensures scheduler.metrics == old(scheduler.metrics)
  {
    var snap := LoadFromDatabase(db);
    loaded := snap;
    scheduler.tasks, scheduler.heap := BuildTasks(snap);
    scheduler.workers := BuildWorkers(snap, scheduler.tasks);
    scheduler.pending := BuildQueue(snap.pending, scheduler.tasks);
    assert InstallsTasks(loaded, scheduler.Abs());
  }

  /** A restart: save, and load into a new scheduler.  It fails only where saving does, and otherwise it is the
      round trip that the results about restarts speak of. */
  method Restart(scheduler: Scheduler, db: DatabaseManager)
    returns (ok: bool, restarted: Scheduler, ghost trip: Trip)
    requires scheduler.Valid()
    modifies db
    ensures fresh(restarted) && restarted.policy == scheduler.policy
    ensures Snaps(scheduler.Abs(), trip.saved) && (ok <==> Storable(trip.saved))
    ensures ok ==> Reloads(scheduler.Abs(), trip, restarted.Abs())
    ensures restarted.metrics == None
  {
    ghost var saved, order, loaded;
    ok, saved, order := SaveState(scheduler, db);
    restarted := new Scheduler(scheduler.policy);
    loaded := Snapshot(map[], map[], []);
    if ok {
      loaded := LoadState(restarted, db);
    }
    trip := Trip(saved, order, db.Abs(), loaded);
  }

  /** One fresh object per task; those in the queue are set to PENDING. */
  method BuildTasks(snap: Snapshot) returns (tasks: map<string, TaskRef>, heap: seq<Task>)
    ensures tasks.Keys == snap.tasks.Keys
    ensures forall id :: id in tasks ==>
              tasks[id] < |heap| && heap[tasks[id]] == TaskOf(id, snap.tasks[id], id in snap.pending)
    ensures forall a, b :: a in tasks && b in tasks && tasks[a] == tasks[b] ==> a == b
  {
    tasks, heap := map[], [];
    var todo := snap.tasks.Keys;
    while todo != {}
      invariant todo <= snap.tasks.Keys && tasks.Keys == snap.tasks.Keys - todo
      invariant forall id :: id in tasks ==> tasks[id] < |heap| && heap[tasks[id]] == TaskOf(id, snap.tasks[id], false)
      invariant forall a, b :: a in tasks && b in tasks && tasks[a] == tasks[b] ==> a == b
      decreases todo
    {
      var id :| id in todo;
      tasks := tasks[id := |heap|];
      heap := heap + [TaskOf(id, snap.tasks[id], false)];
      todo := todo - {id};
    }
    for i := 0 to |snap.pending|
      invariant forall id :: id in tasks ==>
                  tasks[id] < |heap| && heap[tasks[id]] == TaskOf(id, snap.tasks[id], id in snap.pending[..i])
    {
      assert snap.pending[..i + 1] == snap.pending[..i] + [snap.pending[i]];
      var id := snap.pending[i];
      if id in tasks && heap[tasks[id]].status != PENDING {
        heap := heap[tasks[id] := heap[tasks[id]].(status := PENDING)];
      }
    }
    assert snap.pending[..|snap.pending|] == snap.pending;
  }

  method BuildWorkers(snap: Snapshot, tasks: map<string, TaskRef>) returns (workers: map<string, Worker>)
    ensures workers.Keys == snap.workers.Keys
    ensures forall w :: w in snap.workers ==> workers[w] == InstalledWorker(snap.workers[w], tasks)
  {
    workers := map[];
    var todo := snap.workers.Keys;
    while todo != {}
      invariant todo <= snap.workers.Keys && workers.Keys == snap.workers.Keys - todo
      invariant forall w :: w in workers ==> workers[w] == InstalledWorker(snap.workers[w], tasks)
      decreases todo
    {
      var w :| w in todo;
      var ws := snap.workers[w];
      var books := BuildBooks(ws.tasks, tasks);
      workers := workers[w := Worker(ws.gpus, ws.address, ws.status, books)];
      todo := todo - {w};
    }
  }

  method BuildBooks(ids: seq<string>, tasks: map<string, TaskRef>) returns (books: map<string, TaskRef>)
    ensures books == map id | id in ids && id in tasks :: tasks[id]
  {
    books := map[];
    for i := 0 to |ids|
      invariant books == map id | id in ids[..i] && id in tasks :: tasks[id]
    {
      assert ids[..i + 1] == ids[..i] + [ids[i]];
      if ids[i] in tasks {
        books := books[ids[i] := tasks[ids[i]]];
      }
    }
    assert ids[..|ids|] == ids;
  }

  method BuildQueue(ids: seq<string>, tasks: map<string, TaskRef>) returns (queue: seq<TaskRef>)
    ensures queue == KnownRefs(ids, tasks)
  {
    queue := [];
    for i := 0 to |ids|
      invariant queue == KnownRefs(ids[..i], tasks)
    {
      assert ids[..i + 1][..i] == ids[..i];
      if ids[i] in tasks {
        queue := queue + [tasks[ids[i]]];
      }
    }
    assert ids[..|ids|] == ids;
  }
}
