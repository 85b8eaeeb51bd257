/** Saving and loading the scheduler: the snapshot, the five tables, and the four translations between
    scheduler, snapshot and tables. Where the code ranges over a map or reads rows without an ORDER BY,
    the order is left open. */
module Persistence {
  import opened Calendar
  import opened Cluster

  // ---------------------------------------------------------------- time

  /** Seconds from year 1 to the Unix epoch. */
  const EPOCH: int := 62_135_596_800

  /** `t.Unix()` rounds down to whole seconds. */
  function Unix(t: Time): int { t / 1_000_000_000 - EPOCH }

  /** `time.Unix(n, 0)` */
  function FromUnix(n: int): Time { (n + EPOCH) * 1_000_000_000 }

  /** From a time to a snapshot, whether it comes from the scheduler or from a row. */
  function SnapStart(t: Time): int { if t == 0 then 0 else Unix(t) }

  /** From a snapshot to a row. */
  function RowStart(n: int): Time { if n == 0 then 0 else FromUnix(n) }

  /** From a snapshot to the scheduler. */
  function InstalledStart(n: int): Time { if n > 0 then FromUnix(n) else 0 }

  /** A row has the zero time for a task that has none or was started in the first second of 1970, and the start cut
      to whole seconds otherwise.  A restarted task has the start cut to whole seconds if it lies at least one second
      after the start of 1970, and zero otherwise. */
  lemma StartTimeRoundTrip(t: Time)
    ensures RowStart(SnapStart(t))
            == if t == 0 || StartOfYear(1970) <= t < StartOfYear(1970) + SECOND then 0 else t - t % SECOND
    ensures InstalledStart(SnapStart(RowStart(SnapStart(t))))
            == if t >= StartOfYear(1970) + SECOND then t - t % SECOND else 0
  {
    StartOf1970();
  }

  // ---------------------------------------------------------------- the snapshot

  datatype WorkerState = WorkerState(gpus: seq<GPU>, address: string, status: WorkerStatus, tasks: seq<string>)

  datatype TaskState = TaskState(
    name: string,
    required: U32,
    minMemory: U64,
    configuration: seq<bv8>,
    status: TaskStatus,
    workerId: string,
    gpuIds: seq<string>,
    start: int,
    progress: real)

  datatype Snapshot = Snapshot(workers: map<string, WorkerState>, tasks: map<string, TaskState>, pending: seq<string>)

  /** `xs` lists the elements of `s`, each once, in some order. */
  ghost predicate Lists<T(!new)>(xs: seq<T>, s: set<T>) {
    NoDuplicates(xs) && forall x :: x in xs <==> x in s
  }

  function TaskStateOf(t: Task): TaskState {
    TaskState(t.name, t.required, t.minMemory, t.configuration, t.status, t.workerId, t.gpuIds,
              SnapStart(t.start), t.progress)
  }

  ghost predicate SnapsWorker(w: Worker, ws: WorkerState) {
    ws.gpus == w.gpus && ws.address == w.address && ws.status == w.status && Lists(ws.tasks, w.tasks.Keys)
  }

  ghost predicate SnapsWorkers(s: State, snap: Snapshot) {
    snap.workers.Keys == s.workers.Keys && forall w :: w in s.workers ==> SnapsWorker(s.workers[w], snap.workers[w])
  }

  ghost predicate SnapsTasks(s: State, snap: Snapshot)
    requires WellFormed(s)
  {
    snap.tasks.Keys == s.tasks.Keys && forall id :: id in s.tasks ==> snap.tasks[id] == TaskStateOf(s.heap[s.tasks[id]])
  }

  ghost predicate SnapsQueue(s: State, snap: Snapshot)
    requires WellFormed(s)
  {
    |snap.pending| == |s.pending| && forall k :: 0 <= k < |s.pending| ==> snap.pending[k] == s.heap[s.pending[k]].id
  }

  /** Scheduler.SaveState: from the scheduler to the snapshot. */
  ghost predicate Snaps(s: State, snap: Snapshot)
    requires WellFormed(s)
  {
    SnapsWorkers(s, snap) && SnapsTasks(s, snap) && SnapsQueue(s, snap)
  }

  // ---------------------------------------------------------------- the tables

  datatype WorkerRow = WorkerRow(address: string, status: WorkerStatus)
  datatype GpuRow = GpuRow(workerId: string, model: string, memory: U64, available: bool)
  datatype TaskRow = TaskRow(
    name: string,
    required: U32,
    minMemory: U64,
    configuration: seq<bv8>,
    status: TaskStatus,
    workerId: string,
    start: Time,
    progress: real)

  /** Each table is keyed by its primary key; `taskGpus` and `pending` are all key. */
  datatype Tables = Tables(
    workers: map<string, WorkerRow>,
    gpus: map<string, GpuRow>,
    tasks: map<string, TaskRow>,
    taskGpus: set<(string, string)>,
    pending: set<string>)

  function GpuRowOf(w: string, g: GPU): GpuRow { GpuRow(w, g.model, g.memory, g.available) }

  function GpuOf(id: string, row: GpuRow): GPU { GPU(id, row.model, row.memory, row.available) }

  function TaskRowOf(t: TaskState): TaskRow {
    TaskRow(t.name, t.required, t.minMemory, t.configuration, t.status, t.workerId, RowStart(t.start), t.progress)
  }

  /** Saving a worker's GPUs inserts or overwrites one row per id. */
  ghost function WithGpus(table: map<string, GpuRow>, w: string, gpus: seq<GPU>): map<string, GpuRow> {
    if gpus == [] then table
    else
      var last := |gpus| - 1;
      WithGpus(table, w, gpus[..last])[gpus[last].id := GpuRowOf(w, gpus[last])]
  }

  ghost function WithWorkers(order: seq<string>, workers: map<string, WorkerState>): map<string, GpuRow>
    requires forall k :: 0 <= k < |order| ==> order[k] in workers
  {
    if order == [] then map[]
    else
      var last := |order| - 1;
      WithGpus(WithWorkers(order[..last], workers), order[last], workers[order[last]].gpus)
  }

  /** No insert runs into a primary key that is already there: the rows of a task's GPUs and the pending
      rows are plain inserts. */
  ghost predicate Storable(snap: Snapshot) {
    && NoDuplicates(snap.pending)
    && forall id :: id in snap.tasks ==> NoDuplicates(snap.tasks[id].gpuIds)
  }

  ghost predicate StoresWorkers(snap: Snapshot, order: seq<string>, db: Tables) {
    && Lists(order, snap.workers.Keys)
    && db.workers == (map w | w in snap.workers :: WorkerRow(snap.workers[w].address, snap.workers[w].status))
    && db.gpus == WithWorkers(order, snap.workers)
  }

  ghost predicate StoresTasks(snap: Snapshot, db: Tables) {
    && db.tasks == (map id | id in snap.tasks :: TaskRowOf(snap.tasks[id]))
    && (forall id, x :: (id, x) in db.taskGpus <==> id in snap.tasks && x in snap.tasks[id].gpuIds)
  }

  ghost predicate StoresQueue(snap: Snapshot, db: Tables) {
    forall id :: id in db.pending <==> id in snap.pending
  }

  /** Manager.saveToDatabase, having gone through the workers in the given order. */
  ghost predicate Stores(snap: Snapshot, order: seq<string>, db: Tables) {
    StoresWorkers(snap, order, db) && StoresTasks(snap, db) && StoresQueue(snap, db)
  }

  // ---------------------------------------------------------------- loading

  /** GetWorkerGPUs: the rows of one worker, in some order. */
  ghost predicate ReadsGpus(table: map<string, GpuRow>, w: string, gpus: seq<GPU>) {
    && DistinctIds(gpus)
    && (forall i :: 0 <= i < |gpus| ==>
          gpus[i].id in table && table[gpus[i].id].workerId == w && gpus[i] == GpuOf(gpus[i].id, table[gpus[i].id]))
    && forall x :: x in table && table[x].workerId == w ==> exists i :: 0 <= i < |gpus| && gpus[i].id == x
  }

  ghost predicate ReadsWorker(db: Tables, w: string, ws: WorkerState)
    requires w in db.workers
  {
    && ws.address == db.workers[w].address && ws.status == db.workers[w].status
    && ReadsGpus(db.gpus, w, ws.gpus)
    && Lists(ws.tasks, set id | id in db.tasks && w != "" && db.tasks[id].workerId == w)
  }

  ghost predicate ReadsTask(db: Tables, id: string, t: TaskState)
    requires id in db.tasks
  {
    var row := db.tasks[id];
    && t == TaskState(row.name, row.required, row.minMemory, row.configuration, row.status, row.workerId, t.gpuIds,
                      SnapStart(row.start), row.progress)
    && NoDuplicates(t.gpuIds) && forall x :: x in t.gpuIds <==> (id, x) in db.taskGpus
  }

  ghost predicate ReadsWorkers(db: Tables, snap: Snapshot) {
    snap.workers.Keys == db.workers.Keys && forall w :: w in db.workers ==> ReadsWorker(db, w, snap.workers[w])
  }

  ghost predicate ReadsTasks(db: Tables, snap: Snapshot) {
    snap.tasks.Keys == db.tasks.Keys && forall id :: id in db.tasks ==> ReadsTask(db, id, snap.tasks[id])
  }

  /** Manager.loadFromDatabase. */
  ghost predicate Reads(db: Tables, snap: Snapshot) {
    ReadsWorkers(db, snap) && ReadsTasks(db, snap) && Lists(snap.pending, db.pending)
  }

  function TaskOf(id: string, t: TaskState, queued: bool): Task {
    Task(id, t.name, t.required, t.minMemory, t.configuration, if queued then PENDING else t.status, t.workerId,
         t.gpuIds, InstalledStart(t.start), t.progress, [])
  }

  /** The pending ids that name a task, in order. */
  ghost function KnownRefs(pending: seq<string>, tasks: map<string, TaskRef>): seq<TaskRef> {
    if pending == [] then []
    else
      var last := |pending| - 1;
      KnownRefs(pending[..last], tasks) + if pending[last] in tasks then [tasks[pending[last]]] else []
  }

  /** Every task gets an object of its own. */
  ghost predicate FreshObjects(s: State, tasks: set<string>) {
    && s.tasks.Keys == tasks
    && (forall id :: id in s.tasks ==> s.tasks[id] < |s.heap|)
    && forall a, b :: a in s.tasks && b in s.tasks && s.tasks[a] == s.tasks[b] ==> a == b
  }

  function InstalledWorker(ws: WorkerState, tasks: map<string, TaskRef>): Worker {
    Worker(ws.gpus, ws.address, ws.status, map id | id in ws.tasks && id in tasks :: tasks[id])
  }

  ghost predicate InstallsWorkers(snap: Snapshot, s: State) {
    && s.workers.Keys == snap.workers.Keys
    && forall w :: w in snap.workers ==> s.workers[w] == InstalledWorker(snap.workers[w], s.tasks)
  }

  ghost predicate InstallsTasks(snap: Snapshot, s: State) {
    && FreshObjects(s, snap.tasks.Keys)
    && forall id :: id in snap.tasks ==> s.heap[s.tasks[id]] == TaskOf(id, snap.tasks[id], id in snap.pending)
  }

  /** Scheduler.LoadState: the snapshot replaces the scheduler's fields. */
  ghost predicate Installs(snap: Snapshot, s: State) {
    InstallsWorkers(snap, s) && InstallsTasks(snap, s) && s.pending == KnownRefs(snap.pending, s.tasks)
  }

  /** What a save and a load go through: the snapshot saved, the order in which its workers were written,
      the tables, and the snapshot read back. */
  datatype Trip = Trip(saved: Snapshot, order: seq<string>, db: Tables, loaded: Snapshot)

  ghost predicate ReloadsWorkers(s: State, t: Trip, s': State) {
    && SnapsWorkers(s, t.saved) && StoresWorkers(t.saved, t.order, t.db)
    && ReadsWorkers(t.db, t.loaded) && InstallsWorkers(t.loaded, s')
  }

  ghost predicate ReloadsTasks(s: State, t: Trip, s': State)
    requires WellFormed(s)
  {
    && SnapsTasks(s, t.saved) && StoresTasks(t.saved, t.db)
    && ReadsTasks(t.db, t.loaded) && InstallsTasks(t.loaded, s')
  }

  ghost predicate ReloadsQueue(s: State, t: Trip, s': State)
    requires WellFormed(s)
  {
    && SnapsQueue(s, t.saved) && StoresQueue(t.saved, t.db)
    && Lists(t.loaded.pending, t.db.pending) && s'.pending == KnownRefs(t.loaded.pending, s'.tasks)
  }

  /** A save that succeeds, followed by a load in a new process. */
  ghost predicate Reloads(s: State, t: Trip, s': State)
    requires WellFormed(s)
  {
    && Storable(t.saved)
    && ReloadsWorkers(s, t, s') && ReloadsTasks(s, t, s') && ReloadsQueue(s, t, s')
  }

  // ---------------------------------------------------------------- the GPU table

  /** `x` is one of the GPU ids of worker `w`. */
  ghost predicate Owns(gpus: seq<GPU>, x: string) {
    exists i :: 0 <= i < |gpus| && gpus[i].id == x
  }

  ghost predicate RowFrom(gpus: seq<GPU>, w: string, x: string, row: GpuRow) {
    exists i :: 0 <= i < |gpus| && gpus[i].id == x && row == GpuRowOf(w, gpus[i])
  }

  /** After saving one worker, its ids have rows made from its GPUs; other rows are untouched. */
  lemma {:induction false} WithGpusRows(table: map<string, GpuRow>, w: string, gpus: seq<GPU>, x: string)
    ensures x in WithGpus(table, w, gpus) <==> x in table || Owns(gpus, x)
    ensures Owns(gpus, x) ==> RowFrom(gpus, w, x, WithGpus(table, w, gpus)[x])
    ensures !Owns(gpus, x) && x in table ==> WithGpus(table, w, gpus)[x] == table[x]
  {
    if gpus != [] {
      var last := |gpus| - 1;
      var front := gpus[..last];
      WithGpusRows(table, w, front, x);
      assert forall i :: 0 <= i < last ==> front[i] == gpus[i];
      assert Owns(gpus, x) <==> Owns(front, x) || gpus[last].id == x;
      if gpus[last].id != x && Owns(front, x) {
        var i :| 0 <= i < last && front[i].id == x && WithGpus(table, w, front)[x] == GpuRowOf(w, front[i]);
        assert gpus[i].id == x;
      }
    }
  }

  /** Every row of the GPU table was made from a GPU of the worker it names, and every GPU id has a row. */
  lemma {:induction false} WithWorkersRows(order: seq<string>, workers: map<string, WorkerState>, x: string)
    requires forall k :: 0 <= k < |order| ==> order[k] in workers
    ensures var table := WithWorkers(order, workers);
            && (x in table ==>
                  var w := table[x].workerId; w in order && w in workers && RowFrom(workers[w].gpus, w, x, table[x]))
            && forall w :: w in order && Owns(workers[w].gpus, x) ==> x in table
  {
    if order != [] {
      var last := |order| - 1;
      assert order == order[..last] + [order[last]];
      WithWorkersRows(order[..last], workers, x);
      WithGpusRows(WithWorkers(order[..last], workers), order[last], workers[order[last]].gpus, x);
    }
  }
}
