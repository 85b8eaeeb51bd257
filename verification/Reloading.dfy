/** Every tidy state can be saved and reloaded. */
module Reloading {
  import opened Cluster
  import opened Persistence
  import opened Life

  /** The elements of a set in some order. */
  ghost function Listing<T(!new)>(s: set<T>): (xs: seq<T>)
    ensures Lists(xs, s)
    decreases s
  {
    if s == {} then []
    else
      var x :| x in s;
      Listing(s - {x}) + [x]
  }

  ghost function IndexOf(xs: seq<string>, x: string): (k: nat)
    requires x in xs
    ensures k < |xs| && xs[k] == x
  {
    var k: nat :| k < |xs| && xs[k] == x;
    k
  }

  // ---------------------------------------------------------------- one way to save

  ghost function SavedOf(s: State): Snapshot
    requires WellFormed(s)
  {
    Snapshot(
      map w | w in s.workers ::
        WorkerState(s.workers[w].gpus, s.workers[w].address, s.workers[w].status, Listing(s.workers[w].tasks.Keys)),
      map id | id in s.tasks :: TaskStateOf(s.heap[s.tasks[id]]),
      seq(|s.pending|, k requires 0 <= k < |s.pending| => s.heap[s.pending[k]].id))
  }

  lemma SavedSnaps(s: State)
    requires WellFormed(s)
    ensures Snaps(s, SavedOf(s))
  {
  }

  ghost function TablesOf(snap: Snapshot, order: seq<string>): Tables
    requires forall k :: 0 <= k < |order| ==> order[k] in snap.workers
  {
    Tables(
      map w | w in snap.workers :: WorkerRow(snap.workers[w].address, snap.workers[w].status),
      WithWorkers(order, snap.workers),
      map id | id in snap.tasks :: TaskRowOf(snap.tasks[id]),
      set id, x | id in snap.tasks && x in snap.tasks[id].gpuIds :: (id, x),
      set id | id in snap.pending)
  }

  lemma TablesStore(snap: Snapshot) returns (order: seq<string>)
    ensures forall k :: 0 <= k < |order| ==> order[k] in snap.workers
    ensures Stores(snap, order, TablesOf(snap, order))
  {
    order := Listing(snap.workers.Keys);
    forall k | 0 <= k < |order| ensures order[k] in snap.workers {
      assert order[k] in order;
    }
  }

  // ---------------------------------------------------------------- one way to load

  ghost function GpuIds(table: map<string, GpuRow>, w: string): set<string> {
    set x | x in table && table[x].workerId == w
  }

  ghost function GpusOf(table: map<string, GpuRow>, ids: seq<string>): seq<GPU>
    requires forall k :: 0 <= k < |ids| ==> ids[k] in table
  {
    seq(|ids|, k requires 0 <= k < |ids| => GpuOf(ids[k], table[ids[k]]))
  }

  lemma ListedGpusAreRead(table: map<string, GpuRow>, w: string, ids: seq<string>)
    requires Lists(ids, GpuIds(table, w))
    ensures forall k :: 0 <= k < |ids| ==> ids[k] in table
    ensures ReadsGpus(table, w, GpusOf(table, ids))
  {
    forall k | 0 <= k < |ids| ensures ids[k] in GpuIds(table, w) {
      assert ids[k] in ids;
    }
    forall x | x in table && table[x].workerId == w
      ensures exists i :: 0 <= i < |ids| && GpusOf(table, ids)[i].id == x
    {
      assert x in GpuIds(table, w);
      assert GpusOf(table, ids)[IndexOf(ids, x)].id == x;
    }
  }

  ghost function LoadedGpus(table: map<string, GpuRow>, w: string): (gpus: seq<GPU>)
    ensures ReadsGpus(table, w, gpus)
  {
    var ids := Listing(GpuIds(table, w));
    ListedGpusAreRead(table, w, ids);
    GpusOf(table, ids)
  }

  ghost function LoadedWorker(db: Tables, w: string): (ws: WorkerState)
    requires w in db.workers
    ensures ReadsWorker(db, w, ws)
  {
    WorkerState(LoadedGpus(db.gpus, w), db.workers[w].address, db.workers[w].status,
                Listing(set id | id in db.tasks && w != "" && db.tasks[id].workerId == w))
  }

  ghost function RowsOf(db: Tables, id: string): (xs: seq<string>)
    ensures NoDuplicates(xs) && forall x :: x in xs <==> (id, x) in db.taskGpus
  {
    var found := set r | r in db.taskGpus && r.0 == id :: r.1;
    assert forall x :: (id, x) in db.taskGpus ==> (id, x).1 in found;
    Listing(found)
  }

  ghost function LoadedTask(db: Tables, id: string): (t: TaskState)
    requires id in db.tasks
    ensures ReadsTask(db, id, t)
  {
    var row := db.tasks[id];
    TaskState(row.name, row.required, row.minMemory, row.configuration, row.status, row.workerId, RowsOf(db, id),
              SnapStart(row.start), row.progress)
  }

  ghost function LoadedOf(db: Tables): (snap: Snapshot)
    ensures Reads(db, snap)
  {
    Snapshot(map w | w in db.workers :: LoadedWorker(db, w), map id | id in db.tasks :: LoadedTask(db, id),
             Listing(db.pending))
  }

  ghost function ObjectsOf(snap: Snapshot, ids: seq<string>): seq<Task>
    requires forall k :: 0 <= k < |ids| ==> ids[k] in snap.tasks
  {
    seq(|ids|, k requires 0 <= k < |ids| => TaskOf(ids[k], snap.tasks[ids[k]], ids[k] in snap.pending))
  }

  ghost function RefsInto(ids: seq<string>): map<string, TaskRef> {
    map id | id in ids :: IndexOf(ids, id)
  }

  ghost function InstalledAs(snap: Snapshot, ids: seq<string>): State
    requires forall k :: 0 <= k < |ids| ==> ids[k] in snap.tasks
  {
    var tasks := RefsInto(ids);
    State(map w | w in snap.workers :: InstalledWorker(snap.workers[w], tasks), tasks, ObjectsOf(snap, ids),
          KnownRefs(snap.pending, tasks), None)
  }

  lemma InstalledInstalls(snap: Snapshot) returns (s: State)
    ensures Installs(snap, s)
  {
    var ids := Listing(snap.tasks.Keys);
    forall k | 0 <= k < |ids| ensures ids[k] in snap.tasks {
      assert ids[k] in ids;
    }
    s := InstalledAs(snap, ids);
    assert s.tasks.Keys == snap.tasks.Keys;
  }

  // ---------------------------------------------------------------- result

  /** A restart is possible in every tidy state. */
  lemma ReloadExists(s: State) returns (t: Trip, s': State)
    requires TidyBooks(s)
    ensures Reloads(s, t, s')
  {
    var saved := SavedOf(s);
    SavedSnaps(s);
    SavingIsTotal(s, saved);
    var order := TablesStore(saved);
    var db := TablesOf(saved, order);
    s' := InstalledInstalls(LoadedOf(db));
    t := Trip(saved, order, db, LoadedOf(db));
  }
}
