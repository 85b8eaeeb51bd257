/** The books of one worker: which GPUs its tasks hold, when that is in order, and what booking and
    releasing a task do to it.  No task status is looked at. */
module Books {
  import opened Cluster
  import opened Policy
  import opened Scheduling
  import opened Quiescence

  /** Per worker, the GPU ids that were available when it registered. */
  type Baseline = map<string, set<string>>

  ghost function FreeIds(gpus: seq<GPU>): set<string> {
    set i | 0 <= i < |gpus| && gpus[i].available :: gpus[i].id
  }

  ghost predicate RefsIn(w: Worker, heap: seq<Task>) {
    forall id :: id in w.tasks ==> w.tasks[id] < |heap|
  }

  ghost predicate Held(w: Worker, heap: seq<Task>, x: string)
    requires RefsIn(w, heap)
  {
    exists id :: id in w.tasks && x in heap[w.tasks[id]].gpuIds
  }

  /** `x` names a GPU of the worker that has enough memory for `t`. */
  ghost predicate Suits(w: Worker, t: Task, x: string) {
    exists i :: 0 <= i < |w.gpus| && w.gpus[i].id == x && t.minMemory <= w.gpus[i].memory
  }

  /** The task holds exactly as many distinct GPUs of the worker as it asked for, each large enough. */
  ghost predicate Served(w: Worker, t: Task) {
    NoDuplicates(t.gpuIds) && |t.gpuIds| == t.required && forall x :: x in t.gpuIds ==> Suits(w, t, x)
  }

  ghost predicate PlacedOn(name: string, w: Worker, t: Task, id: string) {
    t.id == id && t.workerId == name && Served(w, t)
  }

  ghost predicate Booked(name: string, w: Worker, t: Task, id: string, base: set<string>) {
    PlacedOn(name, w, t, id) && forall x :: x in t.gpuIds ==> x in base
  }

  ghost predicate Disjoint(w: Worker, heap: seq<Task>)
    requires RefsIn(w, heap)
  {
    forall a, b, x :: a in w.tasks && b in w.tasks && x in heap[w.tasks[a]].gpuIds && x in heap[w.tasks[b]].gpuIds
                      ==> a == b
  }

  /** A GPU is available exactly when it was at registration and no task in the books holds it. */
  ghost predicate Exact(w: Worker, heap: seq<Task>, base: set<string>)
    requires RefsIn(w, heap)
  {
    forall i :: 0 <= i < |w.gpus| ==>
      (w.gpus[i].available <==> w.gpus[i].id in base && !Held(w, heap, w.gpus[i].id))
  }

  ghost predicate BooksInOrder(name: string, w: Worker, heap: seq<Task>, base: set<string>) {
    && RefsIn(w, heap) && DistinctIds(w.gpus)
    && (forall id :: id in w.tasks ==> Booked(name, w, heap[w.tasks[id]], id, base))
    && Disjoint(w, heap) && Exact(w, heap, base)
  }

  /** Tasks that keep identity, place and GPUs keep the books in order. */
  lemma BooksFrame(name: string, w: Worker, heap: seq<Task>, heap': seq<Task>, base: set<string>)
    requires BooksInOrder(name, w, heap, base) && RefsIn(w, heap')
    requires forall id :: id in w.tasks ==>
               var t, t' := heap[w.tasks[id]], heap'[w.tasks[id]];
               SameRequest(t, t') && t'.workerId == t.workerId && t'.gpuIds == t.gpuIds
    ensures BooksInOrder(name, w, heap', base)
  {
    assert forall x :: Held(w, heap, x) <==> Held(w, heap', x);
    forall id | id in w.tasks ensures Booked(name, w, heap'[w.tasks[id]], id, base) {
      assert Booked(name, w, heap[w.tasks[id]], id, base);
      assert forall x :: Suits(w, heap[w.tasks[id]], x) <==> Suits(w, heap'[w.tasks[id]], x);
    }
  }

  // ---------------------------------------------------------------- booking

  /** What the policy grants: distinct ids of free GPUs that are large enough. */
  lemma GrantFacts(w: Worker, t: Task)
    requires DistinctIds(w.gpus) && t.required <= |EligibleIds(w.gpus, t.minMemory)|
    ensures NoDuplicates(Grant(w, t)) && |Grant(w, t)| == t.required
    ensures forall x :: x in Grant(w, t) ==>
              exists i :: 0 <= i < |w.gpus| && w.gpus[i].id == x && Fits(w.gpus[i], t.minMemory)
  {
    EligibleDistinct(w.gpus, t.minMemory);
    forall x | x in Grant(w, t)
      ensures exists i :: 0 <= i < |w.gpus| && w.gpus[i].id == x && Fits(w.gpus[i], t.minMemory)
    {
      EligibleMember(w.gpus, t.minMemory, x);
    }
  }

  /** The worker that takes a task: its books afterwards. */
  ghost function Hosting(w: Worker, id: string, r: TaskRef, ids: seq<string>): Worker {
    w.(status := BUSY, tasks := w.tasks[id := r], gpus := Marked(w.gpus, ids, false))
  }

  /** The object `r` is the only one that changes, and the worker does not have it yet. */
  ghost predicate TakesOver(w: Worker, heap: seq<Task>, heap': seq<Task>, r: TaskRef, id: string) {
    && RefsIn(w, heap) && |heap'| == |heap| && r < |heap| && id !in w.tasks
    && (forall a :: a in w.tasks ==> w.tasks[a] != r && heap'[w.tasks[a]] == heap[w.tasks[a]])
  }

  lemma HostingHolds(w: Worker, heap: seq<Task>, heap': seq<Task>, r: TaskRef, id: string, x: string)
    requires TakesOver(w, heap, heap', r, id)
    ensures RefsIn(Hosting(w, id, r, heap'[r].gpuIds), heap')
    ensures Held(Hosting(w, id, r, heap'[r].gpuIds), heap', x) <==> Held(w, heap, x) || x in heap'[r].gpuIds
  {
    var w' := Hosting(w, id, r, heap'[r].gpuIds);
    if Held(w, heap, x) {
      var a :| a in w.tasks && x in heap[w.tasks[a]].gpuIds;
      assert a in w'.tasks && x in heap'[w'.tasks[a]].gpuIds;
    }
    if x in heap'[r].gpuIds {
      assert id in w'.tasks;
    }
  }

  /** The same GPUs, whatever their availability. */
  ghost predicate SameDevices(before: seq<GPU>, after: seq<GPU>) {
    && |before| == |after|
    && forall i :: 0 <= i < |before| ==> after[i].id == before[i].id && after[i].memory == before[i].memory
  }

  lemma SameDevicesSuit(w: Worker, w': Worker, t: Task, x: string)
    requires SameDevices(w.gpus, w'.gpus) && Suits(w, t, x)
    ensures Suits(w', t, x)
  {
    var i :| 0 <= i < |w.gpus| && w.gpus[i].id == x && t.minMemory <= w.gpus[i].memory;
    assert w'.gpus[i].id == x;
  }

  lemma MarkedBooked(name: string, w: Worker, ids: seq<string>, free: bool, w': Worker, t: Task, id: string,
                     base: set<string>)
    requires w'.gpus == Marked(w.gpus, ids, free) && Booked(name, w, t, id, base)
    ensures Booked(name, w', t, id, base)
  {
    forall x | x in t.gpuIds ensures Suits(w', t, x) {
      SameDevicesSuit(w, w', t, x);
    }
  }

  /** Booking a granted task keeps a worker's books in order. */
  lemma HostingKeepsBooks(name: string, w: Worker, heap: seq<Task>, heap': seq<Task>, base: set<string>,
                          r: TaskRef, id: string)
    requires BooksInOrder(name, w, heap, base) && TakesOver(w, heap, heap', r, id)
    requires var t := heap'[r];
             && t.id == id && t.workerId == name
             && t.required <= |EligibleIds(w.gpus, t.minMemory)| && t.gpuIds == Grant(w, t)
    ensures BooksInOrder(name, Hosting(w, id, r, heap'[r].gpuIds), heap', base)
  {
    var t := heap'[r];
    var w' := Hosting(w, id, r, t.gpuIds);
    GrantFacts(w, t);
    forall x | x in t.gpuIds ensures x in base && !Held(w, heap, x) && Suits(w, t, x) {
      var i :| 0 <= i < |w.gpus| && w.gpus[i].id == x && Fits(w.gpus[i], t.minMemory);
    }
    forall a | a in w'.tasks ensures Booked(name, w', heap'[w'.tasks[a]], a, base) {
      MarkedBooked(name, w, t.gpuIds, false, w', heap'[w'.tasks[a]], a, base);
    }
    forall x ensures Held(w', heap', x) <==> Held(w, heap, x) || x in t.gpuIds {
      HostingHolds(w, heap, heap', r, id, x);
    }
    forall a, b, x | a in w'.tasks && b in w'.tasks && x in heap'[w'.tasks[a]].gpuIds && x in heap'[w'.tasks[b]].gpuIds
      ensures a == b
    {
      assert a != id ==> Held(w, heap, x);
      assert b != id ==> Held(w, heap, x);
    }
  }

  // ---------------------------------------------------------------- releasing

  lemma ReleasingHolds(w: Worker, heap: seq<Task>, heap': seq<Task>, id: string, t: Task, x: string)
    requires RefsIn(w, heap) && Disjoint(w, heap) && |heap'| == |heap| && id in w.tasks
    requires t.gpuIds == heap[w.tasks[id]].gpuIds
    requires forall a :: a in w.tasks && a != id ==> heap'[w.tasks[a]] == heap[w.tasks[a]]
    ensures RefsIn(Released(w, t, id), heap')
    ensures Held(Released(w, t, id), heap', x) <==> Held(w, heap, x) && x !in t.gpuIds
  {
    var w' := Released(w, t, id);
    if Held(w, heap, x) && x !in t.gpuIds {
      var a :| a in w.tasks && x in heap[w.tasks[a]].gpuIds;
      assert a in w'.tasks && x in heap'[w'.tasks[a]].gpuIds;
    }
    if Held(w', heap', x) {
      var a :| a in w'.tasks && x in heap'[w'.tasks[a]].gpuIds;
      assert a in w.tasks && a != id && w'.tasks[a] == w.tasks[a];
    }
  }

  /** A final report by the worker that holds the task keeps its books in order: exactly the GPUs of the
      finished task become available, and no other task of the worker holds any of them. */
  lemma ReleasingKeepsBooks(name: string, w: Worker, heap: seq<Task>, heap': seq<Task>, base: set<string>,
                            id: string, t: Task)
    requires BooksInOrder(name, w, heap, base) && |heap'| == |heap| && id in w.tasks
    requires t.gpuIds == heap[w.tasks[id]].gpuIds
    requires forall a :: a in w.tasks && a != id ==> heap'[w.tasks[a]] == heap[w.tasks[a]]
    ensures BooksInOrder(name, Released(w, t, id), heap', base)
  {
    var w' := Released(w, t, id);
    assert forall a :: a in w'.tasks <==> a in w.tasks && a != id;
    forall a | a in w'.tasks ensures Booked(name, w', heap'[w'.tasks[a]], a, base) {
      MarkedBooked(name, w, t.gpuIds, true, w', heap'[w'.tasks[a]], a, base);
    }
    assert Booked(name, w, heap[w.tasks[id]], id, base);
    forall i | 0 <= i < |w'.gpus|
      ensures w'.gpus[i].available <==> w'.gpus[i].id in base && !Held(w', heap', w'.gpus[i].id)
    {
      ReleasingHolds(w, heap, heap', id, t, w.gpus[i].id);
    }
  }

  lemma NewBooks(name: string, gpus: seq<GPU>, address: string, heap: seq<Task>)
    requires DistinctIds(gpus)
    ensures BooksInOrder(name, Worker(gpus, address, IDLE, map[]), heap, FreeIds(gpus))
  {
  }
}
