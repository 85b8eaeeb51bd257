/** The records the scheduler keeps.  Task objects are shared by pointer between the task
    table, the queue and the workers, so they live in a store, `State.heap`, and a pointer is
    an index into it.  Worker and GPU objects have one owner each and are plain values. */
module Cluster {

  type U32 = n: nat | n < 0x1_0000_0000
  type U64 = n: nat | n < 0x1_0000_0000_0000_0000

  /** `uint32(n)` */
  function ToU32(n: nat): (r: U32)
    ensures r <= n
  {
    if n < 0x1_0000_0000 then n else n % 0x1_0000_0000
  }

  /** `uint64(n)` */
  function ToU64(n: nat): (r: U64)
    ensures r <= n
  {
    if n < 0x1_0000_0000_0000_0000 then n else n % 0x1_0000_0000_0000_0000
  }

  /** Nanoseconds since the start of year 1, so that 0 is Go's zero `time.Time`. */
  type Time = int

  type TaskRef = nat

  datatype Option<+T> = None | Some(value: T)

  datatype WorkerStatus = IDLE | BUSY | OFFLINE | ERROR

  datatype TaskStatus = PENDING | RUNNING | COMPLETED | FAILED | CANCELED {
    predicate Final() { this == COMPLETED || this == FAILED }
  }

  datatype GPU = GPU(id: string, model: string, memory: U64, available: bool)

  datatype Metric = Metric(name: string, value: real, timestamp: U64)

  datatype Worker = Worker(
    gpus: seq<GPU>,
    address: string,
    status: WorkerStatus,
    tasks: map<string, TaskRef>)

  datatype Task = Task(
    id: string,
    name: string,
    required: U32,
    minMemory: U64,
    configuration: seq<bv8>,
    status: TaskStatus,
    workerId: string,
    gpuIds: seq<string>,
    start: Time,
    progress: real,
    metrics: seq<Metric>)

  datatype Counters = Counters(total: nat, completed: nat, failed: nat)

  datatype State = State(
    workers: map<string, Worker>,
    tasks: map<string, TaskRef>,
    heap: seq<Task>,
    pending: seq<TaskRef>,
    metrics: Option<Counters>)

  ghost predicate NoDuplicates<T>(xs: seq<T>) {
    forall i, j :: 0 <= i < j < |xs| ==> xs[i] != xs[j]
  }

  lemma {:induction false} DistinctMultiset<T(!new)>(xs: seq<T>)
    requires NoDuplicates(xs)
    ensures forall x :: multiset(xs)[x] == if x in xs then 1 else 0
  {
    if xs != [] {
      var last := |xs| - 1;
      DistinctMultiset(xs[..last]);
      assert xs == xs[..last] + [xs[last]];
      assert xs[last] !in xs[..last];
    }
  }

  /** Two lists without duplicates and with the same elements are permutations of each other. */
  lemma SameElements<T(!new)>(xs: seq<T>, ys: seq<T>)
    requires NoDuplicates(xs) && NoDuplicates(ys) && forall x :: x in xs <==> x in ys
    ensures multiset(xs) == multiset(ys)
  {
    DistinctMultiset(xs);
    DistinctMultiset(ys);
  }

  /** Permutations have the same elements. */
  lemma SameMembers<T>(xs: seq<T>, ys: seq<T>, x: T)
    requires multiset(xs) == multiset(ys)
    ensures |xs| == |ys| && (x in xs <==> x in ys)
  {
    assert |multiset(xs)| == |xs| && |multiset(ys)| == |ys|;
    assert x in xs <==> x in multiset(xs);
    assert x in ys <==> x in multiset(ys);
  }

  lemma {:induction false} DistinctCount<T(!new)>(xs: seq<T>)
    requires NoDuplicates(xs)
    ensures |set x | x in xs| == |xs|
  {
    if xs != [] {
      var last := |xs| - 1;
      DistinctCount(xs[..last]);
      assert xs == xs[..last] + [xs[last]];
      assert (set x | x in xs) == (set x | x in xs[..last]) + {xs[last]};
    }
  }

  lemma {:induction false} ElementCount<T(!new)>(xs: seq<T>)
    ensures |set x | x in xs| <= |xs|
  {
    if xs != [] {
      var last := |xs| - 1;
      ElementCount(xs[..last]);
      assert xs == xs[..last] + [xs[last]];
      assert (set x | x in xs) == (set x | x in xs[..last]) + {xs[last]};
    }
  }

  lemma SubsetSize<T>(a: set<T>, b: set<T>)
    requires a <= b
    ensures |a| <= |b|
  {
    assert b == a + (b - a);
  }

  lemma ProperSubsetSize<T>(a: set<T>, b: set<T>)
    requires a < b
    ensures |a| < |b|
  {
    assert b == a + (b - a) && b - a != {};
  }

  /** A list without duplicates is no longer than a list that has all its elements. */
  lemma NoLonger<T(!new)>(xs: seq<T>, ys: seq<T>)
    requires NoDuplicates(xs) && forall x :: x in xs ==> x in ys
    ensures |xs| <= |ys|
  {
    DistinctCount(xs);
    ElementCount(ys);
    SubsetSize(set x | x in xs, set y | y in ys);
  }

  /** There is always an unused id. */
  lemma FreshId(used: set<string>) returns (id: string)
    ensures id !in used
  {
    var n := LengthBound(used);
    id := seq(n, _ => 'x');
  }

  lemma {:induction false} LengthBound(used: set<string>) returns (n: nat)
    ensures forall x :: x in used ==> |x| < n
  {
    n := 1;
    if used != {} {
      var x :| x in used;
      var m := LengthBound(used - {x});
      n := m + |x| + 1;
    }
  }

  ghost predicate Increasing(xs: seq<nat>) {
    forall j, k :: 0 <= j < k < |xs| ==> xs[j] < xs[k]
  }

  lemma IncreasingAppend(xs: seq<nat>, x: nat)
    requires Increasing(xs) && forall y :: y in xs ==> y < x
    ensures Increasing(xs + [x])
  {
    assert forall k :: 0 <= k < |xs| ==> xs[k] in xs;
  }

  /** GPU ids are distinct within one worker's list. */
  ghost predicate DistinctIds(gpus: seq<GPU>) {
    forall i, j :: 0 <= i < j < |gpus| ==> gpus[i].id != gpus[j].id
  }

  /** Every pointer the scheduler holds is allocated, and no GPU list overflows a uint32. */
  ghost predicate WellFormed(s: State) {
    && (forall k :: 0 <= k < |s.pending| ==> s.pending[k] < |s.heap|)
    && (forall id :: id in s.tasks ==> s.tasks[id] < |s.heap|)
    && (forall w :: w in s.workers ==> |s.workers[w].gpus| < 0x1_0000_0000)
  }
}
