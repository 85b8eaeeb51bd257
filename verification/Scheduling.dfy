/** What the scheduler's handlers do to its state.  Nondeterminism (the policy's tie-breaking and
    the clock) is recorded as a list of decisions, so every handler is a function of the old state
    and of the decisions taken. */
module Scheduling {
  import opened Cluster
  import opened Policy

  // ---------------------------------------------------------------- booking

  /** Set `Available` on every GPU named in `ids`. */
  ghost function Marked(gpus: seq<GPU>, ids: seq<string>, free: bool): (r: seq<GPU>)
    ensures |r| == |gpus|
  {
    seq(|gpus|, i requires 0 <= i < |gpus| =>
      if gpus[i].id in ids then gpus[i].(available := free) else gpus[i])
  }

  /** Give queue position `i` to worker `chosen` and enter it in the books of worker `host`.
      The sweep uses one worker for both; RequestTask uses the calling worker as host. */
  ghost function Assign(s: State, i: nat, host: string, chosen: string, now: Time): (s': State)
    requires i < |s.pending| && s.pending[i] < |s.heap|
    requires host in s.workers && chosen in s.workers
    requires s.heap[s.pending[i]].required <= |EligibleIds(s.workers[chosen].gpus, s.heap[s.pending[i]].minMemory)|
    ensures WellFormed(s) ==> WellFormed(s')
  {
    var r := s.pending[i];
    var t := s.heap[r];
    var ids := Grant(s.workers[chosen], t);
    var w := s.workers[host];
    s.(heap := s.heap[r := t.(status := RUNNING, workerId := chosen, gpuIds := ids, start := now)],
       workers := s.workers[host :=
                    w.(status := BUSY, tasks := w.tasks[t.id := r], gpus := Marked(w.gpus, ids, false))],
       pending := s.pending[..i] + s.pending[i + 1..])
  }

  // ---------------------------------------------------------------- the queue sweep

  datatype Decision = Skip | Place(worker: string, now: Time)

  /** The scheduler can take decision `d` at queue position `i`: it skips exactly the tasks the policy refuses,
      and places others on some candidate.  Which one is left open here, because scores are rounded; `Best` says
      that it is one the policy chooses. */
  ghost predicate Takes(p: Kind, s: State, i: nat, d: Decision)
    requires WellFormed(s) && i < |s.pending|
  {
    var t := s.heap[s.pending[i]];
    match d
    case Skip => !Feasible(p, s.workers, t)
    case Place(w, now) => w in s.workers && Candidate(p, s.workers[w], t)
  }

  /** The state and the queue position after one decision. */
  ghost function Advance(p: Kind, s: State, i: nat, d: Decision): (r: (State, nat))
    requires WellFormed(s) && i < |s.pending| && Takes(p, s, i, d)
    ensures WellFormed(r.0) && r.1 <= |r.0.pending| && |r.0.pending| - r.1 < |s.pending| - i
  {
    match d
    case Skip => (s, i + 1)
    case Place(w, now) => (Assign(s, i, w, w, now), i)
  }

  /** `ds` is a possible course of the sweep from queue position `i` on. */
  ghost predicate ValidSweep(p: Kind, s: State, i: nat, ds: seq<Decision>)
    requires WellFormed(s) && i <= |s.pending|
    decreases |s.pending| - i
  {
    if i == |s.pending| then ds == []
    else
      && ds != [] && Takes(p, s, i, ds[0])
      && var (s', i') := Advance(p, s, i, ds[0]);
         ValidSweep(p, s', i', ds[1..])
  }

  ghost function Sweep(p: Kind, s: State, i: nat, ds: seq<Decision>): (r: State)
    requires WellFormed(s) && i <= |s.pending| && ValidSweep(p, s, i, ds)
    ensures WellFormed(r)
    decreases |s.pending| - i
  {
    if i == |s.pending| then s
    else
      var (s', i') := Advance(p, s, i, ds[0]);
      Sweep(p, s', i', ds[1..])
  }

  ghost predicate Best(p: Kind, s: State, i: nat, d: Decision)
    requires WellFormed(s) && i < |s.pending|
  {
    d.Place? ==> Chosen(p, s.workers, s.heap[s.pending[i]], d.worker)
  }

  /** Every placement in the course of the sweep is one the policy chooses. */
  ghost predicate BestSweep(p: Kind, s: State, i: nat, ds: seq<Decision>)
    requires WellFormed(s) && i <= |s.pending| && ValidSweep(p, s, i, ds)
    decreases |s.pending| - i
  {
    i < |s.pending| ==>
      && Best(p, s, i, ds[0])
      && var (s', i') := Advance(p, s, i, ds[0]);
         BestSweep(p, s', i', ds[1..])
  }

  /** After decisions `done` the sweep of `s0` stands at position `i` of `s`. */
  ghost predicate SweptTo(p: Kind, s0: State, done: seq<Decision>, s: State, i: nat) {
    && WellFormed(s0) && WellFormed(s) && i <= |s.pending|
    && forall rest :: ValidSweep(p, s, i, rest) ==>
         && ValidSweep(p, s0, 0, done + rest) && Sweep(p, s0, 0, done + rest) == Sweep(p, s, i, rest)
         && (BestSweep(p, s, i, rest) ==> BestSweep(p, s0, 0, done + rest))
  }

  lemma SweptToNext(p: Kind, s0: State, done: seq<Decision>, s: State, i: nat, d: Decision)
    requires SweptTo(p, s0, done, s, i) && i < |s.pending| && Takes(p, s, i, d) && Best(p, s, i, d)
    ensures SweptTo(p, s0, done + [d], Advance(p, s, i, d).0, Advance(p, s, i, d).1)
  {
    var (s', i') := Advance(p, s, i, d);
    forall rest | ValidSweep(p, s', i', rest)
      ensures ValidSweep(p, s0, 0, done + [d] + rest)
              && Sweep(p, s0, 0, done + [d] + rest) == Sweep(p, s', i', rest)
              && (BestSweep(p, s', i', rest) ==> BestSweep(p, s0, 0, done + [d] + rest))
    {
      assert ([d] + rest)[1..] == rest && done + [d] + rest == done + ([d] + rest);
      assert ValidSweep(p, s, i, [d] + rest);
    }
  }

  /** A sweep can always run to its end, with the policy's own choices. */
  lemma {:induction false} SweepExists(p: Kind, s: State, i: nat) returns (ds: seq<Decision>)
    requires WellFormed(s) && i <= |s.pending|
    ensures ValidSweep(p, s, i, ds) && BestSweep(p, s, i, ds)
    decreases |s.pending| - i
  {
    ds := [];
    if i < |s.pending| {
      var d := Skip;
      if Feasible(p, s.workers, s.heap[s.pending[i]]) {
        var w := FeasibleHasChoice(p, s.workers, s.heap[s.pending[i]]);
        d := Place(w, 0);
      }
      var (s', i') := Advance(p, s, i, d);
      var rest := SweepExists(p, s', i');
      ds := [d] + rest;
      assert ds[1..] == rest;
    }
  }

  // ---------------------------------------------------------------- the handlers

  function Decimal(n: nat): string {
    (if n < 10 then "" else Decimal(n / 10)) + ["0123456789"[n % 10]]
  }

  /** A worker that gives no id is named after the number of workers. */
  function WorkerIdFor(id: string, registered: nat): string {
    if id == "" then "worker-" + Decimal(registered + 1) else id
  }

  lemma {:induction false} DecimalInjective(m: nat, n: nat)
    requires Decimal(m) == Decimal(n)
    ensures m == n
  {
    var a, b := Decimal(m), Decimal(n);
    var digits := "0123456789";
    assert a[|a| - 1] == digits[m % 10] && b[|b| - 1] == digits[n % 10];
    assert m % 10 == n % 10;
    assert a[..|a| - 1] == (if m < 10 then "" else Decimal(m / 10));
    assert b[..|b| - 1] == (if n < 10 then "" else Decimal(n / 10));
    if m >= 10 && n >= 10 {
      DecimalInjective(m / 10, n / 10);
    }
  }

  /** Workers named by the scheduler at different cluster sizes get different names. */
  lemma DefaultNamesDiffer(m: nat, n: nat)
    requires m != n
    ensures WorkerIdFor("", m) != WorkerIdFor("", n)
  {
    var prefix := "worker-";
    assert WorkerIdFor("", m)[|prefix|..] == Decimal(m + 1);
    assert WorkerIdFor("", n)[|prefix|..] == Decimal(n + 1);
    if Decimal(m + 1) == Decimal(n + 1) {
      DecimalInjective(m + 1, n + 1);
    }
  }

  ghost function Registered(s: State, id: string, gpus: seq<GPU>, address: string): State {
    s.(workers := s.workers[id := Worker(gpus, address, IDLE, map[])])
  }

  /** AddTask receives a pointer: to a task object it has not seen, or to one it has. */
  datatype Submission = NewTask(task: Task) | KnownTask(ref: TaskRef)

  ghost function Submitted(s: State, sub: Submission): (s': State)
    requires WellFormed(s) && (sub.KnownTask? ==> sub.ref < |s.heap|)
    ensures WellFormed(s')
  {
    var heap := if sub.NewTask? then s.heap + [sub.task] else s.heap;
    var r := if sub.NewTask? then |s.heap| else sub.ref;
    var counted := if s.metrics.None? then None else Some(s.metrics.value.(total := s.metrics.value.total + 1));
    s.(heap := heap, tasks := s.tasks[heap[r].id := r], pending := s.pending + [r], metrics := counted)
  }

  datatype Update = Update(taskId: string, workerId: string, status: TaskStatus, progress: real, metrics: seq<Metric>)

  ghost predicate Accepted(s: State, u: Update) {
    u.taskId in s.tasks && u.workerId in s.workers
  }

  function Counted(m: Option<Counters>, status: TaskStatus): Option<Counters> {
    if m.None? then None
    else if status == COMPLETED then Some(m.value.(completed := m.value.completed + 1))
    else if status == FAILED then Some(m.value.(failed := m.value.failed + 1))
    else m
  }

  /** The reporting worker frees the GPUs the task was given and forgets the task. */
  ghost function Released(w: Worker, t: Task, id: string): Worker {
    var tasks := w.tasks - {id};
    w.(gpus := Marked(w.gpus, t.gpuIds, true), tasks := tasks, status := if |tasks| == 0 then IDLE else w.status)
  }

  /** ReportTaskStatus up to, and not including, the sweep. */
  ghost function Reported(s: State, u: Update): (s': State)
    requires WellFormed(s) && Accepted(s, u)
    ensures WellFormed(s')
  {
    var r := s.tasks[u.taskId];
    var t := s.heap[r].(status := u.status, progress := u.progress, metrics := u.metrics);
    var noted := s.(heap := s.heap[r := t]);
    if !u.status.Final() then noted
    else noted.(metrics := Counted(s.metrics, u.status),
                workers := s.workers[u.workerId := Released(s.workers[u.workerId], t, u.taskId)])
  }

  /** The first queue position the policy accepts, or the length of the queue. */
  ghost function FirstFeasible(p: Kind, s: State, i: nat): (k: nat)
    requires WellFormed(s) && i <= |s.pending|
    ensures i <= k <= |s.pending|
    ensures forall j :: i <= j < k ==> !Feasible(p, s.workers, s.heap[s.pending[j]])
    ensures k < |s.pending| ==> Feasible(p, s.workers, s.heap[s.pending[k]])
    decreases |s.pending| - i
  {
    if i == |s.pending| || Feasible(p, s.workers, s.heap[s.pending[i]]) then i
    else FirstFeasible(p, s, i + 1)
  }

  datatype Event =
    | Register(id: string, gpus: seq<GPU>, address: string, ds: seq<Decision>)
    | Submit(sub: Submission, ds: seq<Decision>)
    | Report(update: Update, ds: seq<Decision>)
    | Request(caller: string, chosen: string, now: Time)

  /** A registration message has fewer than 2^32 GPUs; a rejected one takes no decisions. */
  ghost predicate LegalRegister(p: Kind, s: State, id: string, gpus: seq<GPU>, address: string, ds: seq<Decision>)
    requires WellFormed(s)
  {
    var wid := WorkerIdFor(id, |s.workers|);
    && |gpus| < 0x1_0000_0000
    && if wid in s.workers then ds == [] else ValidSweep(p, Registered(s, wid, gpus, address), 0, ds)
  }

  ghost function AfterRegister(p: Kind, s: State, id: string, gpus: seq<GPU>, address: string,
                               ds: seq<Decision>): (s': State)
    requires WellFormed(s) && LegalRegister(p, s, id, gpus, address, ds)
    ensures WellFormed(s')
  {
    var wid := WorkerIdFor(id, |s.workers|);
    if wid in s.workers then s else Sweep(p, Registered(s, wid, gpus, address), 0, ds)
  }

  ghost predicate LegalSubmit(p: Kind, s: State, sub: Submission, ds: seq<Decision>)
    requires WellFormed(s)
  {
    (sub.KnownTask? ==> sub.ref < |s.heap|) && ValidSweep(p, Submitted(s, sub), 0, ds)
  }

  ghost function AfterSubmit(p: Kind, s: State, sub: Submission, ds: seq<Decision>): (s': State)
    requires WellFormed(s) && LegalSubmit(p, s, sub, ds)
    ensures WellFormed(s')
  {
    Sweep(p, Submitted(s, sub), 0, ds)
  }

  ghost predicate LegalReport(p: Kind, s: State, u: Update, ds: seq<Decision>)
    requires WellFormed(s)
  {
    if Accepted(s, u) && u.status.Final() then ValidSweep(p, Reported(s, u), 0, ds) else ds == []
  }

  ghost function AfterReport(p: Kind, s: State, u: Update, ds: seq<Decision>): (s': State)
    requires WellFormed(s) && LegalReport(p, s, u, ds)
    ensures WellFormed(s')
  {
    if !Accepted(s, u) then s
    else if u.status.Final() then Sweep(p, Reported(s, u), 0, ds)
    else Reported(s, u)
  }

  /** RequestTask finds a queue entry that the policy accepts. */
  ghost predicate Grants(p: Kind, s: State, caller: string)
    requires WellFormed(s)
  {
    caller in s.workers && FirstFeasible(p, s, 0) < |s.pending|
  }

  ghost predicate LegalRequest(p: Kind, s: State, caller: string, chosen: string)
    requires WellFormed(s)
  {
    Grants(p, s, caller) ==>
      chosen in s.workers && Candidate(p, s.workers[chosen], s.heap[s.pending[FirstFeasible(p, s, 0)]])
  }

  ghost function AfterRequest(p: Kind, s: State, caller: string, chosen: string, now: Time): (s': State)
    requires WellFormed(s) && LegalRequest(p, s, caller, chosen)
    ensures WellFormed(s')
  {
    if Grants(p, s, caller) then Assign(s, FirstFeasible(p, s, 0), caller, chosen, now) else s
  }

  /** The event can happen in `s`: its pointers are allocated and its decisions are ones the policy can take. */
  ghost predicate Legal(p: Kind, s: State, e: Event)
    requires WellFormed(s)
  {
    match e
    case Register(id, gpus, address, ds) => LegalRegister(p, s, id, gpus, address, ds)
    case Submit(sub, ds) => LegalSubmit(p, s, sub, ds)
    case Report(u, ds) => LegalReport(p, s, u, ds)
    case Request(caller, chosen, now) => LegalRequest(p, s, caller, chosen)
  }

  /** One atomic handler call. */
  ghost function Exec(p: Kind, s: State, e: Event): (s': State)
    requires WellFormed(s) && Legal(p, s, e)
    ensures WellFormed(s')
  {
    match e
    case Register(id, gpus, address, ds) => AfterRegister(p, s, id, gpus, address, ds)
    case Submit(sub, ds) => AfterSubmit(p, s, sub, ds)
    case Report(u, ds) => AfterReport(p, s, u, ds)
    case Request(caller, chosen, now) => AfterRequest(p, s, caller, chosen, now)
  }

  // ---------------------------------------------------------------- the scheduler object

  datatype RegisterReply = RegisterReply(success: bool, assignedId: string)
  datatype TaskReply = Granted(taskId: string) | NotFound | ResourceExhausted

  class Scheduler {
    const policy: Kind
    var workers: map<string, Worker>
    var tasks: map<string, TaskRef>
    var heap: seq<Task>
    var pending: seq<TaskRef>
    var metrics: Option<Counters>

    ghost function Abs(): State
      reads this
    {
      State(workers, tasks, heap, pending, metrics)
    }

    ghost predicate Valid()
      reads this
    {
      WellFormed(Abs())
    }

    constructor (policy: Kind)
      ensures Valid() && this.policy == policy
      ensures Abs() == State(map[], map[], [], [], None)
    {
      this.policy := policy;
      workers, tasks, heap, pending, metrics := map[], map[], [], [], None;
    }

    /** Counting starts here; before, and with no metrics object, nothing is counted. */
    method SetMetrics(counters: Option<Counters>)
      requires Valid()
      modifies this`metrics
      ensures Valid() && Abs() == old(Abs()).(metrics := counters)
    {
      metrics := counters;
    }

    method RegisterWorker(id: string, gpus: seq<GPU>, address: string)
      returns (reply: RegisterReply, ghost ds: seq<Decision>)
      requires Valid() && |gpus| < 0x1_0000_0000
      modifies this
      ensures Valid()
      ensures LegalRegister(policy, old(Abs()), id, gpus, address, ds)
      ensures Abs() == AfterRegister(policy, old(Abs()), id, gpus, address, ds)
      ensures reply.assignedId == WorkerIdFor(id, |old(workers)|)
      ensures reply.success <==> reply.assignedId !in old(workers)
      ensures reply.success ==> BestSweep(policy, Registered(old(Abs()), reply.assignedId, gpus, address), 0, ds)
    {
      var workerId := WorkerIdFor(id, |workers|);
      ds := [];
      if workerId in workers {
        return RegisterReply(false, workerId), [];
      }
      workers := workers[workerId := Worker(gpus, address, IDLE, map[])];
      ds := AssignPendingTasks();
      reply := RegisterReply(true, workerId);
    }

    method AddTask(sub: Submission) returns (ghost ds: seq<Decision>)
      requires Valid() && (sub.KnownTask? ==> sub.ref < |heap|)
      modifies this
      ensures Valid()
      ensures LegalSubmit(policy, old(Abs()), sub, ds)
      ensures Abs() == AfterSubmit(policy, old(Abs()), sub, ds)
      ensures BestSweep(policy, Submitted(old(Abs()), sub), 0, ds)
    {
      var r := |heap|;
      match sub {
        case NewTask(t) => heap := heap + [t];
        case KnownTask(known) => r := known;
      }
      tasks := tasks[heap[r].id := r];
      pending := pending + [r];
      if metrics.Some? {
        metrics := Some(metrics.value.(total := metrics.value.total + 1));
      }
      assert Abs() == Submitted(old(Abs()), sub);
      ds := AssignPendingTasks();
    }

    method ReportTaskStatus(u: Update) returns (acknowledged: bool, ghost ds: seq<Decision>)
      requires Valid()
      modifies this
      ensures Valid()
      ensures LegalReport(policy, old(Abs()), u, ds)
      ensures Abs() == AfterReport(policy, old(Abs()), u, ds)
      ensures acknowledged <==> Accepted(old(Abs()), u)
      ensures acknowledged && u.status.Final() ==> BestSweep(policy, Reported(old(Abs()), u), 0, ds)
    {
      ds := [];
      if u.taskId !in tasks || u.workerId !in workers {
        return false, [];
      }
      var r := tasks[u.taskId];
      heap := heap[r := heap[r].(status := u.status, progress := u.progress, metrics := u.metrics)];
      if u.status == COMPLETED || u.status == FAILED {
        metrics := Counted(metrics, u.status);
        var w := workers[u.workerId];
        var gpus := MarkGPUs(w.gpus, heap[r].gpuIds, true);
        var left := w.tasks - {u.taskId};
        workers := workers[u.workerId :=
                     w.(gpus := gpus, tasks := left, status := if |left| == 0 then IDLE else w.status)];
        assert Abs() == Reported(old(Abs()), u);
        ds := AssignPendingTasks();
      }
      acknowledged := true;
    }

    method RequestTask(caller: string) returns (reply: TaskReply, ghost chosen: string, ghost now: Time)
      requires Valid()
      modifies this
      ensures Valid()
      ensures LegalRequest(policy, old(Abs()), caller, chosen)
      ensures Abs() == AfterRequest(policy, old(Abs()), caller, chosen, now)
      ensures var s := old(Abs()); Grants(policy, s, caller) ==>
                Chosen(policy, s.workers, s.heap[s.pending[FirstFeasible(policy, s, 0)]], chosen)
      ensures caller !in old(workers) || old(pending) == [] ==> reply == NotFound
      ensures caller in old(workers) && old(pending) != [] ==>
                reply == if Grants(policy, old(Abs()), caller)
                         then Granted(old(heap)[old(pending)[FirstFeasible(policy, old(Abs()), 0)]].id)
                         else ResourceExhausted
    {
      chosen, now := "", 0;
      if caller !in workers || |pending| == 0 {
        return NotFound, "", 0;
      }
      for i := 0 to |pending|
        invariant Abs() == old(Abs())
        invariant FirstFeasible(policy, Abs(), 0) == FirstFeasible(policy, Abs(), i)
      {
        var r := pending[i];
        var t := heap[r];
        var pick := AssignTask(policy, workers, t);
        if pick.Some? {
          var clock := Now();
          Book(i, caller, pick.value, clock);
          return Granted(t.id), pick.value.worker, clock;
        }
      }
      reply := ResourceExhausted;
    }

    /** What the sweep and RequestTask both do with a queue entry that the policy places. */
    method Book(i: nat, host: string, pick: Choice, now: Time)
      requires Valid() && i < |pending| && host in workers && pick.worker in workers
      requires heap[pending[i]].required <= |EligibleIds(workers[pick.worker].gpus, heap[pending[i]].minMemory)|
      requires pick.gpus == Grant(workers[pick.worker], heap[pending[i]])
      modifies this
      ensures Valid() && Abs() == Assign(old(Abs()), i, host, pick.worker, now)
    {
      var r := pending[i];
      var t := heap[r];
      heap := heap[r := t.(status := RUNNING, workerId := pick.worker, gpuIds := pick.gpus, start := now)];
      var w := workers[host];
      var gpus := MarkGPUs(w.gpus, pick.gpus, false);
      workers := workers[host := w.(status := BUSY, tasks := w.tasks[t.id := r], gpus := gpus)];
      pending := pending[..i] + pending[i + 1..];
    }

    /** The in-place sweep: an entry that is placed is cut out of the slice and `i` stays. */
    method AssignPendingTasks() returns (ghost ds: seq<Decision>)
      requires Valid()
      modifies this
      ensures Valid()
      ensures ValidSweep(policy, old(Abs()), 0, ds) && BestSweep(policy, old(Abs()), 0, ds)
      ensures Abs() == Sweep(policy, old(Abs()), 0, ds)
    {
      ds := [];
      var i := 0;
      assert SweptTo(policy, Abs(), [], Abs(), 0) by {
        assert forall rest: seq<Decision> :: [] + rest == rest;
      }
      while i < |pending|
        invariant Valid() && 0 <= i <= |pending|
        invariant SweptTo(policy, old(Abs()), ds, Abs(), i)
        decreases |pending| - i
      {
        ghost var s := Abs();
        var r := pending[i];
        var t := heap[r];
        var pick := AssignTask(policy, workers, t);
        if pick.None? {
          SweptToNext(policy, old(Abs()), ds, s, i, Skip);
          ds := ds + [Skip];
          i := i + 1;
          continue;
        }
        var workerId := pick.value.worker;
        var clock := Now();
        Book(i, workerId, pick.value, clock);
        SweptToNext(policy, old(Abs()), ds, s, i, Place(workerId, clock));
        ds := ds + [Place(workerId, clock)];
      }
      assert ValidSweep(policy, Abs(), i, []);
      assert ds + [] == ds;
    }
  }

  method Now() returns (now: Time) {
    now := *;
  }

  /** The nested loops over a worker's GPUs and the ids of a task. */
  method MarkGPUs(gpus: seq<GPU>, ids: seq<string>, free: bool) returns (r: seq<GPU>)
    ensures r == Marked(gpus, ids, free)
  {
    r := gpus;
    for i := 0 to |gpus|
      invariant |r| == |gpus|
      invariant forall k :: 0 <= k < i ==> r[k] == Marked(gpus, ids, free)[k]
      invariant forall k :: i <= k < |gpus| ==> r[k] == gpus[k]
    {
      for j := 0 to |ids|
        invariant |r| == |gpus|
        invariant forall k :: 0 <= k < i ==> r[k] == Marked(gpus, ids, free)[k]
        invariant forall k :: i < k < |gpus| ==> r[k] == gpus[k]
        invariant r[i] == if gpus[i].id in ids[..j] then gpus[i].(available := free) else gpus[i]
      {
        if r[i].id == ids[j] {
          r := r[i := r[i].(available := free)];
        }
      }
    }
  }
}
