/** What clients send stays on record: reports, registrations and generated names. */
module Records {
  import opened Cluster
  import opened Policy
  import opened Scheduling
  import opened Quiescence
  import opened Consequences

  // ---------------------------------------------------------------- reports

  /** Apart from where and when it runs the task is as before. */
  ghost predicate OnlyMoved(t: Task, t': Task) {
    t' == t.(status := t'.status, workerId := t'.workerId, gpuIds := t'.gpuIds, start := t'.start)
  }

  lemma AdvanceOnlyMoves(p: Kind, s: State, i: nat, d: Decision, r: TaskRef)
    requires WellFormed(s) && i < |s.pending| && Takes(p, s, i, d) && r < |s.heap|
    ensures var s' := Advance(p, s, i, d).0; |s'.heap| == |s.heap| && OnlyMoved(s.heap[r], s'.heap[r])
  {
  }

  lemma {:induction false} SweepOnlyMoves(p: Kind, s: State, i: nat, ds: seq<Decision>, r: TaskRef)
    requires WellFormed(s) && i <= |s.pending| && ValidSweep(p, s, i, ds) && r < |s.heap|
    ensures |Sweep(p, s, i, ds).heap| == |s.heap| && OnlyMoved(s.heap[r], Sweep(p, s, i, ds).heap[r])
    decreases |s.pending| - i
  {
    if i < |s.pending| {
      AdvanceOnlyMoves(p, s, i, ds[0], r);
      SweepOnlyMoves(p, Advance(p, s, i, ds[0]).0, Advance(p, s, i, ds[0]).1, ds[1..], r);
    }
  }

  /** What a report leaves behind before the sweep. */
  lemma NotedInTask(s: State, u: Update, r: TaskRef)
    requires WellFormed(s) && Accepted(s, u) && r < |s.heap|
    ensures var s' := Reported(s, u);
            && |s'.heap| == |s.heap| && s'.pending == s.pending && s'.tasks == s.tasks
            && s'.heap[r] == if r == s.tasks[u.taskId]
                             then s.heap[r].(status := u.status, progress := u.progress, metrics := u.metrics)
                             else s.heap[r]
  {
  }

  lemma ReportReachesTask(p: Kind, s: State, u: Update, ds: seq<Decision>)
    requires WellFormed(s) && LegalReport(p, s, u, ds) && Accepted(s, u)
    ensures var r, s' := s.tasks[u.taskId], AfterReport(p, s, u, ds);
            && |s'.heap| == |s.heap|
            && s'.heap[r].progress == u.progress && s'.heap[r].metrics == u.metrics
            && (s'.heap[r].status == u.status
                || (u.status.Final() && r in s.pending && s'.heap[r].status == RUNNING))
  {
    var r, noted := s.tasks[u.taskId], Reported(s, u);
    NotedInTask(s, u, r);
    if u.status.Final() {
      SweepOnlyMoves(p, noted, 0, ds, r);
      SweepStartsPlaced(p, noted, 0, ds, r);
      assert noted.pending[0..] == s.pending;
    }
  }

  lemma ReportSparesOtherRecords(p: Kind, s: State, u: Update, ds: seq<Decision>, r: TaskRef)
    requires WellFormed(s) && LegalReport(p, s, u, ds) && Accepted(s, u)
    requires r < |s.heap| && r != s.tasks[u.taskId]
    ensures var s' := AfterReport(p, s, u, ds); |s'.heap| == |s.heap| && OnlyMoved(s.heap[r], s'.heap[r])
  {
    NotedInTask(s, u, r);
    if u.status.Final() {
      SweepOnlyMoves(p, Reported(s, u), 0, ds, r);
    }
  }

  /** An accepted report is on record: the task has the progress and the metrics reported, and the status, unless it
      was queued and the sweep after a final report has started it.  The record of no other task changes, except
      where and when it runs. */
  lemma ReportIsRecorded(p: Kind, s: State, u: Update, ds: seq<Decision>)
    requires WellFormed(s) && LegalReport(p, s, u, ds) && Accepted(s, u)
    ensures var r, s' := s.tasks[u.taskId], AfterReport(p, s, u, ds);
            && |s'.heap| == |s.heap|
            && s'.heap[r].progress == u.progress && s'.heap[r].metrics == u.metrics
            && (s'.heap[r].status == u.status
                || (u.status.Final() && r in s.pending && s'.heap[r].status == RUNNING))
            && forall q :: 0 <= q < |s.heap| && q != r ==> OnlyMoved(s.heap[q], s'.heap[q])
  {
    ReportReachesTask(p, s, u, ds);
    forall q | 0 <= q < |s.heap| && q != s.tasks[u.taskId]
      ensures OnlyMoved(s.heap[q], AfterReport(p, s, u, ds).heap[q])
    {
      ReportSparesOtherRecords(p, s, u, ds, q);
    }
  }

  // ---------------------------------------------------------------- submissions

  lemma SubmittedObject(s: State, sub: Submission, r: TaskRef, t: Task)
    requires WellFormed(s) && (sub.KnownTask? ==> sub.ref < |s.heap|)
    requires r == if sub.NewTask? then |s.heap| else sub.ref
    requires t == if sub.NewTask? then sub.task else s.heap[sub.ref]
    ensures var s' := Submitted(s, sub);
            && r < |s'.heap| && s'.heap[r] == t && s'.tasks == s.tasks[t.id := r] && s'.pending == s.pending + [r]
            && s'.metrics.Some? == s.metrics.Some?
            && (s.metrics.Some? ==> s'.metrics.value == s.metrics.value.(total := s.metrics.value.total + 1))
  {
  }

  /** A submission is on record: the table leads from the id to the submitted object `r`, whose task is the one
      submitted, except where and when it runs; one more task is counted; and the queue afterwards is what the course
      of the sweep leaves of the old queue with the object behind it. */
  lemma SubmissionIsRecorded(p: Kind, s: State, sub: Submission, ds: seq<Decision>, r: TaskRef, t: Task)
    requires WellFormed(s) && LegalSubmit(p, s, sub, ds)
    requires r == if sub.NewTask? then |s.heap| else sub.ref
    requires t == if sub.NewTask? then sub.task else s.heap[sub.ref]
    ensures var s' := AfterSubmit(p, s, sub, ds);
            && s'.tasks == s.tasks[t.id := r] && r < |s'.heap| && OnlyMoved(t, s'.heap[r])
            && (s.metrics.Some? ==>
                  s'.metrics == Some(s.metrics.value.(total := s.metrics.value.total + 1)))
            && |ds| == |s.pending| + 1 && s'.pending == Survivors(s.pending + [r], ds)
  {
    var queued := Submitted(s, sub);
    SubmittedObject(s, sub, r, t);
    SweepOnlyMoves(p, queued, 0, ds, r);
    SweepKeepsTable(p, queued, 0, ds);
    assert queued.pending == [] + queued.pending;
    SweepKeepsOrder(p, queued, [], queued.pending, ds);
  }

  // ---------------------------------------------------------------- registrations

  /** The worker has this address and, in this order and up to availability, these GPUs. */
  ghost predicate OnRecord(s: State, w: string, gpus: seq<GPU>, address: string) {
    && w in s.workers && s.workers[w].address == address && |s.workers[w].gpus| == |gpus|
    && forall i :: 0 <= i < |gpus| ==>
         s.workers[w].gpus[i] == gpus[i].(available := s.workers[w].gpus[i].available)
  }

  lemma {:induction false} SweepKeepsRecord(p: Kind, s: State, i: nat, ds: seq<Decision>, w: string, gpus: seq<GPU>,
                                            address: string)
    requires WellFormed(s) && i <= |s.pending| && ValidSweep(p, s, i, ds) && OnRecord(s, w, gpus, address)
    ensures OnRecord(Sweep(p, s, i, ds), w, gpus, address)
    decreases |s.pending| - i
  {
    if i < |s.pending| {
      var (s', i') := Advance(p, s, i, ds[0]);
      assert OnRecord(s', w, gpus, address);
      SweepKeepsRecord(p, s', i', ds[1..], w, gpus, address);
    }
  }

  lemma ReportKeepsRecord(p: Kind, s: State, u: Update, ds: seq<Decision>, w: string, gpus: seq<GPU>, address: string)
    requires WellFormed(s) && LegalReport(p, s, u, ds) && OnRecord(s, w, gpus, address)
    ensures OnRecord(AfterReport(p, s, u, ds), w, gpus, address)
  {
    if Accepted(s, u) {
      assert OnRecord(Reported(s, u), w, gpus, address);
      if u.status.Final() {
        SweepKeepsRecord(p, Reported(s, u), 0, ds, w, gpus, address);
      }
    }
  }

  lemma RegisterKeepsRecord(p: Kind, s: State, id: string, more: seq<GPU>, place: string, ds: seq<Decision>,
                            w: string, gpus: seq<GPU>, address: string)
    requires WellFormed(s) && LegalRegister(p, s, id, more, place, ds) && OnRecord(s, w, gpus, address)
    ensures OnRecord(AfterRegister(p, s, id, more, place, ds), w, gpus, address)
  {
    var wid := WorkerIdFor(id, |s.workers|);
    if wid !in s.workers {
      SweepKeepsRecord(p, Registered(s, wid, more, place), 0, ds, w, gpus, address);
    }
  }

  lemma StepKeepsRecord(p: Kind, s: State, e: Event, s': State, w: string, gpus: seq<GPU>, address: string)
    requires Step(p, s, e, s') && Inv(p, s) && OnRecord(s, w, gpus, address)
    ensures OnRecord(s', w, gpus, address)
  {
    match e {
      case Register(id, g, a, ds) => RegisterKeepsRecord(p, s, id, g, a, ds, w, gpus, address);
      case Submit(sub, ds) => SweepKeepsRecord(p, Submitted(s, sub), 0, ds, w, gpus, address);
      case Report(u, ds) => ReportKeepsRecord(p, s, u, ds, w, gpus, address);
      case Request(caller, chosen, now) => QuiescentRefuses(p, s, caller);
    }
  }

  lemma RecordNext(p: Kind, ss: seq<State>, es: seq<Event>, n: nat, w: string, gpus: seq<GPU>, address: string)
    requires Behavior(p, ss, es) && 0 < n < |ss| && OnRecord(ss[n - 1], w, gpus, address)
    ensures OnRecord(ss[n], w, gpus, address)
  {
    AlwaysQuiescent(p, ss, es, n - 1);
    assert Step(p, ss[n - 1], es[n - 1], ss[n]);
    StepKeepsRecord(p, ss[n - 1], es[n - 1], ss[n], w, gpus, address);
  }

  lemma {:induction false} RecordStays(p: Kind, ss: seq<State>, es: seq<Event>, m: nat, n: nat, w: string,
                                       gpus: seq<GPU>, address: string)
    requires Behavior(p, ss, es) && m <= n < |ss| && OnRecord(ss[m], w, gpus, address)
    ensures OnRecord(ss[n], w, gpus, address)
    decreases n
  {
    if m < n {
      RecordStays(p, ss, es, m, n - 1, w, gpus, address);
      RecordNext(p, ss, es, n, w, gpus, address);
    }
  }

  lemma RegistrationRecorded(p: Kind, s: State, e: Event, s': State)
    requires Step(p, s, e, s') && e.Register? && WorkerIdFor(e.id, |s.workers|) !in s.workers
    ensures OnRecord(s', WorkerIdFor(e.id, |s.workers|), e.gpus, e.address)
  {
    var wid := WorkerIdFor(e.id, |s.workers|);
    SweepKeepsRecord(p, Registered(s, wid, e.gpus, e.address), 0, e.ds, wid, e.gpus, e.address);
  }

  /** All runs: from its registration on a worker has, under the id it gave or else under the generated one, the
      address and the GPUs it registered with, whatever is sent later; only their availability changes. */
  lemma RegistrationIsKept(p: Kind, ss: seq<State>, es: seq<Event>, i: nat, n: nat, w: string)
    requires Behavior(p, ss, es) && i < n < |ss| && es[i].Register?
    requires w == if es[i].id == "" then WorkerIdFor("", |ss[i].workers|) else es[i].id
    requires w !in ss[i].workers
    ensures w in ss[n].workers && ss[n].workers[w].address == es[i].address
    ensures |ss[n].workers[w].gpus| == |es[i].gpus|
    ensures forall k :: 0 <= k < |es[i].gpus| ==>
              var g, g' := es[i].gpus[k], ss[n].workers[w].gpus[k];
              g'.id == g.id && g'.model == g.model && g'.memory == g.memory
  {
    RegistrationRecorded(p, ss[i], es[i], ss[i + 1]);
    RecordStays(p, ss, es, i + 1, n, w, es[i].gpus, es[i].address);
  }

  // ---------------------------------------------------------------- generated names

  /** What a string of decimal digits stands for. */
  ghost function ValueOf(digits: string): int {
    if digits == "" then 0
    else ValueOf(digits[..|digits| - 1]) * 10 + (digits[|digits| - 1] as int - '0' as int)
  }

  ghost predicate IsNumeral(digits: string) {
    && digits != "" && (|digits| > 1 ==> digits[0] != '0')
    && forall i :: 0 <= i < |digits| ==> '0' <= digits[i] <= '9'
  }

  lemma DigitChar(d: nat)
    requires d < 10
    ensures '0' <= "0123456789"[d] <= '9' && "0123456789"[d] as int - '0' as int == d
  {
  }

  lemma LastDigit(n: nat) returns (c: char)
    ensures Decimal(n) == (if n < 10 then "" else Decimal(n / 10)) + [c]
    ensures '0' <= c <= '9' && c as int - '0' as int == n % 10
  {
    DigitChar(n % 10);
    c := "0123456789"[n % 10];
  }

  lemma AppendDigit(front: string, c: char)
    requires '0' <= c <= '9' && (front == "" || (IsNumeral(front) && front[0] != '0'))
    ensures IsNumeral(front + [c]) && ValueOf(front + [c]) == ValueOf(front) * 10 + (c as int - '0' as int)
  {
    assert (front + [c])[..|front|] == front;
  }

  lemma {:induction false} DecimalMeans(n: nat)
    ensures IsNumeral(Decimal(n)) && ValueOf(Decimal(n)) == n
    ensures n > 0 ==> Decimal(n)[0] != '0'
  {
    var c := LastDigit(n);
    if n >= 10 {
      DecimalMeans(n / 10);
      AppendDigit(Decimal(n / 10), c);
    } else {
      AppendDigit("", c);
    }
  }

  /** A worker that gives no id is called "worker-" and a decimal number, without leading zeros: one more than the
      number of workers registered so far. */
  lemma GeneratedName(registered: nat) returns (digits: string)
    ensures WorkerIdFor("", registered) == "worker-" + digits
    ensures IsNumeral(digits) && ValueOf(digits) == registered + 1
  {
    digits := Decimal(registered + 1);
    DecimalMeans(registered + 1);
  }
}
