/** The two placement policies: which workers qualify for a task, how they are scored, and
    the loops that pick one. */
module Policy {
  import opened Cluster
  import opened Sorting

  datatype Kind = Simple | Balanced

  predicate Fits(g: GPU, minMemory: nat) {
    g.available && minMemory <= g.memory
  }

  /** Ids of the free GPUs with enough memory, in list order. */
  ghost function EligibleIds(gpus: seq<GPU>, minMemory: nat): (ids: seq<string>)
    ensures |ids| <= |gpus|
  {
    if gpus == [] then []
    else
      var last := |gpus| - 1;
      var front := EligibleIds(gpus[..last], minMemory);
      if Fits(gpus[last], minMemory) then front + [gpus[last].id] else front
  }

  ghost function FreeMemory(gpus: seq<GPU>): nat {
    if gpus == [] then 0
    else
      var last := |gpus| - 1;
      FreeMemory(gpus[..last]) + if gpus[last].available then gpus[last].memory else 0
  }

  predicate Admits(p: Kind, status: WorkerStatus) {
    match p
    case Simple => status == IDLE
    case Balanced => status != OFFLINE && status != ERROR
  }

  /** The comparison is made on the length truncated to uint32. */
  ghost predicate Candidate(p: Kind, w: Worker, t: Task) {
    Admits(p, w.status) && t.required <= ToU32(|EligibleIds(w.gpus, t.minMemory)|)
  }

  ghost predicate Feasible(p: Kind, workers: map<string, Worker>, t: Task) {
    exists w :: w in workers && Candidate(p, workers[w], t)
  }

  /** Lower is better; `None` is the NaN that the balanced policy gets from a worker without GPUs. */
  ghost function Score(p: Kind, w: Worker, t: Task): Option<real> {
    var eligible := |EligibleIds(w.gpus, t.minMemory)|;
    match p
    case Simple =>
      var wanted := ToU64(t.minMemory * t.required);
      Some((eligible as real - t.required as real) * 0.7
           + (ToU64(FreeMemory(w.gpus)) as real - wanted as real) * 0.3)
    case Balanced =>
      if |w.gpus| == 0 then None
      else Some(|w.tasks| as real / |w.gpus| as real - eligible as real / |w.gpus| as real)
  }

  /** A legitimate answer of the policy: a candidate, and one of least score when all candidates
      have a score. */
  ghost predicate Chosen(p: Kind, workers: map<string, Worker>, t: Task, w: string) {
    && w in workers && Candidate(p, workers[w], t)
    && ((forall v :: v in workers && Candidate(p, workers[v], t) ==> Score(p, workers[v], t).Some?) ==>
          forall v :: v in workers && Candidate(p, workers[v], t) ==>
            Score(p, workers[w], t).value <= Score(p, workers[v], t).value)
  }

  /** The GPU ids handed out: the first `required` eligible ones. */
  ghost function Grant(w: Worker, t: Task): seq<string>
    requires t.required <= |EligibleIds(w.gpus, t.minMemory)|
  {
    EligibleIds(w.gpus, t.minMemory)[..t.required]
  }

  // ---------------------------------------------------------------- the policies as they run

  datatype Choice = Choice(worker: string, gpus: seq<string>)
  datatype Scored = Scored(id: string, score: Option<real>, gpus: seq<string>)

  predicate Lower(a: Scored, b: Scored) {
    a.score.Some? && b.score.Some? && a.score.value < b.score.value
  }

  method CollectEligible(gpus: seq<GPU>, minMemory: nat) returns (ids: seq<string>)
    ensures ids == EligibleIds(gpus, minMemory)
  {
    ids := [];
    for i := 0 to |gpus|
      invariant ids == EligibleIds(gpus[..i], minMemory)
    {
      assert gpus[..i + 1][..i] == gpus[..i];
      if Fits(gpus[i], minMemory) {
        ids := ids + [gpus[i].id];
      }
    }
    assert gpus[..|gpus|] == gpus;
  }

  /** `totalMemory += gpu.MemoryMB` on uint64. */
  method SumFreeMemory(gpus: seq<GPU>) returns (total: U64)
    ensures total == ToU64(FreeMemory(gpus))
  {
    total := 0;
    for i := 0 to |gpus|
      invariant total == ToU64(FreeMemory(gpus[..i]))
    {
      assert gpus[..i + 1][..i] == gpus[..i];
      if gpus[i].available {
        total := ToU64(total + gpus[i].memory);
      }
    }
    assert gpus[..|gpus|] == gpus;
  }

  /** What one candidate record says about the worker it was built from. */
  ghost predicate Describes(p: Kind, workers: map<string, Worker>, t: Task, c: Scored) {
    && c.id in workers && Candidate(p, workers[c.id], t)
    && c.score == Score(p, workers[c.id], t)
    && c.gpus == Grant(workers[c.id], t)
  }

  /** The list has every candidate among the workers in `known`, once. */
  ghost predicate Collected(p: Kind, workers: map<string, Worker>, t: Task, known: set<string>, cs: seq<Scored>) {
    && NoDuplicates(cs)
    && (forall c :: c in cs ==> c.id in known && Describes(p, workers, t, c))
    && forall w :: w in known && w in workers && Candidate(p, workers[w], t) ==> exists c :: c in cs && c.id == w
  }

  lemma Collect(p: Kind, workers: map<string, Worker>, t: Task, known: set<string>, cs: seq<Scored>, id: string,
                record: Option<Scored>)
    requires Collected(p, workers, t, known, cs) && id in workers && id !in known
    requires record.Some? <==> Candidate(p, workers[id], t)
    requires record.Some? ==> record.value.id == id && Describes(p, workers, t, record.value)
    ensures Collected(p, workers, t, known + {id}, if record.Some? then cs + [record.value] else cs)
  {
    if record.Some? {
      assert forall x :: x in cs + [record.value] <==> x in cs || x == record.value;
    }
  }

  /** What the loop does with one idle worker. */
  method SimpleRecord(id: string, w: Worker, t: Task) returns (c: Option<Scored>)
    ensures c.Some? <==> Candidate(Simple, w, t)
    ensures c.Some? ==> c.value == Scored(id, Score(Simple, w, t), Grant(w, t))
  {
    if w.status != IDLE {
      return None;
    }
    var available := CollectEligible(w.gpus, t.minMemory);
    if ToU32(|available|) < t.required {
      return None;
    }
    var total := SumFreeMemory(w.gpus);
    var score := (|available| as real - t.required as real) * 0.7
                 + (total as real - ToU64(t.minMemory * t.required) as real) * 0.3;
    c := Some(Scored(id, Some(score), available[..t.required]));
  }

  method SimpleAssignTask(workers: map<string, Worker>, t: Task) returns (r: Option<Choice>)
    ensures r.None? <==> !Feasible(Simple, workers, t)
    ensures r.Some? ==>
              Chosen(Simple, workers, t, r.value.worker) && r.value.gpus == Grant(workers[r.value.worker], t)
    ensures r.Some? ==> LeastWaste(workers, t, r.value.worker)
  {
    var candidates: seq<Scored> := [];
    var ids := workers.Keys;
    while ids != {}
      invariant ids <= workers.Keys
      invariant Collected(Simple, workers, t, workers.Keys - ids, candidates)
      decreases ids
    {
      var id :| id in ids;
      var record := SimpleRecord(id, workers[id], t);
      Collect(Simple, workers, t, workers.Keys - ids, candidates, id, record);
      if record.Some? {
        candidates := candidates + [record.value];
      }
      ids := ids - {id};
      assert workers.Keys - ids == workers.Keys - (ids + {id}) + {id};
    }
    assert workers.Keys - ids == workers.Keys;
    r := FirstOf(Simple, workers, t, candidates);
    if r.Some? {
      ChosenWastesLeast(workers, t, r.value.worker);
    }
  }

  method BalancedRecord(id: string, w: Worker, t: Task) returns (c: Option<Scored>)
    ensures c.Some? <==> Candidate(Balanced, w, t)
    ensures c.Some? ==> c.value == Scored(id, Score(Balanced, w, t), Grant(w, t))
  {
    if w.status == OFFLINE || w.status == ERROR {
      return None;
    }
    var available := CollectEligible(w.gpus, t.minMemory);
    if ToU32(|available|) < t.required {
      return None;
    }
    var n := |w.gpus|;
    var score := if n == 0 then None
                 else Some(|w.tasks| as real / n as real - |available| as real / n as real);
    c := Some(Scored(id, score, available[..t.required]));
  }

  method BalancedAssignTask(workers: map<string, Worker>, t: Task) returns (r: Option<Choice>)
    ensures r.None? <==> !Feasible(Balanced, workers, t)
    ensures r.Some? ==>
              Chosen(Balanced, workers, t, r.value.worker) && r.value.gpus == Grant(workers[r.value.worker], t)
    ensures r.Some? && AllScored(workers, t) ==> LeastLoad(workers, t, r.value.worker)
  {
    var candidates: seq<Scored> := [];
    var ids := workers.Keys;
    while ids != {}
      invariant ids <= workers.Keys
      invariant Collected(Balanced, workers, t, workers.Keys - ids, candidates)
      decreases ids
    {
      var id :| id in ids;
      var record := BalancedRecord(id, workers[id], t);
      Collect(Balanced, workers, t, workers.Keys - ids, candidates, id, record);
      if record.Some? {
        candidates := candidates + [record.value];
      }
      ids := ids - {id};
      assert workers.Keys - ids == workers.Keys - (ids + {id}) + {id};
    }
    assert workers.Keys - ids == workers.Keys;
    r := FirstOf(Balanced, workers, t, candidates);
    if r.Some? && AllScored(workers, t) {
      ChosenLoadsLeast(workers, t, r.value.worker);
    }
  }

  /** No candidate has a lower score, and all have one. */
  ghost predicate Least(p: Kind, workers: map<string, Worker>, t: Task, w: string)
    requires w in workers
  {
    forall v :: v in workers && Candidate(p, workers[v], t) ==>
      Score(p, workers[w], t).Some? && Score(p, workers[v], t).Some?
      && Score(p, workers[w], t).value <= Score(p, workers[v], t).value
  }

  lemma FirstIsLeast(p: Kind, workers: map<string, Worker>, t: Task, cs: seq<Scored>, ys: seq<Scored>)
    requires Collected(p, workers, t, workers.Keys, cs) && multiset(ys) == multiset(cs) && ys != []
    requires Sorted(ys, Lower) && forall c :: c in cs ==> c.score.Some?
    ensures ys[0] in cs && Least(p, workers, t, ys[0].id)
  {
    assert ys[0] in multiset(ys);
    forall v | v in workers && Candidate(p, workers[v], t)
      ensures Score(p, workers[v], t).Some? && ys[0].score.value <= Score(p, workers[v], t).value
    {
      var c :| c in cs && c.id == v;
      assert c in multiset(ys);
      var j :| 0 <= j < |ys| && ys[j] == c;
      assert j == 0 || !Lower(ys[j], ys[0]);
    }
  }

  /** Sort the candidates by score and take the first one. */
  method FirstOf(p: Kind, ghost workers: map<string, Worker>, ghost t: Task, candidates: seq<Scored>)
    returns (r: Option<Choice>)
    requires Collected(p, workers, t, workers.Keys, candidates)
    ensures r.None? <==> !Feasible(p, workers, t)
    ensures r.Some? ==> Chosen(p, workers, t, r.value.worker) && r.value.gpus == Grant(workers[r.value.worker], t)
    ensures r.Some? && |candidates| <= 12 ==> r.value.worker == InsertionSort(candidates, Lower)[0].id
  {
    if candidates == [] {
      return None;
    }
    assert candidates[0] in candidates;
    var sorted := SortSlice(candidates, Lower);
    assert |multiset(sorted)| == |sorted| && |multiset(candidates)| == |candidates|;
    assert sorted[0] in multiset(candidates);
    var best := sorted[0];
    assert Describes(p, workers, t, best);
    r := Some(Choice(best.id, best.gpus));
    if forall v :: v in workers && Candidate(p, workers[v], t) ==> Score(p, workers[v], t).Some? {
      FirstIsLeast(p, workers, t, candidates, sorted);
    }
  }

  method AssignTask(p: Kind, workers: map<string, Worker>, t: Task) returns (r: Option<Choice>)
    ensures r.None? <==> !Feasible(p, workers, t)
    ensures r.Some? ==> Chosen(p, workers, t, r.value.worker) && r.value.gpus == Grant(workers[r.value.worker], t)
  {
    match p
    case Simple => r := SimpleAssignTask(workers, t);
    case Balanced => r := BalancedAssignTask(workers, t);
  }

  // ---------------------------------------------------------------- there is always an answer

  lemma {:induction false} LeastScored(p: Kind, workers: map<string, Worker>, t: Task, ids: set<string>)
    returns (w: string)
    requires ids != {} && forall v :: v in ids ==> v in workers && Score(p, workers[v], t).Some?
    ensures w in ids
    ensures forall v :: v in ids ==> Score(p, workers[w], t).value <= Score(p, workers[v], t).value
  {
    w :| w in ids;
    if ids != {w} {
      var rest := ids - {w};
      assert rest != {};
      var best := LeastScored(p, workers, t, rest);
      if Score(p, workers[best], t).value < Score(p, workers[w], t).value {
        w := best;
      }
    }
  }

  /** A feasible task has a legitimate answer. */
  lemma FeasibleHasChoice(p: Kind, workers: map<string, Worker>, t: Task) returns (w: string)
    requires Feasible(p, workers, t)
    ensures Chosen(p, workers, t, w)
  {
    w :| w in workers && Candidate(p, workers[w], t);
    var ids := set v | v in workers && Candidate(p, workers[v], t);
    assert w in ids;
    if forall v :: v in workers && Candidate(p, workers[v], t) ==> Score(p, workers[v], t).Some? {
      w := LeastScored(p, workers, t, ids);
    }
  }

  // ---------------------------------------------------------------- facts about eligibility

  /** Same GPUs, none of them more available than before. */
  ghost predicate Shrunk(before: seq<GPU>, after: seq<GPU>) {
    && |before| == |after|
    && forall i :: 0 <= i < |before| ==>
         && after[i].memory == before[i].memory && after[i].id == before[i].id
         && (after[i].available ==> before[i].available)
  }

  lemma {:induction false} ShrunkEligible(before: seq<GPU>, after: seq<GPU>, minMemory: nat)
    requires Shrunk(before, after)
    ensures |EligibleIds(after, minMemory)| <= |EligibleIds(before, minMemory)|
  {
    if before != [] {
      ShrunkEligible(before[..|before| - 1], after[..|after| - 1], minMemory);
    }
  }

  /** Exactly the ids of the free GPUs with enough memory are listed. */
  lemma {:induction false} EligibleMember(gpus: seq<GPU>, minMemory: nat, x: string)
    ensures x in EligibleIds(gpus, minMemory)
            <==> exists i :: 0 <= i < |gpus| && Fits(gpus[i], minMemory) && gpus[i].id == x
  {
    if gpus != [] {
      var last := |gpus| - 1;
      EligibleMember(gpus[..last], minMemory, x);
      assert forall i :: 0 <= i < last ==> gpus[..last][i] == gpus[i];
    }
  }

  /** With distinct GPU ids no id is listed twice. */
  lemma {:induction false} EligibleDistinct(gpus: seq<GPU>, minMemory: nat)
    requires DistinctIds(gpus)
    ensures NoDuplicates(EligibleIds(gpus, minMemory))
  {
    if gpus != [] {
      var last := |gpus| - 1;
      EligibleDistinct(gpus[..last], minMemory);
      EligibleMember(gpus[..last], minMemory, gpus[last].id);
      assert gpus[last].id !in EligibleIds(gpus[..last], minMemory);
    }
  }

  lemma {:induction false} FreeMemoryCoversEligible(gpus: seq<GPU>, minMemory: nat)
    ensures minMemory * |EligibleIds(gpus, minMemory)| <= FreeMemory(gpus)
  {
    if gpus != [] {
      var front := gpus[..|gpus| - 1];
      FreeMemoryCoversEligible(front, minMemory);
      var n := |EligibleIds(front, minMemory)|;
      assert minMemory * (n + 1) == minMemory * n + minMemory;
    }
  }

  // ---------------------------------------------------------------- results

  /** Simple-policy arithmetic: neither the total nor the product in a candidate's score wraps if and only
      if the worker's free memory fits a uint64. */
  lemma SimpleScoreWrapsIff(w: Worker, t: Task)
    requires Candidate(Simple, w, t)
    ensures ToU64(FreeMemory(w.gpus)) == FreeMemory(w.gpus)
            && ToU64(t.minMemory * t.required) == t.minMemory * t.required
            <==> FreeMemory(w.gpus) < 0x1_0000_0000_0000_0000
  {
    if FreeMemory(w.gpus) < 0x1_0000_0000_0000_0000 {
      SimpleScoreDoesNotWrap(w, t);
    }
  }

  /** Then the demand is covered and the score is non-negative. */
  lemma SimpleScoreDoesNotWrap(w: Worker, t: Task)
    requires Candidate(Simple, w, t) && FreeMemory(w.gpus) < 0x1_0000_0000_0000_0000
    ensures t.minMemory * t.required <= FreeMemory(w.gpus)
    ensures Score(Simple, w, t).value >= 0.0
  {
    var eligible := |EligibleIds(w.gpus, t.minMemory)|;
    FreeMemoryCoversEligible(w.gpus, t.minMemory);
    MulMonotone(t.minMemory, t.required, eligible);
    assert Score(Simple, w, t).value == (eligible as real - t.required as real) * 0.7
                                        + (FreeMemory(w.gpus) as real - (t.minMemory * t.required) as real) * 0.3;
  }

  lemma MulMonotone(a: nat, b: nat, c: nat)
    requires b <= c
    ensures a * b <= a * c
  {
  }

  ghost function Demand(required: U32, minMemory: U64): Task {
    Task("t", "", required, minMemory, [], PENDING, "", [], 0, 0.0, [])
  }

  /** Without that bound the running total wraps: here it comes out as 0 and the score is negative. */
  lemma SimpleScoreCanWrap() returns (w: Worker, t: Task)
    ensures Candidate(Simple, w, t) && FreeMemory(w.gpus) == 0x1_0000_0000_0000_0000 && Score(Simple, w, t).value < 0.0
  {
    var half: U64 := 0x8000_0000_0000_0000;
    var a, b := GPU("a", "m", half, true), GPU("b", "m", half, true);
    w, t := Worker([a, b], "", IDLE, map[]), Demand(1, half);
    assert [a, b][..1] == [a] && [a][..0] == [];
    assert EligibleIds([a], half) == ["a"] && EligibleIds([a, b], half) == ["a", "b"];
    assert FreeMemory([a]) == half && FreeMemory([a, b]) == 0x1_0000_0000_0000_0000;
    assert ToU64(0x1_0000_0000_0000_0000) == 0 && ToU64(half * 1) == half;
    assert Score(Simple, w, t).value == (2.0 - 1.0) * 0.7 + (0.0 - half as real) * 0.3;
  }

  /** The task needs a GPU, or every worker the balanced policy looks at has one. */
  ghost predicate AllScored(workers: map<string, Worker>, t: Task) {
    t.required >= 1 || forall v :: v in workers && Admits(Balanced, workers[v].status) ==> workers[v].gpus != []
  }

  lemma CandidatesAreScored(p: Kind, workers: map<string, Worker>, t: Task)
    requires p == Simple || AllScored(workers, t)
    ensures forall v :: v in workers && Candidate(p, workers[v], t) ==> Score(p, workers[v], t).Some?
  {
  }

  /** Then the worker chosen has the least score. */
  lemma ChosenIsOptimal(p: Kind, workers: map<string, Worker>, t: Task, w: string)
    requires Chosen(p, workers, t, w) && (p == Simple || AllScored(workers, t))
    ensures Least(p, workers, t, w)
  {
    CandidatesAreScored(p, workers, t);
  }

  ghost function RecordOf(p: Kind, workers: map<string, Worker>, t: Task, w: string): (c: Scored)
    requires w in workers && Candidate(p, workers[w], t)
    ensures Describes(p, workers, t, c) && c.id == w
  {
    Scored(w, Score(p, workers[w], t), Grant(workers[w], t))
  }

  lemma {:induction false} SomeOrder(p: Kind, workers: map<string, Worker>, t: Task, ids: set<string>)
    returns (cs: seq<Scored>)
    ensures Collected(p, workers, t, ids, cs)
  {
    cs := [];
    if ids != {} {
      var w :| w in ids;
      var rest := ids - {w};
      cs := SomeOrder(p, workers, t, rest);
      assert ids == rest + {w};
      if w in workers {
        var record := if Candidate(p, workers[w], t) then Some(RecordOf(p, workers, t, w)) else None;
        Collect(p, workers, t, rest, cs, w, record);
        cs := if record.Some? then cs + [record.value] else cs;
      }
    }
  }

  lemma LeadingOrder(p: Kind, workers: map<string, Worker>, t: Task, w: string) returns (cs: seq<Scored>)
    requires w in workers && Candidate(p, workers[w], t)
    ensures Collected(p, workers, t, workers.Keys, cs) && cs != [] && cs[0] == RecordOf(p, workers, t, w)
  {
    var rest := SomeOrder(p, workers, t, workers.Keys - {w});
    cs := [RecordOf(p, workers, t, w)] + rest;
    assert forall x :: x in cs <==> x in rest || x == cs[0];
    assert cs[0] !in rest;
    forall v | v in workers && Candidate(p, workers[v], t) ensures exists c :: c in cs && c.id == v {
      if v == w {
        assert cs[0] in cs;
      } else {
        var c :| c in rest && c.id == v;
        assert c in cs;
      }
    }
  }

  lemma SortedWhenScored(cs: seq<Scored>)
    requires forall c :: c in cs ==> c.score.Some?
    ensures Sorted(InsertionSort(cs, Lower), Lower)
  {
    InsertionSortSorts(cs, Lower);
  }

  /** The balanced policy's sort puts a worker of least score first for every order of the worker map if and
      only if the task needs a GPU or every worker it looks at has one; otherwise a worker without GPUs, whose
      score is not a number, can stay in front. */
  lemma BalancedOptimalIff(workers: map<string, Worker>, t: Task)
    ensures (forall cs :: Collected(Balanced, workers, t, workers.Keys, cs) && cs != [] ==>
               var best := InsertionSort(cs, Lower)[0];
               best.id in workers && Least(Balanced, workers, t, best.id))
            <==> AllScored(workers, t)
  {
    if AllScored(workers, t) {
      CandidatesAreScored(Balanced, workers, t);
      forall cs | Collected(Balanced, workers, t, workers.Keys, cs) && cs != []
        ensures var best := InsertionSort(cs, Lower)[0]; best.id in workers && Least(Balanced, workers, t, best.id)
      {
        SortedWhenScored(cs);
        assert |multiset(InsertionSort(cs, Lower))| == |InsertionSort(cs, Lower)|;
        FirstIsLeast(Balanced, workers, t, cs, InsertionSort(cs, Lower));
      }
    } else {
      var v :| v in workers && Admits(Balanced, workers[v].status) && workers[v].gpus == [];
      var cs := LeadingOrder(Balanced, workers, t, v);
      LeaderStays(cs, Lower);
      assert !Least(Balanced, workers, t, v);
    }
  }

  lemma TwoStay(a: Scored, b: Scored)
    requires !Lower(b, a)
    ensures InsertionSort([a, b], Lower) == [a, b]
  {
    assert [a] == [] + [a];
    AppendStays([], a, Lower);
    assert [a, b] == [a] + [b];
    AppendStays([a], b, Lower);
  }

  lemma NeighboursStay(a: Scored, b: Scored, c: Scored)
    requires !Lower(b, a) && !Lower(c, b)
    ensures InsertionSort([a, b, c], Lower) == [a, b, c]
  {
    TwoStay(a, b);
    AppendStays([a, b], c, Lower);
    assert [a, b, c] == [a, b] + [c];
  }

  ghost function Idle(gpus: seq<GPU>): Worker { Worker(gpus, "", IDLE, map[]) }

  ghost function ThreeWorkers(): map<string, Worker> {
    map["free" := Idle([GPU("g", "", 0, true)]), "taken" := Idle([GPU("g", "", 0, false)]), "none" := Idle([])]
  }

  ghost function ThreeRecords(): seq<Scored> {
    [Scored("taken", Some(0.0), []), Scored("none", None, []), Scored("free", Some(-1.0), [])]
  }

  lemma ThreeCollected()
    ensures Collected(Balanced, ThreeWorkers(), Demand(0, 0), ThreeWorkers().Keys, ThreeRecords())
  {
    var cs := ThreeRecords();
    OneGpuScore(GPU("g", "", 0, true), Demand(0, 0));
    OneGpuScore(GPU("g", "", 0, false), Demand(0, 0));
    assert cs[0] in cs && cs[1] in cs && cs[2] in cs;
  }

  /** And in between a worker without GPUs can hide a better one from its neighbour: with the candidates in the
      order taken, none, free the sort leaves the taken worker in front of the free one. */
  lemma ZeroDemandNeedNotBeOptimal() returns (workers: map<string, Worker>, t: Task, cs: seq<Scored>)
    ensures t.required == 0 && Collected(Balanced, workers, t, workers.Keys, cs) && |cs| == 3
    ensures var best := InsertionSort(cs, Lower)[0];
            best.score.Some? && exists c :: c in cs && c.score.Some? && c.score.value < best.score.value
  {
    workers, t, cs := ThreeWorkers(), Demand(0, 0), ThreeRecords();
    ThreeCollected();
    NeighboursStay(cs[0], cs[1], cs[2]);
    assert cs[2] in cs;
  }

  lemma OneGpuScore(g: GPU, t: Task)
    requires t.required == 0
    ensures Candidate(Balanced, Idle([g]), t)
    ensures Score(Balanced, Idle([g]), t) == Some(if Fits(g, t.minMemory) then -1.0 else 0.0)
  {
    assert [g][..0] == [];
    assert EligibleIds([g], t.minMemory) == if Fits(g, t.minMemory) then [g.id] else [];
  }

  /** All of the worker's free GPUs suit the task, in number and in total memory, with nothing to spare. */
  ghost predicate ExactFit(w: Worker, t: Task) {
    |EligibleIds(w.gpus, t.minMemory)| == t.required && FreeMemory(w.gpus) == t.minMemory * t.required
  }

  /** Minimal waste: if some candidate fits exactly, the simple policy chooses one that does. */
  lemma SimplePrefersExactFit(workers: map<string, Worker>, t: Task, w: string, v: string)
    requires Chosen(Simple, workers, t, w)
    requires forall x :: x in workers && Candidate(Simple, workers[x], t) ==>
               FreeMemory(workers[x].gpus) < 0x1_0000_0000_0000_0000
    requires v in workers && Candidate(Simple, workers[v], t) && ExactFit(workers[v], t)
    ensures ExactFit(workers[w], t)
  {
    SimpleScoreDoesNotWrap(workers[v], t);
    SimpleScoreDoesNotWrap(workers[w], t);
    assert Score(Simple, workers[v], t).value == 0.0;
    assert Score(Simple, workers[w], t).value <= 0.0;
  }

  /** Balance: among candidates with equally many GPUs the balanced policy chooses one with the fewest
      tasks net of eligible free GPUs. */
  lemma BalancedPrefersLessLoaded(workers: map<string, Worker>, t: Task, w: string, v: string)
    requires Chosen(Balanced, workers, t, w) && t.required >= 1
    requires v in workers && Candidate(Balanced, workers[v], t) && |workers[v].gpus| == |workers[w].gpus|
    ensures |workers[w].tasks| - |EligibleIds(workers[w].gpus, t.minMemory)|
            <= |workers[v].tasks| - |EligibleIds(workers[v].gpus, t.minMemory)|
  {
    ChosenIsOptimal(Balanced, workers, t, w);
    var n := |workers[w].gpus| as real;
    var a, b := |workers[w].tasks| as real, |EligibleIds(workers[w].gpus, t.minMemory)| as real;
    var c, d := |workers[v].tasks| as real, |EligibleIds(workers[v].gpus, t.minMemory)| as real;
    ScaleUp(a, b, c, d, n);
  }

  /** Seven times the eligible free GPUs plus three times the memory of the free GPUs, which the code adds up in a
      uint64, is no more for `w` than for `v`. */
  ghost predicate WastesNoMore(w: Worker, v: Worker, t: Task) {
    7 * |EligibleIds(w.gpus, t.minMemory)| + 3 * (FreeMemory(w.gpus) % 0x1_0000_0000_0000_0000)
    <= 7 * |EligibleIds(v.gpus, t.minMemory)| + 3 * (FreeMemory(v.gpus) % 0x1_0000_0000_0000_0000)
  }

  ghost predicate LeastWaste(workers: map<string, Worker>, t: Task, w: string) {
    w in workers && forall v :: v in workers && Candidate(Simple, workers[v], t) ==>
                      WastesNoMore(workers[w], workers[v], t)
  }

  lemma TenTimes(e: int, m: int, f: int, n: int, r: real, wanted: real)
    requires (e as real - r) * 0.7 + (m as real - wanted) * 0.3 <= (f as real - r) * 0.7 + (n as real - wanted) * 0.3
    ensures 7 * e + 3 * m <= 7 * f + 3 * n
  {
    assert 7.0 * e as real + 3.0 * m as real <= 7.0 * f as real + 3.0 * n as real;
  }

  /** The score as a sum of the two weighed parts. */
  ghost predicate Weighs(w: Worker, t: Task, wanted: real, score: real) {
    score == (|EligibleIds(w.gpus, t.minMemory)| as real - t.required as real) * 0.7
             + (ToU64(FreeMemory(w.gpus)) as real - wanted) * 0.3
  }

  lemma WeighedScore(w: Worker, t: Task, wanted: real)
    requires wanted == ToU64(t.minMemory * t.required) as real
    ensures Weighs(w, t, wanted, Score(Simple, w, t).value)
  {
  }

  lemma LighterWastesNoMore(w: Worker, v: Worker, t: Task, wanted: real, x: real, y: real)
    requires Weighs(w, t, wanted, x) && Weighs(v, t, wanted, y) && x <= y
    ensures WastesNoMore(w, v, t)
  {
    TenTimes(|EligibleIds(w.gpus, t.minMemory)|, ToU64(FreeMemory(w.gpus)),
             |EligibleIds(v.gpus, t.minMemory)|, ToU64(FreeMemory(v.gpus)), t.required as real, wanted);
  }

  lemma LowerScoreWastesNoMore(w: Worker, v: Worker, t: Task, wanted: real)
    requires wanted == ToU64(t.minMemory * t.required) as real
    requires Score(Simple, w, t).value <= Score(Simple, v, t).value
    ensures WastesNoMore(w, v, t)
  {
    WeighedScore(w, t, wanted);
    WeighedScore(v, t, wanted);
    LighterWastesNoMore(w, v, t, wanted, Score(Simple, w, t).value, Score(Simple, v, t).value);
  }

  /** What the simple policy weighs, in integers. */
  lemma ChosenWastesLeast(workers: map<string, Worker>, t: Task, w: string)
    requires Chosen(Simple, workers, t, w)
    ensures LeastWaste(workers, t, w)
  {
    ChosenIsOptimal(Simple, workers, t, w);
    forall v | v in workers && Candidate(Simple, workers[v], t) ensures WastesNoMore(workers[w], workers[v], t) {
      LowerScoreWastesNoMore(workers[w], workers[v], t, ToU64(t.minMemory * t.required) as real);
    }
  }

  /** The simple policy over candidates whose free memory fits a uint64: the chosen worker has the smallest sum of
      seven times the number of its eligible free GPUs and three times the memory of all its free GPUs. */
  lemma SimpleWastesLeast(workers: map<string, Worker>, t: Task, w: string, v: string)
    requires Chosen(Simple, workers, t, w) && v in workers && Candidate(Simple, workers[v], t)
    requires FreeMemory(workers[w].gpus) < 0x1_0000_0000_0000_0000
    requires FreeMemory(workers[v].gpus) < 0x1_0000_0000_0000_0000
    ensures 7 * |EligibleIds(workers[w].gpus, t.minMemory)| + 3 * FreeMemory(workers[w].gpus)
            <= 7 * |EligibleIds(workers[v].gpus, t.minMemory)| + 3 * FreeMemory(workers[v].gpus)
  {
    ChosenWastesLeast(workers, t, w);
    assert WastesNoMore(workers[w], workers[v], t);
  }

  /** Per GPU, `w` has no more tasks net of eligible free GPUs than `v`.  Both sides are multiplied out. */
  ghost predicate LoadedNoMore(w: Worker, v: Worker, t: Task) {
    && w.gpus != [] && v.gpus != []
    && (|w.tasks| - |EligibleIds(w.gpus, t.minMemory)|) * |v.gpus|
       <= (|v.tasks| - |EligibleIds(v.gpus, t.minMemory)|) * |w.gpus|
  }

  ghost predicate LeastLoad(workers: map<string, Worker>, t: Task, w: string) {
    w in workers && forall v :: v in workers && Candidate(Balanced, workers[v], t) ==>
                      LoadedNoMore(workers[w], workers[v], t)
  }

  lemma MultiplyOut(x: real, y: real, n: real, m: real)
    requires x <= y && n > 0.0 && m > 0.0
    ensures x * n * m <= y * m * n
  {
    assert 0.0 <= (y - x) * n;
    assert 0.0 <= (y - x) * n * m;
  }

  lemma Multiplied(a: int, b: int, n: int, c: int, d: int, m: int)
    requires n > 0 && m > 0
    requires a as real / n as real - b as real / n as real <= c as real / m as real - d as real / m as real
    ensures (a - b) * m <= (c - d) * n
  {
    var x := a as real / n as real - b as real / n as real;
    var y := c as real / m as real - d as real / m as real;
    assert x * n as real == (a - b) as real;
    assert y * m as real == (c - d) as real;
    MultiplyOut(x, y, n as real, m as real);
    assert (a - b) as real * m as real <= (c - d) as real * n as real;
    assert ((a - b) * m) as real <= ((c - d) * n) as real;
  }

  /** What the balanced policy weighs, in integers and across workers of any size. */
  lemma ChosenLoadsLeast(workers: map<string, Worker>, t: Task, w: string)
    requires Chosen(Balanced, workers, t, w) && AllScored(workers, t)
    ensures LeastLoad(workers, t, w)
  {
    ChosenIsOptimal(Balanced, workers, t, w);
    forall v | v in workers && Candidate(Balanced, workers[v], t) ensures LoadedNoMore(workers[w], workers[v], t) {
      Multiplied(|workers[w].tasks|, |EligibleIds(workers[w].gpus, t.minMemory)|, |workers[w].gpus|,
                 |workers[v].tasks|, |EligibleIds(workers[v].gpus, t.minMemory)|, |workers[v].gpus|);
    }
  }

  // ---------------------------------------------------------------- what eligibility and free memory are

  lemma SplitLast(a: seq<GPU>, b: seq<GPU>)
    requires b != []
    ensures (a + b)[|a + b| - 1] == b[|b| - 1] && (a + b)[..|a + b| - 1] == a + b[..|b| - 1]
  {
  }

  /** Free memory is a sum over the list: nothing for no GPU, the memory of one GPU if it is free, and additive. */
  lemma {:induction false} FreeMemoryAdds(a: seq<GPU>, b: seq<GPU>, g: GPU)
    ensures FreeMemory([]) == 0
    ensures FreeMemory([g]) == if g.available then g.memory else 0
    ensures FreeMemory(a + b) == FreeMemory(a) + FreeMemory(b)
  {
    assert [g][..0] == [];
    if b == [] {
      assert a + b == a;
    } else {
      SplitLast(a, b);
      FreeMemoryAdds(a, b[..|b| - 1], g);
    }
  }

  /** The eligible ids are collected in list order: none for no GPU, the id of one GPU if it is free and large
      enough, and list after list. */
  lemma {:induction false} EligibleIdsAppend(a: seq<GPU>, b: seq<GPU>, g: GPU, m: nat)
    ensures EligibleIds([], m) == []
    ensures EligibleIds([g], m) == if g.available && m <= g.memory then [g.id] else []
    ensures EligibleIds(a + b, m) == EligibleIds(a, m) + EligibleIds(b, m)
  {
    assert [g][..0] == [];
    if b == [] {
      assert a + b == a;
    } else {
      SplitLast(a, b);
      EligibleIdsAppend(a, b[..|b| - 1], g, m);
    }
  }

  lemma ScaleUp(a: real, b: real, c: real, d: real, n: real)
    requires n > 0.0 && a / n - b / n <= c / n - d / n
    ensures a - b <= c - d
  {
    assert a / n * n == a && b / n * n == b && c / n * n == c && d / n * n == d;
    var x, y := a / n - b / n, c / n - d / n;
    assert x * n <= y * n;
    assert x * n == a - b && y * n == c - d;
  }
}
