/** The worker's GPU allocator: four named strategies and a default. */
module Allocation {
  import opened Cluster
  import opened Sorting

  datatype Gpu = Gpu(id: string, memory: U64, cores: U32, bandwidth: U64, available: bool)

  /** Positions of the available GPUs, in list order. */
  ghost function Free(gpus: seq<Gpu>): seq<nat> {
    if gpus == [] then []
    else
      var last := |gpus| - 1;
      Free(gpus[..last]) + if gpus[last].available then [last] else []
  }

  lemma {:induction false} FreeMember(gpus: seq<Gpu>, x: nat)
    ensures x in Free(gpus) <==> x < |gpus| && gpus[x].available
  {
    if gpus != [] {
      FreeMember(gpus[..|gpus| - 1], x);
    }
  }

  /** The free positions are listed in list order. */
  lemma {:induction false} FreeInOrder(gpus: seq<Gpu>)
    ensures Increasing(Free(gpus))
  {
    if gpus != [] {
      var last := |gpus| - 1;
      FreeInOrder(gpus[..last]);
      forall x | x in Free(gpus[..last]) ensures x < last {
        FreeMember(gpus[..last], x);
      }
      IncreasingAppend(Free(gpus[..last]), last);
    }
  }

  lemma FreeDistinct(gpus: seq<Gpu>)
    ensures NoDuplicates(Free(gpus))
  {
    FreeInOrder(gpus);
  }

  ghost function Taken(gpus: seq<Gpu>, chosen: seq<nat>): seq<Gpu> {
    seq(|gpus|, i requires 0 <= i < |gpus| => if i in chosen then gpus[i].(available := false) else gpus[i])
  }

  ghost function IdsAt(gpus: seq<Gpu>, chosen: seq<nat>): seq<string>
    requires forall k :: 0 <= k < |chosen| ==> chosen[k] < |gpus|
  {
    seq(|chosen|, k requires 0 <= k < |chosen| => gpus[chosen[k]].id)
  }

  /** The comparison is made on the length truncated to uint32. */
  ghost predicate Enough(gpus: seq<Gpu>, required: U32) {
    required <= ToU32(|Free(gpus)|)
  }

  /** The contract all strategies share: with enough free GPUs exactly `required` distinct free ones are
      chosen, otherwise none. */
  ghost predicate Allocated(gpus: seq<Gpu>, required: U32, chosen: seq<nat>) {
    && |chosen| == (if Enough(gpus, required) then required else 0)
    && NoDuplicates(chosen)
    && forall k :: 0 <= k < |chosen| ==> chosen[k] < |gpus| && gpus[chosen[k]].available
  }

  /** Nothing free that was left behind beats something that was chosen. */
  ghost predicate Unbeaten(gpus: seq<Gpu>, chosen: seq<nat>, beats: (Gpu, Gpu) -> bool) {
    forall i, k :: 0 <= i < |gpus| && gpus[i].available && i !in chosen && 0 <= k < |chosen| && chosen[k] < |gpus| ==>
      !beats(gpus[i], gpus[chosen[k]])
  }

  /** The `k`-th position that "spread" visits in a list of `n`: even ones first, then odd ones. */
  function SpreadPosition(n: nat, k: nat): (x: nat)
    ensures k < n ==> x < n
  {
    if 2 * k < n then 2 * k else 2 * (k - (n + 1) / 2) + 1
  }

  /** When "spread" visits position `x`. */
  ghost function SpreadRank(n: nat, x: nat): nat {
    if x % 2 == 0 then x / 2 else (n + 1) / 2 + x / 2
  }

  ghost function SpreadChoice(free: seq<nat>, count: nat): seq<nat>
    requires count <= |free|
  {
    seq(count, k requires 0 <= k < count => free[SpreadPosition(|free|, k)])
  }

  predicate MoreMemory(a: Gpu, b: Gpu) { a.memory > b.memory }

  predicate Faster(a: Gpu, b: Gpu) {
    if a.cores > 0 && b.cores > 0 then a.cores > b.cores else a.bandwidth > b.bandwidth
  }

  /** A comparator of GPUs, applied to positions. */
  function AtPositions(gpus: seq<Gpu>, beats: (Gpu, Gpu) -> bool): (nat, nat) -> bool {
    (a: nat, b: nat) => a < |gpus| && b < |gpus| && beats(gpus[a], gpus[b])
  }

  ghost predicate Offered(gpus: seq<Gpu>, i: int) {
    0 <= i < |gpus| && gpus[i].available
  }

  /** Whenever the bandwidth of a free GPU without cores lies between those of two free GPUs with cores, cores
      order these two as bandwidth does. */
  ghost predicate BandwidthAgrees(gpus: seq<Gpu>) {
    forall x, y, n ::
      Offered(gpus, x) && Offered(gpus, y) && Offered(gpus, n)
      && gpus[x].cores > 0 && gpus[y].cores > 0 && gpus[n].cores == 0
      && gpus[y].bandwidth <= gpus[n].bandwidth <= gpus[x].bandwidth ==>
        gpus[x].cores > gpus[y].cores || (gpus[x].cores == gpus[y].cores && gpus[x].bandwidth == gpus[y].bandwidth)
  }

  /** What each strategy adds to the shared contract. */
  ghost predicate Strategic(strategy: string, gpus: seq<Gpu>, required: U32, chosen: seq<nat>) {
    if !Enough(gpus, required) then chosen == []
    else if strategy == "spread" then chosen == SpreadChoice(Free(gpus), required)
    else if strategy == "memory" then Unbeaten(gpus, chosen, MoreMemory)
    else if strategy == "performance" then BandwidthAgrees(gpus) ==> Unbeaten(gpus, chosen, Faster)
    else chosen == Free(gpus)[..required]
  }

  // ---------------------------------------------------------------- facts about "spread"

  /** Evens and odds together visit every position of the list exactly once. */
  lemma SpreadVisitsAll(n: nat)
    ensures forall j, k :: 0 <= j < k < n ==> SpreadPosition(n, j) != SpreadPosition(n, k)
    ensures forall x :: 0 <= x < n ==> SpreadRank(n, x) < n && SpreadPosition(n, SpreadRank(n, x)) == x
  {
    forall j, k | 0 <= j < k < n ensures SpreadPosition(n, j) != SpreadPosition(n, k) {
      assert SpreadRank(n, SpreadPosition(n, j)) == j;
    }
  }

  /** For a demand of at most half the list, rounded up, no two visited positions are neighbours. */
  lemma SpreadKeepsApart(n: nat, required: nat, j: nat, k: nat)
    requires required <= (n + 1) / 2 && j < required && k < required && j != k
    ensures SpreadPosition(n, j) + 1 != SpreadPosition(n, k) && SpreadPosition(n, k) + 1 != SpreadPosition(n, j)
  {
  }

  /** One more task than that and two neighbours are visited, when the list has two entries at all. */
  lemma SpreadMustTouch(n: nat, required: nat)
    requires (n + 1) / 2 < required <= n
    ensures exists j, k :: 0 <= j < required && 0 <= k < required && SpreadPosition(n, j) + 1 == SpreadPosition(n, k)
  {
    assert SpreadPosition(n, 0) + 1 == SpreadPosition(n, (n + 1) / 2);
  }

  lemma PrefixAllocates(gpus: seq<Gpu>, required: U32, order: seq<nat>)
    requires Enough(gpus, required) && multiset(order) == multiset(Free(gpus))
    ensures required <= |order| && Allocated(gpus, required, order[..required])
  {
    FreeDistinct(gpus);
    SamePool(order, Free(gpus));
    forall k | 0 <= k < |order| ensures order[k] < |gpus| && gpus[order[k]].available {
      assert order[k] in multiset(order);
      FreeMember(gpus, order[k]);
    }
  }

  lemma SamePool(a: seq<nat>, b: seq<nat>)
    requires multiset(a) == multiset(b) && NoDuplicates(b)
    ensures |a| == |b| && NoDuplicates(a)
  {
    assert |multiset(a)| == |a| && |multiset(b)| == |b|;
    DistinctMultiset(b);
    forall i, j | 0 <= i < j < |a| ensures a[i] != a[j] {
      assert a == a[..j] + [a[j]] + a[j + 1..];
      assert multiset(a)[a[j]] >= 1 + multiset(a[..j])[a[j]];
      assert a[..j][i] == a[i];
    }
  }

  /** A prefix of the sorted positions leaves nothing better behind. */
  lemma SortedPrefixUnbeaten(gpus: seq<Gpu>, required: U32, order: seq<nat>, beats: (Gpu, Gpu) -> bool)
    requires Enough(gpus, required) && multiset(order) == multiset(Free(gpus)) && required <= |order|
    requires Sorted(order, AtPositions(gpus, beats))
    ensures Unbeaten(gpus, order[..required], beats)
  {
    var chosen := order[..required];
    forall i, k | 0 <= i < |gpus| && gpus[i].available && i !in chosen && 0 <= k < |chosen| && chosen[k] < |gpus|
      ensures !beats(gpus[i], gpus[chosen[k]])
    {
      FreeMember(gpus, i);
      assert i in multiset(order);
      var j :| 0 <= j < |order| && order[j] == i;
      assert forall l :: 0 <= l < required ==> order[l] == chosen[l] && chosen[l] in chosen;
      assert !AtPositions(gpus, beats)(order[j], order[k]);
    }
  }

  lemma OnlyOffered(gpus: seq<Gpu>)
    ensures forall x :: x in Free(gpus) <==> Offered(gpus, x)
  {
    forall x ensures x in Free(gpus) <==> Offered(gpus, x) {
      if x >= 0 {
        FreeMember(gpus, x);
      }
    }
  }

  /** The comparator is a strict weak order on the free GPUs. */
  ghost predicate Orders(gpus: seq<Gpu>, beats: (Gpu, Gpu) -> bool) {
    && (forall a, b :: Offered(gpus, a) && Offered(gpus, b) && beats(gpus[a], gpus[b]) ==> !beats(gpus[b], gpus[a]))
    && (forall a, b, c ::
          Offered(gpus, a) && Offered(gpus, b) && Offered(gpus, c)
          && !beats(gpus[a], gpus[b]) && !beats(gpus[b], gpus[c])
          ==> !beats(gpus[a], gpus[c]))
  }

  lemma OrdersPositions(gpus: seq<Gpu>, beats: (Gpu, Gpu) -> bool)
    requires Orders(gpus, beats)
    ensures StrictWeakOrder(AtPositions(gpus, beats), Free(gpus))
  {
    var less, free := AtPositions(gpus, beats), Free(gpus);
    OnlyOffered(gpus);
    forall a, b | a in free && b in free && less(a, b) ensures !less(b, a) {
    }
    forall a, b, c | a in free && b in free && c in free && !less(a, b) && !less(b, c) ensures !less(a, c) {
    }
  }

  /** One instance of negative transitivity. */
  lemma ComparatorIsTransitive(gpus: seq<Gpu>, a: int, b: int, c: int)
    requires BandwidthAgrees(gpus) && Offered(gpus, a) && Offered(gpus, b) && Offered(gpus, c)
    requires !Faster(gpus[a], gpus[b]) && !Faster(gpus[b], gpus[c])
    ensures !Faster(gpus[a], gpus[c])
  {
  }

  lemma OrderMeansAgreement(gpus: seq<Gpu>, x: int, y: int, n: int)
    requires Orders(gpus, Faster) && Offered(gpus, x) && Offered(gpus, y) && Offered(gpus, n)
    requires gpus[x].cores > 0 && gpus[y].cores > 0 && gpus[n].cores == 0
    requires gpus[y].bandwidth <= gpus[n].bandwidth <= gpus[x].bandwidth
    ensures gpus[x].cores > gpus[y].cores || (gpus[x].cores == gpus[y].cores && gpus[x].bandwidth == gpus[y].bandwidth)
  {
    assert !Faster(gpus[y], gpus[n]) && !Faster(gpus[n], gpus[x]);
    assert !Faster(gpus[y], gpus[x]);
    if gpus[x].cores == gpus[y].cores {
      assert !Faster(gpus[x], gpus[y]);
      assert gpus[n].bandwidth > gpus[y].bandwidth ==> Faster(gpus[n], gpus[y]);
      assert gpus[n].bandwidth < gpus[x].bandwidth ==> Faster(gpus[x], gpus[n]);
    }
  }

  /** The "performance" comparator is a strict weak order on the free GPUs, so that sorting by it means
      something, if and only if bandwidth agrees with cores; a mix of GPUs with and without cores need not. */
  lemma ComparatorOrdersIff(gpus: seq<Gpu>)
    ensures Orders(gpus, Faster) <==> BandwidthAgrees(gpus)
  {
    if BandwidthAgrees(gpus) {
      forall a, b, c | Offered(gpus, a) && Offered(gpus, b) && Offered(gpus, c)
                       && !Faster(gpus[a], gpus[b]) && !Faster(gpus[b], gpus[c])
        ensures !Faster(gpus[a], gpus[c])
      {
        ComparatorIsTransitive(gpus, a, b, c);
      }
    }
    if Orders(gpus, Faster) {
      forall x, y, n | Offered(gpus, x) && Offered(gpus, y) && Offered(gpus, n)
                       && gpus[x].cores > 0 && gpus[y].cores > 0 && gpus[n].cores == 0
                       && gpus[y].bandwidth <= gpus[n].bandwidth <= gpus[x].bandwidth
        ensures gpus[x].cores > gpus[y].cores
                || (gpus[x].cores == gpus[y].cores && gpus[x].bandwidth == gpus[y].bandwidth)
      {
        OrderMeansAgreement(gpus, x, y, n);
      }
    }
  }

  /** A mix that does not: the first GPU beats the second and the second the third, but the first does not beat
      the third. */
  lemma MixedComparatorNeedNotOrder() returns (gpus: seq<Gpu>)
    ensures |gpus| == 3 && Faster(gpus[0], gpus[1]) && Faster(gpus[1], gpus[2]) && !Faster(gpus[0], gpus[2])
    ensures !BandwidthAgrees(gpus)
  {
    gpus := [Gpu("x", 0, 1, 30, true), Gpu("y", 0, 0, 20, true), Gpu("z", 0, 2, 10, true)];
    assert Offered(gpus, 0) && Offered(gpus, 1) && Offered(gpus, 2);
  }

  // ---------------------------------------------------------------- the strategies by positions

  /** There are enough GPUs if and only if the number of free ones, modulo 2^32, covers the demand. */
  lemma EnoughCountWraps(gpus: seq<Gpu>, required: U32, all: seq<nat>)
    requires NoDuplicates(all) && forall i :: i in all <==> Offered(gpus, i)
    ensures Enough(gpus, required) <==> required <= |all| % 0x1_0000_0000
  {
    var free := Free(gpus);
    FreeDistinct(gpus);
    forall i | i in free || i in all ensures i in free && i in all {
      FreeMember(gpus, i);
    }
    NoLonger(free, all);
    NoLonger(all, free);
  }

  /** "memory" leaves no free GPU behind that has more memory than one it took. */
  lemma MemoryLeavesNothingLarger(gpus: seq<Gpu>, required: U32, chosen: seq<nat>, i: nat, k: nat)
    requires Enough(gpus, required) && Allocated(gpus, required, chosen) && Strategic("memory", gpus, required, chosen)
    requires i < |gpus| && gpus[i].available && i !in chosen && k < |chosen|
    ensures gpus[i].memory <= gpus[chosen[k]].memory
  {
    assert !MoreMemory(gpus[i], gpus[chosen[k]]);
  }

  /** "performance" leaves no free GPU behind that has more cores or, if one of the two reports none, more bandwidth
      than one it took, provided bandwidth agrees with cores. */
  lemma PerformanceLeavesNothingFaster(gpus: seq<Gpu>, required: U32, chosen: seq<nat>, i: nat, k: nat)
    requires Enough(gpus, required) && Allocated(gpus, required, chosen) && BandwidthAgrees(gpus)
    requires Strategic("performance", gpus, required, chosen)
    requires i < |gpus| && gpus[i].available && i !in chosen && k < |chosen|
    ensures var left, taken := gpus[i], gpus[chosen[k]];
            if left.cores > 0 && taken.cores > 0 then left.cores <= taken.cores else left.bandwidth <= taken.bandwidth
  {
    assert !Faster(gpus[i], gpus[chosen[k]]);
  }

  /** "packed", and any strategy without a name of its own, takes the first free GPUs of the list. */
  lemma PackedTakesFirst(strategy: string, gpus: seq<Gpu>, required: U32, chosen: seq<nat>, i: nat, k: nat)
    requires strategy !in {"spread", "memory", "performance"}
    requires Enough(gpus, required) && Strategic(strategy, gpus, required, chosen)
    requires i < |gpus| && gpus[i].available && i !in chosen && k < |chosen|
    ensures chosen[k] < i
  {
    var free := Free(gpus);
    FreeInOrder(gpus);
    FreeMember(gpus, i);
    var j :| 0 <= j < |free| && free[j] == i;
    assert forall l :: 0 <= l < required ==> chosen[l] == free[l] && chosen[l] in chosen;
    assert free[k] < free[j];
  }

  /** The `j`-th free GPU has `j` free GPUs in front of it. */
  lemma {:induction false} FreeRank(gpus: seq<Gpu>, j: nat)
    requires j < |Free(gpus)|
    ensures Free(gpus)[j] < |gpus| && |Free(gpus[..Free(gpus)[j]])| == j
  {
    var last := |gpus| - 1;
    var x := Free(gpus)[j];
    if j < |Free(gpus[..last])| {
      FreeRank(gpus[..last], j);
      assert gpus[..last][..x] == gpus[..x];
    }
  }

  /** "spread" goes through the free GPUs with an even number of free ones in front of them, then through the
      others: its `k`-th GPU has that many in front of it. */
  lemma SpreadAlternates(gpus: seq<Gpu>, required: U32, chosen: seq<nat>, k: nat)
    requires Enough(gpus, required) && Strategic("spread", gpus, required, chosen) && k < |chosen|
    ensures var n := |Free(gpus)|;
            && chosen[k] < |gpus| && gpus[chosen[k]].available
            && |Free(gpus[..chosen[k]])| == if k < (n + 1) / 2 then 2 * k else 2 * (k - (n + 1) / 2) + 1
  {
    var j := SpreadPosition(|Free(gpus)|, k);
    FreeRank(gpus, j);
    FreeMember(gpus, chosen[k]);
  }

  // ---------------------------------------------------------------- the allocator as it runs

  method CollectFree(gpus: seq<Gpu>) returns (free: seq<nat>)
    ensures free == Free(gpus)
  {
    free := [];
    for i := 0 to |gpus|
      invariant free == Free(gpus[..i])
    {
      assert gpus[..i + 1][..i] == gpus[..i];
      if gpus[i].available {
        free := free + [i];
      }
    }
    assert gpus[..|gpus|] == gpus;
  }

  lemma TakeOneMore(gpus: seq<Gpu>, chosen: seq<nat>, g: nat)
    requires g < |gpus| && forall k :: 0 <= k < |chosen| ==> chosen[k] < |gpus|
    ensures var t := Taken(gpus, chosen);
            Taken(gpus, chosen + [g]) == t[g := t[g].(available := false)]
    ensures IdsAt(gpus, chosen + [g]) == IdsAt(gpus, chosen) + [gpus[g].id]
  {
  }

  /** The GPUs taken so far are the first choices of "spread". */
  ghost predicate SpreadSoFar(gpus: seq<Gpu>, free: seq<nat>, after: seq<Gpu>, ids: seq<string>) {
    && (forall k :: 0 <= k < |free| ==> free[k] < |gpus|)
    && |ids| <= |free|
    && after == Taken(gpus, SpreadChoice(free, |ids|)) && ids == IdsAt(gpus, SpreadChoice(free, |ids|))
  }

  lemma SpreadOneMore(gpus: seq<Gpu>, free: seq<nat>, after: seq<Gpu>, ids: seq<string>, i: nat)
    requires SpreadSoFar(gpus, free, after, ids)
    requires |ids| < |free| && i < |free| && SpreadPosition(|free|, |ids|) == i
    ensures |after| == |gpus|
    ensures SpreadSoFar(gpus, free, after[free[i] := after[free[i]].(available := false)], ids + [gpus[free[i]].id])
  {
    assert SpreadChoice(free, |ids| + 1) == SpreadChoice(free, |ids|) + [free[i]];
    TakeOneMore(gpus, SpreadChoice(free, |ids|), free[i]);
  }

  /** The GPUs taken so far are the first `i` of the given order. */
  ghost predicate FirstSoFar(gpus: seq<Gpu>, order: seq<nat>, i: nat, after: seq<Gpu>, ids: seq<string>) {
    && (forall k :: 0 <= k < |order| ==> order[k] < |gpus|)
    && i <= |order| && after == Taken(gpus, order[..i]) && ids == IdsAt(gpus, order[..i])
  }

  lemma FirstOneMore(gpus: seq<Gpu>, order: seq<nat>, i: nat, after: seq<Gpu>, ids: seq<string>)
    requires FirstSoFar(gpus, order, i, after, ids) && i < |order|
    ensures |after| == |gpus|
    ensures FirstSoFar(gpus, order, i + 1, after[order[i] := after[order[i]].(available := false)],
                       ids + [gpus[order[i]].id])
  {
    assert order[..i + 1] == order[..i] + [order[i]];
    TakeOneMore(gpus, order[..i], order[i]);
  }

  /** Take GPUs in the given order until the demand is met. */
  method TakeFirst(gpus: seq<Gpu>, order: seq<nat>, required: U32) returns (after: seq<Gpu>, ids: seq<string>)
    requires required <= |order| && forall k :: 0 <= k < |order| ==> order[k] < |gpus|
    ensures after == Taken(gpus, order[..required]) && ids == IdsAt(gpus, order[..required])
  {
    after, ids := gpus, [];
    var i := 0;
    while i < required && i < |order|
      invariant 0 <= i <= required && FirstSoFar(gpus, order, i, after, ids)
    {
      FirstOneMore(gpus, order, i, after, ids);
      after := after[order[i] := after[order[i]].(available := false)];
      ids := ids + [gpus[order[i]].id];
      i := i + 1;
    }
  }

  /** The number of even and of odd positions below `i`. */
  ghost function Evens(i: nat): nat { (i + 1) / 2 }
  ghost function Odds(i: nat): nat { i / 2 }

  lemma SpreadCounts(n: nat, i: nat)
    requires i < n
    ensures i % 2 == 0 ==> SpreadPosition(n, Evens(i)) == i && Evens(i + 1) == Evens(i) + 1 && Odds(i + 1) == Odds(i)
    ensures i % 2 == 1 ==>
              SpreadPosition(n, Evens(n) + Odds(i)) == i && Evens(i + 1) == Evens(i) && Odds(i + 1) == Odds(i) + 1
    ensures Evens(i + 1) <= Evens(n) && Evens(n) + Odds(i + 1) <= n
  {
  }

  ghost function Min(a: nat, b: nat): nat { if a <= b then a else b }

  /** One loop of "spread": the free GPUs at positions of the given parity, until the demand is met. */
  method TakeParity(gpus: seq<Gpu>, free: seq<nat>, required: U32, parity: nat, before: seq<Gpu>,
                    idsBefore: seq<string>)
    returns (after: seq<Gpu>, ids: seq<string>)
    requires required <= |free| && parity < 2
    requires |idsBefore| == Min(if parity == 0 then 0 else Evens(|free|), required)
    requires SpreadSoFar(gpus, free, before, idsBefore)
    ensures |ids| == Min(if parity == 0 then Evens(|free|) else |free|, required)
    ensures SpreadSoFar(gpus, free, after, ids)
  {
    after, ids := before, idsBefore;
    for i := 0 to |free|
      invariant |ids| == Min(if parity == 0 then Evens(i) else Evens(|free|) + Odds(i), required)
      invariant SpreadSoFar(gpus, free, after, ids)
    {
      SpreadCounts(|free|, i);
      if i % 2 == parity && |ids| < required {
        SpreadOneMore(gpus, free, after, ids, i);
        after := after[free[i] := after[free[i]].(available := false)];
        ids := ids + [gpus[free[i]].id];
      }
    }
  }

  /** Even positions first, then odd ones. */
  method TakeSpread(gpus: seq<Gpu>, free: seq<nat>, required: U32) returns (after: seq<Gpu>, ids: seq<string>)
    requires required <= |free| && forall k :: 0 <= k < |free| ==> free[k] < |gpus|
    ensures after == Taken(gpus, SpreadChoice(free, required)) && ids == IdsAt(gpus, SpreadChoice(free, required))
  {
    after, ids := TakeParity(gpus, free, required, 0, gpus, []);
    after, ids := TakeParity(gpus, free, required, 1, after, ids);
  }

  lemma SpreadAllocates(gpus: seq<Gpu>, required: U32)
    requires Enough(gpus, required)
    ensures Allocated(gpus, required, SpreadChoice(Free(gpus), required))
  {
    var free := Free(gpus);
    FreeDistinct(gpus);
    SpreadVisitsAll(|free|);
    forall k | 0 <= k < |free| ensures free[k] < |gpus| && gpus[free[k]].available {
      FreeMember(gpus, free[k]);
    }
    var chosen := SpreadChoice(free, required);
    forall j, k | 0 <= j < k < |chosen| ensures chosen[j] != chosen[k] {
      assert SpreadPosition(|free|, j) != SpreadPosition(|free|, k);
    }
  }

  method AllocateGPUs(strategy: string, gpus: seq<Gpu>, required: U32)
    returns (after: seq<Gpu>, ids: seq<string>, ghost chosen: seq<nat>)
    ensures |after| == |gpus| && |ids| == if Enough(gpus, required) then required else 0
    ensures Allocated(gpus, required, chosen) && Strategic(strategy, gpus, required, chosen)
    ensures after == Taken(gpus, chosen) && ids == IdsAt(gpus, chosen)
    ensures |ids| == |chosen| && forall k :: 0 <= k < |chosen| ==> ids[k] == gpus[chosen[k]].id
    ensures forall i :: 0 <= i < |gpus| ==> after[i] == gpus[i].(available := gpus[i].available && i !in chosen)
  {
    var free := CollectFree(gpus);
    if ToU32(|free|) < required {
      return gpus, [], [];
    }
    PrefixAllocates(gpus, required, free);
    forall k | 0 <= k < |free| ensures free[k] < |gpus| {
      FreeMember(gpus, free[k]);
    }
    if strategy == "spread" {
      SpreadAllocates(gpus, required);
      after, ids := TakeSpread(gpus, free, required);
      chosen := SpreadChoice(free, required);
    } else if strategy == "memory" {
      var order := SortSlice<nat>(free, AtPositions(gpus, MoreMemory));
      PrefixAllocates(gpus, required, order);
      OrdersPositions(gpus, MoreMemory);
      SortedPrefixUnbeaten(gpus, required, order, MoreMemory);
      after, ids := TakeSorted(gpus, order, free, required);
      chosen := order[..required];
    } else if strategy == "performance" {
      var order := SortSlice<nat>(free, AtPositions(gpus, Faster));
      PrefixAllocates(gpus, required, order);
      ComparatorOrdersIff(gpus);
      if BandwidthAgrees(gpus) {
        OrdersPositions(gpus, Faster);
        SortedPrefixUnbeaten(gpus, required, order, Faster);
      }
      after, ids := TakeSorted(gpus, order, free, required);
      chosen := order[..required];
    } else {
      after, ids := TakeFirst(gpus, free, required);
      chosen := free[..required];
    }
  }

  method TakeSorted(gpus: seq<Gpu>, order: seq<nat>, ghost free: seq<nat>, required: U32)
    returns (after: seq<Gpu>, ids: seq<string>)
    requires required <= |order| && multiset(order) == multiset(free)
    requires forall k :: 0 <= k < |free| ==> free[k] < |gpus|
    ensures forall k :: 0 <= k < |order| ==> order[k] < |gpus|
    ensures after == Taken(gpus, order[..required]) && ids == IdsAt(gpus, order[..required])
  {
    forall k | 0 <= k < |order| ensures order[k] < |gpus| {
      assert order[k] in multiset(free);
    }
    after, ids := TakeFirst(gpus, order, required);
  }
}
