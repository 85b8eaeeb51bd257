/** Go's `sort.Slice`.  Its contract: a permutation, ordered whenever the comparator is a strict weak order
    on the elements.  Up to twelve elements it is a plain insertion sort, which fixes the result even when
    the comparator is not one; longer slices leave ties and misordered results open. */
module Sorting {

  /** `less` is asymmetric and negatively transitive on the elements of `xs`. */
  ghost predicate StrictWeakOrder<T(!new)>(less: (T, T) -> bool, xs: seq<T>) {
    && (forall a, b :: a in xs && b in xs && less(a, b) ==> !less(b, a))
    && (forall a, b, c :: a in xs && b in xs && c in xs && !less(a, b) && !less(b, c) ==> !less(a, c))
  }

  ghost predicate Sorted<T>(ys: seq<T>, less: (T, T) -> bool) {
    forall i, j :: 0 <= i < j < |ys| ==> !less(ys[j], ys[i])
  }

  /** Append `x` and swap it to the left as long as it is less than its neighbour. */
  function Insert<T>(x: T, ys: seq<T>, less: (T, T) -> bool): (zs: seq<T>)
    ensures multiset(zs) == multiset(ys) + multiset{x}
  {
    if ys == [] then [x]
    else
      var last := |ys| - 1;
      assert ys == ys[..last] + [ys[last]];
      if less(x, ys[last]) then Insert(x, ys[..last], less) + [ys[last]] else ys + [x]
  }

  function InsertionSort<T>(xs: seq<T>, less: (T, T) -> bool): (ys: seq<T>)
    ensures multiset(ys) == multiset(xs)
  {
    if xs == [] then []
    else
      var last := |xs| - 1;
      assert xs == xs[..last] + [xs[last]];
      Insert(xs[last], InsertionSort(xs[..last], less), less)
  }

  lemma AppendedSorted<T(!new)>(x: T, ys: seq<T>, less: (T, T) -> bool)
    requires Sorted(ys, less) && StrictWeakOrder(less, ys + [x])
    requires ys == [] || !less(x, ys[|ys| - 1])
    ensures Sorted(ys + [x], less)
  {
    forall i | 0 <= i < |ys| ensures !less(x, ys[i]) {
      var last := ys[|ys| - 1];
      assert x in ys + [x] && ys[i] in ys + [x] && last in ys + [x];
      assert i == |ys| - 1 || !less(last, ys[i]);
    }
  }

  lemma LargestLast<T>(head: seq<T>, last: T, less: (T, T) -> bool)
    requires Sorted(head, less) && forall i :: 0 <= i < |head| ==> !less(last, head[i])
    ensures Sorted(head + [last], less)
  {
  }

  lemma {:induction false} InsertSorted<T(!new)>(x: T, ys: seq<T>, less: (T, T) -> bool)
    requires Sorted(ys, less) && StrictWeakOrder(less, ys + [x])
    ensures Sorted(Insert(x, ys, less), less)
  {
    if ys == [] || !less(x, ys[|ys| - 1]) {
      AppendedSorted(x, ys, less);
    } else {
      var last, front := ys[|ys| - 1], ys[..|ys| - 1];
      assert x in ys + [x] && last in ys + [x];
      assert forall y :: y in front + [x] ==> y in ys + [x];
      InsertSorted(x, front, less);
      var head := Insert(x, front, less);
      forall i | 0 <= i < |head| ensures !less(last, head[i]) {
        assert head[i] in multiset(head);
      }
      LargestLast(head, last, less);
    }
  }

  lemma FromFront<T(!new)>(xs: seq<T>, ys: seq<T>, x: T)
    requires xs != [] && multiset(ys) == multiset(xs[..|xs| - 1]) && x in ys + [xs[|xs| - 1]]
    ensures x in xs
  {
    if x in ys {
      assert x in multiset(ys) && x in xs[..|xs| - 1];
    }
  }

  lemma {:induction false} InsertionSortSorts<T(!new)>(xs: seq<T>, less: (T, T) -> bool)
    requires StrictWeakOrder(less, xs)
    ensures Sorted(InsertionSort(xs, less), less)
  {
    if xs != [] {
      var last := |xs| - 1;
      var front := InsertionSort(xs[..last], less);
      InsertionSortSorts(xs[..last], less);
      forall y | y in front + [xs[last]] ensures y in xs {
        FromFront(xs, front, y);
      }
      InsertSorted(xs[last], front, less);
    }
  }

  lemma SortedIfOrdered<T(!new)>(xs: seq<T>, less: (T, T) -> bool)
    ensures StrictWeakOrder(less, xs) ==> Sorted(InsertionSort(xs, less), less)
  {
    if StrictWeakOrder(less, xs) {
      InsertionSortSorts(xs, less);
    }
  }

  /** An element that nothing is less than stays in front of everything that comes after it. */
  lemma {:induction false} LeaderStays<T(!new)>(xs: seq<T>, less: (T, T) -> bool)
    requires xs != [] && forall x :: x in xs ==> !less(x, xs[0])
    ensures InsertionSort(xs, less)[0] == xs[0]
  {
    var last := |xs| - 1;
    if last > 0 {
      LeaderStays(xs[..last], less);
      InsertBehind(xs[last], InsertionSort(xs[..last], less), less);
    }
  }

  lemma {:induction false} InsertBehind<T(!new)>(x: T, ys: seq<T>, less: (T, T) -> bool)
    requires ys != [] && !less(x, ys[0])
    ensures Insert(x, ys, less)[0] == ys[0]
  {
    var last := |ys| - 1;
    if last > 0 && less(x, ys[last]) {
      InsertBehind(x, ys[..last], less);
    }
  }

  /** An element that is not less than the last one so far stays where it is. */
  lemma AppendStays<T>(xs: seq<T>, x: T, less: (T, T) -> bool)
    requires xs == [] || (InsertionSort(xs, less) == xs && !less(x, xs[|xs| - 1]))
    ensures InsertionSort(xs + [x], less) == xs + [x]
  {
    assert (xs + [x])[..|xs|] == xs;
  }

  lemma OneMoreSorted<T>(xs: seq<T>, i: nat, less: (T, T) -> bool)
    requires i < |xs|
    ensures InsertionSort(xs[..i + 1], less) == Insert(xs[i], InsertionSort(xs[..i], less), less)
  {
    assert xs[..i + 1][..i] == xs[..i];
  }

  method SortSlice<T(!new)>(xs: seq<T>, less: (T, T) -> bool) returns (ys: seq<T>)
    ensures multiset(ys) == multiset(xs)
    ensures StrictWeakOrder(less, xs) ==> Sorted(ys, less)
    ensures |xs| <= 12 ==> ys == InsertionSort(xs, less)
  {
    ys := [];
    for i := 0 to |xs|
      invariant ys == InsertionSort(xs[..i], less)
    {
      OneMoreSorted(xs, i, less);
      ys := Insert(xs[i], ys, less);
    }
    assert xs[..|xs|] == xs;
    SortedIfOrdered(xs, less);
  }
}
