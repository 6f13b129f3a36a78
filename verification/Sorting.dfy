/** Sorting by a strict order: the result depends on the elements alone, not on the order
    in which they were presented. */
module Sorting {

  ghost predicate StrictOrder<T(!new)>(less: (T, T) -> bool) {
    && (forall a, b :: less(a, b) ==> !less(b, a))
    && (forall a, b, c :: less(a, b) && less(b, c) ==> less(a, c))
  }

  predicate Ordered<T>(xs: seq<T>, less: (T, T) -> bool) {
    forall i, j :: 0 <= i < j < |xs| ==> less(xs[i], xs[j])
  }

  /** Any two elements at different positions are comparable: their keys are distinct. */
  predicate Comparable<T>(xs: seq<T>, less: (T, T) -> bool) {
    forall i, j :: 0 <= i < j < |xs| ==> less(xs[i], xs[j]) || less(xs[j], xs[i])
  }

  function Insert<T>(xs: seq<T>, x: T, less: (T, T) -> bool): (r: seq<T>)
    ensures multiset(r) == multiset(xs) + multiset{x}
  {
    if xs == [] then [x]
    else if less(x, xs[0]) then [x] + xs
    else
      assert xs == [xs[0]] + xs[1..];
      [xs[0]] + Insert(xs[1..], x, less)
  }

  function Sort<T>(xs: seq<T>, less: (T, T) -> bool): (r: seq<T>)
    ensures multiset(r) == multiset(xs)
    ensures |r| == |xs|
  {
    if xs == [] then []
    else
      var last := |xs| - 1;
      assert xs == xs[..last] + [xs[last]];
      var r := Insert(Sort(xs[..last], less), xs[last], less);
      assert |multiset(r)| == |r| && |multiset(xs)| == |xs|;
      r
  }

  lemma {:induction false} InsertKeepsOrder<T(!new)>(xs: seq<T>, x: T, less: (T, T) -> bool)
    requires StrictOrder(less) && Ordered(xs, less)
    requires forall i :: 0 <= i < |xs| ==> less(xs[i], x) || less(x, xs[i])
    ensures Ordered(Insert(xs, x, less), less)
  {
    if xs != [] && !less(x, xs[0]) {
      var tail := Insert(xs[1..], x, less);
      InsertKeepsOrder(xs[1..], x, less);
      forall k | 0 <= k < |tail|
        ensures less(xs[0], tail[k])
      {
        assert tail[k] in multiset(tail);
        assert tail[k] in xs[1..] || tail[k] == x;
        if tail[k] in xs[1..] {
          var i :| 0 <= i < |xs| - 1 && xs[1..][i] == tail[k];
          assert xs[i + 1] == tail[k];
        }
      }
    }
  }

  lemma {:induction false} SortOrders<T(!new)>(xs: seq<T>, less: (T, T) -> bool)
    requires StrictOrder(less) && Comparable(xs, less)
    ensures Ordered(Sort(xs, less), less)
  {
    if xs != [] {
      var last := |xs| - 1;
      SortOrders(xs[..last], less);
      var init := Sort(xs[..last], less);
      forall i | 0 <= i < |init|
        ensures less(init[i], xs[last]) || less(xs[last], init[i])
      {
        assert init[i] in multiset(init);
        var k :| 0 <= k < last && xs[..last][k] == init[i];
      }
      InsertKeepsOrder(init, xs[last], less);
    }
  }

  /** Two ordered sequences with the same elements are the same sequence. */
  lemma {:induction false} OrderedIsUnique<T(!new)>(xs: seq<T>, ys: seq<T>, less: (T, T) -> bool)
    requires StrictOrder(less) && Ordered(xs, less) && Ordered(ys, less)
    requires multiset(xs) == multiset(ys)
    ensures xs == ys
  {
    hide Ordered, StrictOrder;
    assert |multiset(xs)| == |xs| && |multiset(ys)| == |ys|;
    if xs != [] {
      SameFirst(xs, ys, less);
      WithoutFirst(xs, less);
      WithoutFirst(ys, less);
      OrderedIsUnique(xs[1..], ys[1..], less);
      assert xs == [xs[0]] + xs[1..] && ys == [ys[0]] + ys[1..];
    }
  }

  lemma WithoutFirst<T(!new)>(xs: seq<T>, less: (T, T) -> bool)
    requires xs != [] && Ordered(xs, less)
    ensures multiset(xs[1..]) == multiset(xs) - multiset{xs[0]} && Ordered(xs[1..], less)
  {
    var rest := xs[1..];
    assert xs == [xs[0]] + rest;
    forall i, j | 0 <= i < j < |rest|
      ensures less(rest[i], rest[j])
    {
      assert rest[i] == xs[i + 1] && rest[j] == xs[j + 1];
    }
  }

  lemma SameFirst<T(!new)>(xs: seq<T>, ys: seq<T>, less: (T, T) -> bool)
    requires StrictOrder(less) && Ordered(xs, less) && Ordered(ys, less)
    requires xs != [] && ys != [] && multiset(xs) == multiset(ys)
    ensures xs[0] == ys[0]
  {
    assert xs[0] in multiset(ys) && ys[0] in multiset(xs);
    var k :| 0 <= k < |ys| && ys[k] == xs[0];
    var m :| 0 <= m < |xs| && xs[m] == ys[0];
    assert k > 0 ==> less(ys[0], xs[0]);
    assert m > 0 ==> less(xs[0], ys[0]);
  }

  /** Permuting the input does not change the sorted output. */
  lemma SortIgnoresOrder<T(!new)>(xs: seq<T>, ys: seq<T>, less: (T, T) -> bool)
    requires StrictOrder(less) && Comparable(xs, less) && Comparable(ys, less)
    requires multiset(xs) == multiset(ys)
    ensures Sort(xs, less) == Sort(ys, less)
  {
    SortOrders(xs, less);
    SortOrders(ys, less);
    OrderedIsUnique(Sort(xs, less), Sort(ys, less), less);
  }

  lemma SortKeepsOrdered<T(!new)>(xs: seq<T>, less: (T, T) -> bool)
    requires StrictOrder(less) && Ordered(xs, less)
    ensures Sort(xs, less) == xs
  {
    SortOrders(xs, less);
    OrderedIsUnique(Sort(xs, less), xs, less);
  }
}
