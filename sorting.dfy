// The descending sorts the core asks Mongo for: `sort({ date: -1 })` on the
// expense list, and `$sort: { "_id.year": -1, "_id.month": -1 }` on the
// aggregation groups. Both compare a pair of integers, major part first.

module Sorting {

  /** p does not come after q in a sort that is descending on both parts, major first. */
  predicate NotBefore(p: (int, int), q: (int, int))
  {
    p.0 > q.0 || (p.0 == q.0 && p.1 >= q.1)
  }

  ghost predicate SortedDesc<T>(xs: seq<T>, rank: T -> (int, int))
  {
    forall i, j :: 0 <= i < j < |xs| ==> NotBefore(rank(xs[i]), rank(xs[j]))
  }

  /** Every element of xs ranks no higher than the bound. */
  ghost predicate AllBelow<T>(xs: seq<T>, rank: T -> (int, int), bound: (int, int))
  {
    forall i :: 0 <= i < |xs| ==> NotBefore(bound, rank(xs[i]))
  }

  lemma AllBelowPermutation<T>(xs: seq<T>, ys: seq<T>, rank: T -> (int, int), bound: (int, int))
    requires AllBelow(xs, rank, bound)
    requires multiset(ys) <= multiset(xs)
    ensures AllBelow(ys, rank, bound)
  {
    forall j | 0 <= j < |ys|
      ensures NotBefore(bound, rank(ys[j]))
    {
      assert ys[j] in multiset(ys);
      assert ys[j] in xs;
    }
  }

  /** x placed before the first element it does not come after. */
  function Insert<T>(x: T, xs: seq<T>, rank: T -> (int, int)): (r: seq<T>)
    requires SortedDesc(xs, rank)
    ensures SortedDesc(r, rank)
    ensures multiset(r) == multiset{x} + multiset(xs)
    ensures |r| == |xs| + 1
  {
    if xs == [] then [x]
    else if NotBefore(rank(x), rank(xs[0])) then
      [x] + xs
    else
      var r' := Insert(x, xs[1..], rank);
      assert xs == [xs[0]] + xs[1..];
      assert AllBelow(xs[1..] + [x], rank, rank(xs[0])) by {
        forall i | 0 <= i < |xs[1..] + [x]|
          ensures NotBefore(rank(xs[0]), rank((xs[1..] + [x])[i]))
        {
          if i < |xs[1..]| {
            assert (xs[1..] + [x])[i] == xs[i + 1];
          }
        }
      }
      AllBelowPermutation(xs[1..] + [x], r', rank, rank(xs[0]));
      [xs[0]] + r'
  }

  /** Insertion sort: a descending permutation of xs (stable, where Mongo promises no tie order). */
  function SortDesc<T>(xs: seq<T>, rank: T -> (int, int)): (r: seq<T>)
    ensures SortedDesc(r, rank)
    ensures multiset(r) == multiset(xs)
    ensures |r| == |xs|
  {
    if xs == [] then []
    else
      assert xs == [xs[0]] + xs[1..];
      Insert(xs[0], SortDesc(xs[1..], rank), rank)
  }
}
