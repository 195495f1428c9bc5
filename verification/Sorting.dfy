/** Stable sorting by a descending pair of amounts. */
module Sorting {
  import opened Sums

  type Rank = (real, real)

  predicate AtLeast(a: Rank, b: Rank) {
    a.0 > b.0 || (a.0 == b.0 && a.1 >= b.1)
  }

  predicate Descending<T>(xs: seq<T>, rank: T -> Rank) {
    forall i, j :: 0 <= i < j < |xs| ==> AtLeast(rank(xs[i]), rank(xs[j]))
  }

  /** The elements of one rank, in their order. */
  function OfRank<T>(xs: seq<T>, rank: T -> Rank, r: Rank): seq<T> {
    if xs == [] then []
    else
      var last := xs[|xs| - 1];
      OfRank(xs[..|xs| - 1], rank, r) + if rank(last) == r then [last] else []
  }

  /** A new element goes behind all that rank at least as high. */
  function Insert<T>(xs: seq<T>, rank: T -> Rank, x: T): (r: seq<T>)
    ensures |r| == |xs| + 1
  {
    if xs == [] || AtLeast(rank(xs[|xs| - 1]), rank(x)) then xs + [x]
    else Insert(xs[..|xs| - 1], rank, x) + [xs[|xs| - 1]]
  }

  function Sorted<T>(xs: seq<T>, rank: T -> Rank): (r: seq<T>)
    ensures |r| == |xs|
  {
    if xs == [] then [] else Insert(Sorted(xs[..|xs| - 1], rank), rank, xs[|xs| - 1])
  }

  lemma AtLeastOrders(a: Rank, b: Rank, c: Rank)
    ensures AtLeast(a, b) || AtLeast(b, a)
    ensures AtLeast(a, b) && AtLeast(b, c) ==> AtLeast(a, c)
  {
  }

  lemma {:induction false} InsertElements<T>(xs: seq<T>, rank: T -> Rank, x: T)
    ensures multiset(Insert(xs, rank, x)) == multiset(xs) + multiset{x}
  {
    if xs != [] {
      var n := |xs| - 1;
      assert xs == xs[..n] + [xs[n]];
      InsertElements(xs[..n], rank, x);
    }
  }

  lemma {:induction false} InsertKeepsDescending<T>(xs: seq<T>, rank: T -> Rank, x: T)
    requires Descending(xs, rank)
    ensures Descending(Insert(xs, rank, x), rank)
  {
    hide AtLeast;
    if xs == [] {
    } else if AtLeast(rank(xs[|xs| - 1]), rank(x)) {
      forall i | 0 <= i < |xs| ensures AtLeast(rank(xs[i]), rank(x)) {
        AtLeastOrders(rank(xs[i]), rank(xs[|xs| - 1]), rank(x));
      }
    } else {
      var n := |xs| - 1;
      InsertKeepsDescending(xs[..n], rank, x);
      InsertElements(xs[..n], rank, x);
      AtLeastOrders(rank(x), rank(xs[n]), rank(x));
      var first := Insert(xs[..n], rank, x);
      forall k | 0 <= k <= n ensures AtLeast(rank(first[k]), rank(xs[n])) {
        assert first[k] in multiset(first);
        if first[k] != x {
          assert first[k] in multiset(xs[..n]);
          var i :| 0 <= i < n && xs[..n][i] == first[k];
        }
      }
    }
  }

  lemma {:induction false} InsertKeepsRanks<T>(xs: seq<T>, rank: T -> Rank, x: T, r: Rank)
    requires Descending(xs, rank)
    ensures OfRank(Insert(xs, rank, x), rank, r) == OfRank(xs, rank, r) + if rank(x) == r then [x] else []
  {
    if xs == [] || AtLeast(rank(xs[|xs| - 1]), rank(x)) {
      assert (xs + [x])[..|xs|] == xs;
    } else {
      var n := |xs| - 1;
      InsertKeepsRanks(xs[..n], rank, x, r);
      assert Insert(xs, rank, x)[..|xs|] == Insert(xs[..n], rank, x);
    }
  }

  /** Sorting gives the same elements in descending order, equal ones as they stood. */
  lemma {:induction false} SortedIsStable<T>(xs: seq<T>, rank: T -> Rank, r: Rank)
    ensures Descending(Sorted(xs, rank), rank)
    ensures multiset(Sorted(xs, rank)) == multiset(xs)
    ensures OfRank(Sorted(xs, rank), rank, r) == OfRank(xs, rank, r)
  {
    if xs != [] {
      var n := |xs| - 1;
      SortedIsStable(xs[..n], rank, r);
      InsertKeepsDescending(Sorted(xs[..n], rank), rank, xs[n]);
      InsertElements(Sorted(xs[..n], rank), rank, xs[n]);
      InsertKeepsRanks(Sorted(xs[..n], rank), rank, xs[n], r);
      assert xs == xs[..n] + [xs[n]];
    }
  }

  lemma {:induction false} InsertSum<T>(xs: seq<T>, rank: T -> Rank, x: T, f: T -> real)
    ensures SumBy(Insert(xs, rank, x), f) == SumBy(xs, f) + f(x)
  {
    if xs == [] || AtLeast(rank(xs[|xs| - 1]), rank(x)) {
      SumByAppend(xs, x, f);
    } else {
      InsertSum(xs[..|xs| - 1], rank, x, f);
      SumByAppend(Insert(xs[..|xs| - 1], rank, x), xs[|xs| - 1], f);
    }
  }

  /** Sorting keeps every sum over the elements. */
  lemma {:induction false} SortedSum<T>(xs: seq<T>, rank: T -> Rank, f: T -> real)
    ensures SumBy(Sorted(xs, rank), f) == SumBy(xs, f)
  {
    if xs != [] {
      SortedSum(xs[..|xs| - 1], rank, f);
      InsertSum(Sorted(xs[..|xs| - 1], rank), rank, xs[|xs| - 1], f);
    }
  }

  ghost predicate NoRepeats<T>(xs: seq<T>) {
    forall i, j :: 0 <= i < j < |xs| ==> xs[i] != xs[j]
  }

  lemma {:induction false} RepeatsCount<T>(xs: seq<T>)
    ensures NoRepeats(xs) <==> forall x :: multiset(xs)[x] <= 1
  {
    if xs != [] {
      var n := |xs| - 1;
      RepeatsCount(xs[..n]);
      assert xs == xs[..n] + [xs[n]];
      if xs[n] in xs[..n] {
        assert multiset(xs[..n])[xs[n]] >= 1 && multiset(xs)[xs[n]] >= 2;
        var i :| 0 <= i < n && xs[..n][i] == xs[n];
        assert xs[i] == xs[n];
      } else {
        assert multiset(xs[..n])[xs[n]] == 0;
        assert forall x :: multiset(xs)[x] == multiset(xs[..n])[x] + if x == xs[n] then 1 else 0;
        assert NoRepeats(xs) <==> NoRepeats(xs[..n]);
      }
    }
  }

  lemma SortedHasNoRepeats<T>(xs: seq<T>, rank: T -> Rank)
    requires NoRepeats(xs)
    ensures NoRepeats(Sorted(xs, rank))
  {
    hide Sorted, NoRepeats;
    SortedIsStable(xs, rank, (0.0, 0.0));
    RepeatsCount(xs);
    RepeatsCount(Sorted(xs, rank));
  }
}
