/** Sums over finite maps and sequences of exact amounts. */
module Sums {

  /** The sum of all values of a map, taken in some order. */
  ghost function SumMap<K(!new)>(m: map<K, real>): real
    decreases |m|
  {
    if m == map[] then 0.0
    else
      var k :| k in m;
      m[k] + SumMap(m - {k})
  }

  lemma {:induction false} SumMapRemove<K(!new)>(m: map<K, real>, k: K)
    requires k in m
    ensures SumMap(m) == m[k] + SumMap(m - {k})
    decreases |m|
  {
    var first :| first in m && SumMap(m) == m[first] + SumMap(m - {first});
    if first != k {
      SumMapRemove(m - {first}, k);
      SumMapRemove(m - {k}, first);
      assert m - {first} - {k} == m - {k} - {first};
    }
  }

  lemma SumMapUpdate<K(!new)>(m: map<K, real>, k: K, v: real)
    ensures SumMap(m[k := v]) == SumMap(m) - (if k in m then m[k] else 0.0) + v
  {
    SumMapRemove(m[k := v], k);
    if k in m {
      SumMapRemove(m, k);
      assert m[k := v] - {k} == m - {k};
    } else {
      assert m[k := v] - {k} == m;
    }
  }

  /** Two maps without a common key add up apart. */
  lemma {:induction false} SumMapUnion<K(!new)>(a: map<K, real>, more: map<K, real>)
    requires a.Keys !! more.Keys
    ensures SumMap(a + more) == SumMap(a) + SumMap(more)
    decreases |more|
  {
    hide SumMap;
    if more.Keys == {} {
      assert a + more == a;
      SumOfNothing(more);
    } else {
      var k :| k in more;
      var rest := more - {k};
      SumMapUnion(a, rest);
      SumMapUpdate(rest, k, more[k]);
      SumMapUpdate(a + rest, k, more[k]);
      UnionOfTheRest(a, more, k);
    }
  }

  lemma UnionOfTheRest<K, V>(a: map<K, V>, more: map<K, V>, k: K)
    requires k in more
    ensures (more - {k})[k := more[k]] == more
    ensures (a + (more - {k}))[k := more[k]] == a + more
  {
  }

  lemma SumOfNothing<K(!new)>(m: map<K, real>)
    requires m.Keys == {}
    ensures SumMap(m) == 0.0
  {
    assert m == map[];
  }

  lemma {:induction false} SumOfZeroValues<K(!new)>(m: map<K, real>)
    requires forall k :: k in m ==> m[k] == 0.0
    ensures SumMap(m) == 0.0
    decreases |m|
  {
    if m.Keys == {} {
      SumOfNothing(m);
    } else {
      var k :| k in m;
      SumMapRemove(m, k);
      SumOfZeroValues(m - {k});
    }
  }

  function Abs(x: real): real {
    if x < 0.0 then -x else x
  }

  /** A missing amount counts as zero. */
  function At<K>(m: map<K, real>, k: K): real {
    if k in m then m[k] else 0.0
  }

  function Sum(xs: seq<real>): real {
    if xs == [] then 0.0 else Sum(xs[..|xs| - 1]) + xs[|xs| - 1]
  }

  /** f(lo) + ... + f(hi - 1). */
  ghost function SumOver(f: int -> real, lo: int, hi: int): real
    decreases hi - lo
  {
    if hi <= lo then 0.0 else SumOver(f, lo, hi - 1) + f(hi - 1)
  }

  lemma {:induction false} SumOverAgrees(f: int -> real, g: int -> real, lo: int, hi: int)
    requires forall k :: lo <= k < hi ==> f(k) == g(k)
    ensures SumOver(f, lo, hi) == SumOver(g, lo, hi)
    decreases hi - lo
  {
    if lo < hi { SumOverAgrees(f, g, lo, hi - 1); }
  }

  lemma {:induction false} SumOverAdd(f: int -> real, g: int -> real, h: int -> real, lo: int, hi: int)
    requires forall k :: lo <= k < hi ==> h(k) == f(k) + g(k)
    ensures SumOver(h, lo, hi) == SumOver(f, lo, hi) + SumOver(g, lo, hi)
    decreases hi - lo
  {
    if lo < hi { SumOverAdd(f, g, h, lo, hi - 1); }
  }

  lemma {:induction false} SumOverSplit(f: int -> real, lo: int, mid: int, hi: int)
    requires lo <= mid <= hi
    ensures SumOver(f, lo, hi) == SumOver(f, lo, mid) + SumOver(f, mid, hi)
    decreases hi - mid
  {
    if mid < hi { SumOverSplit(f, lo, mid, hi - 1); }
  }

  lemma {:induction false} SumOverZeros(f: int -> real, lo: int, hi: int)
    requires forall k :: lo <= k < hi ==> f(k) == 0.0
    ensures SumOver(f, lo, hi) == 0.0
    decreases hi - lo
  {
    if lo < hi { SumOverZeros(f, lo, hi - 1); }
  }

  lemma {:induction false} SumOverOfSeq(f: int -> real, lo: int, xs: seq<real>)
    requires forall k :: 0 <= k < |xs| ==> f(lo + k) == xs[k]
    ensures SumOver(f, lo, lo + |xs|) == Sum(xs)
  {
    if xs != [] {
      var n := |xs| - 1;
      SumOverOfSeq(f, lo, xs[..n]);
      assert f(lo + n) == xs[n];
    }
  }

  /** Two ranges that both cover everything but zeros give the same sum. */
  lemma SumOverSupport(f: int -> real, a: int, b: int, c: int, d: int)
    requires a <= b && c <= d
    requires forall k :: !(a <= k < b) || !(c <= k < d) ==> f(k) == 0.0
    ensures SumOver(f, a, b) == SumOver(f, c, d)
  {
    var lo, hi := if a < c then a else c, if b > d then b else d;
    SumOverSplit(f, lo, a, hi);
    SumOverSplit(f, a, b, hi);
    SumOverZeros(f, lo, a);
    SumOverZeros(f, b, hi);
    SumOverSplit(f, lo, c, hi);
    SumOverSplit(f, c, d, hi);
    SumOverZeros(f, lo, c);
    SumOverZeros(f, d, hi);
  }

  /** f(x) summed over the elements x of a sequence. */
  function SumBy<T>(xs: seq<T>, f: T -> real): real {
    if xs == [] then 0.0 else SumBy(xs[..|xs| - 1], f) + f(xs[|xs| - 1])
  }

  lemma SumByAppend<T>(xs: seq<T>, x: T, f: T -> real)
    ensures SumBy(xs + [x], f) == SumBy(xs, f) + f(x)
  {
    assert (xs + [x])[..|xs|] == xs;
  }

  lemma {:induction false} SumByAgrees<T>(xs: seq<T>, ys: seq<T>, f: T -> real)
    requires |xs| == |ys| && forall i :: 0 <= i < |xs| ==> f(xs[i]) == f(ys[i])
    ensures SumBy(xs, f) == SumBy(ys, f)
  {
    if xs != [] { SumByAgrees(xs[..|xs| - 1], ys[..|ys| - 1], f); }
  }
}
