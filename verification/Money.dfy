/** Whole cents. */
module Money {
  import opened Sums

  const HALF_CENT := 0.005

  /** n half cents. */
  function HalfCents(n: nat): real {
    if n == 0 then 0.0 else HalfCents(n - 1) + HALF_CENT
  }

  ghost predicate WholeCents(x: real) {
    exists n: int :: x == Cents(n)
  }

  function Cents(n: int): real {
    n as real / 100.0
  }

  lemma NearestUnit(y: real, k: int, n: int)
    requires y >= 0.0 && k == (y + 0.5).Floor
    ensures k >= 0 && k as real - 0.5 <= y < k as real + 0.5
    ensures n as real - 0.5 < y < n as real + 0.5 ==> n == k
    ensures n as real - 0.5 == y || n as real + 0.5 == y ==> n <= k
  {
    assert n < k ==> n as real <= k as real - 1.0;
    assert n > k ==> n as real >= k as real + 1.0;
  }

  lemma DifferenceOfCents(x: real, y: real)
    requires WholeCents(x) && WholeCents(y)
    ensures WholeCents(x - y)
  {
    var m: int :| x == Cents(m);
    var n: int :| y == Cents(n);
    assert x - y == Cents(m - n);
  }

  lemma {:induction false} SumOfCents(xs: seq<real>)
    requires forall k :: 0 <= k < |xs| ==> WholeCents(xs[k])
    ensures WholeCents(Sum(xs))
  {
    if xs == [] {
      assert 0.0 == Cents(0);
    } else {
      hide WholeCents;
      var n := |xs| - 1;
      SumOfCents(xs[..n]);
      SumOfTwo(Sum(xs[..n]), xs[n]);
    }
  }

  lemma SumOfTwo(x: real, y: real)
    requires WholeCents(x) && WholeCents(y)
    ensures WholeCents(x + y)
  {
    var m: int :| x == Cents(m);
    var n: int :| y == Cents(n);
    assert x + y == Cents(m + n);
  }
}
