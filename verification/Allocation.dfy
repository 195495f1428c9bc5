/** Cent-exact sharing of an amount by signed weights. */
module Allocation {
  import opened Sums
  import opened Money

  // ----- Rounding -----

  /** Rounding to whole cents, ties away from zero. */
  function ToCents(x: real): real {
    if x >= 0.0 then (x * 100.0 + 0.5).Floor as real / 100.0
    else -((-x * 100.0 + 0.5).Floor as real / 100.0)
  }

  /** The rounded amount is the one whole number of cents nearest to the exact one; of two equally
      near ones it is the one further from zero. */
  lemma ToCentsIsNearest(x: real, n: int)
    ensures WholeCents(ToCents(x)) && Abs(ToCents(x) - x) <= HALF_CENT
    ensures Abs(Cents(n) - x) < HALF_CENT ==> Cents(n) == ToCents(x)
    ensures Abs(Cents(n) - x) == HALF_CENT ==> Abs(ToCents(x)) >= Abs(Cents(n))
  {
    var y := Abs(x);
    var k := (y * 100.0 + 0.5).Floor;
    if x >= 0.0 {
      assert ToCents(x) == Cents(k);
      NearestUnit(y * 100.0, k, n);
    } else {
      assert ToCents(x) == Cents(-k);
      NearestUnit(y * 100.0, k, -n);
    }
  }

  // ----- Shares -----

  function Equal(n: nat): (r: seq<real>)
    ensures |r| == n
  {
    seq(n, i => 1.0)
  }

  /** Weights that cancel out share equally. */
  function Effective(weights: seq<real>): (r: seq<real>)
    ensures |r| == |weights|
  {
    if Sum(weights) == 0.0 then Equal(|weights|) else weights
  }

  lemma {:induction false} SumEqual(n: nat)
    ensures Sum(Equal(n)) == n as real
  {
    if n > 0 {
      assert Equal(n)[..n - 1] == Equal(n - 1);
      SumEqual(n - 1);
    }
  }

  lemma EffectiveTotal(weights: seq<real>)
    requires weights != []
    ensures Sum(Effective(weights)) != 0.0
  {
    SumEqual(|weights|);
  }

  /** The exact share of one weight. */
  function Share(amount: real, weights: seq<real>, i: nat): real
    requires i < |weights|
  {
    EffectiveTotal(weights);
    Proportion(amount, Effective(weights)[i], Sum(Effective(weights)))
  }

  function Proportion(amount: real, weight: real, total: real): real
    requires total != 0.0
  {
    amount * weight / total
  }

  function Shares(amount: real, weights: seq<real>): (r: seq<real>)
    ensures |r| == |weights|
  {
    seq(|weights|, i requires 0 <= i < |weights| => Share(amount, weights, i))
  }

  lemma {:induction false} SumScaled(amount: real, xs: seq<real>, total: real, scaled: seq<real>)
    requires total != 0.0 && |scaled| == |xs|
    requires forall i :: 0 <= i < |xs| ==> scaled[i] == Proportion(amount, xs[i], total)
    ensures Sum(scaled) == Proportion(amount, Sum(xs), total)
  {
    if xs != [] {
      var n := |xs| - 1;
      SumScaled(amount, xs[..n], total, scaled[..n]);
      Distribute(amount, Sum(xs[..n]), xs[n], total);
    }
  }

  lemma Distribute(amount: real, a: real, b: real, total: real)
    requires total != 0.0
    ensures Proportion(amount, a, total) + Proportion(amount, b, total) == Proportion(amount, a + b, total)
  {
  }

  /** The exact shares make up the amount. */
  lemma SumOfShares(amount: real, weights: seq<real>)
    requires weights != []
    ensures Sum(Shares(amount, weights)) == amount
  {
    hide Share, Sum, Effective, Proportion;
    EffectiveTotal(weights);
    var total := Sum(Effective(weights));
    forall i | 0 <= i < |weights| ensures Shares(amount, weights)[i] == Proportion(amount, Effective(weights)[i], total) {
      ShareIs(amount, weights, i);
    }
    SumScaled(amount, Effective(weights), total, Shares(amount, weights));
    Cancel(amount, total);
  }

  lemma ShareIs(amount: real, weights: seq<real>, i: nat)
    requires i < |weights|
    ensures Sum(Effective(weights)) != 0.0
    ensures Share(amount, weights, i) == Proportion(amount, Effective(weights)[i], Sum(Effective(weights)))
  {
    EffectiveTotal(weights);
  }

  /** Shares stand in the ratio of the weights; weights that cancel out share equally. */
  lemma SharesFollowWeights(amount: real, weights: seq<real>, i: nat)
    requires i < |weights|
    ensures Sum(weights) != 0.0 ==> Share(amount, weights, i) * Sum(weights) == amount * weights[i]
    ensures Sum(weights) == 0.0 ==> Share(amount, weights, i) * |weights| as real == amount
  {
    hide Proportion, Share, Sum;
    ShareIs(amount, weights, i);
    SumEqual(|weights|);
    ProportionTimes(amount, Effective(weights)[i], Sum(Effective(weights)));
    if Sum(weights) != 0.0 {
      assert Effective(weights) == weights;
    } else {
      assert Effective(weights) == Equal(|weights|);
    }
  }

  lemma ProportionTimes(amount: real, weight: real, total: real)
    requires total != 0.0
    ensures Proportion(amount, weight, total) * total == amount * weight
  {
  }

  lemma Cancel(amount: real, total: real)
    requires total != 0.0
    ensures Proportion(amount, total, total) == amount
  {
  }

  // ----- Parts -----

  /** Every share rounded on its own, except that the last part takes what the others leave. */
  function Parts(amount: real, weights: seq<real>): (r: seq<real>)
    ensures |r| == |weights|
  {
    if weights == [] then []
    else
      var n := |weights| - 1;
      var first := Rounded(Shares(amount, weights)[..n]);
      first + [amount - Sum(first)]
  }

  function Rounded(xs: seq<real>): (r: seq<real>)
    ensures |r| == |xs|
  {
    seq(|xs|, i requires 0 <= i < |xs| => ToCents(xs[i]))
  }

  lemma PartsAddUp(amount: real, weights: seq<real>)
    requires weights != []
    ensures Sum(Parts(amount, weights)) == amount
  {
    var n := |weights| - 1;
    assert Parts(amount, weights)[..n] == Rounded(Shares(amount, weights)[..n]);
  }

  /** Rounding each of n amounts moves their sum by at most n half cents. */
  lemma {:induction false} SumOfRounded(xs: seq<real>)
    ensures Abs(Sum(xs) - Sum(Rounded(xs))) <= HalfCents(|xs|)
  {
    hide ToCents;
    if xs != [] {
      var n := |xs| - 1;
      SumOfRounded(xs[..n]);
      assert Rounded(xs)[..n] == Rounded(xs[..n]);
      ToCentsIsNearest(xs[n], 0);
    }
  }

  /** Every part but the last is within half a cent of its share, the last within half a cent for
      each of the others; whole cents are shared out in whole cents. */
  lemma PartsAreNearTheirShares(amount: real, weights: seq<real>, i: nat)
    requires i < |weights|
    ensures i < |weights| - 1 ==> WholeCents(Parts(amount, weights)[i])
    ensures i < |weights| - 1 ==> Abs(Parts(amount, weights)[i] - Share(amount, weights, i)) <= HALF_CENT
    ensures Abs(Parts(amount, weights)[|weights| - 1] - Share(amount, weights, |weights| - 1)) <=
            HalfCents(|weights| - 1)
    ensures WholeCents(amount) ==> WholeCents(Parts(amount, weights)[i])
  {
    hide Share, ToCents, WholeCents, Sum, HalfCents;
    LastPartIsNear(amount, weights);
    var shares := Shares(amount, weights);
    if i < |weights| - 1 {
      ToCentsIsNearest(shares[i], 0);
    } else if WholeCents(amount) {
      LastPartIsWhole(amount, weights);
    }
  }

  lemma LastPartIsNear(amount: real, weights: seq<real>)
    requires weights != []
    ensures var n := |weights| - 1; Abs(Parts(amount, weights)[n] - Share(amount, weights, n)) <= HalfCents(n)
  {
    hide Share, ToCents, HalfCents;
    SumOfShares(amount, weights);
    SumOfRounded(Shares(amount, weights)[..|weights| - 1]);
  }

  lemma LastPartIsWhole(amount: real, weights: seq<real>)
    requires weights != [] && WholeCents(amount)
    ensures WholeCents(Parts(amount, weights)[|weights| - 1])
  {
    hide Share, ToCents, WholeCents, Sum;
    var n := |weights| - 1;
    var first := Rounded(Shares(amount, weights)[..n]);
    forall k | 0 <= k < n ensures WholeCents(first[k]) { ToCentsIsNearest(Shares(amount, weights)[k], 0); }
    SumOfCents(first);
    DifferenceOfCents(amount, Sum(first));
  }

  lemma UsedWeights(weights: seq<real>, used: seq<real>, total: real)
    requires Sum(weights) == 0.0 ==> used == Equal(|weights|) && total == |weights| as real
    requires Sum(weights) != 0.0 ==> used == weights && total == Sum(weights)
    ensures used == Effective(weights) && total == Sum(Effective(weights))
    ensures weights != [] ==> total != 0.0
  {
    SumEqual(|weights|);
  }

  lemma NextPart(amount: real, weights: seq<real>, i: nat)
    requires i < |weights|
    ensures Rounded(Shares(amount, weights)[..i + 1]) ==
            Rounded(Shares(amount, weights)[..i]) + [ToCents(Share(amount, weights, i))]
  {
    hide ToCents, Share;
  }

  /** Shares the amount: rounds every share, then corrects the last part. */
  method Allocate(amount: real, weights: seq<real>) returns (parts: seq<real>)
    ensures parts == Parts(amount, weights)
    ensures weights != [] ==> Sum(parts) == amount
  {
    hide Share, ToCents, Effective, Proportion;
    var total := Sum(weights);
    var used := weights;
    if total == 0.0 {
      used := seq(|weights|, i => 1.0);
      total := |weights| as real;
      assert used == Equal(|weights|);
    }
    UsedWeights(weights, used, total);
    parts := [];
    for i := 0 to |used|
      invariant |weights| == |used|
      invariant parts == Rounded(Shares(amount, weights)[..i])
    {
      ShareIs(amount, weights, i);
      NextPart(amount, weights, i);
      parts := parts + [ToCents(Proportion(amount, used[i], total))];
    }
    if parts != [] {
      var n := |parts| - 1;
      var given := Sum(parts);
      assert parts[..n] == Rounded(Shares(amount, weights)[..n]);
      parts := parts[n := parts[n] + (amount - given)];
      PartsAddUp(amount, weights);
    }
  }
}
