/** ABC letters of the article report: every row has a letter for every metric. */
module ServiceAbc {
  import opened Wrappers
  import opened Sums
  import opened Sorting
  import opened Abc

  datatype Letter = Unknown | Known(letter: Class)

  /** The rows with a positive metric. */
  function Candidates(metrics: seq<Option<real>>): (r: seq<nat>)
    ensures forall k :: 0 <= k < |r| ==> r[k] < |metrics| && metrics[r[k]].Some? && metrics[r[k]].value > 0.0
    ensures forall i :: 0 <= i < |metrics| && metrics[i].Some? && metrics[i].value > 0.0 ==> i in r
    ensures forall k, l :: 0 <= k < l < |r| ==> r[k] < r[l]
  {
    if metrics == [] then []
    else
      var n := |metrics| - 1;
      Candidates(metrics[..n]) + if metrics[n].Some? && metrics[n].value > 0.0 then [n] else []
  }

  function RankIn(metrics: seq<Option<real>>): nat -> Rank {
    (i: nat) => if i < |metrics| && metrics[i].Some? then (metrics[i].value, 0.0) else (0.0, 0.0)
  }

  /** The candidates, highest first. */
  function Order(metrics: seq<Option<real>>): seq<nat> {
    Sorted(Candidates(metrics), RankIn(metrics))
  }

  lemma OrderHoldsCandidates(metrics: seq<Option<real>>)
    ensures NoRepeats(Order(metrics))
    ensures forall p :: 0 <= p < |Order(metrics)| ==>
      Order(metrics)[p] < |metrics| && metrics[Order(metrics)[p]].Some? && metrics[Order(metrics)[p]].value > 0.0
    ensures forall i :: 0 <= i < |metrics| && metrics[i].Some? && metrics[i].value > 0.0 ==> i in Order(metrics)
  {
    hide Sorted;
    var c := Candidates(metrics);
    SortedHasNoRepeats(c, RankIn(metrics));
    SortedIsStable(c, RankIn(metrics), (0.0, 0.0));
    forall p | 0 <= p < |Order(metrics)| ensures Order(metrics)[p] in c {
      assert Order(metrics)[p] in multiset(Order(metrics));
    }
    forall i | i in c ensures i in Order(metrics) {
      assert i in multiset(c);
    }
  }

  function Amounts(metrics: seq<Option<real>>): (r: seq<real>)
    ensures |r| == |Order(metrics)|
    ensures forall p :: 0 <= p < |r| ==> r[p] > 0.0
  {
    OrderHoldsCandidates(metrics);
    var order := Order(metrics);
    seq(|order|, p requires 0 <= p < |order| => metrics[order[p]].value)
  }

  /** Every row's letter: unknown without a metric, C without a positive one, and otherwise A in the
      shortest prefix of the descending order that reaches 80% of the total, B up to the shortest
      that reaches 95%. */
  method Classify(metrics: seq<Option<real>>) returns (letters: seq<Letter>)
    ensures |letters| == |metrics|
    ensures forall i :: 0 <= i < |metrics| ==> (letters[i] == Unknown <==> metrics[i] == None)
    ensures forall i :: 0 <= i < |metrics| && metrics[i].Some? && metrics[i].value <= 0.0 ==> letters[i] == Known(C)
    ensures forall p :: 0 <= p < |Order(metrics)| ==>
      Order(metrics)[p] < |metrics| && letters[Order(metrics)[p]] == Known(ByReach(Amounts(metrics), p))
  {
    hide Order, Amounts, Candidates, ByReach, ServiceClass, NoRepeats;
    OrderHoldsCandidates(metrics);
    var given := ClassifyInOrder(Order(metrics), Amounts(metrics));
    letters := seq(|metrics|, i requires 0 <= i < |metrics| =>
      if i in given then Known(given[i]) else if metrics[i].None? then Unknown else Known(C));
  }

  /** Walks down the order with a running sum that excludes the current row. */
  method ClassifyInOrder(order: seq<nat>, v: seq<real>) returns (given: map<nat, Class>)
    requires |order| == |v| && NoRepeats(order) && forall p :: 0 <= p < |v| ==> v[p] > 0.0
    ensures forall i :: i in given ==> i in order
    ensures forall p :: 0 <= p < |order| ==> order[p] in given && given[order[p]] == ByReach(v, p)
  {
    hide ByReach, Sum;
    var denom := Sum(v);
    var running := Sum([]);
    given := map[];
    for p := 0 to |order|
      invariant running == Sum(v[..p])
      invariant forall i :: i in given ==> i in order
      invariant forall q :: 0 <= q < p ==> order[q] in given && given[order[q]] == ByReach(v, q)
    {
      ServiceClassIs(v, p);
      given := given[order[p] := if running < denom * 0.8 then A else if running < denom * 0.95 then B else C];
      PrefixSum(v, p);
      running := running + v[p];
    }
  }
}
