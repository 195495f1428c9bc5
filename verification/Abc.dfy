/** The two ABC classifications of a descending list of amounts. */
module Abc {
  import opened Sums

  datatype Class = A | B | C

  predicate Descends(v: seq<real>) {
    forall i, j :: 0 <= i < j < |v| ==> v[i] >= v[j]
  }

  // ----- Sums of prefixes -----

  lemma {:induction false} PrefixSum(v: seq<real>, i: nat)
    requires i < |v|
    ensures Sum(v[..i + 1]) == Sum(v[..i]) + v[i]
  {
    assert v[..i + 1][..i] == v[..i];
  }

  lemma {:induction false} PrefixesGrow(v: seq<real>, i: nat, j: nat)
    requires i <= j <= |v| && forall k :: 0 <= k < |v| ==> v[k] >= 0.0
    ensures Sum(v[..i]) <= Sum(v[..j])
    decreases j - i
  {
    if i < j {
      PrefixesGrow(v, i, j - 1);
      PrefixSum(v, j - 1);
    }
  }

  lemma ZeroTail(v: seq<real>, i: nat)
    requires i < |v| && Descends(v) && v[i] <= 0.0 && forall k :: 0 <= k < |v| ==> v[k] >= 0.0
    ensures Sum(v[..i]) == Sum(v)
  {
    forall k | i <= k < |v| ensures v[k] == 0.0 {}
    TailOfZeros(v, i, |v|);
    assert v[..|v|] == v;
  }

  lemma {:induction false} TailOfZeros(v: seq<real>, i: nat, j: nat)
    requires i <= j <= |v| && forall k :: i <= k < |v| ==> v[k] == 0.0
    ensures Sum(v[..j]) == Sum(v[..i])
    decreases j - i
  {
    if i < j {
      TailOfZeros(v, i, j - 1);
      PrefixSum(v, j - 1);
    }
  }

  // ----- The engine's classes: the running share includes the article itself -----

  function EngineClass(v: seq<real>, i: nat): Class
    requires i < |v|
  {
    var total := Sum(v);
    if total <= 0.0 || v[i] <= 0.0 then C
    else if Sum(v[..i + 1]) / total <= 0.80 then A
    else if Sum(v[..i + 1]) / total <= 0.95 then B
    else C
  }

  /** The longest prefix whose sum stays within a bound. */
  function Within(v: seq<real>, bound: real, i: nat): (n: nat)
    requires i <= |v|
    ensures i <= n <= |v|
    decreases |v| - i
  {
    if i < |v| && Sum(v[..i + 1]) <= bound then Within(v, bound, i + 1) else i
  }

  lemma {:induction false} WithinIsLongest(v: seq<real>, bound: real, i: nat, j: nat)
    requires i < j <= |v| && forall k :: 0 <= k < |v| ==> v[k] >= 0.0
    ensures Sum(v[..j]) <= bound <==> j <= Within(v, bound, i)
    decreases |v| - i
  {
    hide Sum;
    PrefixesGrow(v, i + 1, j);
    if Sum(v[..i + 1]) <= bound && i + 1 < j { WithinIsLongest(v, bound, i + 1, j); }
  }

  lemma ShareOfTotal(x: real, total: real, share: real)
    requires total > 0.0
    ensures x / total <= share <==> x <= share * total
  {
  }

  /** The class by the longest prefixes within 80% and within 95% of the total. */
  function ByShare(v: seq<real>, i: nat): Class {
    if Sum(v) <= 0.0 then C
    else if i < Within(v, 0.80 * Sum(v), 0) then A
    else if i < Within(v, 0.95 * Sum(v), 0) then B
    else C
  }

  /** Class A is the longest prefix not above 80% of the total, A and B together the longest not
      above 95%. */
  lemma EngineClassIs(v: seq<real>, i: nat)
    requires i < |v| && Descends(v) && forall k :: 0 <= k < |v| ==> v[k] >= 0.0
    ensures EngineClass(v, i) == ByShare(v, i)
  {
    hide Sum, Within;
    var total := Sum(v);
    if total > 0.0 {
      WithinIsLongest(v, 0.80 * total, 0, i + 1);
      WithinIsLongest(v, 0.95 * total, 0, i + 1);
      ShareOfTotal(Sum(v[..i + 1]), total, 0.80);
      ShareOfTotal(Sum(v[..i + 1]), total, 0.95);
      if v[i] <= 0.0 {
        ZeroTail(v, i);
        PrefixSum(v, i);
      }
    }
  }

  /** Classes never improve down the order. */
  lemma ClassesNeverImprove(v: seq<real>, i: nat, j: nat)
    requires i < j < |v| && Descends(v) && forall k :: 0 <= k < |v| ==> v[k] >= 0.0
    ensures EngineClass(v, j) == A ==> EngineClass(v, i) == A
    ensures EngineClass(v, i) == C ==> EngineClass(v, j) == C
  {
    hide EngineClass, Within, Sum;
    EngineClassIs(v, i);
    EngineClassIs(v, j);
  }

  // ----- The service's classes: the running sum excludes the article itself -----

  function ServiceClass(v: seq<real>, i: nat): Class
    requires i < |v|
  {
    if Sum(v[..i]) < Sum(v) * 0.8 then A else if Sum(v[..i]) < Sum(v) * 0.95 then B else C
  }

  /** The shortest prefix whose sum reaches a bound. */
  function Reaching(v: seq<real>, bound: real, i: nat): (n: nat)
    requires i <= |v|
    ensures i <= n <= |v|
    decreases |v| - i
  {
    if i < |v| && Sum(v[..i]) < bound then Reaching(v, bound, i + 1) else i
  }

  /** The class by the shortest prefixes that reach 80% and 95% of the total. */
  function ByReach(v: seq<real>, i: nat): Class {
    if i < Reaching(v, Sum(v) * 0.8, 0) then A else if i < Reaching(v, Sum(v) * 0.95, 0) then B else C
  }

  lemma {:induction false} ReachingIsShortest(v: seq<real>, bound: real, i: nat, j: nat)
    requires i <= j <= |v| && bound <= Sum(v) && forall k :: 0 <= k < |v| ==> v[k] >= 0.0
    ensures Sum(v[..Reaching(v, bound, i)]) >= bound
    ensures Sum(v[..j]) < bound <==> j < Reaching(v, bound, i)
    decreases |v| - i
  {
    assert v[..|v|] == v;
    if i < |v| && Sum(v[..i]) < bound {
      if i < j { ReachingIsShortest(v, bound, i + 1, j); } else { ReachingIsShortest(v, bound, i + 1, i + 1); }
    } else {
      PrefixesGrow(v, i, j);
    }
  }

  lemma TotalIsPositive(v: seq<real>)
    requires v != [] && forall k :: 0 <= k < |v| ==> v[k] > 0.0
    ensures Sum(v) > 0.0
  {
    PrefixesGrow(v, 0, |v| - 1);
  }

  /** Class A is the shortest prefix that reaches 80% of the total, A and B together the shortest
      that reaches 95%. */
  lemma ServiceClassIs(v: seq<real>, i: nat)
    requires i < |v| && forall k :: 0 <= k < |v| ==> v[k] > 0.0
    ensures ServiceClass(v, i) == ByReach(v, i)
    ensures Reaching(v, Sum(v) * 0.8, 0) <= Reaching(v, Sum(v) * 0.95, 0)
    ensures Sum(v[..Reaching(v, Sum(v) * 0.8, 0)]) >= Sum(v) * 0.8
    ensures Sum(v[..Reaching(v, Sum(v) * 0.95, 0)]) >= Sum(v) * 0.95
  {
    hide Sum, Reaching;
    TotalIsPositive(v);
    ReachingIsShortest(v, Sum(v) * 0.8, 0, i);
    ReachingIsShortest(v, Sum(v) * 0.95, 0, i);
    ReachingIsShortest(v, Sum(v) * 0.8, 0, Reaching(v, Sum(v) * 0.95, 0));
  }
}
