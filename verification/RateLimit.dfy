/** Token buckets kept per client in a bounded list of the most recently seen clients. */
module RateLimit {

  // ----- One bucket -----

  datatype Bucket = Bucket(rate: real, burst: int, tokens: real, lastRefill: real)

  function Fresh(rate: real, burst: int, now: real): Bucket {
    Bucket(rate, burst, burst as real, now)
  }

  function Min(a: real, b: real): real {
    if a <= b then a else b
  }

  /** The tokens earned over some time. */
  function Earned(elapsed: real, rate: real): real {
    elapsed * rate
  }

  function Refilled(b: Bucket, now: real): Bucket {
    b.(tokens := Min(b.burst as real, b.tokens + Earned(now - b.lastRefill, b.rate)), lastRefill := now)
  }

  function Take(b: Bucket, now: real, need: real): (Bucket, bool) {
    var full := Refilled(b, now);
    if full.tokens >= need then (full.(tokens := full.tokens - need), true) else (full, false)
  }

  class TokenBucket {
    const rate: real
    const burst: int
    var tokens: real
    var lastRefill: real

    constructor (rate: real, burst: int, now: real)
      ensures Value() == Fresh(rate, burst, now)
    {
      this.rate, this.burst, tokens, lastRefill := rate, burst, burst as real, now;
    }

    function Value(): Bucket
      reads this
    {
      Bucket(rate, burst, tokens, lastRefill)
    }

    method Consume(now: real, need: real) returns (ok: bool)
      modifies this
      ensures (Value(), ok) == Take(old(Value()), now, need)
    {
      hide Earned;
      var elapsed := now - lastRefill;
      tokens := Min(burst as real, tokens + Earned(elapsed, rate));
      lastRefill := now;
      ok := tokens >= need;
      if ok { tokens := tokens - need; }
    }
  }

  // ----- Requests to one bucket -----

  predicate Ascending(times: seq<real>) {
    forall i, j :: 0 <= i < j < |times| ==> times[i] <= times[j]
  }

  function After(b: Bucket, times: seq<real>): Bucket {
    if times == [] then b else Take(After(b, times[..|times| - 1]), times[|times| - 1], 1.0).0
  }

  function Admits(b: Bucket, times: seq<real>, i: nat): bool
    requires i < |times|
  {
    Take(After(b, times[..i]), times[i], 1.0).1
  }

  function Admitted(b: Bucket, times: seq<real>): nat {
    if times == [] then 0
    else
      var n := |times| - 1;
      Admitted(b, times[..n]) + if Admits(b, times, n) then 1 else 0
  }

  predicate Fits(b: Bucket) {
    0.0 <= b.tokens <= b.burst as real && b.rate >= 0.0
  }

  predicate Later(b: Bucket, times: seq<real>) {
    Ascending(times) && (times != [] ==> b.lastRefill <= times[0])
  }

  lemma TakeKeepsFits(b: Bucket, now: real)
    requires Fits(b) && b.lastRefill <= now
    ensures var (after, ok) := Take(b, now, 1.0);
      && Fits(after) && after.lastRefill == now && after.rate == b.rate && after.burst == b.burst
      && after.tokens + (if ok then 1.0 else 0.0) <= b.burst as real
      && after.tokens + (if ok then 1.0 else 0.0) <= b.tokens + Earned(now - b.lastRefill, b.rate)
  {
    hide Earned;
    EarnedIsPositive(now - b.lastRefill, b.rate);
  }

  lemma EarnedIsPositive(elapsed: real, rate: real)
    requires rate >= 0.0 && elapsed >= 0.0
    ensures Earned(elapsed, rate) >= 0.0
  {
  }

  lemma TakeIsAdmitted(b: Bucket, now: real)
    requires b.burst >= 1 && b.tokens + Earned(now - b.lastRefill, b.rate) >= 1.0
    ensures Take(b, now, 1.0).1
  {
    hide Earned;
  }

  lemma TakeLeaves(b: Bucket, now: real, tokens: real)
    requires Fits(b) && b.lastRefill <= now && 1.0 <= tokens <= b.tokens
    ensures Take(b, now, 1.0).1 && Take(b, now, 1.0).0.tokens >= tokens - 1.0
  {
    hide Earned;
    EarnedIsPositive(now - b.lastRefill, b.rate);
  }

  lemma {:induction false} AfterFits(b: Bucket, times: seq<real>)
    requires Fits(b) && Later(b, times)
    ensures var after := After(b, times);
      && Fits(after) && after.rate == b.rate && after.burst == b.burst
      && after.lastRefill == if times == [] then b.lastRefill else times[|times| - 1]
  {
    if times != [] {
      hide Take, Fits;
      var n := |times| - 1;
      AfterFits(b, times[..n]);
      TakeKeepsFits(After(b, times[..n]), times[n]);
    }
  }

  lemma EarnedAdds(a: real, b: real, rate: real)
    ensures Earned(a, rate) + Earned(b, rate) == Earned(a + b, rate)
  {
  }

  /** What a stretch of requests lets through, with what is left, fits into one burst and the tokens
      earned over the stretch. */
  lemma {:induction false} StretchIsBounded(b: Bucket, times: seq<real>)
    requires Fits(b) && Later(b, times) && times != []
    ensures Admitted(b, times) as real + After(b, times).tokens <=
            b.burst as real + Earned(times[|times| - 1] - times[0], b.rate)
  {
    hide Take, Earned;
    var n := |times| - 1;
    AfterFits(b, times[..n]);
    TakeKeepsFits(After(b, times[..n]), times[n]);
    if n > 0 {
      StretchIsBounded(b, times[..n]);
      EarnedAdds(times[n - 1] - times[0], times[n] - times[n - 1], b.rate);
    } else {
      assert times[..n] == [];
      EarnedIsPositive(0.0, b.rate);
    }
  }

  /** How many of the requests i to j - 1 of a run are admitted. */
  function AdmittedBetween(b: Bucket, times: seq<real>, i: nat, j: nat): nat
    requires i <= j <= |times|
  {
    Admitted(After(b, times[..i]), times[i..j])
  }

  /** Over any run, between any two instants a bucket admits at most its burst and the tokens earned
      in between. */
  lemma WindowIsBounded(b: Bucket, times: seq<real>, i: nat, j: nat, from: real, until: real)
    requires Fits(b) && Later(b, times) && i <= j <= |times|
    requires from <= until && forall k :: i <= k < j ==> from <= times[k] <= until
    ensures AdmittedBetween(b, times, i, j) as real <= b.burst as real + Earned(until - from, b.rate)
  {
    hide Take, Earned, After;
    AfterFits(b, times[..i]);
    EarnedIsPositive(until - from, b.rate);
    if i < j {
      var window := times[i..j];
      assert window[0] == times[i] && window[|window| - 1] == times[j - 1];
      StretchIsBounded(After(b, times[..i]), window);
      AfterFits(After(b, times[..i]), window);
      EarnedIsPositive(until - from - (times[j - 1] - times[i]), b.rate);
      EarnedAdds(times[j - 1] - times[i], until - from - (times[j - 1] - times[i]), b.rate);
    }
  }

  /** A client's requests lie at least one token apart. */
  predicate Spaced(rate: real, times: seq<real>) {
    Ascending(times) && forall i :: 0 < i < |times| ==> Earned(times[i] - times[i - 1], rate) >= 1.0
  }

  lemma {:induction false} SpacedIsAdmitted(rate: real, burst: int, start: real, times: seq<real>)
    requires rate >= 0.0 && burst >= 1 && Spaced(rate, times) && (times != [] ==> start <= times[0])
    ensures Admitted(Fresh(rate, burst, start), times) == |times|
  {
    if times != [] {
      var n, b := |times| - 1, Fresh(rate, burst, start);
      hide Take, Earned;
      SpacedIsAdmitted(rate, burst, start, times[..n]);
      AfterFits(b, times[..n]);
      if n == 0 { EarnedIsPositive(times[0] - start, rate); }
      TakeIsAdmitted(After(b, times[..n]), times[n]);
    }
  }

  /** A new client that spaces its requests is never refused, exactly when the burst allows one. */
  lemma SpacedIsNeverRefusedIff(rate: real, burst: int, start: real)
    requires rate >= 0.0
    ensures (forall times :: Spaced(rate, times) && (times != [] ==> start <= times[0]) ==>
              Admitted(Fresh(rate, burst, start), times) == |times|) <==> burst >= 1
  {
    if burst >= 1 {
      forall times | Spaced(rate, times) && (times != [] ==> start <= times[0])
        ensures Admitted(Fresh(rate, burst, start), times) == |times|
      {
        SpacedIsAdmitted(rate, burst, start, times);
      }
    } else {
      var once := [start];
      assert once[..0] == [];
      assert Spaced(rate, once) && Admitted(Fresh(rate, burst, start), once) == 0;
    }
  }

  /** A new client may spend its whole burst at any pace. */
  lemma {:induction false} BurstIsAdmitted(rate: real, burst: int, start: real, times: seq<real>)
    requires rate >= 0.0 && |times| <= burst && Later(Fresh(rate, burst, start), times)
    ensures Admitted(Fresh(rate, burst, start), times) == |times|
    ensures After(Fresh(rate, burst, start), times).tokens >= (burst - |times|) as real
  {
    if times != [] {
      var n, b := |times| - 1, Fresh(rate, burst, start);
      hide Take;
      BurstIsAdmitted(rate, burst, start, times[..n]);
      AfterFits(b, times[..n]);
      TakeLeaves(After(b, times[..n]), times[n], (burst - n) as real);
    }
  }

  // ----- After a pause -----

  /** k requests at one instant. */
  function AtOnce(now: real, k: nat): (r: seq<real>)
    ensures |r| == k
  {
    seq(k, i => now)
  }

  /** What a bucket holds at an instant: its tokens and what was earned since, up to its burst. */
  function HeldAt(b: Bucket, now: real): real {
    var all := b.tokens + (now - b.lastRefill) * b.rate;
    if all < b.burst as real then all else b.burst as real
  }

  lemma HeldIs(b: Bucket, now: real)
    ensures Refilled(b, now).tokens == HeldAt(b, now)
  {
    hide Min;
    assert Earned(now - b.lastRefill, b.rate) == (now - b.lastRefill) * b.rate;
    MinIs(b.burst as real, b.tokens + Earned(now - b.lastRefill, b.rate));
  }

  lemma MinIs(a: real, b: real)
    ensures Min(a, b) == if b < a then b else a
  {
  }

  lemma AgainAtOnce(b: Bucket, now: real)
    requires b.tokens <= b.burst as real && b.lastRefill == now
    ensures Refilled(b, now) == b
  {
    assert Earned(now - now, b.rate) == 0.0;
  }

  lemma {:induction false} AtOnceFrom(b: Bucket, now: real, k: nat)
    requires k > 0
    ensures var after, full := After(b, AtOnce(now, k)), Refilled(b, now); var n := Admitted(b, AtOnce(now, k));
      && after == full.(tokens := full.tokens - n as real)
      && n <= k && (n < k ==> after.tokens < 1.0) && (n > 0 ==> after.tokens >= 0.0)
  {
    hide Earned, Refilled;
    RefilledFits(b, now);
    assert AtOnce(now, k)[..k - 1] == AtOnce(now, k - 1);
    if k == 1 {
      assert AtOnce(now, 0) == [];
    } else {
      AtOnceFrom(b, now, k - 1);
      AgainAtOnce(After(b, AtOnce(now, k - 1)), now);
    }
  }

  lemma RefilledFits(b: Bucket, now: real)
    ensures var full := Refilled(b, now);
      full.tokens <= full.burst as real && full.lastRefill == now && full.rate == b.rate && full.burst == b.burst
  {
    hide Earned;
  }

  /** However many requests come at one instant, a bucket lets through exactly as many as it holds whole
      tokens at that instant, and no more than there are. */
  lemma AdmitsWhatItHolds(b: Bucket, now: real, k: nat)
    ensures var held := HeldAt(b, now);
      Admitted(b, AtOnce(now, k)) == if held < 1.0 then 0 else if k as real <= held then k else held.Floor
  {
    hide Admitted, After, Refilled, HeldAt;
    if k == 0 {
      NoneAtOnce(b, now);
    } else {
      AtOnceFrom(b, now, k);
      HeldIs(b, now);
      FloorIs(HeldAt(b, now), Admitted(b, AtOnce(now, k)), k);
    }
  }

  lemma NoneAtOnce(b: Bucket, now: real)
    ensures Admitted(b, AtOnce(now, 0)) == 0
  {
  }

  lemma FloorIs(held: real, n: nat, k: nat)
    requires n <= k && (n < k ==> held - n as real < 1.0) && (n > 0 ==> held - n as real >= 0.0)
    ensures n == if held < 1.0 then 0 else if k as real <= held then k else held.Floor
  {
  }

  lemma AdmitsAll(b: Bucket, now: real, k: nat)
    requires HeldAt(b, now) >= k as real
    ensures Admitted(b, AtOnce(now, k)) == k
  {
    hide Admitted, HeldAt, AtOnce;
    AdmitsWhatItHolds(b, now, k);
    if k == 0 { NoneAtOnce(b, now); } else { assert k as real >= 1.0; }
  }

  function LastAt(b: Bucket, times: seq<real>): real {
    if times == [] then b.lastRefill else times[|times| - 1]
  }

  lemma HoldsAtLeast(b: Bucket, now: real, k: nat)
    requires b.tokens >= 0.0 && k <= b.burst && k as real <= Earned(now - b.lastRefill, b.rate)
    ensures HeldAt(b, now) >= k as real
  {
    HeldIs(b, now);
    hide Earned, HeldAt;
    assert k as real <= b.burst as real;
  }

  /** After any requests and a pause a bucket lets through at once every whole token that the pause has
      earned, up to its burst. */
  lemma RestIsEarned(b: Bucket, times: seq<real>, now: real, k: nat)
    requires Fits(b) && Later(b, times) && LastAt(b, times) <= now
    requires k <= b.burst && k as real <= Earned(now - LastAt(b, times), b.rate)
    ensures Admitted(After(b, times), AtOnce(now, k)) == k
  {
    hide After, Admitted, HeldAt, Earned;
    AfterFits(b, times);
    HoldsAtLeast(After(b, times), now, k);
    AdmitsAll(After(b, times), now, k);
  }
}
