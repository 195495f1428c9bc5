/** The bounded list of clients: who is tracked, and why clients do not disturb each other. */
module ClientLimits {
  import opened RateLimit

  /** `order` runs from the least to the most recently seen client. */
  datatype Clients = Clients(rate: real, burst: int, maxClients: int, order: seq<string>, buckets: map<string, Bucket>)

  function NoClients(rate: real, burst: int, maxClients: int): Clients {
    Clients(rate, burst, maxClients, [], map[])
  }

  function Without(xs: seq<string>, x: string): (r: seq<string>)
    ensures |r| <= |xs|
  {
    if xs == [] then []
    else Without(xs[..|xs| - 1], x) + if xs[|xs| - 1] == x then [] else [xs[|xs| - 1]]
  }

  function BucketFor(s: Clients, key: string, now: real): Bucket {
    if key in s.buckets then s.buckets[key] else Fresh(s.rate, s.burst, now)
  }

  /** A new client displaces the least recently seen one when there are too many. */
  function OrderAfter(s: Clients, key: string): seq<string> {
    if key in s.buckets then Without(s.order, key) + [key]
    else if |s.order| + 1 > s.maxClients then (s.order + [key])[1..]
    else s.order + [key]
  }

  function Serve(s: Clients, key: string, now: real): (Clients, bool) {
    var (bucket, ok) := Take(BucketFor(s, key, now), now, 1.0);
    var order := OrderAfter(s, key);
    var buckets := s.buckets[key := bucket];
    (s.(order := order, buckets := map k | k in buckets && k in order :: buckets[k]), ok)
  }

  // ----- The mutable form -----

  class ClientBuckets {
    const rate: real
    const burst: int
    const maxClients: int
    var order: seq<string>
    var buckets: map<string, TokenBucket>

    constructor (rate: real, burst: int, maxClients: int)
      ensures State() == NoClients(rate, burst, maxClients) && Valid()
    {
      this.rate, this.burst, this.maxClients := rate, burst, maxClients;
      order, buckets := [], map[];
    }

    ghost predicate Valid()
      reads this, buckets.Values
    {
      && TidyList(order, buckets.Keys)
      && (forall k, l :: k in buckets && l in buckets && k != l ==> buckets[k] != buckets[l])
    }

    ghost function State(): Clients
      reads this, buckets.Values
    {
      Clients(rate, burst, maxClients, order, map k | k in buckets :: buckets[k].Value())
    }

    /** The client's bucket, moved to the end of the list or newly put there. */
    method Track(key: string, now: real) returns (bucket: TokenBucket)
      requires Valid()
      modifies this
      ensures Valid() && order == OrderAfter(old(State()), key) && buckets.Keys == KeysAfter(old(State()), key)
      ensures bucket.Value() == BucketFor(old(State()), key, now)
      ensures key in buckets ==> buckets[key] == bucket
      ensures forall k :: k in buckets && k != key ==> k in old(buckets) && buckets[k] == old(buckets[k])
      ensures if key in old(buckets) then bucket == old(buckets[key]) else fresh(bucket)
    {
      hide TokenBucket.Value, TidyList;
      ghost var before := State();
      assert before.buckets.Keys == buckets.Keys;
      OrderIsTidy(before, key);
      if key in buckets {
        bucket := buckets[key];
        order := Without(order, key) + [key];
      } else {
        bucket := new TokenBucket(rate, burst, now);
        buckets := buckets[key := bucket];
        order := order + [key];
        if |order| > maxClients {
          buckets := buckets - {order[0]};
          order := order[1..];
        }
      }
      assert buckets.Keys == KeysAfter(before, key);
    }

    method Consume(key: string, now: real) returns (ok: bool)
      requires Valid()
      modifies this, buckets.Values
      ensures Valid() && (State(), ok) == Serve(old(State()), key, now)
      ensures forall k :: k in buckets ==> (k in old(buckets) && buckets[k] == old(buckets[k])) || fresh(buckets[k])
    {
      hide TokenBucket.Value, Take, OrderAfter, TidyList, KeysAfter, BucketFor;
      ghost var before := State();
      assert before.buckets.Keys == buckets.Keys;
      OrderIsTidy(before, key);
      var bucket := Track(key, now);
      ok := bucket.Consume(now, 1.0);
      assert State().buckets == Serve(before, key, now).0.buckets;
    }
  }

  // ----- The list stays tidy -----

  predicate NoRepeats(xs: seq<string>) {
    forall i, j :: 0 <= i < j < |xs| ==> xs[i] != xs[j]
  }

  /** The list names exactly the clients with a bucket, each once. */
  predicate TidyList(order: seq<string>, keys: set<string>) {
    && NoRepeats(order)
    && (forall k :: k in order ==> k in keys)
    && (forall k :: k in keys ==> k in order)
  }

  predicate Tidy(s: Clients) {
    TidyList(s.order, s.buckets.Keys)
  }

  lemma {:induction false} WithoutElements(xs: seq<string>, x: string, y: string)
    ensures y in Without(xs, x) <==> y in xs && y != x
  {
    if xs != [] {
      assert xs == xs[..|xs| - 1] + [xs[|xs| - 1]];
      WithoutElements(xs[..|xs| - 1], x, y);
    }
  }

  lemma {:induction false} WithoutKeepsNoRepeats(xs: seq<string>, x: string)
    requires NoRepeats(xs)
    ensures NoRepeats(Without(xs, x))
  {
    if xs != [] {
      var n := |xs| - 1;
      WithoutKeepsNoRepeats(xs[..n], x);
      var rest := Without(xs[..n], x);
      forall i | 0 <= i < |rest| ensures rest[i] != xs[n] {
        WithoutElements(xs[..n], x, rest[i]);
        var k :| 0 <= k < n && xs[..n][k] == rest[i];
      }
    }
  }

  /** The clients with a bucket after a request: the known ones and the new one, except the one that
      had to go. */
  function KeysAfter(s: Clients, key: string): set<string> {
    var all := s.buckets.Keys + {key};
    if key !in s.buckets && |s.order| + 1 > s.maxClients then all - {(s.order + [key])[0]} else all
  }

  lemma OrderIsTidy(s: Clients, key: string)
    requires Tidy(s)
    ensures TidyList(OrderAfter(s, key), KeysAfter(s, key))
    ensures forall k :: k in KeysAfter(s, key) <==> k in OrderAfter(s, key)
  {
    if key in s.buckets {
      WithoutKeepsNoRepeats(s.order, key);
      WithoutElements(s.order, key, key);
      forall k ensures k in OrderAfter(s, key) <==> k in s.buckets { WithoutElements(s.order, key, k); }
    } else {
      OneMore(s.order, key);
      var all := s.order + [key];
      forall k ensures k in all <==> k in s.buckets || k == key {}
    }
  }

  lemma OneMore(order: seq<string>, key: string)
    requires NoRepeats(order) && key !in order
    ensures var all := order + [key];
      NoRepeats(all) && NoRepeats(all[1..]) && forall k :: k in all[1..] <==> k in all && k != all[0]
  {
    var all := order + [key];
    assert all == [all[0]] + all[1..];
  }

  lemma ServeKeepsTidy(s: Clients, key: string, now: real)
    requires Tidy(s)
    ensures Tidy(Serve(s, key, now).0)
  {
    hide Take, OrderAfter, KeysAfter, TidyList;
    OrderIsTidy(s, key);
    KeysAreKnown(s, key);
    assert Serve(s, key, now).0.buckets.Keys == KeysAfter(s, key);
  }

  lemma KeysAreKnown(s: Clients, key: string)
    ensures KeysAfter(s, key) <= s.buckets.Keys + {key}
  {
  }

  // ----- Who is tracked -----

  type Call = (string, real)

  function Run(s: Clients, calls: seq<Call>): Clients {
    if calls == [] then s else Serve(Run(s, calls[..|calls| - 1]), calls[|calls| - 1].0, calls[|calls| - 1].1).0
  }

  function Keys(calls: seq<Call>): (r: seq<string>)
    ensures |r| == |calls|
  {
    seq(|calls|, i requires 0 <= i < |calls| => calls[i].0)
  }

  /** The clients of a history by their last request, the latest last. */
  function Recency(keys: seq<string>): seq<string> {
    if keys == [] then [] else Without(Recency(keys[..|keys| - 1]), keys[|keys| - 1]) + [keys[|keys| - 1]]
  }

  function TakeLast(xs: seq<string>, n: nat): (r: seq<string>)
    ensures |r| <= n
  {
    if |xs| <= n then xs else xs[|xs| - n..]
  }

  lemma {:induction false} WithoutAbsent(xs: seq<string>, x: string)
    requires x !in xs
    ensures Without(xs, x) == xs
  {
    if xs != [] {
      assert xs[|xs| - 1] in xs && xs == xs[..|xs| - 1] + [xs[|xs| - 1]];
      WithoutAbsent(xs[..|xs| - 1], x);
    }
  }

  lemma {:induction false} WithoutConcat(a: seq<string>, b: seq<string>, x: string)
    ensures Without(a + b, x) == Without(a, x) + Without(b, x)
  {
    if b == [] {
      assert a + b == a;
    } else {
      assert (a + b)[..|a + b| - 1] == a + b[..|b| - 1];
      WithoutConcat(a, b[..|b| - 1], x);
    }
  }

  lemma {:induction false} RecencyHasNoRepeats(keys: seq<string>)
    ensures NoRepeats(Recency(keys))
    ensures forall k :: k in Recency(keys) <==> k in keys
  {
    if keys != [] {
      var n := |keys| - 1;
      RecencyHasNoRepeats(keys[..n]);
      var before := Recency(keys[..n]);
      WithoutKeepsNoRepeats(before, keys[n]);
      WithoutElements(before, keys[n], keys[n]);
      assert keys == keys[..n] + [keys[n]];
      forall k ensures k in Recency(keys) <==> k in keys { WithoutElements(before, keys[n], k); }
    }
  }

  /** One more request moves its client to the end of the last n. */
  lemma MoveToEnd(all: seq<string>, n: nat, key: string)
    requires NoRepeats(all)
    ensures var last := TakeLast(all, n); var after := TakeLast(Without(all, key) + [key], n);
      after == if key in last then Without(last, key) + [key]
               else if |last| + 1 > n then (last + [key])[1..]
               else last + [key]
  {
    hide Without, NoRepeats;
    var last := TakeLast(all, n);
    var head := all[..|all| - |last|];
    assert all == head + last;
    WithoutConcat(head, last, key);
    if key in last { KnownMoves(all, head, last, n, key); } else { NewMoves(head, last, n, key); }
  }

  lemma TailHasNoRepeats(head: seq<string>, tail: seq<string>)
    requires NoRepeats(head + tail)
    ensures NoRepeats(tail)
  {
    assert forall k :: 0 <= k < |tail| ==> tail[k] == (head + tail)[|head| + k];
  }

  lemma KnownMoves(all: seq<string>, head: seq<string>, last: seq<string>, n: nat, key: string)
    requires NoRepeats(all) && all == head + last && key in last && if |last| < n then head == [] else |last| == n
    requires Without(all, key) == Without(head, key) + Without(last, key)
    ensures TakeLast(Without(all, key) + [key], n) == Without(last, key) + [key]
  {
    hide Without, TakeLast, NoRepeats;
    assert all[..|head|] == head && all[|head|..] == last;
    NotInHead(all, |head|, key);
    WithoutAbsent(head, key);
    var i :| 0 <= i < |last| && last[i] == key;
    TailHasNoRepeats(head, last);
    WithoutOnce(last, key, i);
    assert Without(all, key) + [key] == head + (Without(last, key) + [key]);
    LastOfConcat(head, Without(last, key) + [key], n);
  }

  lemma NewMoves(head: seq<string>, last: seq<string>, n: nat, key: string)
    requires key !in last && (if |last| < n then head == [] else |last| == n)
    requires Without(head + last, key) == Without(head, key) + Without(last, key)
    ensures TakeLast(Without(head + last, key) + [key], n) == if |last| + 1 > n then (last + [key])[1..] else last + [key]
  {
    WithoutAbsent(last, key);
    var rest := Without(head, key);
    assert Without(head + last, key) + [key] == rest + (last + [key]);
    if |last| < n {
      assert rest + (last + [key]) == last + [key];
    } else {
      LastOfLonger(rest, last + [key], n);
    }
  }

  lemma NotInHead(all: seq<string>, h: nat, key: string)
    requires NoRepeats(all) && h <= |all| && key in all[h..]
    ensures key !in all[..h]
  {
    var i :| 0 <= i < |all| - h && all[h..][i] == key;
    assert all[h + i] == key;
  }

  lemma LastOfConcat(head: seq<string>, tail: seq<string>, n: nat)
    requires if |tail| < n then head == [] else |tail| == n
    ensures TakeLast(head + tail, n) == tail
  {
    if head == [] { assert head + tail == tail; }
  }

  lemma LastOfLonger(head: seq<string>, tail: seq<string>, n: nat)
    requires |tail| == n + 1
    ensures TakeLast(head + tail, n) == tail[1..]
  {
  }

  lemma WithoutOnce(xs: seq<string>, x: string, i: nat)
    requires NoRepeats(xs) && i < |xs| && xs[i] == x
    ensures |Without(xs, x)| == |xs| - 1
  {
    assert Without([x], x) == [];
    assert xs == xs[..i] + ([x] + xs[i + 1..]);
    WithoutConcat(xs[..i], [x] + xs[i + 1..], x);
    WithoutConcat([x], xs[i + 1..], x);
    WithoutAbsent(xs[..i], x);
    WithoutAbsent(xs[i + 1..], x);
  }

  /** The tracked clients are, at every moment, the most recently seen ones and no more than allowed. */
  lemma {:induction false} TrackedAreTheMostRecent(rate: real, burst: int, maxClients: nat, calls: seq<Call>)
    ensures var s := Run(NoClients(rate, burst, maxClients), calls);
      && s.order == TakeLast(Recency(Keys(calls)), maxClients) && |s.order| <= maxClients
      && Tidy(s) && s.maxClients == maxClients && s.rate == rate && s.burst == burst
  {
    hide Take, TakeLast, Without;
    if calls == [] {
      EmptyList(maxClients);
    } else {
      var n := |calls| - 1;
      var before, key := Run(NoClients(rate, burst, maxClients), calls[..n]), calls[n].0;
      TrackedAreTheMostRecent(rate, burst, maxClients, calls[..n]);
      ServeKeepsTidy(before, key, calls[n].1);
      assert Keys(calls)[..n] == Keys(calls[..n]);
      RecencyHasNoRepeats(Keys(calls[..n]));
      MoveToEnd(Recency(Keys(calls[..n])), maxClients, key);
    }
  }

  lemma EmptyList(n: nat)
    ensures TakeLast([], n) == []
  {
  }

  /** The requests since the client's last one. */
  function SinceLast(keys: seq<string>, key: string): (r: seq<string>)
    ensures key !in r
  {
    if keys == [] || keys[|keys| - 1] == key then [] else SinceLast(keys[..|keys| - 1], key) + [keys[|keys| - 1]]
  }

  /** How many distinct clients came since the client's last request. */
  function Others(calls: seq<Call>, key: string): nat {
    |set k | k in SinceLast(Keys(calls), key)|
  }

  lemma WithoutAround(left: seq<string>, key: string, right: seq<string>, x: string)
    requires x != key
    ensures Without(left + [key] + right, x) == Without(left, x) + [key] + Without(right, x)
  {
    WithoutConcat(left + [key], right, x);
    WithoutConcat(left, [key], x);
    WithoutAbsent([key], x);
  }

  lemma {:induction false} RecencySince(keys: seq<string>, key: string) returns (left: seq<string>)
    requires key in keys
    ensures Recency(keys) == left + [key] + Recency(SinceLast(keys, key)) && key !in left
  {
    hide Without;
    var n := |keys| - 1;
    assert keys == keys[..n] + [keys[n]];
    if keys[n] == key {
      left := Without(Recency(keys[..n]), key);
      WithoutElements(Recency(keys[..n]), key, key);
    } else {
      var before := RecencySince(keys[..n], key);
      var since := SinceLast(keys[..n], key);
      assert SinceLast(keys, key)[..|since|] == since;
      WithoutAround(before, key, Recency(since), keys[n]);
      left := Without(before, keys[n]);
      WithoutElements(before, keys[n], key);
    }
  }

  /** The number of entries of the recency list is the number of distinct clients. */
  lemma {:induction false} RecencyCountsClients(keys: seq<string>)
    ensures |Recency(keys)| == |set k | k in keys|
  {
    RecencyHasNoRepeats(keys);
    assert (set k | k in keys) == (set k | k in Recency(keys));
    CountNoRepeats(Recency(keys));
  }

  lemma {:induction false} CountNoRepeats(xs: seq<string>)
    requires NoRepeats(xs)
    ensures |set x | x in xs| == |xs|
  {
    if xs != [] {
      var n := |xs| - 1;
      CountNoRepeats(xs[..n]);
      assert xs == xs[..n] + [xs[n]];
      assert (set x | x in xs) == (set x | x in xs[..n]) + {xs[n]};
    }
  }

  /** A client stays tracked exactly as long as fewer than the allowed number of others were seen
      since its last request. */
  lemma StaysTrackedIff(rate: real, burst: int, maxClients: nat, calls: seq<Call>, key: string)
    requires key in Keys(calls)
    ensures key in Run(NoClients(rate, burst, maxClients), calls).order <==>
            Others(calls, key) < maxClients
  {
    hide Recency, SinceLast, Without;
    RecencyCountsClients(SinceLast(Keys(calls), key));
    TrackedAreTheMostRecent(rate, burst, maxClients, calls);
    var since := SinceLast(Keys(calls), key);
    var left := RecencySince(Keys(calls), key);
    RecencyHasNoRepeats(since);
    var all := left + [key] + Recency(since);
    if |Recency(since)| < maxClients {
      assert all[|left|] == key;
      if |all| > maxClients { assert TakeLast(all, maxClients)[maxClients - |Recency(since)| - 1] == key; }
    } else {
      assert key !in TakeLast(Recency(since), maxClients);
      assert TakeLast(all, maxClients) == TakeLast(Recency(since), maxClients);
    }
  }

  // ----- The bound for one client among many -----

  function Times(calls: seq<Call>, key: string): seq<real> {
    if calls == [] then []
    else Times(calls[..|calls| - 1], key) + if calls[|calls| - 1].0 == key then [calls[|calls| - 1].1] else []
  }

  /** How many requests of the client are let through. */
  function AdmittedOf(s: Clients, calls: seq<Call>, key: string): nat {
    if calls == [] then 0
    else
      var n := |calls| - 1;
      AdmittedOf(s, calls[..n], key) +
      if calls[n].0 == key && Serve(Run(s, calls[..n]), key, calls[n].1).1 then 1 else 0
  }

  /** A tracked client's bucket changes by its own requests only. */
  lemma OneCall(s: Clients, call: Call, key: string)
    requires key in s.buckets && key in Serve(s, call.0, call.1).0.buckets
    ensures Serve(s, call.0, call.1).0.buckets[key] ==
            if call.0 == key then Take(s.buckets[key], call.1, 1.0).0 else s.buckets[key]
    ensures call.0 == key ==> Serve(s, call.0, call.1).1 == Take(s.buckets[key], call.1, 1.0).1
  {
    hide Take;
  }

  lemma FirstCall(s: Clients, calls: seq<Call>, key: string)
    requires |calls| == 1 && calls[0].0 == key && key in Run(s, calls).buckets
    ensures var b := BucketFor(s, key, calls[0].1);
      && Run(s, calls).buckets[key] == After(b, Times(calls, key))
      && AdmittedOf(s, calls, key) == Admitted(b, Times(calls, key))
  {
    hide Take, Serve, BucketFor;
    assert calls[..0] == [] && Times(calls, key) == [calls[0].1] && Times(calls, key)[..0] == [];
    ServeOwn(s, key, calls[0].1);
  }

  lemma ServeOwn(s: Clients, key: string, now: real)
    requires key in Serve(s, key, now).0.buckets
    ensures (Serve(s, key, now).0.buckets[key], Serve(s, key, now).1) == Take(BucketFor(s, key, now), now, 1.0)
  {
    hide Take, BucketFor, OrderAfter;
  }

  /** From one of its requests on, a client that stays tracked has a bucket to itself. */
  lemma {:induction false} OwnBucket(s: Clients, calls: seq<Call>, key: string)
    requires calls != [] && calls[0].0 == key
    requires forall k :: 0 < k <= |calls| ==> key in Run(s, calls[..k]).buckets
    ensures key in Run(s, calls).buckets
    ensures var b := BucketFor(s, key, calls[0].1);
      && Run(s, calls).buckets[key] == After(b, Times(calls, key))
      && AdmittedOf(s, calls, key) == Admitted(b, Times(calls, key))
  {
    hide Take, Serve, BucketFor;
    var n := |calls| - 1;
    assert calls[..n + 1] == calls;
    if n == 0 {
      FirstCall(s, calls, key);
    } else {
      forall k | 0 < k <= n ensures key in Run(s, calls[..n][..k]).buckets { assert calls[..n][..k] == calls[..k]; }
      OwnBucket(s, calls[..n], key);
      OneCall(Run(s, calls[..n]), calls[n], key);
      var times := Times(calls[..n], key);
      if calls[n].0 == key {
        assert Times(calls, key) == times + [calls[n].1] && Times(calls, key)[..|times|] == times;
      } else {
        assert Times(calls, key) == times;
      }
    }
  }

  predicate Timely(calls: seq<Call>) {
    forall i, j :: 0 <= i < j < |calls| ==> calls[i].1 <= calls[j].1
  }

  /** Every bucket of a run is within its limits and was last filled no later than the last request. */
  predicate BucketsFit(s: Clients, now: real) {
    forall k :: k in s.buckets ==>
      Fits(s.buckets[k]) && s.buckets[k].lastRefill <= now && s.buckets[k].rate == s.rate && s.buckets[k].burst == s.burst
  }

  lemma {:induction false} RunFits(rate: real, burst: nat, maxClients: nat, calls: seq<Call>, now: real)
    requires rate >= 0.0 && Timely(calls) && forall i :: 0 <= i < |calls| ==> calls[i].1 <= now
    ensures BucketsFit(Run(NoClients(rate, burst, maxClients), calls), now)
    ensures var s := Run(NoClients(rate, burst, maxClients), calls); s.rate == rate && s.burst == burst
  {
    hide Take;
    if calls != [] {
      var n := |calls| - 1;
      RunFits(rate, burst, maxClients, calls[..n], calls[n].1);
      var s := Run(NoClients(rate, burst, maxClients), calls[..n]);
      TakeKeepsFits(BucketFor(s, calls[n].0, calls[n].1), calls[n].1);
    }
  }

  lemma {:induction false} TimesAscend(calls: seq<Call>, key: string, from: real, until: real)
    requires Timely(calls) && forall i :: 0 <= i < |calls| ==> from <= calls[i].1 <= until
    ensures Ascending(Times(calls, key))
    ensures forall i :: 0 <= i < |Times(calls, key)| ==> from <= Times(calls, key)[i] <= until
  {
    if calls != [] {
      var n := |calls| - 1;
      TimesAscend(calls[..n], key, from, calls[n].1);
    }
  }

  lemma {:induction false} SinceLastOfLater(prior: seq<string>, window: seq<string>, key: string)
    requires key in window
    ensures SinceLast(prior + window, key) == SinceLast(window, key)
  {
    var n := |window| - 1;
    assert (prior + window)[..|prior + window| - 1] == prior + window[..n];
    assert window == window[..n] + [window[n]];
    if window[n] != key { SinceLastOfLater(prior, window[..n], key); }
  }

  /** In any run, a client that is never displaced is let through at most its burst and the tokens
      earned between any two instants. It is not displaced while fewer than the allowed number of
      others come between its requests. */
  lemma ClientWindowIsBounded(rate: real, burst: nat, maxClients: nat, prior: seq<Call>, window: seq<Call>,
                              key: string, from: real, until: real)
    requires rate >= 0.0 && Timely(prior + window)
    requires window != [] && window[0].0 == key
    requires forall k :: 0 < k <= |window| ==> Others(window[..k], key) < maxClients
    requires forall i :: 0 <= i < |window| ==> from <= window[i].1 <= until
    ensures AdmittedOf(Run(NoClients(rate, burst, maxClients), prior), window, key) as real <=
            burst as real + Earned(until - from, rate)
  {
    hide Earned, Take, Recency, SinceLast, AdmittedOf, Admitted, After;
    var s := Run(NoClients(rate, burst, maxClients), prior);
    forall k | 0 < k <= |window| ensures key in Run(s, window[..k]).buckets {
      StillTracked(rate, burst, maxClients, prior, window[..k], key);
    }
    OwnBucket(s, window, key);
    WindowOfBucket(rate, burst, maxClients, prior, window, key, from, until);
  }

  lemma StillTracked(rate: real, burst: int, maxClients: nat, prior: seq<Call>, window: seq<Call>, key: string)
    requires window != [] && window[0].0 == key && Others(window, key) < maxClients
    ensures key in Run(Run(NoClients(rate, burst, maxClients), prior), window).buckets
  {
    hide Recency, SinceLast, Serve;
    RunConcat(NoClients(rate, burst, maxClients), prior, window);
    assert Keys(prior + window) == Keys(prior) + Keys(window);
    assert Keys(window)[0] == key;
    SinceLastOfLater(Keys(prior), Keys(window), key);
    assert key in Keys(prior + window);
    StaysTrackedIff(rate, burst, maxClients, prior + window, key);
    TrackedAreTheMostRecent(rate, burst, maxClients, prior + window);
  }

  lemma {:induction false} RunConcat(s: Clients, a: seq<Call>, b: seq<Call>)
    ensures Run(s, a + b) == Run(Run(s, a), b)
  {
    hide Serve;
    if b == [] {
      assert a + b == a;
    } else {
      assert (a + b)[..|a + b| - 1] == a + b[..|b| - 1];
      RunConcat(s, a, b[..|b| - 1]);
    }
  }

  lemma WindowOfBucket(rate: real, burst: nat, maxClients: nat, prior: seq<Call>, window: seq<Call>,
                       key: string, from: real, until: real)
    requires rate >= 0.0 && Timely(prior + window) && window != [] && window[0].0 == key
    requires forall i :: 0 <= i < |window| ==> from <= window[i].1 <= until
    ensures var b := BucketFor(Run(NoClients(rate, burst, maxClients), prior), key, window[0].1);
      Admitted(b, Times(window, key)) as real <= burst as real + Earned(until - from, rate)
  {
    hide Earned, Take, Admitted, After, Serve;
    var s := Run(NoClients(rate, burst, maxClients), prior);
    forall i | 0 <= i < |prior| ensures prior[i].1 <= window[0].1 {
      assert (prior + window)[i] == prior[i] && (prior + window)[|prior|] == window[0];
    }
    forall i, j | 0 <= i < j < |prior| ensures prior[i].1 <= prior[j].1 {
      assert (prior + window)[i] == prior[i] && (prior + window)[j] == prior[j];
    }
    forall i, j | 0 <= i < j < |window| ensures window[i].1 <= window[j].1 {
      assert (prior + window)[|prior| + i] == window[i] && (prior + window)[|prior| + j] == window[j];
    }
    RunFits(rate, burst, maxClients, prior, window[0].1);
    var b, times := BucketFor(s, key, window[0].1), Times(window, key);
    TimesAscend(window, key, from, until);
    TimesAscend(window, key, window[0].1, until);
    WindowIsBounded(b, times, 0, |times|, from, until);
    assert times[..0] == [] && times[0..|times|] == times;
    NothingTaken(b);
  }

  lemma NothingTaken(b: Bucket)
    ensures After(b, []) == b
  {
  }

  // ----- Clients in rotation -----

  /** The clients as they come next after `c` requests in rotation. */
  function Queue(keys: seq<string>, c: nat): (r: seq<string>)
    requires keys != []
    ensures |r| == |keys|
  {
    if c == 0 then keys else Queue(keys, c - 1)[1..] + [Queue(keys, c - 1)[0]]
  }

  /** Requests in rotation, all at one moment. */
  function Rotation(keys: seq<string>, c: nat, now: real): (r: seq<Call>)
    requires keys != []
    ensures |r| == c
  {
    if c == 0 then [] else Rotation(keys, c - 1, now) + [(Queue(keys, c - 1)[0], now)]
  }

  lemma {:induction false} QueueKeepsClients(keys: seq<string>, c: nat)
    requires keys != [] && NoRepeats(keys)
    ensures NoRepeats(Queue(keys, c)) && forall k :: k in Queue(keys, c) <==> k in keys
  {
    if c > 0 {
      QueueKeepsClients(keys, c - 1);
      var before := Queue(keys, c - 1);
      assert before == [before[0]] + before[1..];
      forall k ensures k in Queue(keys, c) <==> k in before {}
    }
  }

  lemma FreshIsAdmitted(rate: real, burst: int, now: real)
    requires burst >= 1
    ensures Take(Fresh(rate, burst, now), now, 1.0).1
  {
  }

  /** The tracked clients are the last in the queue, and the first in it is not among them. */
  predicate LastInQueue(s: Clients, queue: seq<string>) {
    && s.maxClients == |queue| - 1 && Tidy(s) && |s.order| <= |queue| - 1
    && s.order == queue[|queue| - |s.order|..]
  }

  lemma FirstIsUntracked(s: Clients, queue: seq<string>)
    requires LastInQueue(s, queue) && NoRepeats(queue)
    ensures queue[0] !in s.buckets
  {
  }

  lemma OneTurn(s: Clients, queue: seq<string>, now: real)
    requires LastInQueue(s, queue) && NoRepeats(queue)
    ensures LastInQueue(Serve(s, queue[0], now).0, queue[1..] + [queue[0]])
  {
    hide Take, TidyList;
    FirstIsUntracked(s, queue);
    ServeKeepsTidy(s, queue[0], now);
    QueueMoves(s.order, queue);
  }

  /** With one place too few the tracked clients are always the last in the queue. */
  lemma {:induction false} NextIsNotTracked(rate: real, burst: int, keys: seq<string>, c: nat, now: real)
    requires keys != [] && NoRepeats(keys)
    ensures var s := Run(NoClients(rate, burst, |keys| - 1), Rotation(keys, c, now));
      s.rate == rate && s.burst == burst && LastInQueue(s, Queue(keys, c)) && Queue(keys, c)[0] !in s.buckets
  {
    hide Serve, LastInQueue, NoRepeats;
    if c == 0 {
      NobodyIsTracked(rate, burst, keys);
    } else {
      var before := Run(NoClients(rate, burst, |keys| - 1), Rotation(keys, c - 1, now));
      var calls := Rotation(keys, c, now);
      assert calls[..|calls| - 1] == Rotation(keys, c - 1, now);
      NextIsNotTracked(rate, burst, keys, c - 1, now);
      QueueKeepsClients(keys, c - 1);
      OneTurn(before, Queue(keys, c - 1), now);
      ServeKeepsSettings(before, Queue(keys, c - 1)[0], now);
    }
    QueueKeepsClients(keys, c);
    FirstIsUntracked(Run(NoClients(rate, burst, |keys| - 1), Rotation(keys, c, now)), Queue(keys, c));
  }

  lemma NobodyIsTracked(rate: real, burst: int, keys: seq<string>)
    requires keys != []
    ensures LastInQueue(NoClients(rate, burst, |keys| - 1), keys)
  {
  }

  lemma QueueMoves(order: seq<string>, queue: seq<string>)
    requires |order| <= |queue| - 1 && order == queue[|queue| - |order|..]
    ensures var next := queue[1..] + [queue[0]];
      var after := if |order| + 1 > |queue| - 1 then (order + [queue[0]])[1..] else order + [queue[0]];
      |after| <= |queue| - 1 && after == next[|queue| - |after|..]
  {
  }

  /** Every request of the rotation is let through. */
  lemma {:induction false} RotationIsAdmitted(rate: real, burst: int, keys: seq<string>, c: nat, now: real, key: string)
    requires burst >= 1 && keys != [] && NoRepeats(keys)
    ensures var calls := Rotation(keys, c, now);
      AdmittedOf(NoClients(rate, burst, |keys| - 1), calls, key) == |Times(calls, key)|
  {
    hide Take, Serve, Run;
    if c > 0 {
      var s := NoClients(rate, burst, |keys| - 1);
      var calls := Rotation(keys, c, now);
      RotationIsAdmitted(rate, burst, keys, c - 1, now, key);
      NextIsNotTracked(rate, burst, keys, c - 1, now);
      assert calls[..|calls| - 1] == Rotation(keys, c - 1, now);
      UntrackedIsServed(Run(s, Rotation(keys, c - 1, now)), Queue(keys, c - 1)[0], now);
    }
  }

  lemma UntrackedIsServed(s: Clients, key: string, now: real)
    requires key !in s.buckets && s.burst >= 1
    ensures Serve(s, key, now).1
  {
    hide Take, OrderAfter;
    FreshIsAdmitted(s.rate, s.burst, now);
  }

  lemma {:induction false} QueueTurns(keys: seq<string>, c: nat, i: nat)
    requires keys != [] && i <= |keys|
    ensures Queue(keys, c + i) == Queue(keys, c)[i..] + Queue(keys, c)[..i]
  {
    if i > 0 { QueueTurns(keys, c, i - 1); }
  }

  lemma OnceInPrefix(queue: seq<string>, i: nat, key: string)
    requires NoRepeats(queue) && i < |queue|
    ensures key in queue[..i + 1] <==> key in queue[..i] || key == queue[i]
    ensures key in queue[..i] ==> key != queue[i]
  {
    assert queue[..i + 1] == queue[..i] + [queue[i]];
  }

  /** In one round every client has one request. */
  lemma {:induction false} RoundHasOne(keys: seq<string>, c: nat, i: nat, now: real, key: string)
    requires keys != [] && NoRepeats(keys) && i <= |keys|
    ensures |Times(Rotation(keys, c + i, now), key)| ==
            |Times(Rotation(keys, c, now), key)| + if key in Queue(keys, c)[..i] then 1 else 0
  {
    hide Queue, NoRepeats;
    if i > 0 {
      var queue, calls := Queue(keys, c), Rotation(keys, c + i, now);
      RoundHasOne(keys, c, i - 1, now, key);
      QueueTurns(keys, c, i - 1);
      QueueKeepsClients(keys, c);
      OnceInPrefix(queue, i - 1, key);
      assert calls == Rotation(keys, c + i - 1, now) + [(queue[i - 1], now)];
      assert calls[..|calls| - 1] == Rotation(keys, c + i - 1, now);
    }
  }

  lemma {:induction false} RoundsHaveMany(keys: seq<string>, n: nat, now: real, key: string)
    requires keys != [] && NoRepeats(keys) && key in keys
    ensures |Times(Rotation(keys, n * |keys|, now), key)| == n
  {
    if n > 0 {
      RoundsHaveMany(keys, n - 1, now, key);
      OneRoundMore(n, |keys|);
      QueueKeepsClients(keys, (n - 1) * |keys|);
      RoundHasOne(keys, (n - 1) * |keys|, |keys|, now, key);
      var queue := Queue(keys, (n - 1) * |keys|);
      assert queue[..|keys|] == queue;
    }
  }

  lemma OneRoundMore(n: nat, m: nat)
    requires n > 0
    ensures 0 <= (n - 1) * m && n * m == (n - 1) * m + m
  {
  }

  /** A displaced client starts again with a full bucket. One client more than there are places, in
      rotation, and each of them is let through as often as it likes, all at one moment: for every
      number of places and every burst that allows a request at all. */
  lemma DisplacementRefills(rate: real, burst: int, keys: seq<string>, n: nat, now: real, key: string)
    requires burst >= 1 && keys != [] && NoRepeats(keys) && key in keys
    ensures AdmittedOf(NoClients(rate, burst, |keys| - 1), Rotation(keys, n * |keys|, now), key) == n
  {
    hide AdmittedOf, Times, Rotation;
    RoundsAreRequests(n, |keys|);
    RotationIsAdmitted(rate, burst, keys, n * |keys|, now, key);
    RoundsHaveMany(keys, n, now, key);
  }

  lemma RoundsAreRequests(n: nat, m: nat)
    ensures n * m >= 0
  {
  }

  // ----- Up to how many clients the bound holds -----

  function ClientsOf(calls: seq<Call>): set<string> {
    set k | k in Keys(calls)
  }

  /** Whatever came before, a client among at most `clients` ones is let through at most its burst and
      the tokens earned between any two instants. */
  ghost predicate BoundedFor(rate: real, burst: nat, maxClients: nat, clients: nat) {
    forall prior, window, key, from, until ::
      IsWindow(prior, window, from, until) && |ClientsOf(window)| <= clients ==>
      AdmittedOf(Run(NoClients(rate, burst, maxClients), prior), window, key) as real <=
      burst as real + Earned(until - from, rate)
  }

  predicate IsWindow(prior: seq<Call>, window: seq<Call>, from: real, until: real) {
    from <= until && Timely(prior + window) && forall i :: 0 <= i < |window| ==> from <= window[i].1 <= until
  }

  lemma {:induction false} AdmittedConcat(s: Clients, a: seq<Call>, b: seq<Call>, key: string)
    ensures AdmittedOf(s, a + b, key) == AdmittedOf(s, a, key) + AdmittedOf(Run(s, a), b, key)
  {
    hide Serve;
    if b == [] {
      assert a + b == a;
    } else {
      assert (a + b)[..|a + b| - 1] == a + b[..|b| - 1];
      AdmittedConcat(s, a, b[..|b| - 1], key);
      RunConcat(s, a, b[..|b| - 1]);
    }
  }

  lemma {:induction false} NobodyAdmitted(s: Clients, calls: seq<Call>, key: string)
    requires key !in Keys(calls)
    ensures AdmittedOf(s, calls, key) == 0
  {
    hide Serve;
    if calls != [] {
      var n := |calls| - 1;
      assert Keys(calls)[n] == calls[n].0;
      assert Keys(calls)[..n] == Keys(calls[..n]);
      NobodyAdmitted(s, calls[..n], key);
    }
  }

  lemma {:induction false} FirstRequest(calls: seq<Call>, key: string) returns (i: nat)
    requires key in Keys(calls)
    ensures i < |calls| && calls[i].0 == key && key !in Keys(calls[..i])
  {
    var n := |calls| - 1;
    assert Keys(calls) == Keys(calls[..n]) + [calls[n].0];
    if key in Keys(calls[..n]) {
      i := FirstRequest(calls[..n], key);
      assert calls[..n][..i] == calls[..i];
    } else {
      i := n;
    }
  }

  lemma {:induction false} SinceLastIsFromKeys(keys: seq<string>, key: string)
    ensures forall k :: k in SinceLast(keys, key) ==> k in keys
  {
    if keys != [] {
      assert keys == keys[..|keys| - 1] + [keys[|keys| - 1]];
      SinceLastIsFromKeys(keys[..|keys| - 1], key);
    }
  }

  lemma FewOthers(calls: seq<Call>, k: nat, key: string)
    requires 0 < k <= |calls| && calls[0].0 == key
    ensures Others(calls[..k], key) < |ClientsOf(calls)|
  {
    hide SinceLast;
    SinceLastIsFromKeys(Keys(calls[..k]), key);
    var others := set x | x in SinceLast(Keys(calls[..k]), key);
    assert Keys(calls[..k]) == Keys(calls)[..k];
    assert Keys(calls)[0] == key;
    forall x | x in others ensures x in ClientsOf(calls) - {key} {}
    SubsetIsSmaller(others, ClientsOf(calls) - {key});
  }

  lemma SubsetIsSmaller(a: set<string>, b: set<string>)
    requires a <= b
    ensures |a| <= |b|
  {
    assert b == a + (b - a);
  }

  lemma MoreClientsInMore(a: seq<Call>, b: seq<Call>)
    ensures |ClientsOf(b)| <= |ClientsOf(a + b)|
  {
    assert Keys(a + b) == Keys(a) + Keys(b);
    SubsetIsSmaller(ClientsOf(b), ClientsOf(a + b));
  }

  lemma FewClientsAreBounded(rate: real, burst: nat, maxClients: nat, prior: seq<Call>, window: seq<Call>,
                             key: string, from: real, until: real)
    requires rate >= 0.0 && IsWindow(prior, window, from, until) && |ClientsOf(window)| <= maxClients
    ensures AdmittedOf(Run(NoClients(rate, burst, maxClients), prior), window, key) as real <=
            burst as real + Earned(until - from, rate)
  {
    hide AdmittedOf, Earned, Run, ClientsOf, Others;
    var s := Run(NoClients(rate, burst, maxClients), prior);
    EarnedIsPositive(until - from, rate);
    if key in Keys(window) {
      var i := FirstRequest(window, key);
      var head, tail := window[..i], window[i..];
      assert window == head + tail && (prior + head) + tail == prior + window;
      AdmittedConcat(s, head, tail, key);
      NobodyAdmitted(s, head, key);
      RunConcat(NoClients(rate, burst, maxClients), prior, head);
      MoreClientsInMore(head, tail);
      forall k | 0 < k <= |tail| ensures Others(tail[..k], key) < maxClients { FewOthers(tail, k, key); }
      ClientWindowIsBounded(rate, burst, maxClients, prior + head, tail, key, from, until);
    } else {
      NobodyAdmitted(s, window, key);
    }
  }

  /** Names of different lengths. */
  function Names(n: nat): (r: seq<string>)
    ensures |r| == n && NoRepeats(r)
  {
    var names := seq(n, (i: int) requires i >= 0 => seq(i, (j: int) => 'a'));
    assert forall i :: 0 <= i < n ==> |names[i]| == i;
    names
  }

  lemma {:induction false} RotationIsOneMoment(keys: seq<string>, c: nat, now: real)
    requires keys != [] && NoRepeats(keys)
    ensures forall i :: 0 <= i < c ==> Rotation(keys, c, now)[i].1 == now
    ensures forall k :: k in Keys(Rotation(keys, c, now)) ==> k in keys
  {
    if c > 0 {
      RotationIsOneMoment(keys, c - 1, now);
      QueueKeepsClients(keys, c - 1);
      var key := Queue(keys, c - 1)[0];
      assert Keys(Rotation(keys, c, now)) == Keys(Rotation(keys, c - 1, now)) + [key];
      assert key in Queue(keys, c - 1);
    }
  }

  lemma OneMomentIsAWindow(calls: seq<Call>)
    requires forall i :: 0 <= i < |calls| ==> calls[i].1 == 0.0
    ensures IsWindow([], calls, 0.0, 0.0)
  {
    assert [] + calls == calls;
  }

  lemma RotationIsAWindow(keys: seq<string>, c: nat)
    requires keys != [] && NoRepeats(keys)
    ensures IsWindow([], Rotation(keys, c, 0.0), 0.0, 0.0) && |ClientsOf(Rotation(keys, c, 0.0))| <= |keys|
  {
    hide Rotation, IsWindow, NoRepeats;
    var calls := Rotation(keys, c, 0.0);
    RotationIsOneMoment(keys, c, 0.0);
    OneMomentIsAWindow(calls);
    CountNoRepeats(keys);
    SubsetIsSmaller(ClientsOf(calls), set k | k in keys);
  }

  lemma TooManyClients(rate: real, burst: nat, maxClients: nat, clients: nat)
    requires burst >= 1 && clients > maxClients
    ensures !BoundedFor(rate, burst, maxClients, clients)
  {
    hide AdmittedOf, Rotation, IsWindow, ClientsOf;
    var keys := Names(maxClients + 1);
    RoundsAreRequests(burst + 1, |keys|);
    var calls := Rotation(keys, (burst + 1) * |keys|, 0.0);
    DisplacementRefills(rate, burst, keys, burst + 1, 0.0, keys[0]);
    RotationIsAWindow(keys, (burst + 1) * |keys|);
    NothingEarned(rate);
    assert Run(NoClients(rate, burst, maxClients), []) == NoClients(rate, burst, maxClients);
  }

  lemma NothingEarned(rate: real)
    ensures Earned(0.0 - 0.0, rate) == 0.0
  {
  }

  /** The bound of a client holds in every window of every run exactly up to as many distinct clients
      in the window as there are places. */
  lemma BoundedForIff(rate: real, burst: nat, maxClients: nat, clients: nat)
    requires rate >= 0.0 && burst >= 1
    ensures BoundedFor(rate, burst, maxClients, clients) <==> clients <= maxClients
  {
    hide AdmittedOf, IsWindow, ClientsOf, Earned, Run;
    if clients <= maxClients {
      forall prior, window, key, from, until | IsWindow(prior, window, from, until) && |ClientsOf(window)| <= clients
        ensures AdmittedOf(Run(NoClients(rate, burst, maxClients), prior), window, key) as real <=
                burst as real + Earned(until - from, rate)
      {
        FewClientsAreBounded(rate, burst, maxClients, prior, window, key, from, until);
      }
    } else {
      TooManyClients(rate, burst, maxClients, clients);
    }
  }

  // ----- Spaced clients among many -----

  /** What a client that was served before, if it is still tracked, finds in its bucket. */
  predicate OwnFits(s: Clients, key: string, times: seq<real>) {
    key in s.buckets ==>
      && Fits(s.buckets[key]) && s.buckets[key].rate == s.rate && s.buckets[key].burst == s.burst
      && times != [] && s.buckets[key].lastRefill == times[|times| - 1]
  }

  lemma FreshAdmits(rate: real, burst: int, now: real)
    requires rate >= 0.0 && burst >= 1
    ensures var (after, ok) := Take(Fresh(rate, burst, now), now, 1.0);
      ok && Fits(after) && after.rate == rate && after.burst == burst && after.lastRefill == now
  {
  }

  lemma OwnSpacedCall(s: Clients, key: string, times: seq<real>, now: real)
    requires s.rate >= 0.0 && s.burst >= 1 && OwnFits(s, key, times) && Spaced(s.rate, times + [now])
    ensures var (after, ok) := Serve(s, key, now); ok && OwnFits(after, key, times + [now])
  {
    hide Take, Earned, OrderAfter;
    var n := |times|;
    if key in s.buckets {
      var b := s.buckets[key];
      assert (times + [now])[n] == now && (times + [now])[n - 1] == times[n - 1];
      TakeKeepsFits(b, now);
      TakeIsAdmitted(b, now);
    } else {
      FreshAdmits(s.rate, s.burst, now);
    }
  }

  lemma OtherCall(s: Clients, other: string, key: string, times: seq<real>, now: real)
    requires other != key && OwnFits(s, key, times)
    ensures OwnFits(Serve(s, other, now).0, key, times)
  {
    hide Take, OrderAfter;
  }

  lemma {:induction false} SpacedAmongOthers(rate: real, burst: int, maxClients: int, calls: seq<Call>, key: string)
    requires rate >= 0.0 && burst >= 1 && Spaced(rate, Times(calls, key))
    ensures var none := NoClients(rate, burst, maxClients); var s := Run(none, calls);
      && s.rate == rate && s.burst == burst && OwnFits(s, key, Times(calls, key))
      && AdmittedOf(none, calls, key) == |Times(calls, key)|
  {
    hide Take, Earned, Serve;
    if calls != [] {
      var n := |calls| - 1;
      var before, times := calls[..n], Times(calls[..n], key);
      if calls[n].0 == key {
        assert Times(calls, key) == times + [calls[n].1];
        SpacedPrefix(rate, times, calls[n].1);
      } else {
        assert Times(calls, key) == times;
      }
      SpacedAmongOthers(rate, burst, maxClients, before, key);
      var s := Run(NoClients(rate, burst, maxClients), before);
      ServeKeepsSettings(s, calls[n].0, calls[n].1);
      if calls[n].0 == key {
        OwnSpacedCall(s, key, times, calls[n].1);
      } else {
        OtherCall(s, calls[n].0, key, times, calls[n].1);
      }
    }
  }

  lemma ServeKeepsSettings(s: Clients, key: string, now: real)
    ensures var after := Serve(s, key, now).0; after.rate == s.rate && after.burst == s.burst
  {
  }

  lemma SpacedPrefix(rate: real, times: seq<real>, now: real)
    requires Spaced(rate, times + [now])
    ensures Spaced(rate, times)
  {
    assert forall i :: 0 <= i < |times| ==> (times + [now])[i] == times[i];
  }

  /** Whatever the other clients do, and however often they displace it, a client whose requests lie a
      token apart is never refused, exactly when the burst allows one request. */
  lemma SpacedClientIsNeverRefusedIff(rate: real, burst: int, maxClients: int)
    requires rate >= 0.0
    ensures (forall calls, key :: Spaced(rate, Times(calls, key)) ==>
              AdmittedOf(NoClients(rate, burst, maxClients), calls, key) == |Times(calls, key)|) <==> burst >= 1
  {
    hide Spaced;
    if burst >= 1 {
      forall calls, key | Spaced(rate, Times(calls, key))
        ensures AdmittedOf(NoClients(rate, burst, maxClients), calls, key) == |Times(calls, key)|
      {
        SpacedAmongOthers(rate, burst, maxClients, calls, key);
      }
    } else {
      FirstIsRefused(rate, burst, maxClients);
    }
  }

  lemma FirstIsRefused(rate: real, burst: int, maxClients: int)
    requires burst < 1
    ensures var calls := [("a", 0.0)];
      Spaced(rate, Times(calls, "a")) && |Times(calls, "a")| == 1 && AdmittedOf(NoClients(rate, burst, maxClients), calls, "a") == 0
  {
    hide OrderAfter;
    var calls := [("a", 0.0)];
    assert calls[..0] == [] && Times(calls, "a") == [0.0];
    assert !Take(Fresh(rate, burst, 0.0), 0.0, 1.0).1;
  }
}
