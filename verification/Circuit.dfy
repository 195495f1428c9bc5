/** The retry loop and circuit breaker of the shared HTTP client. */
module Circuit {
  import opened Wrappers

  // ----- Meaning -----

  /** What one attempt meets: a status with a readable or unreadable body, a transport error, a value
      error, or any other exception. */
  datatype Reply = Status(code: int, readable: bool) | TransportError | ValueProblem | OtherError

  /** One attempt with the clock readings at its check and at its failure. */
  datatype Attempt = Attempt(checked: real, failed: real, reply: Reply)

  datatype Settings = Settings(yandex: bool, maxAttempts: nat, threshold: nat, resetSeconds: real)

  predicate Valid(g: Settings) {
    g.maxAttempts >= 1 && g.threshold >= 1
  }

  /** The breaker: failed calls in a row, and until when it is open. */
  datatype Breaker = Breaker(failures: nat, openUntil: Option<real>)

  const CLOSED := Breaker(0, None)

  datatype Outcome = Answered | StatusError | TransportFailed | BadValue | CircuitOpen | Aborted | ClientClosed

  predicate IsSuccess(code: int) {
    200 <= code <= 299
  }

  predicate Retriable(g: Settings, r: Reply) {
    r.TransportError? || (r.Status? && (r.code == 429 || (r.code == 420 && g.yandex) || 500 <= r.code <= 599))
  }

  predicate Blocks(b: Breaker, now: real) {
    b.openUntil.Some? && now < b.openUntil.value
  }

  /** Passing the check closes a breaker whose time is over. */
  function Passed(b: Breaker): Breaker {
    if b.openUntil.Some? then CLOSED else b
  }

  function Failed(g: Settings, b: Breaker, now: real): Breaker {
    var n := b.failures + 1;
    Breaker(n, if n >= g.threshold then Some(now + g.resetSeconds) else b.openUntil)
  }

  /** What an attempt that is not retried does. */
  function Final(g: Settings, b: Breaker, a: Attempt): (Breaker, Outcome) {
    match a.reply
    case Status(code, readable) =>
      if IsSuccess(code) then if readable then (CLOSED, Answered) else (Failed(g, CLOSED, a.failed), BadValue)
      else (Failed(g, b, a.failed), StatusError)
    case TransportError => (Failed(g, b, a.failed), TransportFailed)
    case ValueProblem => (Failed(g, b, a.failed), BadValue)
    case OtherError => (b, Aborted)
  }

  /** The attempts from number `k` on: the breaker after them, how the call ends, how many were sent. */
  function Attempts(g: Settings, b: Breaker, attempts: seq<Attempt>, k: nat): (Breaker, Outcome, nat)
    requires k < g.maxAttempts <= |attempts|
    decreases g.maxAttempts - k
  {
    var a := attempts[k];
    if Blocks(b, a.checked) then (b, CircuitOpen, 0)
    else
      var passed := Passed(b);
      if Retriable(g, a.reply) && k + 1 < g.maxAttempts then
        var (after, outcome, sent) := Attempts(g, passed, attempts, k + 1);
        (after, outcome, sent + 1)
      else
        var (after, outcome) := Final(g, passed, a);
        (after, outcome, 1)
  }

  // ----- The client -----

  class JsonHttpClient {
    const settings: Settings
    var failureCount: nat
    var openUntil: Option<real>
    var closed: bool

    constructor (yandex: bool, maxAttempts: int, threshold: int, resetSeconds: int)
      ensures Valid(settings) && settings.resetSeconds >= 1.0 && State() == CLOSED && !closed
    {
      settings := Settings(yandex, if maxAttempts > 1 then maxAttempts else 1, if threshold > 1 then threshold else 1,
                           (if resetSeconds > 1 then resetSeconds else 1) as real);
      failureCount, openUntil, closed := 0, None, false;
    }

    function State(): Breaker
      reads this
    {
      Breaker(failureCount, openUntil)
    }

    method CheckCircuit(now: real) returns (blocked: bool)
      modifies this
      ensures blocked <==> Blocks(old(State()), now)
      ensures State() == (if blocked then old(State()) else Passed(old(State()))) && closed == old(closed)
    {
      if openUntil.None? { return false; }
      if now >= openUntil.value {
        openUntil := None;
        failureCount := 0;
        return false;
      }
      return true;
    }

    method RecordSuccess()
      modifies this
      ensures State() == CLOSED && closed == old(closed)
    {
      failureCount := 0;
      openUntil := None;
    }

    method RecordFailure(now: real)
      modifies this
      ensures State() == Failed(settings, old(State()), now) && closed == old(closed)
    {
      failureCount := failureCount + 1;
      if failureCount >= settings.threshold { openUntil := Some(now + settings.resetSeconds); }
    }

    /** One call: tries until an attempt is final, and never runs out of attempts without an outcome. */
    method Request(attempts: seq<Attempt>) returns (outcome: Outcome, sent: nat)
      requires Valid(settings) && settings.maxAttempts <= |attempts|
      modifies this
      ensures if old(closed) then outcome == ClientClosed && sent == 0 && State() == old(State())
              else (State(), outcome, sent) == Attempts(settings, old(State()), attempts, 0)
      ensures closed == old(closed)
    {
      if closed { return ClientClosed, 0; }
      sent := 0;
      for k := 0 to settings.maxAttempts
        invariant sent == k && !closed
        invariant k < settings.maxAttempts ==>
          var (after, end, more) := Attempts(settings, State(), attempts, k);
          Attempts(settings, old(State()), attempts, 0) == (after, end, k + more)
        invariant k == settings.maxAttempts ==> k == 0
      {
        var a := attempts[k];
        var blocked := CheckCircuit(a.checked);
        if blocked { return CircuitOpen, sent; }
        sent := sent + 1;
        match a.reply
        case Status(code, readable) =>
          if IsSuccess(code) {
            RecordSuccess();
            if !readable {
              RecordFailure(a.failed);
              return BadValue, sent;
            }
            return Answered, sent;
          }
          if !(Retriable(settings, a.reply) && k + 1 < settings.maxAttempts) {
            RecordFailure(a.failed);
            return StatusError, sent;
          }
        case TransportError =>
          if k + 1 >= settings.maxAttempts {
            RecordFailure(a.failed);
            return TransportFailed, sent;
          }
        case ValueProblem =>
          RecordFailure(a.failed);
          return BadValue, sent;
        case OtherError =>
          return Aborted, sent;
      }
      assert false;
    }
  }

  // ----- What holds over all runs -----

  /** The breaker is open exactly when the failures in a row have reached the threshold. */
  predicate Sound(g: Settings, b: Breaker) {
    b.openUntil.Some? <==> b.failures >= g.threshold
  }

  datatype Call = Call(attempts: seq<Attempt>)

  predicate Enough(g: Settings, calls: seq<Call>) {
    forall i :: 0 <= i < |calls| ==> g.maxAttempts <= |calls[i].attempts|
  }

  function Run(g: Settings, calls: seq<Call>): Breaker
    requires Valid(g) && Enough(g, calls)
  {
    if calls == [] then CLOSED
    else
      var n := |calls| - 1;
      Attempts(g, Run(g, calls[..n]), calls[n].attempts, 0).0
  }

  lemma {:induction false} AttemptsKeepSound(g: Settings, b: Breaker, attempts: seq<Attempt>, k: nat)
    requires Valid(g) && k < g.maxAttempts <= |attempts| && Sound(g, b)
    ensures Sound(g, Attempts(g, b, attempts, k).0)
    decreases g.maxAttempts - k
  {
    var a := attempts[k];
    if !Blocks(b, a.checked) && Retriable(g, a.reply) && k + 1 < g.maxAttempts {
      AttemptsKeepSound(g, Passed(b), attempts, k + 1);
    }
  }

  /** For every sequence of replies and clock readings. */
  lemma {:induction false} RunKeepsSound(g: Settings, calls: seq<Call>)
    requires Valid(g) && Enough(g, calls)
    ensures Sound(g, Run(g, calls))
  {
    if calls != [] {
      hide Sound, Attempts;
      var n := |calls| - 1;
      RunKeepsSound(g, calls[..n]);
      assert calls[n] in calls;
      AttemptsKeepSound(g, Run(g, calls[..n]), calls[n].attempts, 0);
    } else {
      assert Sound(g, CLOSED);
    }
  }

  /** A call sends nothing before the breaker's time is over, and otherwise retries exactly while the
      replies allow it: at least one and at most `maxAttempts` requests, all but the last retriable. */
  lemma {:induction false} SendsAsAllowed(g: Settings, b: Breaker, attempts: seq<Attempt>, k: nat)
    requires Valid(g) && k < g.maxAttempts <= |attempts|
    ensures var (_, outcome, sent) := Attempts(g, b, attempts, k);
      && (sent == 0 <==> Blocks(b, attempts[k].checked)) && (sent == 0 <==> outcome == CircuitOpen)
      && k + sent <= g.maxAttempts
      && (forall i :: k <= i < k + sent - 1 ==> Retriable(g, attempts[i].reply))
      && (sent > 0 && Retriable(g, attempts[k + sent - 1].reply) ==> k + sent == g.maxAttempts)
    decreases g.maxAttempts - k
  {
    var a := attempts[k];
    if !Blocks(b, a.checked) && Retriable(g, a.reply) && k + 1 < g.maxAttempts {
      SendsAsAllowed(g, Passed(b), attempts, k + 1);
    }
  }

  /** One call changes the count once at the end: a readable success clears it, an unreadable one
      leaves one failure, any other failure adds one, and a refused or aborted call adds nothing. */
  lemma {:induction false} CountAfterCall(g: Settings, b: Breaker, attempts: seq<Attempt>, k: nat)
    requires Valid(g) && k < g.maxAttempts <= |attempts|
    ensures var (after, outcome, sent) := Attempts(g, b, attempts, k);
      && k + sent <= g.maxAttempts
      && (sent > 0 && attempts[k + sent - 1].reply.Status? && IsSuccess(attempts[k + sent - 1].reply.code) ==>
            after.failures == if outcome == Answered then 0 else 1)
      && (sent > 0 && !(attempts[k + sent - 1].reply.Status? && IsSuccess(attempts[k + sent - 1].reply.code)) ==>
            after.failures == Passed(b).failures + if outcome == Aborted then 0 else 1)
      && (sent == 0 ==> after == b)
      && after.failures <= b.failures + 1
      && (outcome == Answered ==> after == CLOSED)
    decreases g.maxAttempts - k
  {
    SendsAsAllowed(g, b, attempts, k);
    var a := attempts[k];
    if !Blocks(b, a.checked) && Retriable(g, a.reply) && k + 1 < g.maxAttempts {
      SendsAsAllowed(g, Passed(b), attempts, k + 1);
      CountAfterCall(g, Passed(b), attempts, k + 1);
    }
  }

  /** When the breaker opens, it is because this call's failure reached the threshold, and it stays
      shut out for the reset time from that failure. */
  lemma {:induction false} OpensForTheResetTime(g: Settings, b: Breaker, attempts: seq<Attempt>, k: nat)
    requires Valid(g) && k < g.maxAttempts <= |attempts| && Sound(g, b)
    ensures var (after, outcome, sent) := Attempts(g, b, attempts, k);
      k + sent <= g.maxAttempts && (sent > 0 && after.openUntil.Some? ==>
        after.openUntil.value == attempts[k + sent - 1].failed + g.resetSeconds && after.failures == g.threshold)
    decreases g.maxAttempts - k
  {
    SendsAsAllowed(g, b, attempts, k);
    var a := attempts[k];
    if !Blocks(b, a.checked) && Retriable(g, a.reply) && k + 1 < g.maxAttempts {
      SendsAsAllowed(g, Passed(b), attempts, k + 1);
      OpensForTheResetTime(g, Passed(b), attempts, k + 1);
    }
  }

  /** How the i-th call of a run ends. */
  function OutcomeOf(g: Settings, calls: seq<Call>, i: nat): Outcome
    requires Valid(g) && Enough(g, calls) && i < |calls|
  {
    Attempts(g, Run(g, calls[..i]), calls[i].attempts, 0).1
  }

  predicate Fails(o: Outcome) {
    o in {StatusError, TransportFailed, BadValue}
  }

  /** The last reply of a call is a success, readable or not. */
  predicate EndsInSuccess(g: Settings, b: Breaker, attempts: seq<Attempt>)
    requires Valid(g) && g.maxAttempts <= |attempts|
  {
    var sent := Attempts(g, b, attempts, 0).2;
    0 < sent <= |attempts| && attempts[sent - 1].reply.Status? && IsSuccess(attempts[sent - 1].reply.code)
  }

  /** The i-th call of a run fails; behind an earlier failure it counts as one more unless it is an
      unreadable success, which starts the count again. */
  predicate FailsInARow(g: Settings, calls: seq<Call>, i: nat)
    requires Valid(g) && Enough(g, calls) && i < |calls|
  {
    Fails(OutcomeOf(g, calls, i)) && (i > 0 ==> !EndsInSuccess(g, Run(g, calls[..i]), calls[i].attempts))
  }

  /** As many failing calls in a row as the threshold allows open the breaker, and not one fewer:
      error statuses, transport errors, value errors, and an unreadable success at the start. */
  lemma {:induction false} FailuresAddUp(g: Settings, calls: seq<Call>)
    requires Valid(g) && Enough(g, calls) && |calls| <= g.threshold
    requires forall i :: 0 <= i < |calls| ==> FailsInARow(g, calls, i)
    ensures Run(g, calls).failures == |calls|
    ensures Run(g, calls).openUntil.Some? <==> |calls| == g.threshold
  {
    if calls != [] {
      hide Attempts, Fails, EndsInSuccess;
      var n := |calls| - 1;
      var before := Run(g, calls[..n]);
      forall i | 0 <= i < n ensures FailsInARow(g, calls[..n], i) {
        assert calls[..n][..i] == calls[..i] && calls[..n][i] == calls[i];
        assert FailsInARow(g, calls, i);
      }
      FailuresAddUp(g, calls[..n]);
      RunKeepsSound(g, calls);
      assert FailsInARow(g, calls, n);
      FailingCallCounts(g, before, calls[n].attempts);
    }
  }

  lemma FailingCallCounts(g: Settings, b: Breaker, attempts: seq<Attempt>)
    requires Valid(g) && g.maxAttempts <= |attempts| && b.openUntil.None?
    requires Fails(Attempts(g, b, attempts, 0).1) && (b.failures > 0 ==> !EndsInSuccess(g, b, attempts))
    ensures Attempts(g, b, attempts, 0).0.failures == b.failures + 1
  {
    CountAfterCall(g, b, attempts, 0);
    SendsAsAllowed(g, b, attempts, 0);
  }

  // ----- Which replies are tried again -----

  /** A transport error, too many requests (429, and 420 for Yandex), or a failure of the server. */
  predicate TriedAgain(yandex: bool, r: Reply) {
    match r
    case TransportError => true
    case Status(code, _) => code == 429 || (yandex && code == 420) || (500 <= code && code < 600)
    case _ => false
  }

  lemma RetriableIs(g: Settings, r: Reply)
    ensures Retriable(g, r) <==> TriedAgain(g.yandex, r)
  {
  }

  /** The first of the replies from number k on that is not tried again, or the last one allowed. */
  function LastTry(g: Settings, attempts: seq<Attempt>, k: nat): (n: nat)
    requires k < g.maxAttempts <= |attempts|
    ensures k <= n < g.maxAttempts
    decreases g.maxAttempts - k
  {
    if TriedAgain(g.yandex, attempts[k].reply) && k + 1 < g.maxAttempts then LastTry(g, attempts, k + 1) else k
  }

  /** How a call ends after its last reply. */
  function EndOf(r: Reply): Outcome {
    match r
    case Status(code, readable) =>
      if 200 <= code && code < 300 then if readable then Answered else BadValue else StatusError
    case TransportError => TransportFailed
    case ValueProblem => BadValue
    case OtherError => Aborted
  }

  /** A call that is let in sends its requests up to the first reply that is not tried again, or as many
      as it may, and ends as that reply says: a status such as 404 or 403, a success, a value error or
      any other exception ends it at once. */
  lemma {:induction false} CallEndsAt(g: Settings, b: Breaker, attempts: seq<Attempt>, k: nat)
    requires Valid(g) && k < g.maxAttempts <= |attempts| && !Blocks(b, attempts[k].checked)
    ensures var (_, outcome, sent) := Attempts(g, b, attempts, k); var last := LastTry(g, attempts, k);
      sent == last - k + 1 && outcome == EndOf(attempts[last].reply)
    decreases g.maxAttempts - k
  {
    RetriableIs(g, attempts[k].reply);
    if TriedAgain(g.yandex, attempts[k].reply) && k + 1 < g.maxAttempts {
      CallEndsAt(g, Passed(b), attempts, k + 1);
    }
  }
}
