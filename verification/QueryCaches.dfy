/** The read-through cache of one process: its calls to the store and its time out after an error. */
module QueryCaches {
  import opened Wrappers
  import opened QueryCacheProtocol

  const ERROR_BACKOFF_SECONDS := 30.0

  /** The shared store, as far as the cache uses it. */
  class Redis {
    var counter: Option<nat>
    var entries: map<Key, Stored>

    constructor ()
      ensures Generation() == 0 && entries == map[]
    {
      counter, entries := None, map[];
    }

    function Generation(): nat
      reads this
    {
      if counter.Some? then counter.value else 0
    }

    method Mget(key: Key) returns (generation: Option<nat>, entry: Option<Stored>)
      ensures generation == counter
      ensures entry == if key in entries then Some(entries[key]) else None
    {
      generation := counter;
      entry := if key in entries then Some(entries[key]) else None;
    }

    method Set(key: Key, value: Stored)
      modifies this`entries
      ensures entries == old(entries)[key := value]
    {
      entries := entries[key := value];
    }

    method Incr() returns (value: nat)
      modifies this`counter
      ensures Generation() == old(Generation()) + 1 && value == Generation()
    {
      value := Generation() + 1;
      counter := Some(value);
    }
  }

  /** Counts a bump unless the store fails; an error is swallowed. */
  method BumpGeneration(redis: Redis, fails: bool) returns (value: Option<nat>)
    modifies redis`counter
    ensures redis.Generation() == old(redis.Generation()) + if fails then 0 else 1
    ensures value == if fails then None else Some(redis.Generation())
  {
    value := None;
    if !fails {
      var v := redis.Incr();
      value := Some(v);
    }
  }

  /** What the surroundings do during one request: the clock at its check and at an error, whether
      the store fails, what the computation returns and how large the stored value would be. */
  datatype Surroundings = Surroundings(now: real, errorTime: real, readFails: bool, writeFails: bool,
                                       computed: Rows, size: nat)

  datatype Outcome = Bypass | ReadError | Hit | Oversize | WriteError | Stored

  /** How a request ends, read off the state before it. */
  function Ending(disabledUntil: real, hit: bool, maxBytes: nat, e: Surroundings): Outcome {
    if e.now < disabledUntil then Bypass
    else if e.readFails then ReadError
    else if hit then Hit
    else if e.size > maxBytes then Oversize
    else if e.writeFails then WriteError
    else Outcome.Stored
  }

  /** Until when the cache stays off after the request. */
  function Off(disabledUntil: real, ending: Outcome, errorTime: real): real {
    if ending == ReadError || ending == WriteError then errorTime + ERROR_BACKOFF_SECONDS else disabledUntil
  }

  /** How a request is served: how it ends, its rows, and the entries afterwards. Only a miss that is
      small enough and meets no error is stored, and then under the generation read before the
      computation. */
  predicate Served(off: real, generation: nat, entries: map<Key, Stored>, maxBytes: nat, key: Key, e: Surroundings,
                   rows: Rows, ending: Outcome, after: map<Key, Stored>) {
    var found := Lookup(generation, entries, key);
    && ending == Ending(off, found.Some?, maxBytes, e)
    && rows == (if ending == Hit then found.value else e.computed)
    && after == (if ending == Outcome.Stored then entries[key := Entry(generation, e.computed)] else entries)
  }

  class QueryCache {
    const maxEntryBytes: nat
    var disabledUntil: real

    constructor (maxEntryBytes: nat)
      ensures this.maxEntryBytes == maxEntryBytes && disabledUntil == 0.0
    {
      this.maxEntryBytes := maxEntryBytes;
      disabledUntil := 0.0;
    }

    method Available(now: real) returns (available: bool)
      ensures available <==> disabledUntil <= now
    {
      available := now >= disabledUntil;
    }

    method Fail(now: real)
      modifies this
      ensures disabledUntil == now + ERROR_BACKOFF_SECONDS
    {
      disabledUntil := now + ERROR_BACKOFF_SECONDS;
    }

    /** Rows from the store or a fresh computation; a failing store costs nothing but the time out. */
    method GetOrCompute(redis: Redis, key: Key, e: Surroundings) returns (rows: Rows, ending: Outcome, asked: bool)
      modifies this, redis`entries
      ensures Served(old(disabledUntil), old(redis.Generation()), old(redis.entries), maxEntryBytes, key, e,
                     rows, ending, redis.entries)
      ensures disabledUntil == Off(old(disabledUntil), ending, e.errorTime)
      ensures asked <==> ending != Bypass
    {
      asked := Available(e.now);
      if !asked { return e.computed, Bypass, false; }
      if e.readFails {
        Fail(e.errorTime);
        return e.computed, ReadError, true;
      }
      var counter, entry := redis.Mget(key);
      var generation := if counter.Some? then counter.value else 0;
      if entry.Some? && entry.value.Entry? && entry.value.generation == generation {
        return entry.value.rows, Hit, true;
      }
      rows := e.computed;
      if e.size > maxEntryBytes { return rows, Oversize, true; }
      if e.writeFails {
        Fail(e.errorTime);
        return rows, WriteError, true;
      }
      redis.Set(key, Entry(generation, rows));
      ending := Outcome.Stored;
    }

    method Invalidate(redis: Redis, fails: bool)
      modifies redis`counter
      ensures redis.Generation() == old(redis.Generation()) + if fails then 0 else 1
    {
      var value := BumpGeneration(redis, fails);
    }
  }

  // ----- Requests as steps of the protocol -----

  /** The steps of a request, by the way it ends. */
  function StepsOf(ending: Outcome, reader: Reader, key: Key, version: nat): seq<Event> {
    match ending
    case Hit => [Read(reader, key)]
    case Stored => [Read(reader, key), StartComputing(reader), FinishComputing(reader, version), Store(reader)]
    case Oversize => [Read(reader, key), StartComputing(reader), FinishComputing(reader, version), SkipStoring(reader)]
    case WriteError => [Read(reader, key), StartComputing(reader), FinishComputing(reader, version), SkipStoring(reader)]
    case Bypass =>
      [ReadWithoutCache(reader, key), StartComputing(reader), FinishComputing(reader, version), SkipStoring(reader)]
    case ReadError =>
      [ReadWithoutCache(reader, key), StartComputing(reader), FinishComputing(reader, version), SkipStoring(reader)]
  }

  lemma FourSteps(s: State, a: Event, b: Event, c: Event, d: Event)
    ensures After(s, [a, b, c, d]) == Step(Step(Step(Step(s, a), b), c), d)
  {
    hide Step;
    var events := [a, b, c, d];
    assert events[..3] == [a, b, c] && [a, b, c][..2] == [a, b] && [a, b][..1] == [a] && [a][..0] == [];
    assert After(s, [a]) == Step(s, a);
    assert After(s, [a, b]) == Step(Step(s, a), b);
    assert After(s, [a, b, c]) == Step(Step(Step(s, a), b), c);
  }

  /** What a miss, or a read without the store, comes to. */
  lemma ComputedSteps(s: State, reader: Reader, key: Key, first: Event)
    requires Free(s, reader)
    requires first == ReadWithoutCache(reader, key) || (first == Read(reader, key) && Lookup(s.generation, s.entries, key).None?)
    ensures var t := Step(Step(Step(s, first), StartComputing(reader)), FinishComputing(reader, s.version));
      t == Enter(s, reader, key, Computed(if first.Read? then Some(s.generation) else None, s.covered,
                                          Rows(key, s.version, s.generation)))
  {
    hide Lookup;
    var generation := if first.Read? then Some(s.generation) else None;
    var one := Enter(s, reader, key, Missed(generation, s.covered));
    var two := Enter(s, reader, key, Computing(generation, s.covered, s.version, s.generation));
    assert Step(s, first) == one;
    assert Step(one, StartComputing(reader)) == two;
  }

  lemma LastStep(s: State, reader: Reader, key: Key, generation: Option<nat>, rows: Rows)
    ensures var computed := Enter(s, reader, key, Computed(generation, s.covered, rows));
      && Step(computed, SkipStoring(reader)) == Enter(s, reader, key, Answered(s.covered, rows))
      && (generation.Some? ==>
            Step(computed, Store(reader)) ==
            Enter(s, reader, key, Answered(s.covered, rows)).(entries := s.entries[key := Entry(generation.value, rows)]))
  {
  }

  lemma ServedInSteps(s: State, reader: Reader, key: Key, off: real, maxBytes: nat, e: Surroundings,
                      rows: Rows, ending: Outcome, after: map<Key, Stored>)
    requires Free(s, reader) && e.computed == Rows(key, s.version, s.generation)
    requires Served(off, s.generation, s.entries, maxBytes, key, e, rows, ending, after)
    ensures After(s, StepsOf(ending, reader, key, s.version)) ==
            Enter(s, reader, key, Answered(s.covered, rows)).(entries := after)
  {
    hide Step, Lookup;
    if ending == Hit {
      HitStep(s, reader, key);
      assert [Read(reader, key)][..0] == [];
    } else {
      var first := if ending == Bypass || ending == ReadError then ReadWithoutCache(reader, key) else Read(reader, key);
      var last := if ending == Outcome.Stored then Store(reader) else SkipStoring(reader);
      ComputedSteps(s, reader, key, first);
      LastStep(s, reader, key, if first.Read? then Some(s.generation) else None, rows);
      FourSteps(s, first, StartComputing(reader), FinishComputing(reader, s.version), last);
    }
  }

  lemma HitStep(s: State, reader: Reader, key: Key)
    requires Free(s, reader) && Lookup(s.generation, s.entries, key).Some?
    ensures Step(s, Read(reader, key)) ==
            Enter(s, reader, key, Answered(s.covered, Lookup(s.generation, s.entries, key).value))
  {
  }

  /** Whatever went on before: a request of the cache that meets nobody else takes the protocol on by
      the steps of its ending, with the rows it returns as the answer and the entries it leaves. What
      is proved of all runs of steps therefore holds of requests. */
  lemma RequestIsARunOfSteps(events: seq<Event>, reader: Reader, key: Key, off: real, maxBytes: nat, e: Surroundings,
                             rows: Rows, ending: Outcome, after: map<Key, Stored>)
    requires var s := Run(events);
      Free(s, reader) && e.computed == Rows(key, s.version, s.generation) &&
      Served(off, s.generation, s.entries, maxBytes, key, e, rows, ending, after)
    ensures var s := Run(events);
      Run(events + StepsOf(ending, reader, key, s.version)) ==
      Enter(s, reader, key, Answered(s.covered, rows)).(entries := after)
    ensures rows.key == key && Run(events).covered <= rows.version <= Run(events).version
  {
    hide Run, Served, StepsOf, After;
    var s := Run(events);
    var steps := StepsOf(ending, reader, key, s.version);
    ServedInSteps(s, reader, key, off, maxBytes, e, rows, ending, after);
    RunContinues(events, steps);
    AnswersCoverBumpedWrites(events + steps, reader);
  }

  // ----- The time out over the threads of a process -----

  /** What threads do under the lock, with the clock they read there: a check that passes or not, and
      an error. Between the two a thread may be overtaken by any number of others. */
  datatype Locked = Asked(now: real, passed: bool) | Failed(now: real)

  function OffAfter(log: seq<Locked>, off: real): real {
    if log == [] then off
    else
      var last := log[|log| - 1];
      if last.Failed? then last.now + ERROR_BACKOFF_SECONDS else OffAfter(log[..|log| - 1], off)
  }

  /** The clock never runs backwards under the lock, and a check passes unless the cache is off. */
  ghost predicate Possible(log: seq<Locked>, off: real) {
    && (forall i, j :: 0 <= i < j < |log| ==> log[i].now <= log[j].now)
    && (forall j :: 0 <= j < |log| && log[j].Asked? ==> (log[j].passed <==> OffAfter(log[..j], off) <= log[j].now))
  }

  /** The time out is that of the latest error. */
  lemma {:induction false} LatestErrorDecides(log: seq<Locked>, off: real)
    requires forall i, j :: 0 <= i < j < |log| ==> log[i].now <= log[j].now
    ensures forall i :: 0 <= i < |log| && log[i].Failed? ==> log[i].now + ERROR_BACKOFF_SECONDS <= OffAfter(log, off)
    ensures OffAfter(log, off) == off ||
      exists i :: 0 <= i < |log| && log[i].Failed? && log[i].now + ERROR_BACKOFF_SECONDS == OffAfter(log, off)
  {
    if log != [] {
      var n := |log| - 1;
      LatestErrorDecides(log[..n], off);
      assert forall i :: 0 <= i < n ==> log[..n][i] == log[i];
    }
  }

  /** An outage costs every thread at most the request it already had under way: a check passes only
      when every error before it is half a minute old, and then it does pass unless the cache was off
      from the beginning. */
  lemma ErrorsAreHalfAMinuteApart(log: seq<Locked>, off: real, j: nat)
    requires Possible(log, off) && j < |log| && log[j].Asked?
    ensures var over := forall i :: 0 <= i < j && log[i].Failed? ==> log[i].now + 30.0 <= log[j].now;
      (log[j].passed ==> over) && (over && off <= log[j].now ==> log[j].passed)
  {
    LatestErrorDecides(log[..j], off);
    assert forall i :: 0 <= i < j ==> log[..j][i] == log[i];
  }
}
