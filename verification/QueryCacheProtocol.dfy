/** The generation-stamped query cache as interleaved steps of readers, writers and the store. */
module QueryCacheProtocol {
  import opened Wrappers

  type Key = string
  type Reader = nat

  /** What a query returns when it runs on one version of the data, and how many bumps there had been
      when its computation started. */
  datatype Rows = Rows(key: Key, version: nat, bumps: nat)

  /** A stored value; anything that is not a readable entry counts as unreadable. */
  datatype Stored = Entry(generation: nat, rows: Rows) | Unreadable

  /** A read in progress. `floor` is the version that the last bump before the read covered, `begun`
      and `bumps` the version and the number of bumps at which the computation started. */
  datatype Phase =
    | Missed(generation: Option<nat>, floor: nat)
    | Computing(generation: Option<nat>, floor: nat, begun: nat, bumps: nat)
    | Computed(generation: Option<nat>, floor: nat, rows: Rows)
    | Answered(floor: nat, rows: Rows)

  datatype Request = Request(key: Key, phase: Phase)

  /** `version` counts the writes to the data, `covered` is its value at the last bump. */
  datatype State = State(version: nat, covered: nat, generation: nat, entries: map<Key, Stored>,
                         requests: map<Reader, Request>)

  const EMPTY := State(0, 0, 0, map[], map[])

  // ----- Steps -----

  /** An entry counts only under the generation it was computed for. */
  function Lookup(generation: nat, entries: map<Key, Stored>, key: Key): Option<Rows> {
    if key in entries && entries[key].Entry? && entries[key].generation == generation then Some(entries[key].rows) else None
  }

  datatype Event =
    | Write
    | Bump
    | LostBump
    | Read(reader: Reader, key: Key)
    | ReadWithoutCache(reader: Reader, key: Key)
    | StartComputing(reader: Reader)
    | FinishComputing(reader: Reader, version: nat)
    | Store(reader: Reader)
    | SkipStoring(reader: Reader)
    | Expire(key: Key)
    | Corrupt(key: Key)

  predicate Free(s: State, reader: Reader) {
    reader !in s.requests || s.requests[reader].phase.Answered?
  }

  function At(s: State, reader: Reader): Option<Phase> {
    if reader in s.requests then Some(s.requests[reader].phase) else None
  }

  function Enter(s: State, reader: Reader, key: Key, phase: Phase): State {
    s.(requests := s.requests[reader := Request(key, phase)])
  }

  function Advance(s: State, reader: Reader, phase: Phase): State
    requires reader in s.requests
  {
    Enter(s, reader, s.requests[reader].key, phase)
  }

  /** One step; a step that is not possible changes nothing. */
  function Step(s: State, e: Event): State {
    match e
    case Write => s.(version := s.version + 1)
    case Bump => s.(generation := s.generation + 1, covered := s.version)
    case LostBump => s
    case Read(reader, key) =>
      if !Free(s, reader) then s
      else
        var found := Lookup(s.generation, s.entries, key);
        Enter(s, reader, key, if found.Some? then Answered(s.covered, found.value) else Missed(Some(s.generation), s.covered))
    case ReadWithoutCache(reader, key) =>
      if Free(s, reader) then Enter(s, reader, key, Missed(None, s.covered)) else s
    case StartComputing(reader) =>
      var p := At(s, reader);
      if p.Some? && p.value.Missed? then
        Advance(s, reader, Computing(p.value.generation, p.value.floor, s.version, s.generation))
      else s
    case FinishComputing(reader, version) =>
      var p := At(s, reader);
      if p.Some? && p.value.Computing? && p.value.begun <= version <= s.version then
        Advance(s, reader, Computed(p.value.generation, p.value.floor,
                                    Rows(s.requests[reader].key, version, p.value.bumps)))
      else s
    case Store(reader) =>
      var p := At(s, reader);
      if p.Some? && p.value.Computed? && p.value.generation.Some? then
        Advance(s, reader, Answered(p.value.floor, p.value.rows))
          .(entries := s.entries[s.requests[reader].key := Entry(p.value.generation.value, p.value.rows)])
      else s
    case SkipStoring(reader) =>
      var p := At(s, reader);
      if p.Some? && p.value.Computed? then Advance(s, reader, Answered(p.value.floor, p.value.rows)) else s
    case Expire(key) => s.(entries := s.entries - {key})
    case Corrupt(key) => s.(entries := s.entries[key := Unreadable])
  }

  function Run(events: seq<Event>): State {
    if events == [] then EMPTY else Step(Run(events[..|events| - 1]), events[|events| - 1])
  }

  /** The state after more steps. */
  function After(s: State, events: seq<Event>): State {
    if events == [] then s else Step(After(s, events[..|events| - 1]), events[|events| - 1])
  }

  lemma {:induction false} RunContinues(events: seq<Event>, more: seq<Event>)
    ensures Run(events + more) == After(Run(events), more)
  {
    hide Step;
    if more == [] {
      assert events + more == events;
    } else {
      RunContinues(events, more[..|more| - 1]);
      assert (events + more)[..|events + more| - 1] == events + more[..|more| - 1];
    }
  }

  // ----- What every state keeps -----

  /** An entry was computed under the generation it carries or a later one; an entry of the current
      generation was computed after the last bump. */
  predicate EntrySound(s: State, key: Key, stored: Stored) {
    stored.Entry? ==>
      && stored.rows.key == key && stored.rows.version <= s.version
      && stored.generation <= stored.rows.bumps <= s.generation
      && (stored.generation == s.generation ==> s.covered <= stored.rows.version)
  }

  predicate RowsSound(s: State, r: Request, rows: Rows) {
    rows.key == r.key && r.phase.floor <= rows.version <= s.version && rows.bumps <= s.generation
  }

  /** The computation started under the generation that was looked up or a later one. */
  predicate StartedUnder(s: State, generation: Option<nat>, bumps: nat) {
    bumps <= s.generation && (generation.Some? ==> generation.value <= bumps)
  }

  /** A read that looked under the current generation computes on data after the last bump. */
  predicate RequestSound(s: State, r: Request) {
    && r.phase.floor <= s.covered
    && (!r.phase.Answered? && r.phase.generation.Some? ==> r.phase.generation.value <= s.generation)
    && match r.phase
       case Missed(_, _) => true
       case Computing(generation, floor, begun, bumps) =>
         floor <= begun <= s.version && StartedUnder(s, generation, bumps) &&
         (generation == Some(s.generation) ==> s.covered <= begun)
       case Computed(generation, _, rows) =>
         RowsSound(s, r, rows) && StartedUnder(s, generation, rows.bumps) &&
         (generation == Some(s.generation) ==> s.covered <= rows.version)
       case Answered(_, rows) => RowsSound(s, r, rows)
  }

  predicate Sound(s: State) {
    && s.covered <= s.version
    && (forall k :: k in s.entries ==> EntrySound(s, k, s.entries[k]))
    && (forall id :: id in s.requests ==> RequestSound(s, s.requests[id]))
  }

  lemma BumpKeepsSound(s: State)
    requires Sound(s)
    ensures Sound(Step(s, Bump))
  {
    var t := Step(s, Bump);
    forall id | id in t.requests ensures RequestSound(t, t.requests[id]) {
      assert RequestSound(s, s.requests[id]);
    }
    forall k | k in t.entries ensures EntrySound(t, k, t.entries[k]) {
      assert EntrySound(s, k, s.entries[k]);
    }
  }

  lemma WriteKeepsSound(s: State)
    requires Sound(s)
    ensures Sound(Step(s, Write))
  {
    var t := Step(s, Write);
    forall id | id in t.requests ensures RequestSound(t, t.requests[id]) {
      assert RequestSound(s, s.requests[id]);
    }
    forall k | k in t.entries ensures EntrySound(t, k, t.entries[k]) {
      assert EntrySound(s, k, s.entries[k]);
    }
  }

  /** Steps of one reader leave the other requests and the shared counters alone. */
  lemma EnterKeepsSound(s: State, reader: Reader, key: Key, phase: Phase)
    requires Sound(s) && RequestSound(s, Request(key, phase))
    ensures Sound(Enter(s, reader, key, phase))
  {
    var t := Enter(s, reader, key, phase);
    forall id | id in t.requests ensures RequestSound(t, t.requests[id]) {
      RequestIgnoresOthers(s, t, t.requests[id]);
    }
    forall k | k in t.entries ensures EntrySound(t, k, t.entries[k]) {}
  }

  lemma RequestIgnoresOthers(s: State, t: State, r: Request)
    requires s.version == t.version && s.covered == t.covered && s.generation == t.generation
    ensures RequestSound(s, r) <==> RequestSound(t, r)
  {
  }

  lemma EntriesKeepSound(s: State, key: Key, stored: Stored)
    requires Sound(s) && EntrySound(s, key, stored)
    ensures Sound(s.(entries := s.entries[key := stored])) && Sound(s.(entries := s.entries - {key}))
  {
    var t, u := s.(entries := s.entries[key := stored]), s.(entries := s.entries - {key});
    forall id | id in s.requests ensures RequestSound(t, t.requests[id]) && RequestSound(u, u.requests[id]) {
      RequestIgnoresOthers(s, t, s.requests[id]);
      RequestIgnoresOthers(s, u, s.requests[id]);
    }
  }

  lemma StepKeepsSound(s: State, e: Event)
    requires Sound(s)
    ensures Sound(Step(s, e))
  {
    hide Sound, RequestSound;
    match e
    case Write => WriteKeepsSound(s);
    case Bump => BumpKeepsSound(s);
    case LostBump =>
    case Read(reader, key) => ReadKeepsSound(s, reader, key);
    case ReadWithoutCache(reader, key) => ReadKeepsSound(s, reader, key);
    case StartComputing(reader) => ReaderKeepsSound(s, reader, 0);
    case FinishComputing(reader, version) => ReaderKeepsSound(s, reader, version);
    case Store(reader) => ReaderKeepsSound(s, reader, 0);
    case SkipStoring(reader) => ReaderKeepsSound(s, reader, 0);
    case Expire(key) => EntriesKeepSound(s, key, Unreadable);
    case Corrupt(key) => EntriesKeepSound(s, key, Unreadable);
  }

  lemma ReadKeepsSound(s: State, reader: Reader, key: Key)
    requires Sound(s)
    ensures Sound(Step(s, Read(reader, key))) && Sound(Step(s, ReadWithoutCache(reader, key)))
  {
    var found := Lookup(s.generation, s.entries, key);
    if found.Some? {
      assert EntrySound(s, key, s.entries[key]);
      EnterKeepsSound(s, reader, key, Answered(s.covered, found.value));
    } else {
      EnterKeepsSound(s, reader, key, Missed(Some(s.generation), s.covered));
    }
    EnterKeepsSound(s, reader, key, Missed(None, s.covered));
  }

  lemma ReaderKeepsSound(s: State, reader: Reader, version: nat)
    requires Sound(s)
    ensures Sound(Step(s, StartComputing(reader))) && Sound(Step(s, FinishComputing(reader, version)))
    ensures Sound(Step(s, Store(reader))) && Sound(Step(s, SkipStoring(reader)))
  {
    if reader in s.requests {
      var r := s.requests[reader];
      assert RequestSound(s, r);
      match r.phase
      case Missed(generation, floor) =>
        EnterKeepsSound(s, reader, r.key, Computing(generation, floor, s.version, s.generation));
      case Computing(generation, floor, begun, bumps) =>
        if begun <= version <= s.version {
          EnterKeepsSound(s, reader, r.key, Computed(generation, floor, Rows(r.key, version, bumps)));
        }
      case Computed(generation, floor, rows) =>
        EnterKeepsSound(s, reader, r.key, Answered(floor, rows));
        var answered := Enter(s, reader, r.key, Answered(floor, rows));
        if generation.Some? { EntriesKeepSound(answered, r.key, Entry(generation.value, rows)); }
      case Answered(_, _) =>
    }
  }

  lemma {:induction false} RunKeepsSound(events: seq<Event>)
    ensures Sound(Run(events))
  {
    if events != [] {
      hide Sound, Step;
      RunKeepsSound(events[..|events| - 1]);
      StepKeepsSound(Run(events[..|events| - 1]), events[|events| - 1]);
    }
  }

  // ----- What readers get -----

  /** Whatever the interleaving, an answer holds every write that a bump completed before the read
      covers, and nothing that was not yet written. */
  lemma AnswersCoverBumpedWrites(events: seq<Event>, reader: Reader)
    requires reader in Run(events).requests && Run(events).requests[reader].phase.Answered?
    ensures var r := Run(events).requests[reader];
      r.phase.rows.key == r.key && r.phase.floor <= r.phase.rows.version <= Run(events).version
  {
    RunKeepsSound(events);
    assert RequestSound(Run(events), Run(events).requests[reader]);
  }

  /** A hit returns rows whose computation started after the last bump, so that it saw everything up to
      that bump; while nothing was written since, they are exactly the rows of the current data. */
  lemma HitsAreFresh(events: seq<Event>, reader: Reader, key: Key)
    requires var s := Run(events); Free(s, reader) && Lookup(s.generation, s.entries, key).Some?
    ensures var s := Run(events); var rows := Lookup(s.generation, s.entries, key).value;
      && At(Step(s, Read(reader, key)), reader) == Some(Answered(s.covered, rows))
      && rows.key == key && rows.bumps == s.generation && s.covered <= rows.version <= s.version
      && (s.version == s.covered ==> rows == Rows(key, s.version, s.generation))
  {
    RunKeepsSound(events);
    var s := Run(events);
    assert EntrySound(s, key, s.entries[key]);
  }

  /** A reader that was overtaken by a bump can store its rows, but they only cause a miss. */
  lemma SlowReadersOnlyCauseMisses(events: seq<Event>, reader: Reader)
    requires var p := At(Run(events), reader);
      p.Some? && p.value.Computed? && p.value.generation.Some? && p.value.generation.value != Run(events).generation
    ensures var key := Run(events).requests[reader].key; var s := Step(Run(events), Store(reader));
      Lookup(s.generation, s.entries, key) == None
  {
  }

  /** Without its bump a write can stay invisible: the hit returns the rows from before it. */
  lemma LostBumpAllowsAStaleHit(key: Key)
    ensures exists events, reader :: var s := Run(events);
      At(s, reader) == Some(Answered(s.covered, Rows(key, 0, 0))) && s.version == 1 && LostBump in events
  {
    hide Step;
    var rest := [Write, LostBump, Read(1, key)];
    assert rest[..2][..1] == rest[..1] && rest[..1][..0] == [] && rest[..3] == rest;
    var s := FilledOnce(key);
    RunContinues(FILL(key), rest);
    WrittenOnce(s);
    assert After(s, []) == s;
    assert After(s, rest[..1]) == s.(version := 1);
    assert After(s, rest[..2]) == s.(version := 1);
    StaleHit(s.(version := 1), key);
    assert rest[1] in FILL(key) + rest;
    assert At(Run(FILL(key) + rest), 1) == Some(Answered(0, Rows(key, 0, 0)));
  }

  function FILL(key: Key): seq<Event> {
    [Read(0, key), StartComputing(0), FinishComputing(0, 0), Store(0)]
  }

  lemma WrittenOnce(s: State)
    requires s.version == 0
    ensures Step(s, Write) == s.(version := 1) && Step(s.(version := 1), LostBump) == s.(version := 1)
  {
  }

  lemma StaleHit(s: State, key: Key)
    requires Free(s, 1) && s.generation == 0 && s.covered == 0 && s.entries == map[key := Entry(0, Rows(key, 0, 0))]
    ensures var t := Step(s, Read(1, key)); At(t, 1) == Some(Answered(0, Rows(key, 0, 0))) && t.version == s.version && t.covered == 0
  {
  }

  lemma FirstRead(key: Key)
    ensures Step(EMPTY, Read(0, key)) == Enter(EMPTY, 0, key, Missed(Some(0), 0))
  {
  }

  lemma FirstStart(key: Key)
    ensures Step(Enter(EMPTY, 0, key, Missed(Some(0), 0)), StartComputing(0)) ==
            Enter(EMPTY, 0, key, Computing(Some(0), 0, 0, 0))
  {
  }

  lemma FirstFinish(key: Key)
    ensures Step(Enter(EMPTY, 0, key, Computing(Some(0), 0, 0, 0)), FinishComputing(0, 0)) ==
            Enter(EMPTY, 0, key, Computed(Some(0), 0, Rows(key, 0, 0)))
  {
  }

  lemma FirstStore(key: Key)
    ensures Step(Enter(EMPTY, 0, key, Computed(Some(0), 0, Rows(key, 0, 0))), Store(0)) ==
            Enter(EMPTY, 0, key, Answered(0, Rows(key, 0, 0))).(entries := map[key := Entry(0, Rows(key, 0, 0))])
  {
  }

  lemma FilledOnce(key: Key) returns (s: State)
    ensures s == Run(FILL(key))
    ensures s.version == 0 && s.covered == 0 && s.generation == 0 && Free(s, 1)
    ensures s.entries == map[key := Entry(0, Rows(key, 0, 0))]
  {
    hide Step;
    var events := FILL(key);
    var one, two, three := events[..1], events[..2], events[..3];
    assert one[..0] == [] && two[..1] == one && three[..2] == two && events[..3] == three;
    FirstRead(key);
    FirstStart(key);
    FirstFinish(key);
    FirstStore(key);
    assert Run(one) == Step(EMPTY, Read(0, key));
    assert Run(two) == Step(Run(one), StartComputing(0));
    assert Run(three) == Step(Run(two), FinishComputing(0, 0));
    s := Run(events);
  }
}
