/** The journal of the migration runner: what applying and rolling back write, and what every write keeps. */
module Migrations {
  import opened Wrappers

  /** Versions matter only by their order. */
  type Version = nat

  datatype Migration = Migration(version: Version, checksum: string, hasRollback: bool)

  datatype Status = Started | Applied | Failed | RolledBack

  datatype Entry = Entry(version: Version, status: Status, checksum: string, stamp: nat)

  /** The journal table and the clock that orders its rows. */
  datatype Journal = Journal(entries: seq<Entry>, clock: nat)

  predicate Timed(j: Journal) {
    forall i :: 0 <= i < |j.entries| ==> j.entries[i].stamp < j.clock
  }

  /** The entry of a version with the greatest stamp. */
  function Newest(entries: seq<Entry>, v: Version): Option<Entry> {
    if entries == [] then None
    else
      var before, last := Newest(entries[..|entries| - 1], v), entries[|entries| - 1];
      if last.version == v && (before.None? || before.value.stamp <= last.stamp) then Some(last) else before
  }

  predicate IsApplied(j: Journal, v: Version) {
    Newest(j.entries, v).Some? && Newest(j.entries, v).value.status == Applied
  }

  predicate Ascending(manifest: seq<Migration>) {
    forall i, j :: 0 <= i < j < |manifest| ==> manifest[i].version < manifest[j].version
  }

  // ----- Writing -----

  datatype Write = Write(version: Version, status: Status, checksum: string)

  function Recorded(j: Journal, w: Write): Journal {
    Journal(j.entries + [Entry(w.version, w.status, w.checksum, j.clock)], j.clock + 1)
  }

  function RecordedAll(j: Journal, writes: seq<Write>): Journal
    decreases writes
  {
    if writes == [] then j else RecordedAll(Recorded(j, writes[0]), writes[1..])
  }

  lemma {:induction false} NewestIsTimed(j: Journal, v: Version)
    requires Timed(j)
    ensures Newest(j.entries, v).Some? ==> Newest(j.entries, v).value.stamp < j.clock && Newest(j.entries, v).value.version == v
    decreases j.entries
  {
    if j.entries != [] { NewestIsTimed(Journal(j.entries[..|j.entries| - 1], j.clock), v); }
  }

  /** A write decides its own version and leaves all others alone. */
  lemma WriteDecides(j: Journal, w: Write, v: Version)
    requires Timed(j)
    ensures var after := Recorded(j, w);
      && Timed(after)
      && Newest(after.entries, v) ==
           if v == w.version then Some(Entry(v, w.status, w.checksum, j.clock)) else Newest(j.entries, v)
  {
    NewestIsTimed(j, v);
    assert Recorded(j, w).entries[..|j.entries|] == j.entries;
  }

  lemma {:induction false} RecordedConcat(j: Journal, a: seq<Write>, b: seq<Write>)
    ensures RecordedAll(j, a + b) == RecordedAll(RecordedAll(j, a), b)
    decreases a
  {
    if a == [] {
      assert a + b == b;
    } else {
      assert (a + b)[0] == a[0] && (a + b)[1..] == a[1..] + b;
      RecordedConcat(Recorded(j, a[0]), a[1..], b);
    }
  }

  lemma RecordedFirst(j: Journal, writes: seq<Write>, k: nat)
    requires 0 < k <= |writes|
    ensures RecordedAll(j, writes[..k]) == RecordedAll(Recorded(j, writes[0]), writes[1..][..k - 1])
  {
    hide Recorded;
    assert writes[..k][1..] == writes[1..][..k - 1];
  }

  lemma NothingRecorded(j: Journal)
    ensures RecordedAll(j, []) == j
  {
  }

  // ----- What a run writes -----

  datatype Outcome = Done | HistoryDiffers | SqlFailed | NoRollbackScript | NoTarget | RefusedInProduction

  /** Applied migrations are on disk and unchanged; entries without a checksum match anything. */
  predicate HistoryMatches(manifest: seq<Migration>, j: Journal) {
    forall k :: 0 <= k < |j.entries| ==> EntryMatches(manifest, j, j.entries[k].version)
  }

  predicate EntryMatches(manifest: seq<Migration>, j: Journal, v: Version) {
    IsApplied(j, v) ==>
      exists i :: 0 <= i < |manifest| && manifest[i].version == v &&
        Newest(j.entries, v).value.checksum in ["", manifest[i].checksum]
  }

  function WriteOf(m: Migration, status: Status): Write {
    Write(m.version, status, m.checksum)
  }

  /** What applying writes from position i of the manifest on, decided on the journal as loaded. */
  function ApplyPlan(manifest: seq<Migration>, j: Journal, target: Option<Version>, fails: set<Version>, i: nat)
    : (seq<Write>, Outcome)
    requires i <= |manifest|
    decreases |manifest| - i
  {
    if i == |manifest| then ([], Done)
    else
      var m := manifest[i];
      var more := ApplyPlan(manifest, j, target, fails, i + 1);
      if IsApplied(j, m.version) then
        if Newest(j.entries, m.version).value.checksum == "" then ([WriteOf(m, Applied)] + more.0, more.1) else more
      else if target.Some? && m.version > target.value then ([], Done)
      else if m.version in fails then ([WriteOf(m, Started), WriteOf(m, Failed)], SqlFailed)
      else ([WriteOf(m, Started), WriteOf(m, Applied)] + more.0, more.1)
  }

  function Apply(manifest: seq<Migration>, j: Journal, target: Option<Version>, fails: set<Version>): (seq<Write>, Outcome) {
    if HistoryMatches(manifest, j) then ApplyPlan(manifest, j, target, fails, 0) else ([], HistoryDiffers)
  }

  predicate Reverts(m: Migration, j: Journal, target: Version) {
    m.version > target && IsApplied(j, m.version)
  }

  /** What rolling back writes, from the end of the first n migrations of the manifest downwards. */
  function RollbackPlan(manifest: seq<Migration>, j: Journal, target: Version, fails: set<Version>, n: nat)
    : (seq<Write>, Outcome)
    requires n <= |manifest|
  {
    if n == 0 then ([], Done)
    else
      var m := manifest[n - 1];
      if !Reverts(m, j, target) then RollbackPlan(manifest, j, target, fails, n - 1)
      else if m.version in fails then ([], SqlFailed)
      else
        var more := RollbackPlan(manifest, j, target, fails, n - 1);
        ([WriteOf(m, RolledBack)] + more.0, more.1)
  }

  function Rollback(manifest: seq<Migration>, j: Journal, target: Option<Version>, refused: bool, fails: set<Version>)
    : (seq<Write>, Outcome)
  {
    if target.None? then ([], NoTarget)
    else if refused then ([], RefusedInProduction)
    else if !HistoryMatches(manifest, j) then ([], HistoryDiffers)
    else if exists i :: 0 <= i < |manifest| && Reverts(manifest[i], j, target.value) && !manifest[i].hasRollback then
      ([], NoRollbackScript)
    else RollbackPlan(manifest, j, target.value, fails, |manifest|)
  }

  // ----- The applied versions stay a prefix of the manifest -----

  /** Exactly the first n migrations are applied. */
  predicate AppliedUpTo(manifest: seq<Migration>, j: Journal, n: nat) {
    n <= |manifest| && forall i :: 0 <= i < |manifest| ==> (IsApplied(j, manifest[i].version) <==> i < n)
  }

  ghost predicate IsPrefix(manifest: seq<Migration>, j: Journal) {
    exists n :: AppliedUpTo(manifest, j, n)
  }

  lemma PositionsDiffer(manifest: seq<Migration>, i: nat, k: nat)
    requires Ascending(manifest) && i < |manifest| && k < |manifest|
    ensures manifest[i].version == manifest[k].version <==> i == k
  {
    if i < k { assert manifest[i].version < manifest[k].version; }
    if k < i { assert manifest[k].version < manifest[i].version; }
  }

  /** A write about migration i moves the end of the prefix by at most one. */
  lemma WriteMovesPrefix(manifest: seq<Migration>, j: Journal, n: nat, i: nat, status: Status)
    requires Ascending(manifest) && Timed(j) && AppliedUpTo(manifest, j, n) && i < |manifest|
    requires status == Applied ==> i <= n
    requires status != Applied ==> i + 1 >= n
    ensures var after := Recorded(j, WriteOf(manifest[i], status));
      && Timed(after)
      && AppliedUpTo(manifest, after,
                     if status == Applied then if i == n then n + 1 else n else if i + 1 == n then i else n)
  {
    var after := Recorded(j, WriteOf(manifest[i], status));
    WriteDecides(j, WriteOf(manifest[i], status), manifest[i].version);
    forall k | 0 <= k < |manifest|
      ensures IsApplied(after, manifest[k].version) <==>
              if k == i then status == Applied else IsApplied(j, manifest[k].version)
    {
      PositionsDiffer(manifest, i, k);
      WriteDecides(j, WriteOf(manifest[i], status), manifest[k].version);
    }
  }

  /** The migrations from position i on stand in `now` as they stood when the journal was loaded. */
  predicate SameFrom(manifest: seq<Migration>, j: Journal, now: Journal, i: nat) {
    forall k :: i <= k < |manifest| ==> Newest(now.entries, manifest[k].version) == Newest(j.entries, manifest[k].version)
  }

  lemma WriteKeepsOthers(manifest: seq<Migration>, j: Journal, now: Journal, i: nat, status: Status)
    requires Ascending(manifest) && Timed(now) && i < |manifest| && SameFrom(manifest, j, now, i)
    ensures SameFrom(manifest, j, Recorded(now, WriteOf(manifest[i], status)), i + 1)
  {
    forall k | i + 1 <= k < |manifest|
      ensures Newest(Recorded(now, WriteOf(manifest[i], status)).entries, manifest[k].version) ==
              Newest(j.entries, manifest[k].version)
    {
      PositionsDiffer(manifest, i, k);
      WriteDecides(now, WriteOf(manifest[i], status), manifest[k].version);
    }
  }

  lemma {:induction false} ApplyKeepsPrefix(manifest: seq<Migration>, j: Journal, now: Journal, target: Option<Version>,
                                            fails: set<Version>, i: nat, n: nat, k: nat)
    requires Ascending(manifest) && Timed(now) && i <= n && i <= |manifest|
    requires AppliedUpTo(manifest, now, n) && SameFrom(manifest, j, now, i)
    requires k <= |ApplyPlan(manifest, j, target, fails, i).0|
    ensures var after := RecordedAll(now, ApplyPlan(manifest, j, target, fails, i).0[..k]);
      Timed(after) && IsPrefix(manifest, after)
    decreases |manifest| - i
  {
    hide Newest, Timed, AppliedUpTo, SameFrom, Recorded, RecordedAll;
    if k == 0 {
      NothingRecorded(now);
    } else {
      var m := manifest[i];
      var plan := ApplyPlan(manifest, j, target, fails, i).0;
      var more := ApplyPlan(manifest, j, target, fails, i + 1).0;
      StandsAt(manifest, j, now, i, n);
      if i < n {
        if Newest(j.entries, m.version).value.checksum == "" {
          WriteMovesPrefix(manifest, now, n, i, Applied);
          WriteKeepsOthers(manifest, j, now, i, Applied);
          ApplyKeepsPrefix(manifest, j, Recorded(now, plan[0]), target, fails, i + 1, n, k - 1);
          RecordedFirst(now, plan, k);
          assert plan[1..] == more;
        } else {
          SkipFirst(manifest, j, now, i);
          ApplyKeepsPrefix(manifest, j, now, target, fails, i + 1, n, k);
        }
      } else {
        WriteMovesPrefix(manifest, now, n, i, Started);
        RecordedFirst(now, plan, k);
        var started, rest := Recorded(now, plan[0]), plan[1..];
        if k == 1 {
          NothingRecorded(started);
        } else {
          RecordedFirst(started, rest, k - 1);
          if m.version in fails {
            WriteMovesPrefix(manifest, started, n, i, Failed);
            NothingRecorded(Recorded(started, rest[0]));
          } else {
            WriteMovesPrefix(manifest, started, n, i, Applied);
            TwoWritesKeepOthers(manifest, j, now, i);
            ApplyKeepsPrefix(manifest, j, Recorded(started, rest[0]), target, fails, i + 1, n + 1, k - 2);
            assert rest[1..] == more;
          }
        }
      }
    }
  }

  lemma TwoWritesKeepOthers(manifest: seq<Migration>, j: Journal, now: Journal, i: nat)
    requires Ascending(manifest) && Timed(now) && i < |manifest| && SameFrom(manifest, j, now, i)
    ensures SameFrom(manifest, j, Recorded(Recorded(now, WriteOf(manifest[i], Started)), WriteOf(manifest[i], Applied)), i + 1)
  {
    hide Newest;
    var started := Recorded(now, WriteOf(manifest[i], Started));
    forall k | i + 1 <= k < |manifest|
      ensures Newest(Recorded(started, WriteOf(manifest[i], Applied)).entries, manifest[k].version) ==
              Newest(j.entries, manifest[k].version)
    {
      PositionsDiffer(manifest, i, k);
      WriteDecides(now, WriteOf(manifest[i], Started), manifest[k].version);
      WriteDecides(started, WriteOf(manifest[i], Applied), manifest[k].version);
    }
  }

  lemma StandsAt(manifest: seq<Migration>, j: Journal, now: Journal, i: nat, n: nat)
    requires i < |manifest| && AppliedUpTo(manifest, now, n) && SameFrom(manifest, j, now, i)
    ensures IsApplied(j, manifest[i].version) <==> i < n
    ensures IsApplied(now, manifest[i].version) <==> i < n
  {
    hide Newest;
  }

  lemma SkipFirst(manifest: seq<Migration>, j: Journal, now: Journal, i: nat)
    requires SameFrom(manifest, j, now, i)
    ensures SameFrom(manifest, j, now, i + 1)
  {
    hide Newest;
  }

  lemma {:induction false} RollbackKeepsPrefix(manifest: seq<Migration>, j: Journal, now: Journal, target: Version,
                                               fails: set<Version>, n: nat, p: nat, k: nat)
    requires Ascending(manifest) && Timed(now) && n <= |manifest|
    requires AppliedUpTo(manifest, now, p) && (forall i :: 0 <= i < n ==> (IsApplied(j, manifest[i].version) <==> i < p))
    requires p <= n || (n < |manifest| && manifest[n].version <= target) || n == 0
    requires k <= |RollbackPlan(manifest, j, target, fails, n).0|
    ensures var after := RecordedAll(now, RollbackPlan(manifest, j, target, fails, n).0[..k]);
      Timed(after) && IsPrefix(manifest, after)
    decreases n
  {
    hide Timed, IsApplied, Recorded, RecordedAll;
    if k == 0 {
      NothingRecorded(now);
    } else {
      var m := manifest[n - 1];
      var plan := RollbackPlan(manifest, j, target, fails, n).0;
      if Reverts(m, j, target) {
        WriteMovesPrefix(manifest, now, p, n - 1, RolledBack);
        RecordedFirst(now, plan, k);
        assert plan[1..] == RollbackPlan(manifest, j, target, fails, n - 1).0;
        RollbackKeepsPrefix(manifest, j, Recorded(now, plan[0]), target, fails, n - 1, n - 1, k - 1);
      } else {
        RollbackKeepsPrefix(manifest, j, now, target, fails, n - 1, p, k);
      }
    }
  }

  // ----- Runs -----

  /** A run stops after `written` of its journal writes, however it ends. */
  datatype Command =
    | ApplyUpTo(target: Option<Version>, fails: set<Version>, written: nat)
    | RollbackTo(target: Option<Version>, refused: bool, fails: set<Version>, written: nat)

  function Planned(manifest: seq<Migration>, j: Journal, c: Command): seq<Write> {
    match c
    case ApplyUpTo(target, fails, _) => Apply(manifest, j, target, fails).0
    case RollbackTo(target, refused, fails, _) => Rollback(manifest, j, target, refused, fails).0
  }

  function After(manifest: seq<Migration>, j: Journal, c: Command): Journal {
    var plan := Planned(manifest, j, c);
    RecordedAll(j, if c.written < |plan| then plan[..c.written] else plan)
  }

  function Run(manifest: seq<Migration>, j: Journal, commands: seq<Command>): Journal {
    if commands == [] then j
    else After(manifest, Run(manifest, j, commands[..|commands| - 1]), commands[|commands| - 1])
  }

  lemma CommandKeepsPrefix(manifest: seq<Migration>, j: Journal, c: Command)
    requires Ascending(manifest) && Timed(j) && IsPrefix(manifest, j)
    ensures Timed(After(manifest, j, c)) && IsPrefix(manifest, After(manifest, j, c))
  {
    hide ApplyPlan, RollbackPlan, Timed, AppliedUpTo, HistoryMatches, RecordedAll, Reverts;
    var n :| AppliedUpTo(manifest, j, n);
    var plan := Planned(manifest, j, c);
    var k := if c.written < |plan| then c.written else |plan|;
    assert plan[..|plan|] == plan;
    PrefixFacts(manifest, j, n);
    NothingRecorded(j);
    match c
    case ApplyUpTo(target, fails, _) =>
      if HistoryMatches(manifest, j) { ApplyKeepsPrefix(manifest, j, j, target, fails, 0, n, k); }
    case RollbackTo(target, refused, fails, _) =>
      if plan != [] { RollbackKeepsPrefix(manifest, j, j, target.value, fails, |manifest|, n, k); }
  }

  lemma PrefixFacts(manifest: seq<Migration>, j: Journal, n: nat)
    requires AppliedUpTo(manifest, j, n)
    ensures n <= |manifest| && SameFrom(manifest, j, j, 0)
    ensures forall i :: 0 <= i < |manifest| ==> (IsApplied(j, manifest[i].version) <==> i < n)
  {
  }

  /** After every journal write of any sequence of runs, failed and interrupted ones included, the
      applied versions are a prefix of the manifest. */
  lemma {:induction false} RunKeepsPrefix(manifest: seq<Migration>, j: Journal, commands: seq<Command>)
    requires Ascending(manifest) && Timed(j) && IsPrefix(manifest, j)
    ensures Timed(Run(manifest, j, commands)) && IsPrefix(manifest, Run(manifest, j, commands))
  {
    if commands != [] {
      hide After, IsPrefix, Timed;
      RunKeepsPrefix(manifest, j, commands[..|commands| - 1]);
      CommandKeepsPrefix(manifest, Run(manifest, j, commands[..|commands| - 1]), commands[|commands| - 1]);
    }
  }

  // ----- Where a successful run ends -----

  predicate Touches(writes: seq<Write>, v: Version) {
    exists k :: 0 <= k < |writes| && writes[k].version == v
  }

  lemma {:induction false} UntouchedStays(j: Journal, writes: seq<Write>, v: Version)
    requires Timed(j)
    ensures Timed(RecordedAll(j, writes))
    ensures !Touches(writes, v) ==> Newest(RecordedAll(j, writes).entries, v) == Newest(j.entries, v)
    decreases writes
  {
    hide Newest, Timed, Recorded;
    if writes != [] {
      WriteDecides(j, writes[0], v);
      UntouchedStays(Recorded(j, writes[0]), writes[1..], v);
      if Touches(writes[1..], v) {
        var k :| 0 <= k < |writes| - 1 && writes[1..][k].version == v;
        assert writes[k + 1].version == v;
      }
    }
  }

  /** Writes about migrations from position i on. */
  predicate AboutFrom(manifest: seq<Migration>, writes: seq<Write>, i: nat) {
    forall k :: 0 <= k < |writes| ==> IsAbout(manifest, writes[k], i)
  }

  predicate IsAbout(manifest: seq<Migration>, w: Write, i: nat) {
    exists m :: i <= m < |manifest| && w == WriteOf(manifest[m], w.status)
  }

  lemma {:induction false} ApplyPlanIsAbout(manifest: seq<Migration>, j: Journal, target: Option<Version>,
                                            fails: set<Version>, i: nat)
    requires i <= |manifest|
    ensures AboutFrom(manifest, ApplyPlan(manifest, j, target, fails, i).0, i)
    decreases |manifest| - i
  {
    hide IsApplied;
    if i < |manifest| {
      ApplyPlanIsAbout(manifest, j, target, fails, i + 1);
      var more := ApplyPlan(manifest, j, target, fails, i + 1).0;
      forall k | 0 <= k < |more| ensures IsAbout(manifest, more[k], i) { assert IsAbout(manifest, more[k], i + 1); }
      forall status ensures IsAbout(manifest, WriteOf(manifest[i], status), i) {}
    }
  }

  lemma LaterIsUntouched(manifest: seq<Migration>, writes: seq<Write>, i: nat)
    requires Ascending(manifest) && i < |manifest| && AboutFrom(manifest, writes, i + 1)
    ensures !Touches(writes, manifest[i].version)
  {
    forall k | 0 <= k < |writes| ensures writes[k].version != manifest[i].version {
      assert IsAbout(manifest, writes[k], i + 1);
      var m :| i + 1 <= m < |manifest| && writes[k] == WriteOf(manifest[m], writes[k].status);
      PositionsDiffer(manifest, i, m);
    }
  }

  /** Migration i after a successful run that reached it or stopped before it. */
  lemma {:induction false} ApplyEndsAt(manifest: seq<Migration>, j: Journal, now: Journal, target: Option<Version>,
                                       fails: set<Version>, i: nat, p: nat)
    requires Ascending(manifest) && Timed(now) && i <= p < |manifest| && SameFrom(manifest, j, now, i)
    requires ApplyPlan(manifest, j, target, fails, i).1 == Done
    ensures var after := RecordedAll(now, ApplyPlan(manifest, j, target, fails, i).0); var v := manifest[p].version;
      IsApplied(after, v) <==> IsApplied(j, v) || target.None? || v <= target.value
    decreases |manifest| - i
  {
    hide Newest, Timed, Recorded, RecordedAll, SameFrom;
    var m := manifest[i];
    var plan := ApplyPlan(manifest, j, target, fails, i).0;
    var more := ApplyPlan(manifest, j, target, fails, i + 1).0;
    var after := RecordedAll(now, plan);
    ApplyPlanIsAbout(manifest, j, target, fails, i + 1);
    LaterIsUntouched(manifest, more, i);
    NothingRecorded(now);
    SameThere(manifest, j, now, i, i);
    SameThere(manifest, j, now, i, p);
    assert plan[..|plan|] == plan && more[..|more|] == more;
    if IsApplied(j, m.version) {
      if Newest(j.entries, m.version).value.checksum == "" {
        RecordedFirst(now, plan, |plan|);
        assert plan[1..] == more;
        WriteKeepsOthers(manifest, j, now, i, Applied);
        WriteDecides(now, plan[0], m.version);
        UntouchedStays(Recorded(now, plan[0]), more, m.version);
        if p > i { ApplyEndsAt(manifest, j, Recorded(now, plan[0]), target, fails, i + 1, p); }
      } else {
        SkipFirst(manifest, j, now, i);
        UntouchedStays(now, more, m.version);
        if p > i { ApplyEndsAt(manifest, j, now, target, fails, i + 1, p); }
      }
    } else if target.Some? && m.version > target.value {
      if i < p { assert manifest[i].version < manifest[p].version; }
    } else {
      RecordedFirst(now, plan, |plan|);
      var started, rest := Recorded(now, plan[0]), plan[1..];
      assert rest[..|rest|] == rest;
      RecordedFirst(started, rest, |rest|);
      assert rest[1..] == more;
      TwoWritesKeepOthers(manifest, j, now, i);
      WriteDecides(now, plan[0], m.version);
      WriteDecides(started, rest[0], m.version);
      UntouchedStays(Recorded(started, rest[0]), more, m.version);
      if p > i { ApplyEndsAt(manifest, j, Recorded(started, rest[0]), target, fails, i + 1, p); }
    }
  }

  lemma SameThere(manifest: seq<Migration>, j: Journal, now: Journal, i: nat, p: nat)
    requires i <= p < |manifest| && SameFrom(manifest, j, now, i)
    ensures IsApplied(now, manifest[p].version) <==> IsApplied(j, manifest[p].version)
    ensures Newest(now.entries, manifest[p].version) == Newest(j.entries, manifest[p].version)
  {
    hide Newest;
  }

  /** A finished application leaves nothing to do: the same target again, whatever would fail, writes
      nothing more. */
  lemma {:induction false} RepeatFrom(manifest: seq<Migration>, j: Journal, now: Journal, target: Option<Version>,
                                      fails: set<Version>, again: set<Version>, i: nat)
    requires Ascending(manifest) && Timed(now) && i <= |manifest| && SameFrom(manifest, j, now, i)
    requires ApplyPlan(manifest, j, target, fails, i).1 == Done && forall k :: 0 <= k < |manifest| ==> manifest[k].checksum != ""
    ensures ApplyPlan(manifest, RecordedAll(now, ApplyPlan(manifest, j, target, fails, i).0), target, again, i) == ([], Done)
    decreases |manifest| - i
  {
    hide Newest, Timed, Recorded, RecordedAll, SameFrom;
    NothingRecorded(now);
    if i < |manifest| {
      var m := manifest[i];
      var plan := ApplyPlan(manifest, j, target, fails, i).0;
      var more := ApplyPlan(manifest, j, target, fails, i + 1).0;
      ApplyPlanIsAbout(manifest, j, target, fails, i + 1);
      LaterIsUntouched(manifest, more, i);
      SameThere(manifest, j, now, i, i);
      assert plan[..|plan|] == plan && more[..|more|] == more;
      if IsApplied(j, m.version) {
        if Newest(j.entries, m.version).value.checksum == "" {
          RecordedFirst(now, plan, |plan|);
          assert plan[1..] == more;
          WriteKeepsOthers(manifest, j, now, i, Applied);
          WriteDecides(now, plan[0], m.version);
          UntouchedStays(Recorded(now, plan[0]), more, m.version);
          RepeatFrom(manifest, j, Recorded(now, plan[0]), target, fails, again, i + 1);
        } else {
          SkipFirst(manifest, j, now, i);
          UntouchedStays(now, more, m.version);
          RepeatFrom(manifest, j, now, target, fails, again, i + 1);
        }
      } else if !(target.Some? && m.version > target.value) {
        RecordedFirst(now, plan, |plan|);
        var started, rest := Recorded(now, plan[0]), plan[1..];
        assert rest[..|rest|] == rest;
        RecordedFirst(started, rest, |rest|);
        assert rest[1..] == more;
        TwoWritesKeepOthers(manifest, j, now, i);
        WriteDecides(now, plan[0], m.version);
        WriteDecides(started, rest[0], m.version);
        UntouchedStays(Recorded(started, rest[0]), more, m.version);
        RepeatFrom(manifest, j, Recorded(started, rest[0]), target, fails, again, i + 1);
      }
    }
  }

  // ----- The history stays consistent -----

  predicate FromManifest(manifest: seq<Migration>, writes: seq<Write>) {
    AboutFrom(manifest, writes, 0)
  }

  lemma WriteKeepsHistory(manifest: seq<Migration>, j: Journal, w: Write, v: Version)
    requires Timed(j) && IsAbout(manifest, w, 0) && EntryMatches(manifest, j, v)
    ensures EntryMatches(manifest, Recorded(j, w), v)
  {
    hide Newest;
    WriteDecides(j, w, v);
    var m :| 0 <= m < |manifest| && w == WriteOf(manifest[m], w.status);
    if v == w.version && w.status == Applied {
      assert manifest[m].version == v && Newest(Recorded(j, w).entries, v).value.checksum in ["", manifest[m].checksum];
    } else if IsApplied(j, v) && v != w.version {
      var i :| 0 <= i < |manifest| && manifest[i].version == v &&
        Newest(j.entries, v).value.checksum in ["", manifest[i].checksum];
      assert Newest(Recorded(j, w).entries, v).value.checksum in ["", manifest[i].checksum];
    }
  }

  lemma {:induction false} WritesKeepHistory(manifest: seq<Migration>, j: Journal, writes: seq<Write>, v: Version)
    requires Timed(j) && FromManifest(manifest, writes) && EntryMatches(manifest, j, v)
    ensures EntryMatches(manifest, RecordedAll(j, writes), v)
    decreases writes
  {
    if writes != [] {
      hide EntryMatches, Timed, IsAbout, Recorded;
      assert IsAbout(manifest, writes[0], 0);
      WriteKeepsHistory(manifest, j, writes[0], v);
      WriteDecides(j, writes[0], v);
      forall k | 0 <= k < |writes| - 1 ensures IsAbout(manifest, writes[1..][k], 0) { assert writes[1..][k] == writes[k + 1]; }
      WritesKeepHistory(manifest, Recorded(j, writes[0]), writes[1..], v);
    }
  }

  /** Versions without an entry are not applied, so the check of the entries covers all versions. */
  lemma {:induction false} NoEntryNotApplied(entries: seq<Entry>, v: Version)
    requires forall k :: 0 <= k < |entries| ==> entries[k].version != v
    ensures Newest(entries, v) == None
  {
    if entries != [] { NoEntryNotApplied(entries[..|entries| - 1], v); }
  }

  lemma HistoryCoversAll(manifest: seq<Migration>, j: Journal, v: Version)
    requires HistoryMatches(manifest, j)
    ensures EntryMatches(manifest, j, v)
  {
    hide EntryMatches, Newest;
    if exists k :: 0 <= k < |j.entries| && j.entries[k].version == v {
      var k :| 0 <= k < |j.entries| && j.entries[k].version == v;
      assert EntryMatches(manifest, j, j.entries[k].version);
    } else {
      NoEntryNotApplied(j.entries, v);
      NotAppliedMatches(manifest, j, v);
    }
  }

  lemma NotAppliedMatches(manifest: seq<Migration>, j: Journal, v: Version)
    requires Newest(j.entries, v) == None
    ensures EntryMatches(manifest, j, v)
  {
  }

  /** As long as the files do not change, no run makes the history differ from them. */
  lemma HistoryStays(manifest: seq<Migration>, j: Journal, writes: seq<Write>)
    requires Timed(j) && HistoryMatches(manifest, j) && FromManifest(manifest, writes)
    ensures HistoryMatches(manifest, RecordedAll(j, writes))
  {
    hide EntryMatches, FromManifest, Timed;
    var after := RecordedAll(j, writes);
    forall k | 0 <= k < |after.entries| ensures EntryMatches(manifest, after, after.entries[k].version) {
      HistoryCoversAll(manifest, j, after.entries[k].version);
      WritesKeepHistory(manifest, j, writes, after.entries[k].version);
    }
  }

  /** A successful application up to a target ends with what was applied before and every migration
      up to the target, and repeating it writes nothing. */
  lemma ApplyReachesItsTarget(manifest: seq<Migration>, j: Journal, target: Option<Version>, fails: set<Version>,
                              again: set<Version>)
    requires Ascending(manifest) && Timed(j) && Apply(manifest, j, target, fails).1 == Done
    ensures var after := RecordedAll(j, Apply(manifest, j, target, fails).0);
      forall p :: 0 <= p < |manifest| ==>
        (IsApplied(after, manifest[p].version) <==>
         IsApplied(j, manifest[p].version) || target.None? || manifest[p].version <= target.value)
    ensures (forall k :: 0 <= k < |manifest| ==> manifest[k].checksum != "") ==>
      Apply(manifest, RecordedAll(j, Apply(manifest, j, target, fails).0), target, again) == ([], Done)
  {
    hide ApplyPlan, Newest, Timed, RecordedAll, HistoryMatches, IsApplied;
    forall p | 0 <= p < |manifest|
      ensures IsApplied(RecordedAll(j, Apply(manifest, j, target, fails).0), manifest[p].version) <==>
              IsApplied(j, manifest[p].version) || target.None? || manifest[p].version <= target.value
    {
      ApplyEndsAt(manifest, j, j, target, fails, 0, p);
    }
    ApplyPlanIsAbout(manifest, j, target, fails, 0);
    HistoryStays(manifest, j, Apply(manifest, j, target, fails).0);
    if forall k :: 0 <= k < |manifest| ==> manifest[k].checksum != "" {
      RepeatFrom(manifest, j, j, target, fails, again, 0);
    }
  }

  // ----- Where a rollback ends -----

  /** Writes about migrations before position n. */
  predicate AboutBelow(manifest: seq<Migration>, writes: seq<Write>, n: nat) {
    forall k :: 0 <= k < |writes| ==> IsAboutBelow(manifest, writes[k], n)
  }

  predicate IsAboutBelow(manifest: seq<Migration>, w: Write, n: nat) {
    exists m :: 0 <= m < n && m < |manifest| && w == WriteOf(manifest[m], w.status)
  }

  lemma {:induction false} RollbackPlanIsAbout(manifest: seq<Migration>, j: Journal, target: Version, fails: set<Version>, n: nat)
    requires n <= |manifest|
    ensures AboutBelow(manifest, RollbackPlan(manifest, j, target, fails, n).0, n)
  {
    hide Reverts;
    if n > 0 {
      RollbackPlanIsAbout(manifest, j, target, fails, n - 1);
      var more := RollbackPlan(manifest, j, target, fails, n - 1).0;
      forall k | 0 <= k < |more| ensures IsAboutBelow(manifest, more[k], n) { assert IsAboutBelow(manifest, more[k], n - 1); }
      assert IsAboutBelow(manifest, WriteOf(manifest[n - 1], RolledBack), n);
    }
  }

  lemma EarlierIsUntouched(manifest: seq<Migration>, writes: seq<Write>, n: nat, p: nat)
    requires Ascending(manifest) && n <= p < |manifest| && AboutBelow(manifest, writes, n)
    ensures !Touches(writes, manifest[p].version)
  {
    forall k | 0 <= k < |writes| ensures writes[k].version != manifest[p].version {
      assert IsAboutBelow(manifest, writes[k], n);
      var m :| 0 <= m < n && m < |manifest| && writes[k] == WriteOf(manifest[m], writes[k].status);
      PositionsDiffer(manifest, p, m);
    }
  }

  lemma {:induction false} RollbackEndsAt(manifest: seq<Migration>, j: Journal, now: Journal, target: Version,
                                          fails: set<Version>, n: nat, p: nat)
    requires Ascending(manifest) && Timed(now) && p < n <= |manifest|
    requires IsApplied(now, manifest[p].version) <==> IsApplied(j, manifest[p].version)
    requires RollbackPlan(manifest, j, target, fails, n).1 == Done
    ensures var after := RecordedAll(now, RollbackPlan(manifest, j, target, fails, n).0); var v := manifest[p].version;
      IsApplied(after, v) <==> IsApplied(j, v) && v <= target
    decreases n
  {
    hide Newest, Timed, Recorded, RecordedAll;
    var m := manifest[n - 1];
    var plan := RollbackPlan(manifest, j, target, fails, n).0;
    var more := RollbackPlan(manifest, j, target, fails, n - 1).0;
    RollbackPlanIsAbout(manifest, j, target, fails, n - 1);
    EarlierIsUntouched(manifest, more, n - 1, n - 1);
    assert plan[..|plan|] == plan && more[..|more|] == more;
    if Reverts(m, j, target) {
      RecordedFirst(now, plan, |plan|);
      assert plan[1..] == more;
      WriteDecides(now, plan[0], manifest[p].version);
      PositionsDiffer(manifest, p, n - 1);
      UntouchedStays(Recorded(now, plan[0]), more, m.version);
      if p < n - 1 { RollbackEndsAt(manifest, j, Recorded(now, plan[0]), target, fails, n - 1, p); }
    } else {
      UntouchedStays(now, more, m.version);
      if p < n - 1 { RollbackEndsAt(manifest, j, now, target, fails, n - 1, p); }
    }
  }

  /** A successful rollback leaves exactly the applied migrations up to its target. */
  lemma RollbackReachesItsTarget(manifest: seq<Migration>, j: Journal, target: Version, refused: bool, fails: set<Version>)
    requires Ascending(manifest) && Timed(j) && Rollback(manifest, j, Some(target), refused, fails).1 == Done
    ensures var after := RecordedAll(j, Rollback(manifest, j, Some(target), refused, fails).0);
      forall p :: 0 <= p < |manifest| ==>
        (IsApplied(after, manifest[p].version) <==> IsApplied(j, manifest[p].version) && manifest[p].version <= target)
  {
    hide RollbackPlan, Newest, Timed, RecordedAll, HistoryMatches, IsApplied;
    forall p | 0 <= p < |manifest|
      ensures IsApplied(RecordedAll(j, Rollback(manifest, j, Some(target), refused, fails).0), manifest[p].version) <==>
              IsApplied(j, manifest[p].version) && manifest[p].version <= target
    {
      RollbackEndsAt(manifest, j, j, target, fails, |manifest|, p);
    }
  }

  /** Rolling back to where the database stood undoes a successful application. */
  lemma RollbackUndoesApply(manifest: seq<Migration>, j: Journal, stood: Version, target: Option<Version>,
                            fails: set<Version>, refused: bool, fails': set<Version>)
    requires Ascending(manifest) && Timed(j) && Apply(manifest, j, target, fails).1 == Done
    requires forall p :: 0 <= p < |manifest| ==> (IsApplied(j, manifest[p].version) <==> manifest[p].version <= stood)
    requires var applied := RecordedAll(j, Apply(manifest, j, target, fails).0);
      Rollback(manifest, applied, Some(stood), refused, fails').1 == Done
    ensures var applied := RecordedAll(j, Apply(manifest, j, target, fails).0);
      var back := RecordedAll(applied, Rollback(manifest, applied, Some(stood), refused, fails').0);
      forall p :: 0 <= p < |manifest| ==> (IsApplied(back, manifest[p].version) <==> IsApplied(j, manifest[p].version))
  {
    hide Apply, Rollback, RecordedAll, IsApplied, Timed;
    ApplyReachesItsTarget(manifest, j, target, fails, {});
    var applied := RecordedAll(j, Apply(manifest, j, target, fails).0);
    UntouchedStays(j, Apply(manifest, j, target, fails).0, stood);
    RollbackReachesItsTarget(manifest, applied, stood, refused, fails');
  }
}
