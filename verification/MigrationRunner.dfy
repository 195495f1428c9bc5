/** The migration runner: commands that load the journal once and write it as they go. */
module MigrationRunner {
  import opened Wrappers
  import opened Migrations
  import opened MigrationHistory

  /** The journal table of the warehouse. */
  class Warehouse {
    var entries: seq<Entry>
    var clock: nat

    constructor ()
      ensures State() == Journal([], 0)
    {
      entries, clock := [], 0;
    }

    function State(): Journal
      reads this
    {
      Journal(entries, clock)
    }

    method Record(m: Migration, status: Status)
      modifies this
      ensures State() == Recorded(old(State()), WriteOf(m, status))
    {
      entries := entries + [Entry(m.version, status, m.checksum, clock)];
      clock := clock + 1;
    }

    /** The latest entry of every version. */
    method LoadJournal() returns (latest: map<Version, Entry>)
      ensures Latest(latest, State())
    {
      latest := map[];
      for i := 0 to |entries|
        invariant Latest(latest, Journal(entries[..i], clock))
      {
        var e := entries[i];
        assert entries[..i + 1][..i] == entries[..i];
        if e.version !in latest || latest[e.version].stamp <= e.stamp { latest := latest[e.version := e]; }
      }
      assert entries[..|entries|] == entries;
    }

    /** Runs one migration: started, then applied or failed. */
    method ApplyOne(m: Migration, fails: set<Version>) returns (ok: bool)
      modifies this
      ensures ok <==> m.version !in fails
      ensures State() == Recorded(Recorded(old(State()), WriteOf(m, Started)), WriteOf(m, if ok then Applied else Failed))
    {
      Record(m, Started);
      ok := m.version !in fails;
      if ok { Record(m, Applied); } else { Record(m, Failed); }
    }
  }

  ghost predicate Latest(latest: map<Version, Entry>, j: Journal) {
    forall v :: (if v in latest then Some(latest[v]) else None) == Newest(j.entries, v)
  }

  predicate AppliedIn(latest: map<Version, Entry>, v: Version) {
    v in latest && latest[v].status == Applied
  }

  lemma LatestApplied(latest: map<Version, Entry>, j: Journal, v: Version)
    requires Latest(latest, j)
    ensures AppliedIn(latest, v) <==> IsApplied(j, v)
    ensures AppliedIn(latest, v) ==> Newest(j.entries, v) == Some(latest[v])
    ensures IsApplied(j, v) ==> Newest(j.entries, v).Some? && Newest(j.entries, v).value.checksum == LatestChecksum(latest, v)
  {
    hide Newest;
  }

  predicate KeyMatches(manifest: seq<Migration>, latest: map<Version, Entry>, v: Version) {
    AppliedIn(latest, v) ==>
      exists i :: 0 <= i < |manifest| && manifest[i].version == v && latest[v].checksum in ["", manifest[i].checksum]
  }

  lemma KeysMatchEntries(manifest: seq<Migration>, latest: map<Version, Entry>, j: Journal, v: Version)
    requires Latest(latest, j)
    ensures KeyMatches(manifest, latest, v) <==> EntryMatches(manifest, j, v)
  {
    hide Newest;
    LatestApplied(latest, j, v);
  }

  /** Compares every latest entry with the files. */
  method CheckHistory(manifest: seq<Migration>, latest: map<Version, Entry>, ghost j: Journal) returns (ok: bool)
    requires Latest(latest, j)
    ensures ok <==> HistoryMatches(manifest, j)
    ensures ok <==> !Edited(manifest, j.entries)
  {
    hide Newest, KeyMatches, EntryMatches, Edited;
    ok := true;
    var todo := latest.Keys;
    while todo != {}
      invariant todo <= latest.Keys
      invariant ok <==> forall v :: v in latest && v !in todo ==> KeyMatches(manifest, latest, v)
      decreases todo
    {
      var v :| v in todo;
      ok := ok && KeyMatches(manifest, latest, v);
      todo := todo - {v};
    }
    HistoryOfKeys(manifest, latest, j);
    MatchesIffNotEdited(manifest, j);
  }

  lemma HistoryOfKeys(manifest: seq<Migration>, latest: map<Version, Entry>, j: Journal)
    requires Latest(latest, j)
    ensures HistoryMatches(manifest, j) <==> forall v :: v in latest ==> KeyMatches(manifest, latest, v)
  {
    hide Newest, KeyMatches, EntryMatches;
    if HistoryMatches(manifest, j) {
      forall v | v in latest ensures KeyMatches(manifest, latest, v) {
        HistoryCoversAll(manifest, j, v);
        KeysMatchEntries(manifest, latest, j, v);
      }
    }
    if forall v :: v in latest ==> KeyMatches(manifest, latest, v) {
      forall k | 0 <= k < |j.entries| ensures EntryMatches(manifest, j, j.entries[k].version) {
        var v := j.entries[k].version;
        KeysMatchEntries(manifest, latest, j, v);
        if v !in latest { NotAppliedMatches(manifest, j, v); }
      }
    }
  }

  /** The versions whose run was begun. */
  function StartedIn(writes: seq<Write>): seq<Version> {
    if writes == [] then []
    else
      var last := writes[|writes| - 1];
      StartedIn(writes[..|writes| - 1]) + if last.status == Started then [last.version] else []
  }

  lemma {:induction false} StartedConcat(a: seq<Write>, b: seq<Write>)
    ensures StartedIn(a + b) == StartedIn(a) + StartedIn(b)
  {
    if b == [] {
      assert a + b == a;
    } else {
      assert (a + b)[..|a + b| - 1] == a + b[..|b| - 1];
      StartedConcat(a, b[..|b| - 1]);
    }
  }

  lemma StartedOne(w: Write)
    ensures StartedIn([w]) == if w.status == Started then [w.version] else []
  {
    assert [w][..0] == [];
  }

  lemma StartedTwo(m: Migration)
    ensures StartedIn([WriteOf(m, Started), WriteOf(m, Applied)]) == [m.version]
  {
    assert [WriteOf(m, Started), WriteOf(m, Applied)] == [WriteOf(m, Started)] + [WriteOf(m, Applied)];
    StartedConcat([WriteOf(m, Started)], [WriteOf(m, Applied)]);
    StartedOne(WriteOf(m, Started));
    StartedOne(WriteOf(m, Applied));
  }

  lemma RecordedTwo(j: Journal, a: Write, b: Write)
    ensures RecordedAll(j, [a, b]) == Recorded(Recorded(j, a), b)
    ensures RecordedAll(j, [a]) == Recorded(j, a)
  {
    hide Recorded;
    assert [a, b][1..] == [b] && [b][1..] == [] && [a][1..] == [];
    assert RecordedAll(Recorded(j, a), [b]) == Recorded(Recorded(j, a), b);
  }

  /** How far an application has come: what is written, what is left to plan, what was begun. */
  ghost predicate Reached(manifest: seq<Migration>, j: Journal, target: Option<Version>, fails: set<Version>, i: nat,
                          written: seq<Write>, now: Journal, applied: seq<Version>)
  {
    && i <= |manifest|
    && ApplyPlan(manifest, j, target, fails, 0) ==
         (written + ApplyPlan(manifest, j, target, fails, i).0, ApplyPlan(manifest, j, target, fails, i).1)
    && now == RecordedAll(j, written) && applied == StartedIn(written)
  }

  lemma ReachedStart(manifest: seq<Migration>, j: Journal, target: Option<Version>, fails: set<Version>)
    ensures Reached(manifest, j, target, fails, 0, [], j, [])
  {
    hide ApplyPlan, IsApplied;
    var plan := ApplyPlan(manifest, j, target, fails, 0);
    assert [] + plan.0 == plan.0;
  }

  lemma ReachedMore(manifest: seq<Migration>, j: Journal, target: Option<Version>, fails: set<Version>, i: nat,
                    written: seq<Write>, now: Journal, applied: seq<Version>, step: seq<Write>)
    requires Reached(manifest, j, target, fails, i, written, now, applied) && i < |manifest|
    requires ApplyPlan(manifest, j, target, fails, i) ==
             (step + ApplyPlan(manifest, j, target, fails, i + 1).0, ApplyPlan(manifest, j, target, fails, i + 1).1)
    ensures Reached(manifest, j, target, fails, i + 1, written + step, RecordedAll(now, step), applied + StartedIn(step))
  {
    hide ApplyPlan, RecordedAll, StartedIn;
    RecordedConcat(j, written, step);
    StartedConcat(written, step);
    var more := ApplyPlan(manifest, j, target, fails, i + 1).0;
    assert written + (step + more) == written + step + more;
  }

  lemma ReachedEnd(manifest: seq<Migration>, j: Journal, target: Option<Version>, fails: set<Version>, i: nat,
                   written: seq<Write>, now: Journal, applied: seq<Version>, last: seq<Write>, outcome: Outcome)
    requires Reached(manifest, j, target, fails, i, written, now, applied)
    requires ApplyPlan(manifest, j, target, fails, i) == (last, outcome)
    ensures ApplyPlan(manifest, j, target, fails, 0).1 == outcome
    ensures RecordedAll(now, last) == RecordedAll(j, ApplyPlan(manifest, j, target, fails, 0).0)
    ensures last == [] ==> applied == StartedIn(ApplyPlan(manifest, j, target, fails, 0).0)
  {
    hide ApplyPlan, RecordedAll, StartedIn;
    RecordedConcat(j, written, last);
    assert last == [] ==> written + last == written;
  }

  /** Applies what is pending up to the target; stops at the first failure. */
  method ApplyMigrations(w: Warehouse, manifest: seq<Migration>, target: Option<Version>, fails: set<Version>)
    returns (applied: seq<Version>, outcome: Outcome)
    modifies w
    ensures outcome == Apply(manifest, old(w.State()), target, fails).1
    ensures w.State() == RecordedAll(old(w.State()), Apply(manifest, old(w.State()), target, fails).0)
    ensures outcome == Done ==> applied == StartedIn(Apply(manifest, old(w.State()), target, fails).0)
    ensures outcome == HistoryDiffers <==> Edited(manifest, old(w.State()).entries)
    ensures outcome == HistoryDiffers ==> w.State() == old(w.State())
  {
    hide Newest, HistoryMatches, ApplyPlan, Reached, Warehouse.State, RecordedAll, StartedIn, Edited;
    ghost var j := w.State();
    NothingRecorded(j);
    ApplyStopsIff(manifest, j, target, fails);
    applied, outcome := [], Done;
    var latest := w.LoadJournal();
    var ok := CheckHistory(manifest, latest, j);
    if !ok { return [], HistoryDiffers; }
    applied, outcome := ApplyPending(w, manifest, latest, target, fails);
  }

  method ApplyPending(w: Warehouse, manifest: seq<Migration>, latest: map<Version, Entry>, target: Option<Version>,
                      fails: set<Version>)
    returns (applied: seq<Version>, outcome: Outcome)
    requires Latest(latest, w.State())
    modifies w
    ensures outcome == ApplyPlan(manifest, old(w.State()), target, fails, 0).1
    ensures w.State() == RecordedAll(old(w.State()), ApplyPlan(manifest, old(w.State()), target, fails, 0).0)
    ensures outcome == Done ==> applied == StartedIn(ApplyPlan(manifest, old(w.State()), target, fails, 0).0)
  {
    hide Newest, Latest, AppliedIn, IsApplied, Reached, Warehouse.State, Recorded, RecordedAll, StartedIn;
    ghost var j := w.State();
    applied, outcome := [], Done;
    ghost var written: seq<Write> := [];
    ReachedStart(manifest, j, target, fails);
    for i := 0 to |manifest|
      invariant Reached(manifest, j, target, fails, i, written, w.State(), applied)
    {
      var m := manifest[i];
      LatestApplied(latest, j, m.version);
      ghost var now := w.State();
      NothingRecorded(now);
      if AppliedIn(latest, m.version) {
        var checksum := LatestChecksum(latest, m.version);
        BaselineStarts(m);
        BaselinePlan(manifest, j, target, fails, i, checksum);
        ReachedMore(manifest, j, target, fails, i, written, now, applied, Baseline(m, checksum));
        assert applied + [] == applied;
        written := written + Baseline(m, checksum);
        if checksum == "" {
          RecordedTwo(now, WriteOf(m, Applied), WriteOf(m, Applied));
          w.Record(m, Applied);
        }
        continue;
      }
      if target.Some? && m.version > target.value {
        ReachedEnd(manifest, j, target, fails, i, written, now, applied, [], Done);
        return applied, Done;
      }
      var ok := w.ApplyOne(m, fails);
      RecordedTwo(now, WriteOf(m, Started), WriteOf(m, if ok then Applied else Failed));
      if !ok {
        ReachedEnd(manifest, j, target, fails, i, written, now, applied, [WriteOf(m, Started), WriteOf(m, Failed)], SqlFailed);
        return applied, SqlFailed;
      }
      StartedTwo(m);
      ReachedMore(manifest, j, target, fails, i, written, now, applied, [WriteOf(m, Started), WriteOf(m, Applied)]);
      written := written + [WriteOf(m, Started), WriteOf(m, Applied)];
      applied := applied + [m.version];
    }
    NothingRecorded(w.State());
    ReachedEnd(manifest, j, target, fails, |manifest|, written, w.State(), applied, [], Done);
  }

  function LatestChecksum(latest: map<Version, Entry>, v: Version): string {
    if v in latest then latest[v].checksum else ""
  }

  /** An applied migration without a checksum gets one entry with it. */
  function Baseline(m: Migration, checksum: string): seq<Write> {
    if checksum == "" then [WriteOf(m, Applied)] else []
  }

  lemma BaselinePlan(manifest: seq<Migration>, j: Journal, target: Option<Version>, fails: set<Version>, i: nat, checksum: string)
    requires i < |manifest| && IsApplied(j, manifest[i].version)
    requires Newest(j.entries, manifest[i].version).value.checksum == checksum
    ensures ApplyPlan(manifest, j, target, fails, i) ==
            (Baseline(manifest[i], checksum) + ApplyPlan(manifest, j, target, fails, i + 1).0,
             ApplyPlan(manifest, j, target, fails, i + 1).1)
  {
    hide Newest;
    var more := ApplyPlan(manifest, j, target, fails, i + 1).0;
    assert [] + more == more;
  }

  lemma BaselineStarts(m: Migration)
    ensures StartedIn([WriteOf(m, Applied)]) == [] && StartedIn([]) == []
  {
    StartedOne(WriteOf(m, Applied));
  }

  // ----- Rolling back -----

  predicate RevertsIn(m: Migration, latest: map<Version, Entry>, target: Version) {
    m.version > target && AppliedIn(latest, m.version)
  }

  /** The applied migrations above the target, the newest first. */
  method CollectReverts(manifest: seq<Migration>, latest: map<Version, Entry>, target: Version, ghost j: Journal)
    returns (reverts: seq<nat>, scripted: bool)
    requires Latest(latest, j)
    ensures reverts == RevertsBelow(manifest, j, target, |manifest|)
    ensures scripted <==> !exists i :: 0 <= i < |manifest| && Reverts(manifest[i], j, target) && !manifest[i].hasRollback
  {
    hide Newest, Reverts;
    reverts, scripted := [], true;
    var n := |manifest|;
    assert [] + RevertsBelow(manifest, j, target, n) == RevertsBelow(manifest, j, target, n);
    while n > 0
      invariant 0 <= n <= |manifest|
      invariant reverts + RevertsBelow(manifest, j, target, n) == RevertsBelow(manifest, j, target, |manifest|)
      invariant scripted <==> forall i :: n <= i < |manifest| && Reverts(manifest[i], j, target) ==> manifest[i].hasRollback
    {
      n := n - 1;
      RevertsAgree(manifest[n], latest, target, j);
      ghost var below := RevertsBelow(manifest, j, target, n);
      if RevertsIn(manifest[n], latest, target) {
        assert reverts + ([n] + below) == (reverts + [n]) + below;
        reverts := reverts + [n];
        scripted := scripted && manifest[n].hasRollback;
      } else {
        assert [] + below == below;
      }
    }
    assert reverts + [] == reverts;
  }

  lemma RevertsAgree(m: Migration, latest: map<Version, Entry>, target: Version, j: Journal)
    requires Latest(latest, j)
    ensures RevertsIn(m, latest, target) <==> Reverts(m, j, target)
  {
    hide Newest;
    LatestApplied(latest, j, m.version);
  }

  /** The positions below n that are rolled back, from the end. */
  function RevertsBelow(manifest: seq<Migration>, j: Journal, target: Version, n: nat): (r: seq<nat>)
    requires n <= |manifest|
    ensures forall k :: 0 <= k < |r| ==> r[k] < n
  {
    if n == 0 then []
    else
      (if Reverts(manifest[n - 1], j, target) then [n - 1] else []) + RevertsBelow(manifest, j, target, n - 1)
  }

  /** What is written for a list of positions. */
  function RevertPlan(manifest: seq<Migration>, reverts: seq<nat>, fails: set<Version>): (seq<Write>, Outcome)
    requires forall k :: 0 <= k < |reverts| ==> reverts[k] < |manifest|
    decreases reverts
  {
    if reverts == [] then ([], Done)
    else if manifest[reverts[0]].version in fails then ([], SqlFailed)
    else
      var more := RevertPlan(manifest, reverts[1..], fails);
      ([WriteOf(manifest[reverts[0]], RolledBack)] + more.0, more.1)
  }

  lemma {:induction false} PlansAgree(manifest: seq<Migration>, j: Journal, target: Version, fails: set<Version>, n: nat)
    requires n <= |manifest|
    ensures RollbackPlan(manifest, j, target, fails, n) == RevertPlan(manifest, RevertsBelow(manifest, j, target, n), fails)
  {
    hide Reverts;
    if n > 0 {
      PlansAgree(manifest, j, target, fails, n - 1);
      var below := RevertsBelow(manifest, j, target, n - 1);
      if Reverts(manifest[n - 1], j, target) {
        assert RevertsBelow(manifest, j, target, n)[1..] == below;
      } else {
        assert RevertsBelow(manifest, j, target, n) == below;
      }
    }
  }

  /** The versions written about, in order. */
  function VersionsOf(writes: seq<Write>): (r: seq<Version>)
    ensures |r| == |writes|
  {
    seq(|writes|, i requires 0 <= i < |writes| => writes[i].version)
  }

  /** Rolls back to the target, the newest migration first; a failure leaves no entry. */
  method RollbackMigrations(w: Warehouse, manifest: seq<Migration>, target: Option<Version>, refused: bool, fails: set<Version>)
    returns (reverted: seq<Version>, outcome: Outcome)
    modifies w
    ensures outcome == Rollback(manifest, old(w.State()), target, refused, fails).1
    ensures w.State() == RecordedAll(old(w.State()), Rollback(manifest, old(w.State()), target, refused, fails).0)
    ensures reverted == VersionsOf(Rollback(manifest, old(w.State()), target, refused, fails).0)
    ensures target.Some? && !refused ==> (outcome == HistoryDiffers <==> Edited(manifest, old(w.State()).entries))
    ensures outcome == HistoryDiffers ==> w.State() == old(w.State())
  {
    hide Newest, HistoryMatches, Reverts, Warehouse.State, RecordedAll, RevertPlan, RollbackPlan, Edited;
    ghost var j := w.State();
    NothingRecorded(j);
    if target.Some? { RollbackStopsIff(manifest, j, target.value, fails); }
    if target.None? { return [], NoTarget; }
    if refused { return [], RefusedInProduction; }
    var latest := w.LoadJournal();
    var ok := CheckHistory(manifest, latest, j);
    if !ok { return [], HistoryDiffers; }
    var reverts, scripted := CollectReverts(manifest, latest, target.value, j);
    if !scripted { return [], NoRollbackScript; }
    PlansAgree(manifest, j, target.value, fails, |manifest|);
    reverted, outcome := RevertAll(w, manifest, reverts, fails);
  }

  method RevertAll(w: Warehouse, manifest: seq<Migration>, reverts: seq<nat>, fails: set<Version>)
    returns (reverted: seq<Version>, outcome: Outcome)
    requires forall k :: 0 <= k < |reverts| ==> reverts[k] < |manifest|
    modifies w
    ensures outcome == RevertPlan(manifest, reverts, fails).1
    ensures w.State() == RecordedAll(old(w.State()), RevertPlan(manifest, reverts, fails).0)
    ensures reverted == VersionsOf(RevertPlan(manifest, reverts, fails).0)
  {
    hide Warehouse.State, Recorded, RecordedAll;
    reverted, outcome := [], Done;
    assert reverts[0..] == reverts;
    var i := 0;
    while i < |reverts|
      invariant 0 <= i <= |reverts| && outcome == Done
      invariant RevertPlan(manifest, reverts, fails).1 == RevertPlan(manifest, reverts[i..], fails).1
      invariant RecordedAll(old(w.State()), RevertPlan(manifest, reverts, fails).0) ==
                RecordedAll(w.State(), RevertPlan(manifest, reverts[i..], fails).0)
      invariant VersionsOf(RevertPlan(manifest, reverts, fails).0) ==
                reverted + VersionsOf(RevertPlan(manifest, reverts[i..], fails).0)
    {
      var m := manifest[reverts[i]];
      ghost var now := w.State();
      assert reverts[i..][1..] == reverts[i + 1..];
      if m.version in fails {
        NothingRecorded(now);
        return reverted, SqlFailed;
      }
      w.Record(m, RolledBack);
      ghost var plan := RevertPlan(manifest, reverts[i..], fails).0;
      RecordedFirst(now, plan, |plan|);
      assert plan[..|plan|] == plan && plan[1..][..|plan| - 1] == RevertPlan(manifest, reverts[i + 1..], fails).0;
      ghost var rest := RevertPlan(manifest, reverts[i + 1..], fails).0;
      assert VersionsOf(plan) == [m.version] + VersionsOf(rest);
      assert reverted + ([m.version] + VersionsOf(rest)) == reverted + [m.version] + VersionsOf(rest);
      reverted := reverted + [m.version];
      i := i + 1;
    }
    assert reverts[i..] == [] && reverted + [] == reverted;
    NothingRecorded(w.State());
  }
}
