/** What a migration run does, told of the journal rows and the files alone. */
module MigrationLaws {
  import opened Wrappers
  import opened Migrations
  import opened MigrationHistory
  import opened MigrationRunner

  // ----- What a run works on -----

  predicate Within(v: Version, target: Option<Version>) {
    target.None? || v <= target.value
  }

  /** The migrations from position i on that are not applied and within the target, in their order. */
  function Pending(manifest: seq<Migration>, j: Journal, target: Option<Version>, i: nat): seq<Version>
    requires i <= |manifest|
    decreases |manifest| - i
  {
    if i == |manifest| then []
    else
      var v := manifest[i].version;
      (if !IsApplied(j, v) && Within(v, target) then [v] else []) + Pending(manifest, j, target, i + 1)
  }

  /** Everything up to the first that fails, with it. */
  function UntilFailure(versions: seq<Version>, fails: set<Version>): seq<Version> {
    if versions == [] || versions[0] in fails then versions[..if versions == [] then 0 else 1]
    else [versions[0]] + UntilFailure(versions[1..], fails)
  }

  predicate AnyFails(versions: seq<Version>, fails: set<Version>) {
    exists v :: v in versions && v in fails
  }

  lemma {:induction false} NothingPendingBeyond(manifest: seq<Migration>, j: Journal, target: Option<Version>, i: nat)
    requires Ascending(manifest) && i <= |manifest|
    requires i < |manifest| ==> !Within(manifest[i].version, target)
    ensures Pending(manifest, j, target, i) == []
    decreases |manifest| - i
  {
    hide IsApplied;
    if i + 1 < |manifest| { assert manifest[i].version < manifest[i + 1].version; }
    if i < |manifest| { NothingPendingBeyond(manifest, j, target, i + 1); }
  }

  lemma StartedFront(w: Write, more: seq<Write>)
    ensures StartedIn([w] + more) == (if w.status == Started then [w.version] else []) + StartedIn(more)
  {
    StartedConcat([w], more);
    StartedOne(w);
  }

  lemma StartedPair(a: Write, b: Write, more: seq<Write>)
    requires a.status == Started && b.status != Started
    ensures StartedIn([a, b] + more) == [a.version] + StartedIn(more)
  {
    assert [a, b] + more == [a] + ([b] + more);
    StartedFront(a, [b] + more);
    StartedFront(b, more);
    assert [] + StartedIn(more) == StartedIn(more);
  }

  lemma UntilFailureFront(v: Version, rest: seq<Version>, fails: set<Version>)
    ensures UntilFailure([v] + rest, fails) == if v in fails then [v] else [v] + UntilFailure(rest, fails)
    ensures AnyFails([v] + rest, fails) <==> v in fails || AnyFails(rest, fails)
  {
    assert ([v] + rest)[1..] == rest && ([v] + rest)[..1] == [v];
    if AnyFails(rest, fails) {
      var u :| u in rest && u in fails;
      assert u in [v] + rest;
    }
    if v in fails { assert v in [v] + rest; }
  }

  lemma {:induction false} PlanBegins(manifest: seq<Migration>, j: Journal, target: Option<Version>, fails: set<Version>, i: nat)
    requires Ascending(manifest) && i <= |manifest|
    ensures var plan := ApplyPlan(manifest, j, target, fails, i); var pending := Pending(manifest, j, target, i);
      && StartedIn(plan.0) == UntilFailure(pending, fails)
      && plan.1 == (if AnyFails(pending, fails) then SqlFailed else Done)
    decreases |manifest| - i
  {
    hide IsApplied, UntilFailure, AnyFails, StartedIn;
    if i == |manifest| {
      NothingBegun(fails);
    } else {
      var m := manifest[i];
      var more := ApplyPlan(manifest, j, target, fails, i + 1);
      PlanBegins(manifest, j, target, fails, i + 1);
      if IsApplied(j, m.version) {
        assert Pending(manifest, j, target, i) == Pending(manifest, j, target, i + 1);
        StartedFront(WriteOf(m, Applied), more.0);
        assert [] + StartedIn(more.0) == StartedIn(more.0);
      } else if !Within(m.version, target) {
        NothingPendingBeyond(manifest, j, target, i);
        NothingBegun(fails);
      } else {
        UntilFailureFront(m.version, Pending(manifest, j, target, i + 1), fails);
        StartedPair(WriteOf(m, Started), WriteOf(m, Applied), more.0);
        StartedPair(WriteOf(m, Started), WriteOf(m, Failed), []);
        assert [WriteOf(m, Started), WriteOf(m, Failed)] + [] == [WriteOf(m, Started), WriteOf(m, Failed)];
        NothingBegun(fails);
        assert [m.version] + [] == [m.version];
      }
    }
  }

  lemma NothingBegun(fails: set<Version>)
    ensures StartedIn([]) == [] && UntilFailure([], fails) == [] && !AnyFails([], fails)
  {
  }

  /** An application over an unedited history begins the pending migrations within its target in their
      order, up to and with the first that fails, and fails exactly when one of them does. */
  lemma ApplyBegins(manifest: seq<Migration>, j: Journal, target: Option<Version>, fails: set<Version>)
    requires Ascending(manifest) && !Edited(manifest, j.entries)
    ensures var run := Apply(manifest, j, target, fails); var pending := Pending(manifest, j, target, 0);
      && StartedIn(run.0) == UntilFailure(pending, fails)
      && run.1 == (if AnyFails(pending, fails) then SqlFailed else Done)
  {
    hide ApplyPlan, HistoryMatches, Edited, Pending, StartedIn;
    MatchesIffNotEdited(manifest, j);
    PlanBegins(manifest, j, target, fails, 0);
  }

  /** The applied migrations above the target among the first n, the newest first. */
  function Reverting(manifest: seq<Migration>, j: Journal, target: Version, n: nat): seq<Version>
    requires n <= |manifest|
  {
    if n == 0 then []
    else
      var v := manifest[n - 1].version;
      (if v > target && IsApplied(j, v) then [v] else []) + Reverting(manifest, j, target, n - 1)
  }

  /** Everything before the first that fails. */
  function BeforeFailure(versions: seq<Version>, fails: set<Version>): seq<Version> {
    if versions == [] || versions[0] in fails then [] else [versions[0]] + BeforeFailure(versions[1..], fails)
  }

  lemma {:induction false} RollbackReverts(manifest: seq<Migration>, j: Journal, target: Version, fails: set<Version>, n: nat)
    requires n <= |manifest|
    ensures var plan := RollbackPlan(manifest, j, target, fails, n); var reverting := Reverting(manifest, j, target, n);
      && VersionsOf(plan.0) == BeforeFailure(reverting, fails)
      && (forall k :: 0 <= k < |plan.0| ==> plan.0[k].status == RolledBack)
      && plan.1 == (if AnyFails(reverting, fails) then SqlFailed else Done)
  {
    hide IsApplied, AnyFails;
    if n == 0 {
      NothingBegun(fails);
    } else {
      var m := manifest[n - 1];
      var more := RollbackPlan(manifest, j, target, fails, n - 1).0;
      RollbackReverts(manifest, j, target, fails, n - 1);
      if Reverts(m, j, target) {
        UntilFailureFront(m.version, Reverting(manifest, j, target, n - 1), fails);
        var all := Reverting(manifest, j, target, n);
        assert all[1..] == Reverting(manifest, j, target, n - 1);
        assert VersionsOf([WriteOf(m, RolledBack)] + more) == [m.version] + VersionsOf(more);
      } else {
        assert Reverting(manifest, j, target, n) == Reverting(manifest, j, target, n - 1);
      }
    }
  }

  predicate LacksScript(manifest: seq<Migration>, j: Journal, target: Version) {
    exists i :: 0 <= i < |manifest| && manifest[i].version > target && IsApplied(j, manifest[i].version) && !manifest[i].hasRollback
  }

  /** A rollback over an unedited history refuses exactly when one of the migrations it would revert has
      no script; otherwise it reverts the applied ones above its target from the newest down, up to the
      first that fails, and fails exactly when one does. */
  lemma RollbackWorks(manifest: seq<Migration>, j: Journal, target: Version, fails: set<Version>)
    requires !Edited(manifest, j.entries)
    ensures var run := Rollback(manifest, j, Some(target), false, fails);
      var reverting := Reverting(manifest, j, target, |manifest|);
      if LacksScript(manifest, j, target) then run == ([], NoRollbackScript)
      else
        && VersionsOf(run.0) == BeforeFailure(reverting, fails)
        && (forall k :: 0 <= k < |run.0| ==> run.0[k].status == RolledBack)
        && run.1 == (if AnyFails(reverting, fails) then SqlFailed else Done)
  {
    hide RollbackPlan, HistoryMatches, Edited, IsApplied;
    MatchesIffNotEdited(manifest, j);
    RollbackReverts(manifest, j, target, fails, |manifest|);
  }

  // ----- An edited file is found -----

  lemma ChecksumOfMatch(manifest: seq<Migration>, j: Journal, p: nat)
    requires Ascending(manifest) && HistoryMatches(manifest, j) && p < |manifest|
    ensures var v := manifest[p].version;
      IsApplied(j, v) ==> Newest(j.entries, v).value.checksum in ["", manifest[p].checksum]
  {
    hide Newest;
    var v := manifest[p].version;
    HistoryCoversAll(manifest, j, v);
    if IsApplied(j, v) {
      var i :| 0 <= i < |manifest| && manifest[i].version == v && Newest(j.entries, v).value.checksum in ["", manifest[i].checksum];
      PositionsDiffer(manifest, i, p);
    }
  }

  lemma PrefixIsClosed(manifest: seq<Migration>, j: Journal, i: nat, p: nat)
    requires IsPrefix(manifest, j) && i <= p < |manifest| && !IsApplied(j, manifest[i].version)
    ensures !IsApplied(j, manifest[p].version)
  {
    hide IsApplied;
  }

  /** Migration p, once applied, carries the checksum of its file. */
  lemma {:induction false} ChecksumAt(manifest: seq<Migration>, j: Journal, now: Journal, target: Option<Version>,
                                      fails: set<Version>, i: nat, p: nat)
    requires Ascending(manifest) && Timed(now) && i <= p < |manifest| && SameFrom(manifest, j, now, i)
    requires HistoryMatches(manifest, j) && IsPrefix(manifest, j)
    ensures var after := RecordedAll(now, ApplyPlan(manifest, j, target, fails, i).0); var v := manifest[p].version;
      ApplyPlan(manifest, j, target, fails, i).1 == Done && IsApplied(after, v) ==>
        Newest(after.entries, v).value.checksum == manifest[p].checksum
    decreases |manifest| - i
  {
    hide Newest, Timed, Recorded, RecordedAll, SameFrom, HistoryMatches, IsPrefix;
    var m := manifest[i];
    var plan := ApplyPlan(manifest, j, target, fails, i).0;
    var more := ApplyPlan(manifest, j, target, fails, i + 1).0;
    ApplyPlanIsAbout(manifest, j, target, fails, i + 1);
    LaterIsUntouched(manifest, more, i);
    NothingRecorded(now);
    SameThere(manifest, j, now, i, i);
    SameThere(manifest, j, now, i, p);
    ChecksumOfMatch(manifest, j, p);
    assert plan[..|plan|] == plan && more[..|more|] == more;
    if IsApplied(j, m.version) {
      if Newest(j.entries, m.version).value.checksum == "" {
        RecordedFirst(now, plan, |plan|);
        assert plan[1..] == more;
        WriteKeepsOthers(manifest, j, now, i, Applied);
        WriteDecides(now, plan[0], m.version);
        UntouchedStays(Recorded(now, plan[0]), more, m.version);
        if p > i { ChecksumAt(manifest, j, Recorded(now, plan[0]), target, fails, i + 1, p); }
      } else {
        SkipFirst(manifest, j, now, i);
        UntouchedStays(now, more, m.version);
        if p > i { ChecksumAt(manifest, j, now, target, fails, i + 1, p); }
      }
    } else if target.Some? && m.version > target.value {
      PrefixIsClosed(manifest, j, i, p);
    } else if m.version !in fails {
      RecordedFirst(now, plan, |plan|);
      var started, rest := Recorded(now, plan[0]), plan[1..];
      assert rest[..|rest|] == rest;
      RecordedFirst(started, rest, |rest|);
      assert rest[1..] == more;
      TwoWritesKeepOthers(manifest, j, now, i);
      WriteDecides(now, plan[0], m.version);
      WriteDecides(started, rest[0], m.version);
      UntouchedStays(Recorded(started, rest[0]), more, m.version);
      if p > i { ChecksumAt(manifest, j, Recorded(started, rest[0]), target, fails, i + 1, p); }
    }
  }

  /** A finished application leaves the checksum of its file with every applied migration, so that the
      edit is found: whoever changes or removes such a file stops the next application, and it writes
      nothing. */
  lemma EditIsFound(manifest: seq<Migration>, j: Journal, target: Option<Version>, fails: set<Version>, p: nat,
                    edited: seq<Migration>, later: Option<Version>, failing: set<Version>)
    requires Ascending(manifest) && Timed(j) && IsPrefix(manifest, j) && p < |manifest| && manifest[p].checksum != ""
    requires Apply(manifest, j, target, fails).1 == Done
    requires IsApplied(RecordedAll(j, Apply(manifest, j, target, fails).0), manifest[p].version)
    requires forall i :: 0 <= i < |edited| && edited[i].version == manifest[p].version ==> edited[i].checksum != manifest[p].checksum
    ensures Apply(edited, RecordedAll(j, Apply(manifest, j, target, fails).0), later, failing) == ([], HistoryDiffers)
  {
    hide Newest, Timed, RecordedAll, ApplyPlan, HistoryMatches, IsNewestRow;
    var after := RecordedAll(j, Apply(manifest, j, target, fails).0);
    var v := manifest[p].version;
    SameFromStart(manifest, j);
    ChecksumAt(manifest, j, j, target, fails, 0, p);
    var k := NewestIsARow(after.entries, v);
    assert Edited(edited, after.entries);
    MatchesIffNotEdited(edited, after);
  }

  lemma SameFromStart(manifest: seq<Migration>, j: Journal)
    ensures SameFrom(manifest, j, j, 0)
  {
  }
}
