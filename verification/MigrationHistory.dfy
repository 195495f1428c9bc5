/** When the journal and the files disagree, told of the journal rows and the files alone. */
module MigrationHistory {
  import opened Wrappers
  import opened Migrations

  // ----- The newest row of a version -----

  /** No row of the same version has a later stamp, or the same stamp further down. */
  predicate IsNewestRow(entries: seq<Entry>, k: nat)
    requires k < |entries|
  {
    forall l :: 0 <= l < |entries| && entries[l].version == entries[k].version ==>
      entries[l].stamp < entries[k].stamp || (entries[l].stamp == entries[k].stamp && l <= k)
  }

  lemma {:induction false} NewestIsARow(entries: seq<Entry>, v: Version) returns (k: nat)
    requires Newest(entries, v).Some?
    ensures k < |entries| && entries[k].version == v && IsNewestRow(entries, k) && Newest(entries, v) == Some(entries[k])
  {
    var n := |entries| - 1;
    var before := entries[..n];
    if Newest(before, v).Some? {
      k := NewestIsARow(before, v);
      assert forall l :: 0 <= l < n ==> before[l] == entries[l];
      if entries[n].version == v && entries[k].stamp <= entries[n].stamp { k := n; }
    } else {
      k := n;
      NoneNewest(before, v);
      assert forall l :: 0 <= l < n ==> before[l] == entries[l];
    }
  }

  lemma {:induction false} NoneNewest(entries: seq<Entry>, v: Version)
    ensures Newest(entries, v).None? <==> forall l :: 0 <= l < |entries| ==> entries[l].version != v
  {
    if entries != [] {
      var n := |entries| - 1;
      NoneNewest(entries[..n], v);
      assert forall l :: 0 <= l < n ==> entries[..n][l] == entries[l];
    }
  }

  /** A newest row is the newest entry of its version. */
  lemma RowIsNewest(entries: seq<Entry>, k: nat)
    requires k < |entries| && IsNewestRow(entries, k)
    ensures Newest(entries, entries[k].version) == Some(entries[k])
  {
    NoneNewest(entries, entries[k].version);
    var l := NewestIsARow(entries, entries[k].version);
    assert entries[l].stamp == entries[k].stamp && l == k;
  }

  // ----- Edited history -----

  /** No file has the version of the row, or its file has another checksum than the row, which has one. */
  predicate Unfit(manifest: seq<Migration>, e: Entry) {
    forall i :: 0 <= i < |manifest| && manifest[i].version == e.version ==>
      e.checksum != "" && manifest[i].checksum != e.checksum
  }

  /** Some version's newest row says it is applied, and its file is gone or changed. */
  predicate Edited(manifest: seq<Migration>, entries: seq<Entry>) {
    exists k :: 0 <= k < |entries| && IsNewestRow(entries, k) && entries[k].status == Applied && Unfit(manifest, entries[k])
  }

  lemma FitIsMatch(manifest: seq<Migration>, j: Journal, v: Version)
    ensures EntryMatches(manifest, j, v) <==> !(IsApplied(j, v) && Unfit(manifest, Newest(j.entries, v).value))
  {
    hide Newest;
    if IsApplied(j, v) {
      var e := Newest(j.entries, v).value;
      VersionOfNewest(j.entries, v);
      assert !Unfit(manifest, e) <==>
        exists i :: 0 <= i < |manifest| && manifest[i].version == v && e.checksum in ["", manifest[i].checksum];
    }
  }

  lemma VersionOfNewest(entries: seq<Entry>, v: Version)
    ensures Newest(entries, v).Some? ==> Newest(entries, v).value.version == v
  {
    if Newest(entries, v).Some? { var k := NewestIsARow(entries, v); }
  }

  lemma MatchesIffNotEdited(manifest: seq<Migration>, j: Journal)
    ensures HistoryMatches(manifest, j) <==> !Edited(manifest, j.entries)
  {
    hide Newest, EntryMatches, IsNewestRow, Unfit;
    if Edited(manifest, j.entries) {
      var k :| 0 <= k < |j.entries| && IsNewestRow(j.entries, k) && j.entries[k].status == Applied && Unfit(manifest, j.entries[k]);
      RowIsNewest(j.entries, k);
      FitIsMatch(manifest, j, j.entries[k].version);
    }
    if !HistoryMatches(manifest, j) {
      var k :| 0 <= k < |j.entries| && !EntryMatches(manifest, j, j.entries[k].version);
      var v := j.entries[k].version;
      FitIsMatch(manifest, j, v);
      var l := NewestIsARow(j.entries, v);
    }
  }

  // ----- Runs that stop before they begin -----

  lemma {:induction false} PlanDoesNotStop(manifest: seq<Migration>, j: Journal, target: Option<Version>, fails: set<Version>, i: nat)
    requires i <= |manifest|
    ensures ApplyPlan(manifest, j, target, fails, i).1 in {Done, SqlFailed}
    decreases |manifest| - i
  {
    hide IsApplied;
    if i < |manifest| { PlanDoesNotStop(manifest, j, target, fails, i + 1); }
  }

  lemma {:induction false} RollbackDoesNotStop(manifest: seq<Migration>, j: Journal, target: Version, fails: set<Version>, n: nat)
    requires n <= |manifest|
    ensures RollbackPlan(manifest, j, target, fails, n).1 in {Done, SqlFailed}
  {
    hide Reverts;
    if n > 0 { RollbackDoesNotStop(manifest, j, target, fails, n - 1); }
  }

  /** An application stops over its history, and then writes nothing, exactly when some version's newest
      row is applied and its file is gone or has another checksum. */
  lemma ApplyStopsIff(manifest: seq<Migration>, j: Journal, target: Option<Version>, fails: set<Version>)
    ensures Apply(manifest, j, target, fails).1 == HistoryDiffers <==> Edited(manifest, j.entries)
    ensures Edited(manifest, j.entries) ==> Apply(manifest, j, target, fails).0 == []
  {
    hide ApplyPlan, HistoryMatches, Edited;
    MatchesIffNotEdited(manifest, j);
    PlanDoesNotStop(manifest, j, target, fails, 0);
  }

  /** So does a rollback that has a target and is not refused. */
  lemma RollbackStopsIff(manifest: seq<Migration>, j: Journal, target: Version, fails: set<Version>)
    ensures Rollback(manifest, j, Some(target), false, fails).1 == HistoryDiffers <==> Edited(manifest, j.entries)
    ensures Edited(manifest, j.entries) ==> Rollback(manifest, j, Some(target), false, fails).0 == []
  {
    hide RollbackPlan, HistoryMatches, Edited, Reverts;
    MatchesIffNotEdited(manifest, j);
    RollbackDoesNotStop(manifest, j, target, fails, |manifest|);
  }
}
