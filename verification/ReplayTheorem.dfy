/** The main theorem about the diff: replaying it on the old document rebuilds the new one. */
module ReplayTheorem {
  import opened Wrappers
  import opened Documents
  import opened DocumentDiff
  import opened DocumentViews
  import opened DocumentReplay

  // ----- A listing, seen from one step down -----

  lemma {:induction false} BelowIsDistinct(changes: seq<Entry>, step: Step)
    requires DistinctPaths(changes)
    ensures DistinctPaths(Below(changes, step))
  {
    hide DistinctPaths;
    if changes != [] {
      var e, rest := changes[0], Below(changes[1..], step);
      DistinctTail(changes);
      BelowIsDistinct(changes[1..], step);
      if e.path != [] && e.path[0] == step {
        FirstIsNotBelow(changes, step);
        DistinctCons(Entry(e.path[1..], e.edit), rest);
        assert Below(changes, step) == [Entry(e.path[1..], e.edit)] + rest;
      } else {
        assert Below(changes, step) == rest;
      }
    }
  }

  lemma DistinctTail(log: seq<Entry>)
    requires DistinctPaths(log) && log != []
    ensures DistinctPaths(log[1..])
  {
  }

  lemma DistinctCons(e: Entry, rest: seq<Entry>)
    requires DistinctPaths(rest) && forall i :: 0 <= i < |rest| ==> rest[i].path != e.path
    ensures DistinctPaths([e] + rest)
  {
  }

  lemma FirstIsNotBelow(changes: seq<Entry>, step: Step)
    requires DistinctPaths(changes) && changes != [] && changes[0].path != [] && changes[0].path[0] == step
    ensures var rest := Below(changes[1..], step);
      forall i :: 0 <= i < |rest| ==> rest[i].path != changes[0].path[1..]
  {
    var rest := Below(changes[1..], step);
    forall i | 0 <= i < |rest| ensures rest[i].path != changes[0].path[1..] {
      InBelow(changes[1..], step, rest[i]);
      var j :| 0 <= j < |changes[1..]| && changes[1..][j] == Entry([step] + rest[i].path, rest[i].edit);
      assert changes[1 + j].path == [step] + rest[i].path;
      assert changes[0].path == [step] + changes[0].path[1..];
    }
  }

  lemma BelowIsAListing(changes: seq<Entry>, was: Value, now: Value, step: Step)
    requires Lists(changes, [], was, now)
    requires ModeOf(was, now) != Same && ModeOf(was, now) != Whole
    ensures var mode := ModeOf(was, now);
      ListsPart(Below(changes, step), [], Part(was, mode, step), Part(now, mode, step))
  {
    var mode := ModeOf(was, now);
    var o, n := Part(was, mode, step), Part(now, mode, step);
    var below := Below(changes, step);
    BelowIsDistinct(changes, step);
    forall e | e in below ensures PartEdit(o, n, e.path) == Some(e.edit) {
      InBelow(changes, step, e);
      var i :| 0 <= i < |changes| && changes[i] == Entry([step] + e.path, e.edit);
      assert Reports(changes[i], [], was, now);
      assert ([step] + e.path)[1..] == e.path && changes[i].path[0..] == [step] + e.path;
    }
    forall q | PartEdit(o, n, q).Some? ensures HasPath(below, q) {
      assert ([step] + q)[1..] == q;
      assert EditAt(was, now, [step] + q).Some?;
      assert HasPath(changes, [] + ([step] + q));
      var i :| 0 <= i < |changes| && changes[i].path == [] + ([step] + q);
      InBelow(changes, step, Entry(q, changes[i].edit));
    }
    PartListed(below, o, n);
  }

  lemma PartListed(log: seq<Entry>, o: Option<Value>, n: Option<Value>)
    requires DistinctPaths(log)
    requires forall e :: e in log ==> PartEdit(o, n, e.path) == Some(e.edit)
    requires forall q :: PartEdit(o, n, q).Some? ==> HasPath(log, q)
    ensures ListsPart(log, [], o, n)
  {
    forall i | 0 <= i < |log| ensures PartEdit(o, n, log[i].path) == Some(log[i].edit) {
      assert log[i] in log;
    }
    if o.Some? && n.Some? {
      forall i | 0 <= i < |log| ensures Reports(log[i], [], o.value, n.value) {
        assert log[i].path[0..] == log[i].path;
      }
      forall q | EditAt(o.value, n.value, q).Some? ensures HasPath(log, [] + q) {
        assert [] + q == q && PartEdit(o, n, q).Some?;
      }
    } else if o.Some? || n.Some? {
      assert PartEdit(o, n, []).Some? && HasPath(log, []);
      if |log| > 1 { FirstTwoDiffer(log); }
    } else if log != [] {
      FirstIsReported(log, o, n);
    }
  }

  lemma FirstIsReported(log: seq<Entry>, o: Option<Value>, n: Option<Value>)
    requires log != [] && forall e :: e in log ==> PartEdit(o, n, e.path) == Some(e.edit)
    ensures PartEdit(o, n, log[0].path).Some?
  {
    assert log[0] in log;
  }

  lemma FirstTwoDiffer(log: seq<Entry>)
    requires DistinctPaths(log) && |log| > 1
    ensures log[0].path != log[1].path
  {
  }

  // ----- Nothing to replay -----

  lemma {:induction false} ReplayNothing(doc: Value)
    ensures Replay(doc, []) == doc
    decreases doc, 1
  {
    match doc
    case Obj(fields) =>
      forall k | k in fields ensures Replay(fields[k], []) == fields[k] { ReplayNothing(fields[k]); }
      assert ReplayFields(doc, []) == fields;
    case Arr(items) =>
      ReplayNoItems(items, 0, None);
    case _ =>
  }

  lemma {:induction false} ReplayNoItems(items: seq<Value>, i: nat, key: Option<string>)
    ensures ReplayItems(items, i, key, []) == items
    decreases items, 0
  {
    if items != [] {
      ReplayNothing(items[0]);
      ReplayNoItems(items[1..], i + 1, key);
    }
  }

  // ----- One part -----

  /** What a part becomes. */
  function PartAfter(part: Option<Value>, below: seq<Entry>): Option<Value> {
    AfterEdit(Here(below), if part.Some? then Some(Replay(part.value, below)) else None)
  }

  ghost predicate Rebuilt(after: Option<Value>, n: Option<Value>) {
    (after.Some? <==> n.Some?) && (after.Some? ==> SameView(after.value, n.value))
  }

  lemma PartRebuilt(changes: seq<Entry>, was: Value, now: Value, step: Step)
    requires Lists(changes, [], was, now)
    requires ModeOf(was, now) != Same && ModeOf(was, now) != Whole
    ensures var mode := ModeOf(was, now);
      Rebuilt(PartAfter(Part(was, mode, step), Below(changes, step)), Part(now, mode, step))
    decreases was, 0
  {
    var mode := ModeOf(was, now);
    var o, n := Part(was, mode, step), Part(now, mode, step);
    var below := Below(changes, step);
    BelowIsAListing(changes, was, now, step);
    if o.Some? && n.Some? {
      ReplayRebuilds(o.value, n.value, below);
      if Here(below).Some? {
        EditHere(o.value, n.value, below);
      }
    }
  }

  lemma EditHere(was: Value, now: Value, changes: seq<Entry>)
    requires Lists(changes, [], was, now) && Here(changes).Some?
    ensures Here(changes) == Some(Change(was, now)) && ModeOf(was, now) == Whole
  {
    var i :| 0 <= i < |changes| && changes[i] == Entry([], Here(changes).value);
    assert Reports(changes[i], [], was, now);
  }

  lemma RecordsAgree(f: map<string, Value>, g: map<string, Value>)
    requires f.Keys == g.Keys && forall k :: k in f ==> SameView(f[k], g[k])
    ensures SameView(Obj(f), Obj(g))
  {
    assert ViewOf(Norm(Obj(f))).parts == ViewOf(Norm(Obj(g))).parts;
  }

  lemma FieldsRebuilt(was: Value, now: Value, changes: seq<Entry>)
    requires Lists(changes, [], was, now) && ModeOf(was, now) == Fields
    ensures SameView(Obj(ReplayFields(was, changes)), now)
    decreases was, 1
  {
    hide Lists, ModeOf, SameView;
    var after := ReplayFields(was, changes);
    forall k ensures Rebuilt(FieldAfter(was, changes, k), Part(now, Fields, Field(k))) {
      PartRebuilt(changes, was, now, Field(k));
    }
    forall k | k in now.fields && k !in was.fields ensures k in FieldHeads(changes) {
      NewFieldIsNamed(was, now, changes, k);
    }
    forall k ensures k in after <==> k in now.fields {
      assert FieldAfter(was, changes, k).Some? <==> Part(now, Fields, Field(k)).Some?;
    }
    forall k | k in after ensures SameView(after[k], now.fields[k]) {
      assert Rebuilt(FieldAfter(was, changes, k), Part(now, Fields, Field(k)));
    }
    RecordsAgree(after, now.fields);
  }

  lemma NewFieldIsNamed(was: Value, now: Value, changes: seq<Entry>, k: string)
    requires Lists(changes, [], was, now) && ModeOf(was, now) == Fields
    requires k in now.fields && k !in was.fields
    ensures k in FieldHeads(changes)
  {
    BelowIsAListing(changes, was, now, Field(k));
    var e := Below(changes, Field(k))[0];
    InBelow(changes, Field(k), e);
    assert Entry([Field(k)] + e.path, e.edit) in changes;
  }

  // ----- Lists compared row by row -----

  ghost predicate RowsLike(r: seq<Value>, items: seq<Value>) {
    |r| == |items| && forall j :: 0 <= j < |r| ==> SameView(r[j], items[j])
  }

  lemma RowsLikeJoin(r: seq<Value>, items: seq<Value>, more: seq<Value>, others: seq<Value>)
    requires RowsLike(r, items) && RowsLike(more, others)
    ensures RowsLike(r + more, items + others)
  {
  }

  lemma RowsLikeThemselves(r: seq<Value>)
    ensures RowsLike(r, r)
  {
  }

  /** The rows from `i` on that the old list has as well. */
  function SharedRows(was: seq<Value>, now: seq<Value>, i: nat): seq<Value> {
    var n := if |was| < |now| then |was| else |now|;
    if i <= n then now[i..n] else []
  }

  lemma {:induction false} RowsRebuilt(was: Value, now: Value, changes: seq<Entry>, i: nat)
    requires Lists(changes, [], was, now) && ModeOf(was, now) == ByIndex && i <= |was.items|
    ensures RowsLike(ReplayItems(was.items[i..], i, None, changes), SharedRows(was.items, now.items, i))
    decreases was, 1, |was.items| - i
  {
    hide Lists, ModeOf, SameView;
    if i < |was.items| {
      var items := was.items[i..];
      assert items[1..] == was.items[i + 1..] && items[0] == was.items[i];
      PartRebuilt(changes, was, now, At(i));
      RowsRebuilt(was, now, changes, i + 1);
      var after := ItemAfter(items, i, None, changes);
      assert after == PartAfter(Part(was, ByIndex, At(i)), Below(changes, At(i)));
      var rest := ReplayItems(items[1..], i + 1, None, changes);
      if i < |now.items| {
        assert SharedRows(was.items, now.items, i) == [now.items[i]] + SharedRows(was.items, now.items, i + 1);
        RowsLikeJoin([after.value], [now.items[i]], rest, SharedRows(was.items, now.items, i + 1));
      }
    }
  }

  lemma {:induction false} NewRowsRebuilt(was: Value, now: Value, changes: seq<Entry>, i: nat)
    requires Lists(changes, [], was, now) && ModeOf(was, now) == ByIndex
    requires |was.items| <= i
    ensures AddedRows(changes, i) == if i <= |now.items| then now.items[i..] else []
    decreases |now.items| - i
  {
    hide Lists, ModeOf, Below, Here, LastIndex, AddedRows;
    NewRow(was, now, changes, i);
    AddedRowsUnfold(changes, i);
    if i < |now.items| {
      NewRowsRebuilt(was, now, changes, i + 1);
      assert now.items[i..] == [now.items[i]] + now.items[i + 1..];
    }
  }

  lemma AddedRowsUnfold(changes: seq<Entry>, i: nat)
    ensures Here(Below(changes, At(i))).None? ==> AddedRows(changes, i) == []
    ensures var edit := Here(Below(changes, At(i)));
      i <= LastIndex(changes) && edit.Some? && edit.value.Add? ==>
        AddedRows(changes, i) == [edit.value.added] + AddedRows(changes, i + 1)
  {
    hide Below, Here, LastIndex;
  }

  lemma NewRow(was: Value, now: Value, changes: seq<Entry>, i: nat)
    requires Lists(changes, [], was, now) && ModeOf(was, now) == ByIndex
    requires |was.items| <= i
    ensures Here(Below(changes, At(i))) == if i < |now.items| then Some(Add(now.items[i])) else None
    ensures i < |now.items| ==> i <= LastIndex(changes)
  {
    hide Lists, ModeOf;
    BelowIsAListing(changes, was, now, At(i));
    var below := Below(changes, At(i));
    if i < |now.items| {
      assert below == [Entry([], Add(now.items[i]))];
      InBelow(changes, At(i), below[0]);
      assert Entry([At(i)] + [], Add(now.items[i])) in changes;
    } else {
      assert below == [];
    }
  }

  lemma ListRebuiltByIndex(was: Value, now: Value, changes: seq<Entry>)
    requires Lists(changes, [], was, now) && ModeOf(was, now) == ByIndex
    ensures SameView(Replay(was, changes), now)
    decreases was, 2
  {
    hide Lists, ModeOf, SameView, Below, AddedRows, ReplayItems;
    forall e | e in changes ensures e.path != [] && e.path[0].At? {
      StepsOfChanges(was, now, changes, e);
    }
    assert ListKey(changes).None? && Here(changes).None?;
    RowsRebuilt(was, now, changes, 0);
    assert was.items[0..] == was.items;
    NewRowsRebuilt(was, now, changes, |was.items|);
    var shared, extra := SharedRows(was.items, now.items, 0), AddedRows(changes, |was.items|);
    assert now.items == shared + extra;
    RowsLikeThemselves(extra);
    RowsLikeJoin(ReplayItems(was.items, 0, None, changes), shared, extra, extra);
    AllObjectsBoth(was.items, now.items);
    NormedRowsAgree(ReplayItems(was.items, 0, None, changes) + extra, now.items);
  }

  lemma StepsOfChanges(was: Value, now: Value, changes: seq<Entry>, e: Entry)
    requires Lists(changes, [], was, now) && e in changes
    ensures EditAt(was, now, e.path) == Some(e.edit)
    ensures var mode := ModeOf(was, now);
      mode != Whole ==> e.path != [] && (Part(was, mode, e.path[0]).Some? || Part(now, mode, e.path[0]).Some?)
  {
    var i :| 0 <= i < |changes| && changes[i] == e;
    assert Reports(changes[i], [], was, now);
    assert e.path[0..] == e.path;
  }

  lemma AChangeIsReported(was: Value, now: Value, changes: seq<Entry>)
    requires Lists(changes, [], was, now) && changes != []
    ensures EditAt(was, now, changes[0].path).Some?
  {
    assert changes[0] in changes;
    StepsOfChanges(was, now, changes, changes[0]);
  }

  lemma NormedRowsAgree(a: seq<Value>, b: seq<Value>)
    requires RowsLike(a, b) && AllObjects(b)
    ensures SameView(Arr(a), Arr(b))
  {
    var na, nb := NormAll(a), NormAll(b);
    forall j | 0 <= j < |a| ensures na[j].Obj? && nb[j].Obj? {
      assert b[j].Obj? && SameView(a[j], b[j]);
    }
    RowsAgree(na, nb);
  }

  // ----- Lists compared by identity -----

  ghost predicate Distinct(ids: seq<Value>) {
    forall i, j :: 0 <= i < j < |ids| ==> ids[i] != ids[j]
  }

  /** Every item of `r` looks like the item of `items` with the identity noted for it. */
  ghost predicate Tagged(r: seq<Value>, ids: seq<Value>, items: seq<Value>, key: string) {
    && KeyedBy(items, key) && |r| == |ids| && Distinct(ids)
    && (forall j :: 0 <= j < |r| ==> ids[j] in Identities(items, key))
    && (forall j :: 0 <= j < |r| ==> SameView(r[j], ItemWith(items, key, ids[j])))
  }

  lemma TaggedOne(x: Value, id: Value, items: seq<Value>, key: string)
    requires KeyedBy(items, key) && id in Identities(items, key) && SameView(x, ItemWith(items, key, id))
    ensures Tagged([x], [id], items, key)
  {
  }

  lemma TaggedJoin(r: seq<Value>, ids: seq<Value>, more: seq<Value>, others: seq<Value>,
                   items: seq<Value>, key: string)
    requires Tagged(r, ids, items, key) && Tagged(more, others, items, key)
    requires forall id :: id in ids ==> id !in others
    ensures Tagged(r + more, ids + others, items, key)
  {
    DistinctJoined(ids, others);
    forall j | 0 <= j < |r + more|
      ensures (ids + others)[j] in Identities(items, key)
      ensures SameView((r + more)[j], ItemWith(items, key, (ids + others)[j]))
    {
      if j >= |r| { assert (r + more)[j] == more[j - |r|]; }
    }
  }

  lemma DistinctJoined(a: seq<Value>, b: seq<Value>)
    requires Distinct(a) && Distinct(b) && forall id :: id in a ==> id !in b
    ensures Distinct(a + b)
  {
    forall i, j | 0 <= i < |a| && 0 <= j < |b| ensures a[i] != b[j] {
      assert a[i] in a && b[j] in b;
    }
  }

  /** The identity at position `i` or later. */
  ghost predicate IdentityFrom(items: seq<Value>, key: string, i: nat, id: Value)
    requires KeyedBy(items, key)
  {
    exists j :: i <= j < |items| && items[j].fields[key] == id
  }

  lemma KeptItem(was: Value, now: Value, key: string, changes: seq<Entry>, i: nat)
    requires Lists(changes, [], was, now) && ModeOf(was, now) == ByIdentity(key) && i < |was.items|
    ensures var after, id := ItemAfter(was.items[i..], i, Some(key), changes), was.items[i].fields[key];
      && (after.Some? <==> id in Identities(now.items, key))
      && (after.Some? ==> SameView(after.value, ItemWith(now.items, key, id)))
    decreases was, 1, 0
  {
    hide Lists, ModeOf, SameView;
    var id := was.items[i].fields[key];
    ItemAtIdentity(was.items, key, i);
    PartRebuilt(changes, was, now, Ident(key, id));
    assert ItemAfter(was.items[i..], i, Some(key), changes) ==
      PartAfter(Part(was, ByIdentity(key), Ident(key, id)), Below(changes, Ident(key, id)));
  }

  lemma {:induction false} KeptItems(was: Value, now: Value, key: string, changes: seq<Entry>, i: nat)
    returns (ids: seq<Value>)
    requires Lists(changes, [], was, now) && ModeOf(was, now) == ByIdentity(key) && i <= |was.items|
    ensures Tagged(ReplayItems(was.items[i..], i, Some(key), changes), ids, now.items, key)
    ensures forall id :: id in ids <==> id in Identities(now.items, key) && IdentityFrom(was.items, key, i, id)
    decreases was, 1, |was.items| - i
  {
    hide Lists, ModeOf, SameView, ItemAfter;
    if i == |was.items| {
      ids := [];
    } else {
      var items, id := was.items[i..], was.items[i].fields[key];
      assert items[1..] == was.items[i + 1..] && items[0] == was.items[i];
      ids := KeptItems(was, now, key, changes, i + 1);
      KeptItem(was, now, key, changes, i);
      var after := ItemAfter(items, i, Some(key), changes);
      var rest := ReplayItems(items[1..], i + 1, Some(key), changes);
      assert ReplayItems(items, i, Some(key), changes) == (if after.Some? then [after.value] else []) + rest;
      IdentityFromNext(was.items, key, i);
      if id in Identities(now.items, key) {
        TaggedOne(after.value, id, now.items, key);
        TaggedJoin([after.value], [id], rest, ids, now.items, key);
        ids := [id] + ids;
      } else {
        assert ReplayItems(items, i, Some(key), changes) == rest;
      }
    }
  }

  lemma IdentityFromNext(items: seq<Value>, key: string, i: nat)
    requires KeyedBy(items, key) && i < |items|
    ensures forall id :: IdentityFrom(items, key, i, id) <==>
      id == items[i].fields[key] || IdentityFrom(items, key, i + 1, id)
    ensures !IdentityFrom(items, key, i + 1, items[i].fields[key])
  {
    if IdentityFrom(items, key, i + 1, items[i].fields[key]) {
      var j :| i + 1 <= j < |items| && items[j].fields[key] == items[i].fields[key];
      KeyedItemsDiffer(items, key, i, j);
    }
  }

  ghost predicate AddsItem(e: Entry, key: string, id: Value) {
    e.path == [Ident(key, id)] && e.edit.Add?
  }

  lemma AddedItemIsNew(was: Value, now: Value, key: string, step: Step, added: Value)
    requires ModeOf(was, now) == ByIdentity(key) && EditAt(was, now, [step]) == Some(Add(added))
    ensures step.Ident? && step.key == key
    ensures step.id in Identities(now.items, key) && step.id !in Identities(was.items, key)
    ensures added == ItemWith(now.items, key, step.id)
  {
    hide ModeOf, KeyedBy, Identities, ItemWith;
    var mode := ByIdentity(key);
    var o, n := Part(was, mode, step), Part(now, mode, step);
    assert [step][1..] == [];
    assert PartEdit(o, n, []) == Some(Add(added));
    assert o.None? && n == Some(added);
  }

  lemma AddedOnce(changes: seq<Entry>, key: string, id: Value)
    requires changes != [] && DistinctPaths(changes) && changes[0].path == [Ident(key, id)]
    ensures forall other :: other in changes[1..] ==> !AddsItem(other, key, id)
  {
    forall other | other in changes[1..] ensures !AddsItem(other, key, id) {
      var i :| 0 <= i < |changes[1..]| && changes[1..][i] == other;
      assert changes[1 + i].path != changes[0].path;
    }
  }

  lemma TaggedNone(items: seq<Value>, key: string)
    requires KeyedBy(items, key)
    ensures Tagged([], [], items, key)
  {
  }

  lemma {:induction false} NewItems(was: Value, now: Value, key: string, changes: seq<Entry>)
    returns (ids: seq<Value>)
    requires ModeOf(was, now) == ByIdentity(key) && DistinctPaths(changes)
    requires forall e :: e in changes ==> EditAt(was, now, e.path) == Some(e.edit)
    ensures Tagged(AddedItems(changes), ids, now.items, key)
    ensures forall id :: id in ids <==> exists e :: e in changes && AddsItem(e, key, id)
    ensures forall id :: id in ids ==> id !in Identities(was.items, key)
  {
    hide ModeOf, EditAt, Tagged, Identities, KeyedBy;
    if changes == [] {
      ids := [];
      TaggedNone(now.items, key);
    } else {
      var e := changes[0];
      ids := NewItems(was, now, key, changes[1..]);
      assert forall other :: other in changes <==> other == e || other in changes[1..];
      if |e.path| == 1 && e.path[0].Ident? && e.edit.Add? {
        var id := e.path[0].id;
        assert e.path == [e.path[0]];
        AddedItemIsNew(was, now, key, e.path[0], e.edit.added);
        assert AddsItem(e, key, id);
        AddedOnce(changes, key, id);
        TaggedOne(e.edit.added, id, now.items, key);
        TaggedJoin([e.edit.added], [id], AddedItems(changes[1..]), ids, now.items, key);
        ids := [id] + ids;
      } else {
        assert AddedItems(changes) == AddedItems(changes[1..]);
      }
    }
  }

  lemma ListedNewItems(was: Value, now: Value, key: string, changes: seq<Entry>) returns (ids: seq<Value>)
    requires Lists(changes, [], was, now) && ModeOf(was, now) == ByIdentity(key)
    ensures Tagged(AddedItems(changes), ids, now.items, key)
    ensures forall id :: id in ids <==> id in Identities(now.items, key) && id !in Identities(was.items, key)
  {
    forall e | e in changes ensures EditAt(was, now, e.path) == Some(e.edit) {
      StepsOfChanges(was, now, changes, e);
    }
    ids := NewItems(was, now, key, changes);
    forall id | id in Identities(now.items, key) && id !in Identities(was.items, key) ensures id in ids {
      NewItemIsAdded(was, now, key, changes, id);
    }
  }

  lemma TaggedAreObjects(r: seq<Value>, ids: seq<Value>, items: seq<Value>, key: string)
    requires Tagged(r, ids, items, key)
    ensures AllObjects(NormAll(r))
  {
    forall j | 0 <= j < |r| ensures NormAll(r)[j].Obj? {
      assert SameView(r[j], ItemWith(items, key, ids[j]));
    }
  }

  lemma TaggedListsAgree(r: seq<Value>, ids: seq<Value>, items: seq<Value>, key: string)
    requires Tagged(r, ids, items, key) && key in IDENTITY_KEYS && items != []
    requires forall id :: id in Identities(items, key) ==> id in ids
    ensures SameView(Arr(r), Arr(items))
  {
    var a, b := NormAll(items), NormAll(r);
    NormKeepsKey(items, key);
    TaggedAreObjects(r, ids, items, key);
    hide ViewOf, Tagged, KeyedBy, Identities, Matches;
    var f := FromTags(r, ids, items, key);
    var g := ToTags(r, ids, items, key);
    assert IdentityKey(a).Some?;
    MatchedTablesAgree(a, b, f, g);
  }

  lemma NormKeepsKey(items: seq<Value>, key: string)
    requires KeyedBy(items, key)
    ensures KeyedBy(NormAll(items), key)
    ensures forall j :: 0 <= j < |items| ==> NormAll(items)[j].fields[key] == items[j].fields[key]
  {
    var a := NormAll(items);
    forall j | 0 <= j < |items|
      ensures a[j].Obj? && key in a[j].fields && a[j].fields[key] == items[j].fields[key]
    {
      assert a[j] == Norm(items[j]) && items[j].Obj?;
      assert a[j].fields[key] == Norm(items[j].fields[key]);
    }
    assert ValuesAt(a, key) == ValuesAt(items, key);
  }

  lemma FromTags(r: seq<Value>, ids: seq<Value>, items: seq<Value>, key: string) returns (f: seq<nat>)
    requires Tagged(r, ids, items, key) && AllObjects(NormAll(items)) && AllObjects(NormAll(r))
    ensures Matches(NormAll(items), NormAll(r), f)
  {
    f := [];
    while |f| < |r|
      invariant |f| <= |r|
      invariant forall j :: 0 <= j < |f| ==> f[j] < |items| && items[f[j]].fields[key] == ids[j]
      invariant forall j :: 0 <= j < |f| ==> SameView(items[f[j]], r[j])
    {
      var p := PositionOf(items, key, ids[|f|]);
      assert items[p] == ItemWith(items, key, ids[|f|]);
      f := f + [p];
    }
  }

  lemma ToTags(r: seq<Value>, ids: seq<Value>, items: seq<Value>, key: string) returns (g: seq<nat>)
    requires Tagged(r, ids, items, key) && AllObjects(NormAll(items)) && AllObjects(NormAll(r))
    requires forall id :: id in Identities(items, key) ==> id in ids
    ensures Matches(NormAll(r), NormAll(items), g)
  {
    g := [];
    while |g| < |items|
      invariant |g| <= |items|
      invariant forall j :: 0 <= j < |g| ==> TagFits(r, ids, items, key, g[j], j)
    {
      g := g + [TagOf(r, ids, items, key, |g|)];
    }
    forall j | 0 <= j < |items| ensures g[j] < |r| && SameView(r[g[j]], items[j]) {
      assert TagFits(r, ids, items, key, g[j], j);
      ItemAtIdentity(items, key, j);
    }
    TagsDiffer(r, ids, items, key, g);
  }

  lemma TagsDiffer(r: seq<Value>, ids: seq<Value>, items: seq<Value>, key: string, g: seq<nat>)
    requires KeyedBy(items, key) && |g| == |items|
    requires forall j :: 0 <= j < |items| ==> TagFits(r, ids, items, key, g[j], j)
    ensures forall i, j :: 0 <= i < j < |items| ==> g[i] != g[j]
  {
    hide KeyedBy;
    forall i, j | 0 <= i < j < |items| ensures g[i] != g[j] {
      assert TagFits(r, ids, items, key, g[i], i) && TagFits(r, ids, items, key, g[j], j);
      KeyedItemsDiffer(items, key, i, j);
    }
  }

  ghost predicate TagFits(r: seq<Value>, ids: seq<Value>, items: seq<Value>, key: string, p: nat, j: nat) {
    KeyedBy(items, key) && p < |r| && p < |ids| && j < |items| && ids[p] == items[j].fields[key]
  }

  ghost function TagOf(r: seq<Value>, ids: seq<Value>, items: seq<Value>, key: string, j: nat): (p: nat)
    requires KeyedBy(items, key) && j < |items| && |r| == |ids|
    requires forall id :: id in Identities(items, key) ==> id in ids
    ensures TagFits(r, ids, items, key, p, j)
  {
    ItemAtIdentity(items, key, j);
    FirstIndex(ids, items[j].fields[key])
  }

  lemma ListRebuiltByIdentity(was: Value, now: Value, key: string, changes: seq<Entry>)
    requires Lists(changes, [], was, now) && ModeOf(was, now) == ByIdentity(key)
    ensures SameView(Replay(was, changes), now)
    decreases was, 2
  {
    hide Lists, ModeOf, SameView;
    var kept, added := ReplayItems(was.items, 0, Some(key), changes), AddedItems(changes);
    var keptIds := KeptItems(was, now, key, changes, 0);
    assert was.items[0..] == was.items;
    var addedIds := ListedNewItems(was, now, key, changes);
    ReplayOfKeyedList(was, now, key, changes);
    forall id ensures IdentityFrom(was.items, key, 0, id) <==> id in Identities(was.items, key) {
      AnyIdentityFrom(was.items, key, id);
    }
    TaggedJoin(kept, keptIds, added, addedIds, now.items, key);
    TaggedListsAgree(kept + added, keptIds + addedIds, now.items, key);
  }

  lemma AnyIdentityFrom(items: seq<Value>, key: string, id: Value)
    requires KeyedBy(items, key)
    ensures IdentityFrom(items, key, 0, id) <==> id in Identities(items, key)
  {
    if IdentityFrom(items, key, 0, id) {
      var j :| 0 <= j < |items| && items[j].fields[key] == id;
      assert ValuesAt(items, key)[j] == id;
    }
  }

  lemma ReplayOfKeyedList(was: Value, now: Value, key: string, changes: seq<Entry>)
    requires Lists(changes, [], was, now) && ModeOf(was, now) == ByIdentity(key)
    ensures Replay(was, changes) == Arr(ReplayItems(was.items, 0, Some(key), changes) + AddedItems(changes))
  {
    forall e | e in changes ensures e.path != [] && e.path[0].Ident? && e.path[0].key == key {
      StepsOfChanges(was, now, changes, e);
    }
    assert Here(changes).None?;
    if changes == [] {
      ReplayNothing(was);
      ReplayNoItems(was.items, 0, Some(key));
    } else {
      assert changes[0] in changes;
      assert ListKey(changes) == Some(key);
    }
  }

  lemma NewItemIsAdded(was: Value, now: Value, key: string, changes: seq<Entry>, id: Value)
    requires Lists(changes, [], was, now) && ModeOf(was, now) == ByIdentity(key)
    requires id in Identities(now.items, key) && id !in Identities(was.items, key)
    ensures exists e :: e in changes && AddsItem(e, key, id)
  {
    BelowIsAListing(changes, was, now, Ident(key, id));
    var e := Below(changes, Ident(key, id))[0];
    InBelow(changes, Ident(key, id), e);
    var whole := Entry([Ident(key, id)] + e.path, e.edit);
    assert whole in changes && AddsItem(whole, key, id);
  }

  // ----- The theorem -----

  /** For all documents, and whatever the order in which the changes are listed, replaying the
      diff on the old document gives the new one up to the order of identity-keyed lists. */
  lemma {:induction false} ReplayRebuilds(was: Value, now: Value, changes: seq<Entry>)
    requires Lists(changes, [], was, now)
    ensures SameView(Replay(was, changes), now)
    decreases was, 3
  {
    match ModeOf(was, now)
    case Same =>
      if changes != [] { AChangeIsReported(was, now, changes); }
      ReplayNothing(was);
    case Whole =>
      assert EditAt(was, now, []).Some? && HasPath(changes, [] + []);
      assert Here(changes).Some?;
      EditHere(was, now, changes);
    case Fields =>
      if Here(changes).Some? { EditHere(was, now, changes); }
      FieldsRebuilt(was, now, changes);
    case ByIdentity(key) =>
      ListRebuiltByIdentity(was, now, key, changes);
    case ByIndex =>
      ListRebuiltByIndex(was, now, changes);
  }
}
