/** The recursive diff that appends its findings to one shared list. */
module DocumentDiff {
  import opened Wrappers
  import opened Documents
  import opened PrintedPaths

  datatype Entry = Entry(path: Path, edit: Edit)

  class ChangeLog {
    var entries: seq<Entry>

    constructor ()
      ensures entries == []
    {
      entries := [];
    }
  }

  ghost predicate DistinctPaths(log: seq<Entry>) {
    forall i, j :: 0 <= i < j < |log| ==> log[i].path != log[j].path
  }

  ghost predicate HasPath(log: seq<Entry>, path: Path) {
    exists i :: 0 <= i < |log| && log[i].path == path
  }

  /** `e` is an edit of the pair (was, now), written down below `base`. */
  ghost predicate Reports(e: Entry, base: Path, was: Value, now: Value) {
    base <= e.path && EditAt(was, now, e.path[|base|..]) == Some(e.edit)
  }

  /** `log` holds every edit of the pair once, in some order, with `base` in front of each path. */
  ghost predicate Lists(log: seq<Entry>, base: Path, was: Value, now: Value) {
    && (forall i :: 0 <= i < |log| ==> Reports(log[i], base, was, now))
    && DistinctPaths(log)
    && (forall q :: EditAt(was, now, q).Some? ==> HasPath(log, base + q))
  }

  ghost predicate StepIn(e: Entry, base: Path, steps: set<Step>) {
    |base| < |e.path| && e.path[|base|] in steps
  }

  /** As `Lists`, for the edits whose path starts with one of `steps`. */
  ghost predicate ListsUnder(log: seq<Entry>, base: Path, was: Value, now: Value, steps: set<Step>) {
    && (forall i :: 0 <= i < |log| ==> Reports(log[i], base, was, now))
    && (forall i :: 0 <= i < |log| ==> StepIn(log[i], base, steps))
    && DistinctPaths(log)
    && (forall q :: EditAt(was, now, q).Some? && q != [] && q[0] in steps ==> HasPath(log, base + q))
  }

  /** What the log of one step must hold. */
  ghost predicate ListsPart(log: seq<Entry>, base: Path, was: Option<Value>, now: Option<Value>) {
    if was.Some? && now.Some? then Lists(log, base, was.value, now.value)
    else if now.Some? then log == [Entry(base, Add(now.value))]
    else if was.Some? then log == [Entry(base, Remove(was.value))]
    else log == []
  }

  lemma PartReports(base: Path, was: Value, now: Value, step: Step, e: Entry)
    requires var mode := ModeOf(was, now);
      mode != Same && mode != Whole && Part(was, mode, step).Some? && Part(now, mode, step).Some? &&
      Reports(e, base + [step], Part(was, mode, step).value, Part(now, mode, step).value)
    ensures Reports(e, base, was, now) && StepIn(e, base, {step})
  {
    var q := e.path[|base|..];
    assert e.path == base + [step] + e.path[|base| + 1..];
    assert q[0] == step && q[1..] == e.path[|base| + 1..];
  }

  /** The log of one part, read as a log of the whole. */
  lemma PartListing(part: seq<Entry>, base: Path, was: Value, now: Value, step: Step)
    requires var mode := ModeOf(was, now); mode != Same && mode != Whole
    requires var mode := ModeOf(was, now);
      ListsPart(part, base + [step], Part(was, mode, step), Part(now, mode, step))
    ensures ListsUnder(part, base, was, now, {step})
  {
    var mode := ModeOf(was, now);
    var o, n := Part(was, mode, step), Part(now, mode, step);
    forall i | 0 <= i < |part| ensures Reports(part[i], base, was, now) && StepIn(part[i], base, {step}) {
      if o.Some? && n.Some? {
        PartReports(base, was, now, step, part[i]);
      } else {
        assert part[i].path[|base|..] == [step];
      }
    }
    forall q | EditAt(was, now, q).Some? && q != [] && q[0] in {step} ensures HasPath(part, base + q) {
      assert base + q == base + [step] + q[1..];
      assert EditAt(was, now, q) == PartEdit(o, n, q[1..]);
      if !(o.Some? && n.Some?) {
        assert part[0].path == base + q;
      }
    }
  }

  lemma JoinListings(log: seq<Entry>, part: seq<Entry>, base: Path, was: Value, now: Value,
                     steps: set<Step>, more: set<Step>)
    requires ListsUnder(log, base, was, now, steps) && ListsUnder(part, base, was, now, more)
    requires steps !! more
    ensures ListsUnder(log + part, base, was, now, steps + more)
  {
    var both := log + part;
    forall i, j | 0 <= i < |log| && 0 <= j < |part| ensures log[i].path != part[j].path {
      assert StepIn(log[i], base, steps) && StepIn(part[j], base, more);
    }
    DistinctJoin(log, part);
    forall i | 0 <= i < |both| ensures Reports(both[i], base, was, now) && StepIn(both[i], base, steps + more) {
      if i < |log| {
        assert Reports(log[i], base, was, now) && StepIn(log[i], base, steps);
      } else {
        assert Reports(part[i - |log|], base, was, now) && StepIn(part[i - |log|], base, more);
      }
    }
    forall q | EditAt(was, now, q).Some? && q != [] && q[0] in steps + more
      ensures HasPath(both, base + q)
    {
      PathInEither(log, part, base + q);
      assert q[0] in steps || q[0] in more;
    }
  }

  lemma PathInEither(a: seq<Entry>, b: seq<Entry>, path: Path)
    ensures HasPath(a + b, path) <==> HasPath(a, path) || HasPath(b, path)
  {
    if HasPath(a, path) {
      var i :| 0 <= i < |a| && a[i].path == path;
      assert (a + b)[i].path == path;
    }
    if HasPath(b, path) {
      var i :| 0 <= i < |b| && b[i].path == path;
      assert (a + b)[|a| + i].path == path;
    }
  }

  lemma DistinctJoin(a: seq<Entry>, b: seq<Entry>)
    requires DistinctPaths(a) && DistinctPaths(b)
    requires forall i, j :: 0 <= i < |a| && 0 <= j < |b| ==> a[i].path != b[j].path
    ensures DistinctPaths(a + b)
  {
  }

  lemma ExtendListing(log: seq<Entry>, part: seq<Entry>, base: Path, was: Value, now: Value,
                      steps: set<Step>, step: Step)
    requires var mode := ModeOf(was, now); mode != Same && mode != Whole
    requires ListsUnder(log, base, was, now, steps) && step !in steps
    requires var mode := ModeOf(was, now);
      ListsPart(part, base + [step], Part(was, mode, step), Part(now, mode, step))
    ensures ListsUnder(log + part, base, was, now, steps + {step})
  {
    PartListing(part, base, was, now, step);
    JoinListings(log, part, base, was, now, steps, {step});
  }

  lemma NothingListed(base: Path, was: Value, now: Value)
    ensures ListsUnder([], base, was, now, {})
  {
  }

  /** Once every step with a part on either side is done, the listing is complete. */
  lemma CompleteListing(log: seq<Entry>, base: Path, was: Value, now: Value, steps: set<Step>)
    requires var mode := ModeOf(was, now); mode != Same && mode != Whole
    requires ListsUnder(log, base, was, now, steps)
    requires var mode := ModeOf(was, now);
      forall s :: Part(was, mode, s).Some? || Part(now, mode, s).Some? ==> s in steps
    ensures Lists(log, base, was, now)
  {
  }

  method Diff(was: Value, now: Value, path: Path, out: ChangeLog)
    modifies out
    ensures old(out.entries) <= out.entries
    ensures Lists(out.entries[|old(out.entries)|..], path, was, now)
    decreases was, 2
  {
    if LooselyEqual(was, now) {
      return;
    }
    if was.Obj? && now.Obj? {
      DiffFields(was, now, path, out);
      return;
    }
    if was.Arr? && now.Arr? {
      var identity := if was.items != [] then IdentityKey(was.items) else None;
      if identity.Some? && IdentityKey(now.items) == identity {
        DiffByIdentity(was, now, identity.value, path, out);
        return;
      }
      if AllObjects(was.items + now.items) {
        DiffByIndex(was, now, path, out);
        return;
      }
    }
    out.entries := out.entries + [Entry(path, Change(was, now))];
    WholeListing(path, was, now);
    assert out.entries[|old(out.entries)|..] == [Entry(path, Change(was, now))];
  }

  lemma WholeListing(path: Path, was: Value, now: Value)
    requires ModeOf(was, now) == Whole
    ensures Lists([Entry(path, Change(was, now))], path, was, now)
  {
    var log := [Entry(path, Change(was, now))];
    assert log[0].path[|path|..] == [];
    forall q | EditAt(was, now, q).Some? ensures HasPath(log, path + q) {
      assert q == [] && log[0].path == path + q;
    }
  }

  method DiffFields(was: Value, now: Value, path: Path, out: ChangeLog)
    requires ModeOf(was, now) == Fields
    modifies out
    ensures old(out.entries) <= out.entries
    ensures Lists(out.entries[|old(out.entries)|..], path, was, now)
    decreases was, 1
  {
    ghost var start := |out.entries|;
    ghost var steps: set<Step> := {};
    var todo := was.fields.Keys + now.fields.Keys;
    // The keys are visited in no particular order; the sorted order is one of them.
    while todo != {}
      invariant old(out.entries) <= out.entries
      invariant forall k :: k in todo ==> Field(k) !in steps
      invariant forall k :: k in was.fields || k in now.fields ==> k in todo || Field(k) in steps
      invariant ListsUnder(out.entries[start..], path, was, now, steps)
    {
      var key :| key in todo;
      ghost var before := out.entries;
      var child := path + [Field(key)];
      if key !in was.fields {
        out.entries := out.entries + [Entry(child, Add(now.fields[key]))];
      } else if key !in now.fields {
        out.entries := out.entries + [Entry(child, Remove(was.fields[key]))];
      } else {
        Diff(was.fields[key], now.fields[key], child, out);
      }
      ghost var part := out.entries[|before|..];
      assert out.entries[start..] == before[start..] + part;
      ExtendListing(before[start..], part, path, was, now, steps, Field(key));
      steps := steps + {Field(key)};
      todo := todo - {key};
    }
    CompleteListing(out.entries[start..], path, was, now, steps);
  }

  method DiffByIdentity(was: Value, now: Value, key: string, path: Path, out: ChangeLog)
    requires ModeOf(was, now) == ByIdentity(key)
    modifies out
    ensures old(out.entries) <= out.entries
    ensures Lists(out.entries[|old(out.entries)|..], path, was, now)
    decreases was, 1
  {
    hide Lists, ModeOf, ListsUnder, ListsPart;
    ghost var start := |out.entries|;
    ghost var steps: set<Step> := {};
    var wasIds, nowIds := Identities(was.items, key), Identities(now.items, key);
    var todo := wasIds + nowIds;
    assert out.entries[start..] == [];
    NothingListed(path, was, now);
    while todo != {}
      invariant old(out.entries) <= out.entries
      invariant forall id :: id in todo ==> Ident(key, id) !in steps
      invariant forall id :: id in wasIds || id in nowIds ==> id in todo || Ident(key, id) in steps
      invariant ListsUnder(out.entries[start..], path, was, now, steps)
    {
      var id :| id in todo;
      ghost var before := out.entries;
      DiffItem(was, now, key, id, path + [Ident(key, id)], out);
      ghost var part := out.entries[|before|..];
      assert out.entries[start..] == before[start..] + part;
      ExtendListing(before[start..], part, path, was, now, steps, Ident(key, id));
      steps := steps + {Ident(key, id)};
      todo := todo - {id};
    }
    AllIdentitiesDone(was, now, key, steps);
    CompleteListing(out.entries[start..], path, was, now, steps);
  }

  lemma AllIdentitiesDone(was: Value, now: Value, key: string, steps: set<Step>)
    requires was.Arr? && now.Arr? && KeyedBy(was.items, key) && KeyedBy(now.items, key)
    requires forall id :: id in Identities(was.items, key) || id in Identities(now.items, key) ==>
      Ident(key, id) in steps
    ensures forall s ::
      Part(was, ByIdentity(key), s).Some? || Part(now, ByIdentity(key), s).Some? ==> s in steps
  {
  }

  /** One identity: the item it names may be on either side or on both. */
  method DiffItem(was: Value, now: Value, key: string, id: Value, child: Path, out: ChangeLog)
    requires was.Arr? && now.Arr? && KeyedBy(was.items, key) && KeyedBy(now.items, key)
    modifies out
    ensures old(out.entries) <= out.entries
    ensures ListsPart(out.entries[|old(out.entries)|..], child,
                      Part(was, ByIdentity(key), Ident(key, id)), Part(now, ByIdentity(key), Ident(key, id)))
    decreases was, 0
  {
    var wasIds, nowIds := Identities(was.items, key), Identities(now.items, key);
    if id !in wasIds {
      if id in nowIds {
        out.entries := out.entries + [Entry(child, Add(ItemWith(now.items, key, id)))];
      }
    } else if id !in nowIds {
      out.entries := out.entries + [Entry(child, Remove(ItemWith(was.items, key, id)))];
    } else {
      Diff(ItemWith(was.items, key, id), ItemWith(now.items, key, id), child, out);
    }
  }

  ghost function FirstSteps(n: nat): (r: set<Step>)
    ensures forall s :: s in r <==> s.At? && s.index < n
  {
    if n == 0 then {} else FirstSteps(n - 1) + {At(n - 1)}
  }

  method DiffByIndex(was: Value, now: Value, path: Path, out: ChangeLog)
    requires ModeOf(was, now) == ByIndex
    modifies out
    ensures old(out.entries) <= out.entries
    ensures Lists(out.entries[|old(out.entries)|..], path, was, now)
    decreases was, 1
  {
    hide Lists, ModeOf, ListsUnder, ListsPart;
    ghost var start := |out.entries|;
    var n := if |was.items| < |now.items| then |now.items| else |was.items|;
    assert out.entries[start..] == [];
    NothingListed(path, was, now);
    for index := 0 to n
      invariant old(out.entries) <= out.entries
      invariant ListsUnder(out.entries[start..], path, was, now, FirstSteps(index))
    {
      ghost var before := out.entries;
      var child := path + [At(index)];
      DiffRow(was, now, index, child, out);
      ghost var part := out.entries[|before|..];
      assert out.entries[start..] == before[start..] + part;
      ExtendListing(before[start..], part, path, was, now, FirstSteps(index), At(index));
    }
    CompleteListing(out.entries[start..], path, was, now, FirstSteps(n));
  }

  /** One row: it may be on either side or on both. */
  method DiffRow(was: Value, now: Value, index: nat, child: Path, out: ChangeLog)
    requires was.Arr? && now.Arr?
    requires index < |was.items| || index < |now.items|
    modifies out
    ensures old(out.entries) <= out.entries
    ensures ListsPart(out.entries[|old(out.entries)|..], child,
                      Part(was, ByIndex, At(index)), Part(now, ByIndex, At(index)))
    decreases was, 0
  {
    if index >= |was.items| {
      out.entries := out.entries + [Entry(child, Add(now.items[index]))];
    } else if index >= |now.items| {
      out.entries := out.entries + [Entry(child, Remove(was.items[index]))];
    } else {
      Diff(was.items[index], now.items[index], child, out);
    }
  }

  // ----- The order of the list -----

  predicate SortedByPath(log: seq<Entry>) {
    forall i, j :: 0 <= i < j < |log| ==> Precedes(Print(log[i].path), Print(log[j].path))
  }

  /** Behind the last entry that is not written later: equal paths keep their order. */
  function Insert(log: seq<Entry>, e: Entry): (r: seq<Entry>)
    ensures multiset(r) == multiset(log + [e])
  {
    if log == [] then [e]
    else
      var last := |log| - 1;
      assert log == log[..last] + [log[last]];
      if Precedes(Print(log[last].path), Print(e.path)) then log + [e]
      else Insert(log[..last], e) + [log[last]]
  }

  function Sort(log: seq<Entry>): (r: seq<Entry>)
    ensures multiset(r) == multiset(log)
  {
    if log == [] then []
    else
      var last := |log| - 1;
      assert log == log[..last] + [log[last]];
      Insert(Sort(log[..last]), log[last])
  }

  lemma AppendKeepsOrder(log: seq<Entry>, e: Entry)
    requires SortedByPath(log)
    requires log == [] || Precedes(Print(log[|log| - 1].path), Print(e.path))
    ensures SortedByPath(log + [e])
  {
    hide Print, Precedes;
    forall i | 0 <= i < |log| ensures Precedes(Print(log[i].path), Print(e.path)) {
      if i < |log| - 1 {
        PrecedesIsTransitive(Print(log[i].path), Print(log[|log| - 1].path), Print(e.path));
      }
    }
  }

  lemma LastInserted(log: seq<Entry>, e: Entry)
    ensures var r := Insert(log, e); r != [] && (r[|r| - 1] in log || r[|r| - 1] == e)
  {
    var r := Insert(log, e);
    assert |multiset(r)| == |multiset(log + [e])|;
    assert r[|r| - 1] in multiset(r);
    assert r[|r| - 1] in log + [e];
  }

  lemma {:induction false} InsertKeepsOrder(log: seq<Entry>, e: Entry)
    requires SortedByPath(log)
    ensures SortedByPath(Insert(log, e))
  {
    hide Print, Precedes;
    if log == [] {
    } else if Precedes(Print(log[|log| - 1].path), Print(e.path)) {
      AppendKeepsOrder(log, e);
    } else {
      var last := |log| - 1;
      var front := Insert(log[..last], e);
      PrecedesIsTotal(Print(log[last].path), Print(e.path));
      InsertKeepsOrder(log[..last], e);
      LastInserted(log[..last], e);
      AppendKeepsOrder(front, log[last]);
    }
  }

  lemma {:induction false} SortSorts(log: seq<Entry>)
    ensures SortedByPath(Sort(log))
  {
    if log != [] {
      SortSorts(log[..|log| - 1]);
      InsertKeepsOrder(Sort(log[..|log| - 1]), log[|log| - 1]);
    }
  }

  /** The whole comparison: every change once, in the order of the printed paths. */
  method DiffDocuments(was: Value, now: Value) returns (changes: seq<Entry>)
    ensures Lists(changes, [], was, now) && SortedByPath(changes)
  {
    var out := new ChangeLog();
    Diff(was, now, [], out);
    changes := Sort(out.entries);
    assert out.entries[0..] == out.entries;
    SortSorts(out.entries);
    AnyOrderIsAListing(out.entries, changes, was, now);
  }

  lemma AnyOrderIsAListing(a: seq<Entry>, b: seq<Entry>, was: Value, now: Value)
    requires Lists(a, [], was, now) && multiset(a) == multiset(b)
    ensures Lists(b, [], was, now)
  {
    forall i | 0 <= i < |b| ensures Reports(b[i], [], was, now) {
      assert b[i] in multiset(b);
      assert b[i] in a;
    }
    forall q | EditAt(was, now, q).Some? ensures HasPath(b, [] + q) {
      var i :| 0 <= i < |a| && a[i].path == [] + q;
      assert a[i] in multiset(a);
      assert a[i] in b;
    }
    DistinctAfterReordering(a, b);
  }

  lemma DistinctAfterReordering(a: seq<Entry>, b: seq<Entry>)
    requires multiset(a) == multiset(b) && DistinctPaths(a)
    ensures DistinctPaths(b)
  {
    forall i, j | 0 <= i < j < |b| ensures b[i].path != b[j].path {
      assert b[i] in multiset(b) && b[j] in multiset(b);
      assert b[i] in a && b[j] in a;
      if b[i] == b[j] {
        assert b == b[..j] + [b[j]] + b[j+1..];
        assert b[i] in b[..j];
        assert multiset(b)[b[i]] >= 2;
        OnceInDistinct(a, b[i]);
      }
    }
  }

  lemma {:induction false} OnceInDistinct(a: seq<Entry>, e: Entry)
    requires DistinctPaths(a)
    ensures multiset(a)[e] <= 1
  {
    if a != [] {
      assert a == [a[0]] + a[1..];
      OnceInDistinct(a[1..], e);
      if a[0] == e {
        assert e !in a[1..];
      }
    }
  }
}
