/** How fine a diff is, told of the list of changes alone, without the choice of strategy. */
module DiffDetail {
  import opened Wrappers
  import opened Documents
  import opened PrintedPaths
  import opened DocumentDiff
  import opened DocumentReplay
  import opened ReplayTheorem

  // ----- The identity key of a list -----

  predicate TextOrInteger(v: Value) {
    v.Str? || v.Int?
  }

  /** Every item is an object with a text or an integer under `key`, and no two have the same there. */
  predicate Identifies(items: seq<Value>, key: string) {
    && (forall i :: 0 <= i < |items| ==>
          items[i].Obj? && key in items[i].fields && TextOrInteger(items[i].fields[key]))
    && (forall i, j :: 0 <= i < j < |items| ==> items[i].fields[key] != items[j].fields[key])
  }

  /** The key is the first in the order of preference that identifies the items of a list with items. */
  predicate Chooses(items: seq<Value>, key: string) {
    items != [] && Identifies(items, key) &&
    exists n :: 0 <= n < |IDENTITY_KEYS| && IDENTITY_KEYS[n] == key && NoneBefore(items, n)
  }

  predicate NoneBefore(items: seq<Value>, n: nat)
    requires n < |IDENTITY_KEYS|
  {
    forall m :: 0 <= m < n ==> !Identifies(items, IDENTITY_KEYS[m])
  }

  lemma KeyedIsIdentified(items: seq<Value>, key: string)
    ensures KeyedBy(items, key) <==> Identifies(items, key)
  {
    if AllCarry(items, key) {
      var vs := ValuesAt(items, key);
      UnrepeatedMeansDistinct(vs);
      if Identifies(items, key) {
        forall i, j | 0 <= i < j < |vs| ensures vs[i] != vs[j] {
          assert items[i].fields[key] != items[j].fields[key];
        }
      } else if KeyedBy(items, key) {
        forall i, j | 0 <= i < j < |items| ensures items[i].fields[key] != items[j].fields[key] {
          assert vs[i] != vs[j];
        }
      }
    } else {
      var i :| 0 <= i < |items| && !Carries(items[i], key);
    }
  }

  lemma {:induction false} FirstKeyFound(items: seq<Value>, keys: seq<string>, n: nat)
    requires n < |keys| && KeyedBy(items, keys[n]) && forall m :: 0 <= m < n ==> !KeyedBy(items, keys[m])
    ensures FirstKey(items, keys) == Some(keys[n])
  {
    hide KeyedBy;
    if n > 0 {
      assert forall m :: 0 <= m < n - 1 ==> keys[1..][m] == keys[m + 1];
      FirstKeyFound(items, keys[1..], n - 1);
    }
  }

  lemma {:induction false} FirstKeyIsFirst(items: seq<Value>, keys: seq<string>) returns (n: nat)
    requires FirstKey(items, keys).Some?
    ensures n < |keys| && FirstKey(items, keys) == Some(keys[n]) && forall m :: 0 <= m < n ==> !KeyedBy(items, keys[m])
  {
    hide KeyedBy;
    if KeyedBy(items, keys[0]) {
      n := 0;
    } else {
      var k := FirstKeyIsFirst(items, keys[1..]);
      n := k + 1;
      forall m | 0 <= m < n ensures !KeyedBy(items, keys[m]) {
        if m > 0 { assert keys[1..][m - 1] == keys[m]; }
      }
    }
  }

  /** What the chosen key of a list is. */
  lemma IdentityKeyIs(items: seq<Value>, key: string)
    ensures IdentityKey(items) == Some(key) <==> Chooses(items, key)
  {
    hide KeyedBy, FirstKey, Identifies;
    forall k ensures KeyedBy(items, k) <==> Identifies(items, k) { KeyedIsIdentified(items, k); }
    if Chooses(items, key) {
      IdentifiedAreObjects(items, key);
      var n :| 0 <= n < |IDENTITY_KEYS| && IDENTITY_KEYS[n] == key && NoneBefore(items, n);
      FirstKeyFound(items, IDENTITY_KEYS, n);
    }
    if IdentityKey(items) == Some(key) {
      var n := FirstKeyIsFirst(items, IDENTITY_KEYS);
      assert NoneBefore(items, n);
    }
  }

  lemma IdentifiedAreObjects(items: seq<Value>, key: string)
    requires Identifies(items, key)
    ensures AllObjects(items)
  {
  }

  /** The item of a list whose `key` holds `id`. */
  predicate IsItem(items: seq<Value>, key: string, id: Value, item: Value) {
    item in items && item.Obj? && key in item.fields && item.fields[key] == id
  }

  predicate HasItem(items: seq<Value>, key: string, id: Value) {
    exists i :: 0 <= i < |items| && IsItem(items, key, id, items[i])
  }

  lemma ItemIs(items: seq<Value>, key: string, id: Value)
    requires KeyedBy(items, key)
    ensures id in Identities(items, key) <==> HasItem(items, key, id)
    ensures forall item :: IsItem(items, key, id, item) ==> id in Identities(items, key) && item == ItemWith(items, key, id)
  {
    forall item | IsItem(items, key, id, item) ensures id in Identities(items, key) && item == ItemWith(items, key, id) {
      var i :| 0 <= i < |items| && items[i] == item;
      assert ValuesAt(items, key)[i] == id;
      var j := PositionOf(items, key, id);
      if i != j { KeyedItemsDiffer(items, key, i, j); }
    }
    if id in Identities(items, key) {
      assert IsItem(items, key, id, items[PositionOf(items, key, id)]);
    }
  }

  // ----- What the changes of a pair must be -----

  /** The changes of two objects are those of their keys, one by one. */
  ghost predicate DescribesFields(log: seq<Entry>, was: Value, now: Value)
    requires was.Obj? && now.Obj?
    decreases was, 1
  {
    && (forall e :: e in log ==> e.path != [] && e.path[0].Field?)
    && (forall k :: k !in was.fields && k !in now.fields ==> Below(log, Field(k)) == [])
    && (forall k :: k !in was.fields && k in now.fields ==> Below(log, Field(k)) == [Entry([], Add(now.fields[k]))])
    && (forall k :: k in was.fields && k !in now.fields ==> Below(log, Field(k)) == [Entry([], Remove(was.fields[k]))])
    && (forall k :: k in was.fields && k in now.fields ==>
          Describes(Below(log, Field(k)), was.fields[k], now.fields[k]))
  }

  /** The changes of two lists with one identity key are those of their identities, one by one. */
  ghost predicate DescribesItems(log: seq<Entry>, was: Value, now: Value, key: string)
    requires was.Arr? && now.Arr?
    decreases was, 1
  {
    && (forall e :: e in log ==> e.path != [] && e.path[0].Ident? && e.path[0].key == key)
    && (forall id :: !HasItem(was.items, key, id) && !HasItem(now.items, key, id) ==> Below(log, Ident(key, id)) == [])
    && (forall id, n :: !HasItem(was.items, key, id) && IsItem(now.items, key, id, n) ==>
          Below(log, Ident(key, id)) == [Entry([], Add(n))])
    && (forall id, o :: IsItem(was.items, key, id, o) && !HasItem(now.items, key, id) ==>
          Below(log, Ident(key, id)) == [Entry([], Remove(o))])
    && (forall id, o, n :: IsItem(was.items, key, id, o) && IsItem(now.items, key, id, n) ==>
          Describes(Below(log, Ident(key, id)), o, n))
  }

  /** The changes of other lists of objects are those of their places, one by one. */
  ghost predicate DescribesRows(log: seq<Entry>, was: Value, now: Value)
    requires was.Arr? && now.Arr?
    decreases was, 1
  {
    && (forall e :: e in log ==> e.path != [] && e.path[0].At?)
    && (forall i :: i >= |was.items| && i >= |now.items| ==> Below(log, At(i)) == [])
    && (forall i :: |was.items| <= i < |now.items| ==> Below(log, At(i)) == [Entry([], Add(now.items[i]))])
    && (forall i :: |now.items| <= i < |was.items| ==> Below(log, At(i)) == [Entry([], Remove(was.items[i]))])
    && (forall i :: 0 <= i < |was.items| && i < |now.items| ==>
          Describes(Below(log, At(i)), was.items[i], now.items[i]))
  }

  predicate OnlyObjects(v: Value) {
    v.Arr? && forall i :: 0 <= i < |v.items| ==> v.items[i].Obj?
  }

  predicate ShareKey(was: Value, now: Value, key: string) {
    was.Arr? && now.Arr? && Chooses(was.items, key) && Chooses(now.items, key)
  }

  /** The changes of two documents, read off the documents: none for equal ones; those of the keys
      for objects; those of the items for lists; and one change of the whole for anything else. */
  ghost predicate Describes(log: seq<Entry>, was: Value, now: Value)
    decreases was, 2
  {
    if LooselyEqual(was, now) then log == []
    else if was.Obj? && now.Obj? then DescribesFields(log, was, now)
    else if OnlyObjects(was) && OnlyObjects(now) then
      && (forall key :: ShareKey(was, now, key) ==> DescribesItems(log, was, now, key))
      && ((forall key :: !ShareKey(was, now, key)) ==> DescribesRows(log, was, now))
    else log == [Entry([], Change(was, now))]
  }

  // ----- The listing is that -----

  /** The changes below a step: those of the two parts, one addition or one removal. */
  ghost predicate DescribesPart(below: seq<Entry>, was: Option<Value>, now: Option<Value>) {
    match (was, now)
    case (Some(o), Some(n)) => Describes(below, o, n)
    case (None, Some(n)) => below == [Entry([], Add(n))]
    case (Some(o), None) => below == [Entry([], Remove(o))]
    case (None, None) => below == []
  }

  lemma NothingReported(log: seq<Entry>, was: Value, now: Value)
    requires Lists(log, [], was, now) && LooselyEqual(was, now)
    ensures log == []
  {
    if log != [] { FirstIsAnEdit(log, was, now); }
  }

  lemma FirstIsAnEdit(log: seq<Entry>, was: Value, now: Value)
    requires Lists(log, [], was, now) && log != []
    ensures EditAt(was, now, log[0].path).Some?
  {
    hide EditAt;
    assert Reports(log[0], [], was, now) && log[0].path[0..] == log[0].path;
  }

  lemma WholeReported(log: seq<Entry>, was: Value, now: Value)
    requires Lists(log, [], was, now) && ModeOf(was, now) == Whole
    ensures log == [Entry([], Change(was, now))]
  {
    assert EditAt(was, now, []).Some? && HasPath(log, [] + []);
    forall i | 0 <= i < |log| ensures log[i] == Entry([], Change(was, now)) {
      assert Reports(log[i], [], was, now) && log[i].path[0..] == log[i].path;
    }
    if |log| > 1 { FirstTwoDiffer(log); }
  }

  lemma HeadsOfListing(log: seq<Entry>, was: Value, now: Value, e: Entry)
    requires Lists(log, [], was, now) && e in log
    requires ModeOf(was, now) != Same && ModeOf(was, now) != Whole
    ensures e.path != []
    ensures var mode := ModeOf(was, now); Part(was, mode, e.path[0]).Some? || Part(now, mode, e.path[0]).Some?
  {
    hide ModeOf, Part;
    var i :| 0 <= i < |log| && log[i] == e;
    assert Reports(log[i], [], was, now) && e.path[0..] == e.path;
    assert EditAt(was, now, e.path).Some?;
    if e.path != [] { StepOfEdit(was, now, e.path); }
  }

  lemma StepOfEdit(was: Value, now: Value, path: Path)
    requires path != [] && EditAt(was, now, path).Some? && ModeOf(was, now) != Whole
    ensures var mode := ModeOf(was, now); Part(was, mode, path[0]).Some? || Part(now, mode, path[0]).Some?
  {
    hide ModeOf, Part;
  }

  lemma PartDescribed(log: seq<Entry>, was: Value, now: Value, step: Step)
    requires Lists(log, [], was, now) && ModeOf(was, now) != Same && ModeOf(was, now) != Whole
    ensures var mode := ModeOf(was, now);
      DescribesPart(Below(log, step), Part(was, mode, step), Part(now, mode, step))
    decreases was, 0
  {
    hide ModeOf, Lists, Describes;
    BelowIsAListing(log, was, now, step);
    var mode := ModeOf(was, now);
    var o, n := Part(was, mode, step), Part(now, mode, step);
    if o.Some? && n.Some? { ListingDescribes(Below(log, step), o.value, n.value); }
  }

  lemma FieldsDescribed(log: seq<Entry>, was: Value, now: Value)
    requires Lists(log, [], was, now) && ModeOf(was, now) == Fields
    ensures DescribesFields(log, was, now)
    decreases was, 1
  {
    hide Lists, ModeOf, Describes, Below;
    forall e | e in log ensures e.path != [] && e.path[0].Field? { HeadsOfListing(log, was, now, e); }
    forall k ensures DescribesPart(Below(log, Field(k)), Part(was, Fields, Field(k)), Part(now, Fields, Field(k))) {
      PartDescribed(log, was, now, Field(k));
    }
  }

  lemma RowsDescribed(log: seq<Entry>, was: Value, now: Value)
    requires Lists(log, [], was, now) && ModeOf(was, now) == ByIndex
    ensures DescribesRows(log, was, now)
    decreases was, 1
  {
    hide Lists, ModeOf, Describes, Below;
    forall e | e in log ensures e.path != [] && e.path[0].At? { HeadsOfListing(log, was, now, e); }
    forall i: nat ensures DescribesPart(Below(log, At(i)), Part(was, ByIndex, At(i)), Part(now, ByIndex, At(i))) {
      PartDescribed(log, was, now, At(i));
    }
  }

  lemma ItemsDescribed(log: seq<Entry>, was: Value, now: Value, key: string)
    requires Lists(log, [], was, now) && ModeOf(was, now) == ByIdentity(key)
    ensures DescribesItems(log, was, now, key)
    decreases was, 1
  {
    hide Lists, ModeOf, KeyedBy, Describes, IsItem, HasItem;
    forall e | e in log ensures e.path != [] && e.path[0].Ident? && e.path[0].key == key { HeadsOfListing(log, was, now, e); }
    forall id ensures
      var o, n := Part(was, ByIdentity(key), Ident(key, id)), Part(now, ByIdentity(key), Ident(key, id));
      && (o.Some? <==> HasItem(was.items, key, id)) && (n.Some? <==> HasItem(now.items, key, id))
      && (forall item :: IsItem(was.items, key, id, item) ==> o == Some(item))
      && (forall item :: IsItem(now.items, key, id, item) ==> n == Some(item))
      && DescribesPart(Below(log, Ident(key, id)), o, n)
    {
      PartDescribed(log, was, now, Ident(key, id));
      ItemIs(was.items, key, id);
      ItemIs(now.items, key, id);
    }
    forall id, item | IsItem(was.items, key, id, item) ensures HasItem(was.items, key, id) { AnItem(was.items, key, id, item); }
    forall id, item | IsItem(now.items, key, id, item) ensures HasItem(now.items, key, id) { AnItem(now.items, key, id, item); }
  }

  lemma AnItem(items: seq<Value>, key: string, id: Value, item: Value)
    requires IsItem(items, key, id, item)
    ensures HasItem(items, key, id)
  {
    var i :| 0 <= i < |items| && items[i] == item;
  }

  /** Every list of changes that the comparison reports describes its two documents. */
  lemma {:induction false} ListingDescribes(log: seq<Entry>, was: Value, now: Value)
    requires Lists(log, [], was, now)
    ensures Describes(log, was, now)
    decreases was, 2
  {
    hide Lists, DescribesFields, DescribesRows, DescribesItems, IdentityKey, Chooses;
    if LooselyEqual(was, now) {
      NothingReported(log, was, now);
    } else if was.Obj? && now.Obj? {
      FieldsDescribed(log, was, now);
    } else if OnlyObjects(was) && OnlyObjects(now) {
      AllObjectsBoth(was.items, now.items);
      forall key ensures ShareKey(was, now, key) <==> IdentityKey(was.items) == IdentityKey(now.items) == Some(key) {
        IdentityKeyIs(was.items, key);
        IdentityKeyIs(now.items, key);
      }
      if exists key :: ShareKey(was, now, key) {
        var key :| ShareKey(was, now, key);
        ItemsDescribed(log, was, now, key);
      } else {
        RowsDescribed(log, was, now);
      }
    } else {
      if was.Arr? && now.Arr? { NotOnlyObjects(was, now); }
      WholeReported(log, was, now);
    }
  }

  lemma NotOnlyObjects(was: Value, now: Value)
    requires was.Arr? && now.Arr? && !(OnlyObjects(was) && OnlyObjects(now)) && !LooselyEqual(was, now)
    ensures ModeOf(was, now) == Whole
  {
    hide KeyedBy;
    AllObjectsBoth(was.items, now.items);
  }

  // ----- Changes that are never reported -----

  /** No change of the whole is ever reported for two objects, for two lists of nothing but objects, or
      for two equal values, however deep the place. */
  lemma {:induction false} ChangesAreAtomic(was: Value, now: Value, path: Path, o: Value, n: Value)
    requires EditAt(was, now, path) == Some(Change(o, n))
    ensures !(o.Obj? && n.Obj?) && !(OnlyObjects(o) && OnlyObjects(n)) && !LooselyEqual(o, n)
    decreases path
  {
    hide Part;
    var mode := ModeOf(was, now);
    if path == [] {
      if was.Arr? && now.Arr? { AllObjectsBoth(was.items, now.items); }
    } else {
      ChangesAreAtomic(Part(was, mode, path[0]).value, Part(now, mode, path[0]).value, path[1..], o, n);
    }
  }

  /** So is none in the list of changes. */
  lemma ListedChangesAreAtomic(log: seq<Entry>, was: Value, now: Value, i: nat)
    requires Lists(log, [], was, now) && i < |log| && log[i].edit.Change?
    ensures var e := log[i].edit;
      !(e.before.Obj? && e.after.Obj?) && !(OnlyObjects(e.before) && OnlyObjects(e.after)) && !LooselyEqual(e.before, e.after)
  {
    assert Reports(log[i], [], was, now) && log[i].path[0..] == log[i].path;
    ChangesAreAtomic(was, now, log[i].path, log[i].edit.before, log[i].edit.after);
  }

  /** A renamed field is one addition and one removal, and everything else in the object stays. */
  lemma RenamedField(log: seq<Entry>, was: Value, now: Value, before: string, after: string)
    requires Lists(log, [], was, now) && was.Obj? && now.Obj?
    requires before in was.fields && before !in now.fields && after in now.fields && after !in was.fields
    requires forall k :: k != before && k != after ==> (k in was.fields <==> k in now.fields)
    requires forall k :: k in was.fields && k in now.fields ==> LooselyEqual(was.fields[k], now.fields[k])
    ensures forall e :: e in log <==>
      e == Entry([Field(before)], Remove(was.fields[before])) || e == Entry([Field(after)], Add(now.fields[after]))
  {
    hide Lists, LooselyEqual, Below;
    ListingDescribes(log, was, now);
    KeyTellsApart(was, now, before);
    assert DescribesFields(log, was, now);
    InBelow(log, Field(before), Entry([], Remove(was.fields[before])));
    InBelow(log, Field(after), Entry([], Add(now.fields[after])));
    forall e | e in log
      ensures e == Entry([Field(before)], Remove(was.fields[before])) || e == Entry([Field(after)], Add(now.fields[after]))
    {
      var k := e.path[0].name;
      assert e.path == [Field(k)] + e.path[1..];
      InBelow(log, Field(k), Entry(e.path[1..], e.edit));
    }
  }

  lemma KeyTellsApart(was: Value, now: Value, key: string)
    requires was.Obj? && now.Obj? && key in was.fields && key !in now.fields
    ensures !LooselyEqual(was, now)
  {
    assert key in Norm(was).fields && key !in Norm(now).fields;
  }

  // ----- How paths read -----

  /** The number that digits read as. */
  function ReadDigits(s: string): int {
    if s == [] then 0 else 10 * ReadDigits(s[..|s| - 1]) + (s[|s| - 1] as int - '0' as int)
  }

  lemma {:induction false} DigitsRead(n: nat)
    ensures Digits(n) != [] && ReadDigits(Digits(n)) == n
    ensures forall i :: 0 <= i < |Digits(n)| ==> '0' <= Digits(n)[i] <= '9'
    ensures n > 0 ==> Digits(n)[0] != '0'
  {
    if n >= 10 {
      DigitsRead(n / 10);
      assert Digits(n)[..|Digits(n)| - 1] == Digits(n / 10);
    } else {
      assert Digits(n)[..0] == [];
    }
  }

  /** Fields are joined by dots, rows stand in brackets by number, and items by their key and value. */
  lemma PathsRead(path: Path, name: string, index: nat, key: string, text: string, id: int)
    requires path != [] && Print(path) != ""
    ensures Print([Field(name)]) == name
    ensures Print(path + [Field(name)]) == Print(path) + "." + name
    ensures Print(path + [At(index)]) == Print(path) + "[" + Digits(index) + "]"
    ensures Print(path + [Ident(key, Str(text))]) == Print(path) + "[" + key + "=" + text + "]"
    ensures Print(path + [Ident(key, Int(id))]) ==
            Print(path) + "[" + key + "=" + (if id < 0 then "-" + Digits(-id) else Digits(id)) + "]"
  {
    assert [Field(name)][..0] == [];
    assert (path + [Field(name)])[..|path|] == path && (path + [At(index)])[..|path|] == path;
    assert (path + [Ident(key, Str(text))])[..|path|] == path && (path + [Ident(key, Int(id))])[..|path|] == path;
  }

  // ----- Equality of the source language -----

  function NumberOf(v: Value): Option<int> {
    match v
    case Bool(b) => Some(if b then 1 else 0)
    case Int(n) => Some(n)
    case _ => None
  }

  /** The equality of the source language: numbers by value, with true as 1 and false as 0; texts; lists
      place by place; objects key by key; and nothing across these kinds. */
  predicate Equal(a: Value, b: Value)
    decreases a
  {
    match a
    case Null => b.Null?
    case Str(s) => b.Str? && b.s == s
    case Arr(items) => b.Arr? && |b.items| == |items| && forall i :: 0 <= i < |items| ==> Equal(items[i], b.items[i])
    case Obj(fields) => b.Obj? && b.fields.Keys == fields.Keys && forall k :: k in fields ==> Equal(fields[k], b.fields[k])
    case _ => NumberOf(b) == NumberOf(a)
  }

  lemma {:induction false} LooselyEqualIs(a: Value, b: Value)
    ensures LooselyEqual(a, b) <==> Equal(a, b)
    decreases a
  {
    match a
    case Arr(items) =>
      if b.Arr? && |b.items| == |items| {
        forall i | 0 <= i < |items| ensures LooselyEqual(items[i], b.items[i]) <==> Equal(items[i], b.items[i]) {
          LooselyEqualIs(items[i], b.items[i]);
        }
        ListsEqualByPlace(items, b.items);
      } else if b.Arr? {
        assert |NormAll(items)| != |NormAll(b.items)|;
      }
    case Obj(fields) =>
      if b.Obj? {
        forall k | k in fields && k in b.fields ensures LooselyEqual(fields[k], b.fields[k]) <==> Equal(fields[k], b.fields[k]) {
          LooselyEqualIs(fields[k], b.fields[k]);
        }
        ObjectsEqualByKey(fields, b.fields);
      }
    case _ =>
  }

  lemma ListsEqualByPlace(a: seq<Value>, b: seq<Value>)
    requires |a| == |b|
    ensures LooselyEqual(Arr(a), Arr(b)) <==> forall i :: 0 <= i < |a| ==> LooselyEqual(a[i], b[i])
  {
    if forall i :: 0 <= i < |a| ==> LooselyEqual(a[i], b[i]) {
      assert NormAll(a) == NormAll(b);
    }
    if LooselyEqual(Arr(a), Arr(b)) {
      forall i | 0 <= i < |a| ensures LooselyEqual(a[i], b[i]) {
        assert NormAll(a)[i] == NormAll(b)[i];
      }
    }
  }

  lemma ObjectsEqualByKey(f: map<string, Value>, g: map<string, Value>)
    ensures LooselyEqual(Obj(f), Obj(g)) <==> f.Keys == g.Keys && forall k :: k in f ==> LooselyEqual(f[k], g[k])
  {
    var a, b := Norm(Obj(f)).fields, Norm(Obj(g)).fields;
    assert a.Keys == f.Keys && b.Keys == g.Keys;
    if a == b {
      forall k | k in f ensures LooselyEqual(f[k], g[k]) {
        assert a[k] == Norm(f[k]) && b[k] == Norm(g[k]);
      }
    }
    if f.Keys == g.Keys && forall k :: k in f ==> LooselyEqual(f[k], g[k]) { assert a == b; }
  }
}
