/** What two documents have in common when they are equal up to the order of identity-keyed lists. */
module DocumentViews {
  import opened Wrappers
  import opened Documents

  /** A document with every identity-keyed list read as a table from identity to item. A list
      that holds anything but objects is one indivisible value, whatever is inside it. */
  datatype View =
    | Leaf(v: Value)
    | Record(parts: map<string, View>)
    | Table(key: string, rows: map<Value, View>)
    | Rows(list: seq<View>)
    | Opaque(items: seq<Value>)

  function ViewOf(v: Value): View {
    match v
    case Obj(fields) => Record(map k | k in fields :: ViewOf(fields[k]))
    case Arr(items) =>
      if !AllObjects(items) then Opaque(items)
      else
        var key := IdentityKey(items);
        if key.Some? then
          Table(key.value, TableOf(items, key.value))
        else
          Rows(seq(|items|, i requires 0 <= i < |items| => ViewOf(items[i])))
    case _ => Leaf(v)
  }

  function TableOf(items: seq<Value>, key: string): (r: map<Value, View>)
    requires KeyedBy(items, key)
    ensures r.Keys == Identities(items, key)
  {
    map id | id in Identities(items, key) :: ViewOf(ItemWith(items, key, id))
  }

  /** Equal up to the order of identity-keyed lists (and, as everywhere, true counting as 1). */
  predicate SameView(a: Value, b: Value) {
    ViewOf(Norm(a)) == ViewOf(Norm(b))
  }

  lemma ItemAtIdentity(items: seq<Value>, key: string, i: nat)
    requires KeyedBy(items, key) && i < |items|
    ensures items[i].fields[key] in Identities(items, key)
    ensures ItemWith(items, key, items[i].fields[key]) == items[i]
  {
    assert ValuesAt(items, key)[i] == items[i].fields[key];
    var j := PositionOf(items, key, items[i].fields[key]);
    if j != i { KeyedItemsDiffer(items, key, i, j); }
  }

  lemma IdentitiesAreScalars(x: Value, y: Value, key: string)
    requires x.Obj? && y.Obj? && ViewOf(x) == ViewOf(y)
    ensures key in x.fields <==> key in y.fields
    ensures key in x.fields && CanIdentify(x.fields[key]) ==> y.fields[key] == x.fields[key]
  {
    var vx, vy := ViewOf(x), ViewOf(y);
    assert key in vx.parts <==> key in x.fields;
    assert key in vy.parts <==> key in y.fields;
    if key in x.fields {
      assert vx.parts[key] == ViewOf(x.fields[key]);
      assert vy.parts[key] == ViewOf(y.fields[key]);
    }
  }

  /** `f` takes every position of `b` to one of `a` whose item looks the same. */
  ghost predicate Matches(a: seq<Value>, b: seq<Value>, f: seq<nat>) {
    && AllObjects(a) && AllObjects(b) && |f| == |b|
    && (forall j :: 0 <= j < |b| ==> f[j] < |a| && ViewOf(a[f[j]]) == ViewOf(b[j]))
    && (forall i, j :: 0 <= i < j < |b| ==> f[i] != f[j])
  }

  lemma KeyCarriesOver(a: seq<Value>, b: seq<Value>, f: seq<nat>, key: string)
    requires Matches(a, b, f) && KeyedBy(a, key)
    ensures KeyedBy(b, key)
    ensures forall j :: 0 <= j < |b| ==> b[j].fields[key] == a[f[j]].fields[key]
  {
    forall j | 0 <= j < |b|
      ensures key in b[j].fields && b[j].fields[key] == a[f[j]].fields[key]
    {
      IdentitiesAreScalars(a[f[j]], b[j], key);
    }
    forall i, j | 0 <= i < j < |b| ensures ValuesAt(b, key)[i] != ValuesAt(b, key)[j] {
      KeyedItemsDiffer(a, key, f[i], f[j]);
    }
    UnrepeatedMeansDistinct(ValuesAt(b, key));
  }

  lemma {:induction false} FirstKeyAgrees(a: seq<Value>, b: seq<Value>, keys: seq<string>)
    requires forall k :: k in keys ==> (KeyedBy(a, k) <==> KeyedBy(b, k))
    ensures FirstKey(a, keys) == FirstKey(b, keys)
  {
    if keys != [] {
      assert keys[0] in keys;
      FirstKeyAgrees(a, b, keys[1..]);
    }
  }

  lemma MatchedListsShareTheirKey(a: seq<Value>, b: seq<Value>, f: seq<nat>, g: seq<nat>)
    requires Matches(a, b, f) && Matches(b, a, g)
    ensures IdentityKey(a) == IdentityKey(b)
  {
    forall k | k in IDENTITY_KEYS ensures KeyedBy(a, k) <==> KeyedBy(b, k) {
      if KeyedBy(a, k) { KeyCarriesOver(a, b, f, k); }
      if KeyedBy(b, k) { KeyCarriesOver(b, a, g, k); }
    }
    FirstKeyAgrees(a, b, IDENTITY_KEYS);
    assert 0 < |b| ==> f[0] < |a|;
    assert 0 < |a| ==> g[0] < |b|;
  }

  lemma MatchedRowsByIdentity(a: seq<Value>, b: seq<Value>, f: seq<nat>, key: string, id: Value)
    requires Matches(a, b, f) && KeyedBy(a, key) && KeyedBy(b, key) && id in Identities(b, key)
    ensures id in Identities(a, key)
    ensures ViewOf(ItemWith(a, key, id)) == ViewOf(ItemWith(b, key, id))
  {
    KeyCarriesOver(a, b, f, key);
    var j := PositionOf(b, key, id);
    ItemAtIdentity(b, key, j);
    ItemAtIdentity(a, key, f[j]);
  }

  lemma MatchedTablesAgree(a: seq<Value>, b: seq<Value>, f: seq<nat>, g: seq<nat>)
    requires Matches(a, b, f) && Matches(b, a, g) && IdentityKey(a).Some?
    ensures ViewOf(Arr(a)) == ViewOf(Arr(b))
  {
    MatchedListsShareTheirKey(a, b, f, g);
    var key := IdentityKey(a).value;
    KeyCarriesOver(a, b, f, key);
    MatchedTables(a, b, f, g, key);
  }

  lemma RowsCarryOver(a: seq<Value>, b: seq<Value>, f: seq<nat>, key: string)
    requires Matches(a, b, f) && KeyedBy(a, key) && KeyedBy(b, key)
    ensures forall id :: id in TableOf(b, key) ==>
      id in TableOf(a, key) && TableOf(a, key)[id] == TableOf(b, key)[id]
  {
    forall id | id in Identities(b, key)
      ensures id in Identities(a, key) && ViewOf(ItemWith(a, key, id)) == ViewOf(ItemWith(b, key, id))
    {
      MatchedRowsByIdentity(a, b, f, key, id);
    }
  }

  lemma MatchedTables(a: seq<Value>, b: seq<Value>, f: seq<nat>, g: seq<nat>, key: string)
    requires Matches(a, b, f) && Matches(b, a, g) && KeyedBy(a, key) && KeyedBy(b, key)
    ensures TableOf(a, key) == TableOf(b, key)
  {
    RowsCarryOver(a, b, f, key);
    RowsCarryOver(b, a, g, key);
    MapsEqual(TableOf(a, key), TableOf(b, key));
  }

  lemma MapsEqual(m: map<Value, View>, n: map<Value, View>)
    requires forall id :: id in n ==> id in m && m[id] == n[id]
    requires forall id :: id in m ==> id in n && n[id] == m[id]
    ensures m == n
  {
  }

  /** Lists that agree row by row look the same. */
  lemma RowsAgree(a: seq<Value>, b: seq<Value>)
    requires AllObjects(a) && AllObjects(b) && |a| == |b|
    requires forall i :: 0 <= i < |a| ==> ViewOf(a[i]) == ViewOf(b[i])
    ensures ViewOf(Arr(a)) == ViewOf(Arr(b))
  {
    var f: seq<nat> := seq(|a|, i => i);
    assert Matches(a, b, f) && Matches(b, a, f);
    MatchedListsShareTheirKey(a, b, f, f);
    if IdentityKey(a).Some? {
      MatchedTablesAgree(a, b, f, f);
    } else {
      assert ViewOf(Arr(a)).list == ViewOf(Arr(b)).list;
    }
  }
}
