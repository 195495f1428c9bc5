/** When the diff is empty, and which identity key two equal lists choose. */
module DiffEmptiness {
  import opened Wrappers
  import opened Documents
  import opened DocumentDiff
  import opened DocumentViews
  import opened ReplayTheorem

  ghost predicate NoChanges(was: Value, now: Value) {
    forall path :: EditAt(was, now, path).None?
  }

  lemma NoChangesMeansSameView(was: Value, now: Value)
    requires NoChanges(was, now)
    ensures SameView(was, now)
  {
    assert Lists([], [], was, now);
    ReplayRebuilds(was, now, []);
    ReplayNothing(was);
  }

  // ----- Which key a list chooses -----

  /** No object of the list holds a boolean under `key`. */
  predicate BooleanFree(items: seq<Value>, key: string) {
    forall i :: 0 <= i < |items| && items[i].Obj? && key in items[i].fields ==> !items[i].fields[key].Bool?
  }

  /** A key identifies the items of a list when it identifies their normal forms and no boolean
      stands under it. */
  lemma KeyedIff(items: seq<Value>, key: string)
    ensures KeyedBy(items, key) <==> KeyedBy(NormAll(items), key) && BooleanFree(items, key)
  {
    var a := NormAll(items);
    if KeyedBy(items, key) {
      NormKeepsKey(items, key);
    }
    if KeyedBy(a, key) && BooleanFree(items, key) {
      hide Norm, Unrepeated;
      forall i | 0 <= i < |items| ensures Carries(items[i], key) && items[i].fields[key] == a[i].fields[key] {
        assert Carries(a[i], key) && a[i] == Norm(items[i]);
        NormKeepsField(items[i], key);
      }
      assert ValuesAt(items, key) == ValuesAt(a, key);
    }
  }

  lemma NormKeepsField(item: Value, key: string)
    requires Carries(Norm(item), key) && (item.Obj? && key in item.fields ==> !item.fields[key].Bool?)
    ensures Carries(item, key) && item.fields[key] == Norm(item).fields[key]
  {
    assert Norm(item).fields[key] == Norm(item.fields[key]);
  }

  lemma NormKeepsObjects(items: seq<Value>)
    ensures AllObjects(NormAll(items)) <==> AllObjects(items)
  {
    assert forall i :: 0 <= i < |items| ==> (NormAll(items)[i].Obj? <==> items[i].Obj?);
  }

  /** Where the item with the same identity stands in the other list. */
  lemma MatchingPositions(a: seq<Value>, b: seq<Value>, key: string) returns (f: seq<nat>)
    requires KeyedBy(a, key) && KeyedBy(b, key) && TableOf(a, key) == TableOf(b, key)
    ensures Matches(a, b, f)
    ensures forall j :: 0 <= j < |b| ==> a[f[j]].fields[key] == b[j].fields[key]
  {
    hide ViewOf, Unrepeated, CanIdentify, TableOf;
    f := [];
    while |f| < |b|
      invariant |f| <= |b|
      invariant forall j :: 0 <= j < |f| ==> f[j] < |a| && a[f[j]].fields[key] == b[j].fields[key]
      invariant forall j :: 0 <= j < |f| ==> ViewOf(a[f[j]]) == ViewOf(b[j])
    {
      var j := |f|;
      ItemAtIdentity(b, key, j);
      var id := b[j].fields[key];
      RowOfTable(a, key, id);
      RowOfTable(b, key, id);
      f := f + [PositionOf(a, key, id)];
    }
    forall i, j | 0 <= i < j < |b| ensures f[i] != f[j] {
      KeyedItemsDiffer(b, key, i, j);
    }
  }

  lemma RowOfTable(items: seq<Value>, key: string, id: Value)
    requires KeyedBy(items, key) && id in Identities(items, key)
    ensures id in TableOf(items, key) && TableOf(items, key)[id] == ViewOf(ItemWith(items, key, id))
  {
    hide ViewOf, ItemWith;
  }

  /** The normal forms of lists that are equal up to order choose the same key. */
  lemma NormsShareTheirKey(a: seq<Value>, b: seq<Value>)
    requires SameView(Arr(a), Arr(b))
    ensures IdentityKey(NormAll(a)) == IdentityKey(NormAll(b))
    ensures AllObjects(a) <==> AllObjects(b)
    ensures var key := IdentityKey(NormAll(a));
      key.Some? ==> TableOf(NormAll(a), key.value) == TableOf(NormAll(b), key.value)
  {
    NormKeepsObjects(a);
    NormKeepsObjects(b);
    var va, vb := ViewOf(Arr(NormAll(a))), ViewOf(Arr(NormAll(b)));
    assert va == vb;
  }

  /** They are identified by the same keys. */
  lemma NormsShareAllKeys(a: seq<Value>, b: seq<Value>, key: string)
    requires SameView(Arr(a), Arr(b)) && key in IDENTITY_KEYS
    ensures KeyedBy(NormAll(a), key) <==> KeyedBy(NormAll(b), key)
  {
    hide TableOf, SameView, KeyedBy, NormAll;
    var x, y := NormAll(a), NormAll(b);
    NormsShareTheirKey(a, b);
    var chosen := IdentityKey(x);
    if chosen.Some? {
      var f := MatchingPositions(x, y, chosen.value);
      var g := MatchingPositions(y, x, chosen.value);
      if KeyedBy(x, key) { KeyCarriesOver(x, y, f, key); }
      if KeyedBy(y, key) { KeyCarriesOver(y, x, g, key); }
    } else {
      NoKeyOrNoItems(a, b);
    }
  }

  lemma NoKeyOrNoItems(a: seq<Value>, b: seq<Value>)
    requires SameView(Arr(a), Arr(b)) && IdentityKey(NormAll(a)).None?
    ensures NormAll(a) == NormAll(b) ||
      forall k :: k in IDENTITY_KEYS ==> !KeyedBy(NormAll(a), k) && !KeyedBy(NormAll(b), k)
  {
    hide KeyedBy, FirstKey;
    var va, vb := ViewOf(Arr(NormAll(a))), ViewOf(Arr(NormAll(b)));
    assert va == vb;
    if va.Rows? {
      assert |va.list| == |a| && |vb.list| == |b|;
      if a == [] { assert NormAll(a) == NormAll(b); }
    }
  }

  /** The first key that identifies the normal forms and is free of booleans in one of the lists. */
  function FirstOpen(a: seq<Value>, b: seq<Value>, keys: seq<string>): (r: Option<string>)
    ensures r.Some? ==> r.value in keys
  {
    if keys == [] then None
    else if KeyedBy(NormAll(a), keys[0]) && (BooleanFree(a, keys[0]) || BooleanFree(b, keys[0])) then Some(keys[0])
    else FirstOpen(a, b, keys[1..])
  }

  /** Two lists that are equal up to order choose the same identity key exactly when the first key
      that is free of booleans in one of them is free of booleans in both. */
  lemma EqualListsShareTheirKeyIff(a: seq<Value>, b: seq<Value>)
    requires SameView(Arr(a), Arr(b))
    ensures var k := FirstOpen(a, b, IDENTITY_KEYS);
      IdentityKey(a) == IdentityKey(b) <==> (k.Some? ==> BooleanFree(a, k.value) && BooleanFree(b, k.value))
  {
    NormsShareTheirKey(a, b);
    forall k | k in IDENTITY_KEYS ensures KeyedBy(NormAll(a), k) <==> KeyedBy(NormAll(b), k) {
      NormsShareAllKeys(a, b, k);
    }
    if a == [] {
      NothingIsOpen(b);
    } else {
      if AllObjects(a) { NoItemsOnBothSides(b, a); }
      FirstKeysAgreeIff(a, b, IDENTITY_KEYS);
    }
  }

  lemma NoItemsOnBothSides(a: seq<Value>, b: seq<Value>)
    requires SameView(Arr(a), Arr(b)) && AllObjects(a)
    ensures a == [] <==> b == []
  {
    hide KeyedBy;
    NormKeepsObjects(a);
    NormKeepsObjects(b);
    var va, vb := ViewOf(Arr(NormAll(a))), ViewOf(Arr(NormAll(b)));
    assert va == vb;
    if va.Rows? { assert |va.list| == |a| && |vb.list| == |b|; }
  }

  lemma NothingIsOpen(b: seq<Value>)
    requires SameView(Arr([]), Arr(b))
    ensures b == []
  {
    NoItemsOnBothSides([], b);
  }

  lemma {:induction false} FirstKeysAgreeIff(a: seq<Value>, b: seq<Value>, keys: seq<string>)
    requires forall k :: k in keys ==> (KeyedBy(NormAll(a), k) <==> KeyedBy(NormAll(b), k))
    ensures var k := FirstOpen(a, b, keys);
      FirstKey(a, keys) == FirstKey(b, keys) <==> (k.Some? ==> BooleanFree(a, k.value) && BooleanFree(b, k.value))
  {
    hide KeyedBy, BooleanFree, NormAll;
    if keys != [] {
      var k := keys[0];
      assert k in keys;
      KeyedIff(a, k);
      KeyedIff(b, k);
      FirstKeysAgreeIff(a, b, keys[1..]);
      if KeyedBy(a, k) != KeyedBy(b, k) { KeyIsNotFound(a, b, keys); }
    }
  }

  /** A key found later in the list is another key. */
  lemma KeyIsNotFound(a: seq<Value>, b: seq<Value>, keys: seq<string>)
    requires keys != [] && (KeyedBy(a, keys[0]) <==> !KeyedBy(b, keys[0]))
    ensures FirstKey(a, keys) != FirstKey(b, keys)
  {
  }

  // ----- One step down in documents that are equal up to order -----

  /** The rows of two lists name the same identities in the same order. */
  predicate InOrder(a: seq<Value>, b: seq<Value>, key: string) {
    KeyedBy(NormAll(a), key) && KeyedBy(NormAll(b), key) && ValuesAt(NormAll(a), key) == ValuesAt(NormAll(b), key)
  }

  /** The comparison pairs the rows of two lists by their places although an identity key tells them
      apart, which takes a boolean under that key. */
  predicate PairedByPlace(was: Value, now: Value) {
    ModeOf(was, now).ByIndex? && IdentityKey(NormAll(was.items)).Some?
  }

  /** Wherever the comparison pairs identified rows by their places, both sides hold them in the
      same order. */
  ghost predicate InStep(was: Value, now: Value)
    decreases was
  {
    var mode := ModeOf(was, now);
    && (PairedByPlace(was, now) ==> InOrder(was.items, now.items, IdentityKey(NormAll(was.items)).value))
    && forall step :: Part(was, mode, step).Some? && Part(now, mode, step).Some? ==>
         InStep(Part(was, mode, step).value, Part(now, mode, step).value)
  }

  ghost predicate PartsAgree(o: Option<Value>, n: Option<Value>) {
    (o.Some? <==> n.Some?) && (o.Some? ==> SameView(o.value, n.value))
  }

  lemma FieldsStayEqual(was: Value, now: Value, step: Step)
    requires SameView(was, now) && was.Obj? && now.Obj?
    ensures PartsAgree(Part(was, Fields, step), Part(now, Fields, step))
  {
    if step.Field? {
      var p, q := ViewOf(Norm(was)).parts, ViewOf(Norm(now)).parts;
      assert step.name in p <==> step.name in was.fields;
      assert step.name in q <==> step.name in now.fields;
      if step.name in was.fields {
        assert p[step.name] == ViewOf(Norm(was.fields[step.name]));
        assert q[step.name] == ViewOf(Norm(now.fields[step.name]));
      }
    }
  }

  /** An identity names items that are equal up to order, even when the normal forms are
      identified by another key. */
  lemma ItemsStayEqual(a: seq<Value>, b: seq<Value>, key: string, id: Value)
    requires SameView(Arr(a), Arr(b)) && KeyedBy(a, key) && KeyedBy(b, key)
    requires a != [] && key in IDENTITY_KEYS && id in Identities(a, key)
    ensures id in Identities(b, key) && SameView(ItemWith(a, key, id), ItemWith(b, key, id))
  {
    hide ViewOf, TableOf, KeyedBy, IdentityKey, Norm;
    var x, y := NormAll(a), NormAll(b);
    NormKeepsKey(a, key);
    NormKeepsKey(b, key);
    KeyedHasAKey(x, key);
    NormsShareTheirKey(a, b);
    var g := MatchingPositions(y, x, IdentityKey(x).value);
    KeyCarriesOver(y, x, g, key);
    var i := PositionOf(a, key, id);
    ItemAtIdentity(b, key, g[i]);
    assert b[g[i]].fields[key] == id;
    assert x[i] == Norm(a[i]) && y[g[i]] == Norm(b[g[i]]);
  }

  lemma KeyedHasAKey(items: seq<Value>, key: string)
    requires items != [] && key in IDENTITY_KEYS && KeyedBy(items, key)
    ensures IdentityKey(items).Some?
  {
    assert AllObjects(items);
  }

  lemma RowsStayEqual(was: Value, now: Value, step: Step)
    requires SameView(was, now) && was.Arr? && now.Arr? && AllObjects(was.items)
    requires IdentityKey(NormAll(was.items)).None?
    ensures PartsAgree(Part(was, ByIndex, step), Part(now, ByIndex, step))
  {
    hide KeyedBy, FirstKey;
    NormKeepsObjects(was.items);
    NormsShareTheirKey(was.items, now.items);
    var p, q := ViewOf(Norm(was)), ViewOf(Norm(now));
    assert p == q && p.Rows?;
    assert |p.list| == |was.items| && |q.list| == |now.items|;
    if step.At? && step.index < |was.items| {
      assert p.list[step.index] == ViewOf(Norm(was.items[step.index]));
      assert q.list[step.index] == ViewOf(Norm(now.items[step.index]));
    }
  }

  /** Rows in the same order of identities are equal place by place. */
  lemma OrderedRowsStayEqual(a: seq<Value>, b: seq<Value>, key: string, i: nat)
    requires SameView(Arr(a), Arr(b)) && IdentityKey(NormAll(a)) == Some(key) && InOrder(a, b, key)
    requires i < |a|
    ensures |a| == |b| && SameView(a[i], b[i])
  {
    hide ViewOf, TableOf, Unrepeated, IdentityKey, Norm;
    var x, y := NormAll(a), NormAll(b);
    NormsShareTheirKey(a, b);
    assert ValuesAt(x, key)[i] == ValuesAt(y, key)[i];
    var id := x[i].fields[key];
    ItemAtIdentity(x, key, i);
    ItemAtIdentity(y, key, i);
    RowOfTable(x, key, id);
    RowOfTable(y, key, id);
  }

  /** One step down, documents that are equal up to order and in step are still both. */
  lemma PartsStayEqual(was: Value, now: Value, step: Step)
    requires SameView(was, now) && InStep(was, now)
    ensures var mode := ModeOf(was, now); !mode.Whole? && PartsAgree(Part(was, mode, step), Part(now, mode, step))
  {
    hide SameView, InStep, KeyedBy, ViewOf, Norm;
    if !LooselyEqual(was, now) {
      SameKind(was, now);
      if was.Obj? {
        FieldsStayEqual(was, now, step);
      } else {
        NormsShareTheirKey(was.items, now.items);
        AllObjectsBoth(was.items, now.items);
        var mode := ModeOf(was, now);
        if mode.ByIdentity? {
          ItemPartsAgree(was, now, mode.key, step);
        } else if IdentityKey(NormAll(was.items)).None? {
          RowsStayEqual(was, now, step);
        } else {
          InStepMeansInOrder(was, now);
          PlacesAgree(was, now, step);
        }
      }
    }
  }

  lemma InStepMeansInOrder(was: Value, now: Value)
    requires InStep(was, now) && PairedByPlace(was, now)
    ensures InOrder(was.items, now.items, IdentityKey(NormAll(was.items)).value)
  {
  }

  lemma SameKind(was: Value, now: Value)
    requires SameView(was, now) && !LooselyEqual(was, now)
    ensures (was.Obj? && now.Obj?) || (was.Arr? && now.Arr? && AllObjects(was.items) && AllObjects(now.items))
  {
    hide KeyedBy, IdentityKey;
    var p, q := ViewOf(Norm(was)), ViewOf(Norm(now));
    assert p == q;
    if was.Arr? {
      NormKeepsObjects(was.items);
      if now.Arr? { NormKeepsObjects(now.items); }
    }
  }

  lemma ItemPartsAgree(was: Value, now: Value, key: string, step: Step)
    requires SameView(was, now) && ModeOf(was, now) == ByIdentity(key)
    ensures PartsAgree(Part(was, ByIdentity(key), step), Part(now, ByIdentity(key), step))
  {
    hide KeyedBy, IdentityKey, ViewOf, Norm;
    assert SameView(now, was);
    if step.Ident? && step.key == key {
      if step.id in Identities(was.items, key) {
        ItemsStayEqual(was.items, now.items, key, step.id);
      }
      if step.id in Identities(now.items, key) {
        ItemsStayEqual(now.items, was.items, key, step.id);
      }
    }
  }

  lemma PlacesAgree(was: Value, now: Value, step: Step)
    requires SameView(was, now) && PairedByPlace(was, now)
    requires InOrder(was.items, now.items, IdentityKey(NormAll(was.items)).value)
    ensures PartsAgree(Part(was, ByIndex, step), Part(now, ByIndex, step))
  {
    hide Unrepeated, IdentityKey, ViewOf, Norm, SameView;
    var key := IdentityKey(NormAll(was.items)).value;
    assert |ValuesAt(NormAll(was.items), key)| == |was.items|;
    assert |ValuesAt(NormAll(now.items), key)| == |now.items|;
    if step.At? && step.index < |was.items| {
      OrderedRowsStayEqual(was.items, now.items, key, step.index);
    }
  }

  // ----- The exact condition -----

  lemma {:induction false} InStepMeansNoChange(was: Value, now: Value, path: Path)
    requires SameView(was, now) && InStep(was, now)
    ensures EditAt(was, now, path).None?
    decreases path
  {
    hide SameView, ModeOf;
    if path == [] {
      PartsStayEqual(was, now, At(0));
    } else {
      PartsStayEqual(was, now, path[0]);
      var mode := ModeOf(was, now);
      var o, n := Part(was, mode, path[0]), Part(now, mode, path[0]);
      if o.Some? {
        InStepMeansNoChange(o.value, n.value, path[1..]);
      }
    }
  }

  lemma PartsHaveNoChanges(was: Value, now: Value, step: Step)
    requires NoChanges(was, now)
    ensures var mode := ModeOf(was, now);
      var o, n := Part(was, mode, step), Part(now, mode, step);
      (o.Some? <==> n.Some?) && (o.Some? ==> NoChanges(o.value, n.value))
  {
    hide ModeOf;
    var mode := ModeOf(was, now);
    var o, n := Part(was, mode, step), Part(now, mode, step);
    if mode.Fields? || mode.ByIndex? || mode.ByIdentity? {
      forall path ensures PartEdit(o, n, path).None? {
        assert EditAt(was, now, [step] + path).None?;
        assert ([step] + path)[1..] == path;
      }
      assert PartEdit(o, n, []).None?;
      if o.Some? && n.Some? {
        forall path ensures EditAt(o.value, n.value, path).None? {
          assert PartEdit(o, n, path).None?;
        }
      }
    }
  }

  lemma {:induction false} NoChangesMeansInStep(was: Value, now: Value)
    requires NoChanges(was, now)
    ensures InStep(was, now)
    decreases was
  {
    hide ModeOf, NoChanges;
    var mode := ModeOf(was, now);
    forall step | Part(was, mode, step).Some? && Part(now, mode, step).Some?
      ensures InStep(Part(was, mode, step).value, Part(now, mode, step).value)
    {
      PartsHaveNoChanges(was, now, step);
      NoChangesMeansInStep(Part(was, mode, step).value, Part(now, mode, step).value);
    }
    if PairedByPlace(was, now) {
      NoChangesMeansInOrder(was, now);
    }
  }

  lemma NoChangesMeansInOrder(was: Value, now: Value)
    requires NoChanges(was, now) && PairedByPlace(was, now)
    ensures InOrder(was.items, now.items, IdentityKey(NormAll(was.items)).value)
  {
    hide ModeOf, NoChanges, Unrepeated, SameView, Norm;
    var key := IdentityKey(NormAll(was.items)).value;
    NoChangesMeansSameView(was, now);
    NormsShareTheirKey(was.items, now.items);
    var a, b := NormAll(was.items), NormAll(now.items);
    PartsHaveNoChanges(was, now, At(|was.items|));
    PartsHaveNoChanges(was, now, At(|now.items|));
    assert Part(now, ByIndex, At(|was.items|)).None? && Part(was, ByIndex, At(|now.items|)).None?;
    forall i | 0 <= i < |a| ensures i < |b| && ValuesAt(a, key)[i] == ValuesAt(b, key)[i] {
      PartsHaveNoChanges(was, now, At(i));
      NoChangesMeansSameView(was.items[i], now.items[i]);
      SameRowSameIdentity(was.items, now.items, key, i);
    }
    assert |a| == |b|;
    assert ValuesAt(a, key) == ValuesAt(b, key);
  }

  lemma SameRowSameIdentity(a: seq<Value>, b: seq<Value>, key: string, i: nat)
    requires i < |a| && i < |b| && SameView(a[i], b[i])
    requires KeyedBy(NormAll(a), key) && KeyedBy(NormAll(b), key)
    ensures NormAll(a)[i].fields[key] == NormAll(b)[i].fields[key]
  {
    hide ViewOf;
    assert Carries(NormAll(a)[i], key) && Carries(NormAll(b)[i], key);
    IdentitiesAreScalars(NormAll(a)[i], NormAll(b)[i], key);
  }

  /** For all documents: the diff is empty exactly for those that are equal up to the order of
      identity-keyed lists and in step where a boolean under an identity key has rows paired by
      their places. */
  lemma DiffIsEmptyIff(was: Value, now: Value)
    ensures NoChanges(was, now) <==> SameView(was, now) && InStep(was, now)
  {
    hide SameView, InStep;
    if NoChanges(was, now) {
      NoChangesMeansSameView(was, now);
      NoChangesMeansInStep(was, now);
    }
    if SameView(was, now) && InStep(was, now) {
      forall path ensures EditAt(was, now, path).None? { InStepMeansNoChange(was, now, path); }
    }
  }

  // ----- Documents without such booleans -----

  /** No object of the document holds a boolean under one of the identity keys. */
  ghost predicate PlainKeys(v: Value) {
    match v
    case Obj(fields) => forall k :: k in fields ==>
      (k in IDENTITY_KEYS ==> !fields[k].Bool?) && PlainKeys(fields[k])
    case Arr(items) => forall i :: 0 <= i < |items| ==> PlainKeys(items[i])
    case _ => true
  }

  lemma PlainPart(v: Value, mode: Mode, step: Step)
    requires PlainKeys(v) && Part(v, mode, step).Some?
    ensures PlainKeys(Part(v, mode, step).value)
  {
  }

  /** Plain lists that are equal up to order are paired by identity whenever a key tells their
      items apart. */
  lemma PlainListsAreNotPairedByPlace(was: Value, now: Value)
    requires SameView(was, now) && PlainKeys(was) && PlainKeys(now)
    ensures !PairedByPlace(was, now)
  {
    hide KeyedBy, SameView, Norm;
    if was.Arr? && now.Arr? {
      NormsShareTheirKey(was.items, now.items);
      PlainKeyIsKept(was.items);
      PlainKeyIsKept(now.items);
    }
  }

  lemma PlainKeyIsKept(items: seq<Value>)
    requires PlainKeys(Arr(items))
    ensures IdentityKey(NormAll(items)) == IdentityKey(items)
  {
    hide KeyedBy, Norm;
    forall k | k in IDENTITY_KEYS ensures KeyedBy(NormAll(items), k) <==> KeyedBy(items, k) {
      KeyedIff(items, k);
    }
    FirstKeyAgrees(NormAll(items), items, IDENTITY_KEYS);
    NormKeepsObjects(items);
  }

  lemma {:induction false} PlainMeansInStep(was: Value, now: Value)
    requires SameView(was, now) && PlainKeys(was) && PlainKeys(now)
    ensures InStep(was, now)
    decreases was
  {
    hide ModeOf, SameView, PlainKeys;
    var mode := ModeOf(was, now);
    PlainListsAreNotPairedByPlace(was, now);
    forall step | Part(was, mode, step).Some? && Part(now, mode, step).Some?
      ensures InStep(Part(was, mode, step).value, Part(now, mode, step).value)
    {
      PartsOfPlain(was, now, step);
      PlainPart(was, mode, step);
      PlainPart(now, mode, step);
      PlainMeansInStep(Part(was, mode, step).value, Part(now, mode, step).value);
    }
  }

  lemma PartsOfPlain(was: Value, now: Value, step: Step)
    requires SameView(was, now) && PlainKeys(was) && PlainKeys(now)
    ensures PartsAgree(Part(was, ModeOf(was, now), step), Part(now, ModeOf(was, now), step))
  {
    hide SameView, PlainKeys, KeyedBy, ViewOf, Norm;
    if !LooselyEqual(was, now) {
      SameKind(was, now);
      PlainListsAreNotPairedByPlace(was, now);
      if was.Obj? {
        FieldsStayEqual(was, now, step);
      } else {
        AllObjectsBoth(was.items, now.items);
        var mode := ModeOf(was, now);
        if mode.ByIdentity? {
          ItemPartsAgree(was, now, mode.key, step);
        } else {
          RowsStayEqual(was, now, step);
        }
      }
    }
  }

  /** Without booleans under identity keys the diff is empty exactly up to order. */
  lemma PlainDiffIsEmptyIff(was: Value, now: Value)
    requires PlainKeys(was) && PlainKeys(now)
    ensures NoChanges(was, now) <==> SameView(was, now)
  {
    hide SameView, PlainKeys, NoChanges;
    DiffIsEmptyIff(was, now);
    if SameView(was, now) { PlainMeansInStep(was, now); }
  }

  // ----- Reordered lists -----

  lemma {:induction false} OnceAmongDistinct(a: seq<Value>, x: Value)
    requires forall i, j :: 0 <= i < j < |a| ==> a[i] != a[j]
    ensures multiset(a)[x] <= 1
  {
    if a != [] {
      assert a == [a[0]] + a[1..];
      OnceAmongDistinct(a[1..], x);
      if a[0] == x { assert x !in a[1..]; }
    }
  }

  lemma TwiceInASequence(b: seq<Value>, i: nat, j: nat)
    requires i < j < |b| && b[i] == b[j]
    ensures multiset(b)[b[i]] >= 2
  {
    assert b == b[..j] + [b[j]] + b[j + 1..];
    assert b[..j][i] == b[i];
    assert b[i] in multiset(b[..j]);
  }

  /** `f` finds every item of `b` in `a`. */
  ghost predicate Finds(a: seq<Value>, b: seq<Value>, f: seq<nat>) {
    && |f| == |b| && (forall j :: 0 <= j < |b| ==> f[j] < |a| && a[f[j]] == b[j])
    && (forall i, j :: 0 <= i < j < |b| ==> f[i] != f[j])
  }

  lemma PlacesOfReordered(a: seq<Value>, b: seq<Value>) returns (f: seq<nat>)
    requires multiset(a) == multiset(b) && forall i, j :: 0 <= i < j < |a| ==> a[i] != a[j]
    ensures Finds(a, b, f) && forall i, j :: 0 <= i < j < |b| ==> b[i] != b[j]
  {
    f := [];
    while |f| < |b|
      invariant |f| <= |b|
      invariant forall j :: 0 <= j < |f| ==> f[j] < |a| && a[f[j]] == b[j]
    {
      assert b[|f|] in multiset(b);
      assert b[|f|] in a;
      var p :| 0 <= p < |a| && a[p] == b[|f|];
      f := f + [p];
    }
    forall i, j | 0 <= i < j < |b| ensures b[i] != b[j] {
      OnceAmongDistinct(a, b[i]);
      if b[i] == b[j] { TwiceInASequence(b, i, j); }
    }
  }

  lemma FoundMatches(a: seq<Value>, b: seq<Value>, f: seq<nat>)
    requires Finds(a, b, f) && AllObjects(a)
    ensures AllObjects(b) && Matches(a, b, f) && Matches(NormAll(a), NormAll(b), f)
  {
    hide ViewOf, Norm;
    NormKeepsObjects(a);
    NormKeepsObjects(b);
  }

  lemma KeyedItemsAreDistinct(a: seq<Value>, key: string)
    requires KeyedBy(NormAll(a), key)
    ensures forall i, j :: 0 <= i < j < |a| ==> a[i] != a[j]
  {
    hide Norm;
    forall i, j | 0 <= i < j < |a| ensures a[i] != a[j] {
      KeyedItemsDiffer(NormAll(a), key, i, j);
    }
  }

  lemma ReorderedLooksTheSame(a: seq<Value>, b: seq<Value>, f: seq<nat>, g: seq<nat>)
    requires Finds(a, b, f) && Finds(b, a, g) && AllObjects(a) && IdentityKey(NormAll(a)).Some?
    ensures SameView(Arr(a), Arr(b)) && IdentityKey(a) == IdentityKey(b) && AllObjects(b)
  {
    hide KeyedBy, ViewOf, Norm, Matches, Finds;
    FoundMatches(a, b, f);
    FoundMatches(b, a, g);
    MatchedListsShareTheirKey(a, b, f, g);
    MatchedTablesAgree(NormAll(a), NormAll(b), f, g);
    NormOfList(a);
    NormOfList(b);
  }

  /** A list whose items some key tells apart, once booleans are read as integers, and any proper
      reordering of it: the diff is empty exactly when the list itself has an identity key. */
  lemma ReorderingIsUnreportedIff(a: seq<Value>, b: seq<Value>)
    requires multiset(a) == multiset(b) && IdentityKey(NormAll(a)).Some? && !LooselyEqual(Arr(a), Arr(b))
    ensures NoChanges(Arr(a), Arr(b)) <==> IdentityKey(a).Some?
  {
    hide NoChanges, KeyedBy, SameView, InStep, NormAll, Finds;
    var key := IdentityKey(NormAll(a)).value;
    NormKeepsObjects(a);
    KeyedItemsAreDistinct(a, key);
    var f := PlacesOfReordered(a, b);
    var g := PlacesOfReordered(b, a);
    ReorderedLooksTheSame(a, b, f, g);
    AllObjectsBoth(a, b);
    DiffIsEmptyIff(Arr(a), Arr(b));
    if IdentityKey(a).Some? {
      ReorderedItemsAreInStep(a, b, f);
    } else if NoChanges(Arr(a), Arr(b)) {
      NoChangesMeansInOrder(Arr(a), Arr(b));
      SameOrderMeansSameList(a, b, f, key);
    }
  }

  lemma NormOfList(items: seq<Value>)
    ensures Norm(Arr(items)) == Arr(NormAll(items))
  {
    hide NormAll;
  }

  lemma ReorderedItemsAreInStep(a: seq<Value>, b: seq<Value>, f: seq<nat>)
    requires Finds(a, b, f) && AllObjects(a) && AllObjects(b)
    requires IdentityKey(a).Some? && IdentityKey(b) == IdentityKey(a) && !LooselyEqual(Arr(a), Arr(b))
    ensures InStep(Arr(a), Arr(b))
  {
    hide KeyedBy, Norm, ViewOf;
    var key := IdentityKey(a).value;
    var mode := ModeOf(Arr(a), Arr(b));
    assert mode == ByIdentity(key);
    forall step | Part(Arr(a), mode, step).Some? && Part(Arr(b), mode, step).Some?
      ensures InStep(Part(Arr(a), mode, step).value, Part(Arr(b), mode, step).value)
    {
      var x, y := Part(Arr(a), mode, step).value, Part(Arr(b), mode, step).value;
      var j := PositionOf(b, key, step.id);
      ItemAtIdentity(b, key, j);
      ItemAtIdentity(a, key, f[j]);
      assert x == y;
      assert ModeOf(x, y) == Same;
    }
  }

  lemma SameOrderMeansSameList(a: seq<Value>, b: seq<Value>, f: seq<nat>, key: string)
    requires Finds(a, b, f) && InOrder(a, b, key)
    ensures a == b
  {
    hide Norm;
    var x, y := NormAll(a), NormAll(b);
    assert |ValuesAt(x, key)| == |ValuesAt(y, key)|;
    forall i | 0 <= i < |a| ensures a[i] == b[i] {
      assert ValuesAt(x, key)[i] == ValuesAt(y, key)[i];
      assert x[f[i]] == y[i];
      if f[i] != i { KeyedItemsDiffer(x, key, f[i], i); }
    }
  }

  const ONE := Obj(map["id" := Int(1), "sku" := Int(1)])
  const TWO := Obj(map["id" := Int(2), "sku" := Int(2)])
  const YES := Obj(map["id" := Bool(true), "sku" := Int(1)])

  /** A boolean under an identity key makes the two sides choose different keys, and a mere
      reordering is then reported row by row. */
  lemma BooleanUnderAnIdentityKey()
    ensures SameView(Arr([ONE, TWO]), Arr([TWO, YES])) && !NoChanges(Arr([ONE, TWO]), Arr([TWO, YES]))
  {
    ReorderedPairLooksTheSame();
    ReorderedPairIsReported();
  }

  lemma ReorderedPairLooksTheSame()
    ensures SameView(Arr([ONE, TWO]), Arr([TWO, YES]))
  {
    hide ViewOf, KeyedBy;
    NormOfThePair();
    var f: seq<nat> := [1, 0];
    assert Matches([ONE, TWO], [TWO, ONE], f) && Matches([TWO, ONE], [ONE, TWO], f);
    KeyedPair(ONE, TWO);
    MatchedTablesAgree([ONE, TWO], [TWO, ONE], f, f);
  }

  lemma NormOfThePair()
    ensures NormAll([ONE, TWO]) == [ONE, TWO] && NormAll([TWO, YES]) == [TWO, ONE]
    ensures Norm(Arr([ONE, TWO])) == Arr([ONE, TWO]) && Norm(Arr([TWO, YES])) == Arr([TWO, ONE])
    ensures AllObjects([ONE, TWO]) && AllObjects([TWO, ONE])
  {
    assert Norm(YES) == ONE && Norm(ONE) == ONE && Norm(TWO) == TWO;
    assert NormAll([ONE, TWO]) == [ONE, TWO] && NormAll([TWO, YES]) == [TWO, ONE];
  }

  lemma ReorderedPairIsReported()
    ensures EditAt(Arr([ONE, TWO]), Arr([TWO, YES]), [At(0), Field("id")]).Some?
  {
    hide KeyedBy, FirstKey, ViewOf;
    var a, b := Arr([ONE, TWO]), Arr([TWO, YES]);
    KeyedPair(ONE, TWO);
    YesIsNotKeyed();
    assert Norm(a).items[0] == ONE && Norm(b).items[0] == TWO;
    assert ModeOf(a, b) == ByIndex;
    var path := [At(0), Field("id")];
    assert path[1..] == [Field("id")];
    FieldReported();
  }

  lemma FieldReported()
    ensures EditAt(ONE, TWO, [Field("id")]).Some?
  {
    assert Norm(ONE).fields["id"] == Int(1) && Norm(TWO).fields["id"] == Int(2);
    assert ModeOf(ONE, TWO) == Fields;
    assert Part(ONE, Fields, Field("id")) == Some(Int(1));
    assert EditAt(Int(1), Int(2), []) == Some(Change(Int(1), Int(2)));
    assert [Field("id")][1..] == [];
  }

  lemma YesIsNotKeyed()
    ensures IdentityKey([TWO, YES]) != Some("id")
  {
    assert [TWO, YES][1] == YES && !Carries(YES, "id");
    assert !KeyedBy([TWO, YES], "id");
  }

  lemma KeyedPair(one: Value, two: Value)
    requires Carries(one, "id") && Carries(two, "id") && one.fields["id"] != two.fields["id"]
    ensures IdentityKey([one, two]) == Some("id")
  {
    var vs := ValuesAt([one, two], "id");
    assert vs[1..] == [two.fields["id"]] && vs[1..][1..] == [];
    assert KeyedBy([one, two], "id") && IDENTITY_KEYS[0] == "id";
  }

  // ----- Booleans and integers -----

  lemma {:induction false} NormIsNormal(v: Value)
    ensures Norm(Norm(v)) == Norm(v)
  {
    match v
    case Arr(items) =>
      forall i | 0 <= i < |items| ensures Norm(Norm(items[i])) == Norm(items[i]) { NormIsNormal(items[i]); }
      assert NormAll(NormAll(items)) == NormAll(items);
    case Obj(fields) =>
      forall k | k in fields ensures Norm(Norm(fields[k])) == Norm(fields[k]) { NormIsNormal(fields[k]); }
      assert Norm(Norm(v)).fields == Norm(v).fields;
    case _ =>
  }

  /** true and 1, false and 0 are the same value to the source's comparison: documents that differ
      in nothing else have no diff, such as any document and its copy with integers for booleans. */
  lemma BooleansCountAsIntegers(was: Value, now: Value)
    ensures LooselyEqual(was, now) ==> NoChanges(was, now)
    ensures NoChanges(was, Norm(was)) && NoChanges(Norm(was), was)
  {
    NormIsNormal(was);
  }
}
