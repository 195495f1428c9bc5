/** JSON documents of the history store and the field-level difference of two of them. */
module Documents {
  import opened Wrappers

  /** A canonical document: what is left once every database type has been rendered. */
  datatype Value =
    | Null
    | Bool(b: bool)
    | Int(n: int)
    | Str(s: string)
    | Arr(items: seq<Value>)
    | Obj(fields: map<string, Value>)

  /** The equality of the source language does not tell true from 1 nor false from 0.
      `Norm` writes booleans as those integers, so that two documents are equal
      in that sense exactly when their normal forms are the same value. */
  function Norm(v: Value): Value {
    match v
    case Bool(b) => Int(if b then 1 else 0)
    case Arr(items) => Arr(NormAll(items))
    case Obj(fields) => Obj(map k | k in fields :: Norm(fields[k]))
    case _ => v
  }

  function NormAll(items: seq<Value>): (r: seq<Value>)
    ensures |r| == |items|
    ensures forall i :: 0 <= i < |items| ==> r[i] == Norm(items[i])
  {
    seq(|items|, i requires 0 <= i < |items| => Norm(items[i]))
  }

  predicate LooselyEqual(a: Value, b: Value) {
    Norm(a) == Norm(b)
  }

  // ----- Identity keys of a list -----

  const IDENTITY_KEYS: seq<string> :=
    ["id", "chrtID", "chrt_id", "nmID", "attribute_id", "sku", "vendorCode", "key"]

  predicate AllObjects(items: seq<Value>) {
    forall i :: 0 <= i < |items| ==> items[i].Obj?
  }

  predicate CanIdentify(v: Value) {
    v.Str? || v.Int?
  }

  predicate Unrepeated(vs: seq<Value>) {
    vs == [] || (vs[0] !in vs[1..] && Unrepeated(vs[1..]))
  }

  lemma {:induction false} UnrepeatedMeansDistinct(vs: seq<Value>)
    ensures Unrepeated(vs) <==> forall i, j :: 0 <= i < j < |vs| ==> vs[i] != vs[j]
  {
    if vs != [] {
      UnrepeatedMeansDistinct(vs[1..]);
      if Unrepeated(vs) {
        forall i, j | 0 <= i < j < |vs| ensures vs[i] != vs[j] {
          assert vs[j] == vs[1..][j - 1];
          if i > 0 { assert vs[i] == vs[1..][i - 1]; }
        }
      } else if vs[0] in vs[1..] {
        var j :| 0 <= j < |vs[1..]| && vs[1..][j] == vs[0];
        assert vs[0] == vs[1 + j];
      } else {
        var i, j :| 0 <= i < j < |vs[1..]| && vs[1..][i] == vs[1..][j];
        assert vs[1 + i] == vs[1 + j];
      }
    }
  }

  predicate Carries(item: Value, key: string) {
    item.Obj? && key in item.fields && CanIdentify(item.fields[key])
  }

  predicate AllCarry(items: seq<Value>, key: string) {
    forall i :: 0 <= i < |items| ==> Carries(items[i], key)
  }

  function ValuesAt(items: seq<Value>, key: string): (r: seq<Value>)
    requires AllCarry(items, key)
    ensures |r| == |items| && forall i :: 0 <= i < |r| ==> r[i] == items[i].fields[key]
  {
    seq(|items|, i requires 0 <= i < |items| => items[i].fields[key])
  }

  /** Every item is an object that carries `key`, and no two carry the same value there. */
  predicate KeyedBy(items: seq<Value>, key: string) {
    AllCarry(items, key) && Unrepeated(ValuesAt(items, key))
  }

  lemma KeyedItemsDiffer(items: seq<Value>, key: string, i: nat, j: nat)
    requires KeyedBy(items, key) && i < |items| && j < |items| && i != j
    ensures items[i].fields[key] != items[j].fields[key]
  {
    UnrepeatedMeansDistinct(ValuesAt(items, key));
  }

  function FirstKey(items: seq<Value>, keys: seq<string>): (r: Option<string>)
    ensures r.Some? ==> r.value in keys && KeyedBy(items, r.value)
    ensures r.None? ==> forall k :: k in keys ==> !KeyedBy(items, k)
  {
    if keys == [] then None
    else if KeyedBy(items, keys[0]) then Some(keys[0])
    else FirstKey(items, keys[1..])
  }

  function IdentityKey(items: seq<Value>): (r: Option<string>)
    ensures r.Some? ==> items != [] && r.value in IDENTITY_KEYS && KeyedBy(items, r.value)
    ensures r.None? && items != [] ==> forall k :: k in IDENTITY_KEYS ==> !KeyedBy(items, k)
  {
    if items == [] || !AllObjects(items) then None else FirstKey(items, IDENTITY_KEYS)
  }

  function Identities(items: seq<Value>, key: string): set<Value>
    requires KeyedBy(items, key)
  {
    set v | v in ValuesAt(items, key)
  }

  function FirstIndex(vs: seq<Value>, v: Value): (i: nat)
    requires v in vs
    ensures i < |vs| && vs[i] == v
  {
    if vs[0] == v then 0 else 1 + FirstIndex(vs[1..], v)
  }

  /** The position of the item whose `key` holds `id`. */
  function PositionOf(items: seq<Value>, key: string, id: Value): (i: nat)
    requires KeyedBy(items, key) && id in Identities(items, key)
    ensures i < |items| && items[i].fields[key] == id
  {
    FirstIndex(ValuesAt(items, key), id)
  }

  function ItemWith(items: seq<Value>, key: string, id: Value): (item: Value)
    requires KeyedBy(items, key) && id in Identities(items, key)
    ensures item in items && item.Obj? && key in item.fields && item.fields[key] == id
  {
    items[PositionOf(items, key, id)]
  }

  // ----- The difference, addressed by structured paths -----

  datatype Step = Field(name: string) | At(index: nat) | Ident(key: string, id: Value)
  type Path = seq<Step>

  datatype Edit = Add(added: Value) | Remove(removed: Value) | Change(before: Value, after: Value)

  /** How a pair of values is compared. */
  datatype Mode = Same | Fields | ByIdentity(key: string) | ByIndex | Whole

  function ModeOf(was: Value, now: Value): (r: Mode)
    ensures r.ByIdentity? ==> was.Arr? && now.Arr? && was.items != [] && now.items != []
    ensures r.ByIdentity? ==> r.key in IDENTITY_KEYS && KeyedBy(was.items, r.key) && KeyedBy(now.items, r.key)
    ensures r.ByIndex? ==> was.Arr? && now.Arr? && AllObjects(was.items + now.items)
    ensures r.Fields? ==> was.Obj? && now.Obj?
  {
    if LooselyEqual(was, now) then Same
    else if was.Obj? && now.Obj? then Fields
    else if was.Arr? && now.Arr? then
      var key := IdentityKey(was.items);
      if key.Some? && IdentityKey(now.items) == key then ByIdentity(key.value)
      else if AllObjects(was.items + now.items) then ByIndex
      else Whole
    else Whole
  }

  /** The part of a value that a step leads to. */
  function Part(v: Value, mode: Mode, step: Step): (r: Option<Value>)
    ensures r.Some? ==> r.value < v
  {
    match (mode, step)
    case (Fields, Field(name)) =>
      if v.Obj? && name in v.fields then Some(v.fields[name]) else None
    case (ByIdentity(key), Ident(k, id)) =>
      if k == key && v.Arr? && KeyedBy(v.items, key) && id in Identities(v.items, key)
      then Some(ItemWith(v.items, key, id)) else None
    case (ByIndex, At(i)) =>
      if v.Arr? && i < |v.items| then Some(v.items[i]) else None
    case _ => None
  }

  /** The edit reported for exactly this path, if any. */
  function EditAt(was: Value, now: Value, path: Path): Option<Edit>
    decreases path, 0
  {
    var mode := ModeOf(was, now);
    if mode.Same? then None
    else if mode.Whole? then
      if path == [] then Some(Change(was, now)) else None
    else if path == [] then None
    else PartEdit(Part(was, mode, path[0]), Part(now, mode, path[0]), path[1..])
  }

  function PartEdit(was: Option<Value>, now: Option<Value>, path: Path): Option<Edit>
    decreases path, 1
  {
    if was.None? && now.None? then None
    else if was.None? then if path == [] then Some(Add(now.value)) else None
    else if now.None? then if path == [] then Some(Remove(was.value)) else None
    else EditAt(was.value, now.value, path)
  }

  /** No reported path lies inside another one. */
  lemma {:induction false} PathsArePrefixFree(was: Value, now: Value, path: Path, more: Path)
    requires EditAt(was, now, path).Some? && more != []
    ensures EditAt(was, now, path + more).None?
    decreases path
  {
    hide ModeOf, Part;
    if path != [] {
      var mode := ModeOf(was, now);
      var o, n := Part(was, mode, path[0]), Part(now, mode, path[0]);
      assert (path + more)[0] == path[0] && (path + more)[1..] == path[1..] + more;
      if o.Some? && n.Some? {
        PathsArePrefixFree(o.value, n.value, path[1..], more);
      }
    }
  }

  function Flip(e: Option<Edit>): Option<Edit> {
    match e
    case None => None
    case Some(Add(v)) => Some(Remove(v))
    case Some(Remove(v)) => Some(Add(v))
    case Some(Change(o, n)) => Some(Change(n, o))
  }

  /** The difference in the other direction holds the same paths with every edit undone. */
  lemma {:induction false} DiffIsSymmetric(was: Value, now: Value, path: Path)
    ensures EditAt(now, was, path) == Flip(EditAt(was, now, path))
    decreases path
  {
    hide ModeOf, Part;
    ModeIsSymmetric(was, now);
    if path != [] {
      var mode := ModeOf(was, now);
      var o, n := Part(was, mode, path[0]), Part(now, mode, path[0]);
      if o.Some? && n.Some? {
        DiffIsSymmetric(o.value, n.value, path[1..]);
      }
    }
  }

  lemma ModeIsSymmetric(was: Value, now: Value)
    ensures ModeOf(now, was) == ModeOf(was, now)
  {
    if was.Arr? && now.Arr? {
      AllObjectsBoth(was.items, now.items);
      AllObjectsBoth(now.items, was.items);
    }
  }

  lemma AllObjectsBoth(a: seq<Value>, b: seq<Value>)
    ensures AllObjects(a + b) <==> AllObjects(a) && AllObjects(b)
  {
    if AllObjects(a + b) {
      forall i | 0 <= i < |a| ensures a[i].Obj? { assert (a + b)[i] == a[i]; }
      forall i | 0 <= i < |b| ensures b[i].Obj? { assert (a + b)[|a| + i] == b[i]; }
    }
  }
}
