/** Replaying a list of changes on the old document, and what documents that differ
    only in the order of identity-keyed lists have in common. */
module DocumentReplay {
  import opened Wrappers
  import opened Documents
  import opened DocumentDiff

  // ----- Replay: every path is read as an address in the old document -----

  /** The changes below one step, addressed from there. */
  function Below(changes: seq<Entry>, step: Step): seq<Entry> {
    if changes == [] then []
    else
      var e, rest := changes[0], Below(changes[1..], step);
      if e.path != [] && e.path[0] == step then [Entry(e.path[1..], e.edit)] + rest else rest
  }

  lemma {:induction false} InBelow(changes: seq<Entry>, step: Step, e: Entry)
    ensures e in Below(changes, step) <==> Entry([step] + e.path, e.edit) in changes
  {
    if changes != [] {
      var first, whole := changes[0], Entry([step] + e.path, e.edit);
      InBelow(changes[1..], step, e);
      assert whole.path[1..] == e.path;
      if first.path != [] && first.path[0] == step {
        assert first.path == [step] + first.path[1..];
      }
      assert whole in changes <==> whole == first || whole in changes[1..];
    }
  }

  /** The change of the value itself. */
  function Here(changes: seq<Entry>): (r: Option<Edit>)
    ensures r.Some? ==> Entry([], r.value) in changes
    ensures r.None? ==> forall e :: e in changes ==> e.path != []
  {
    if changes == [] then None
    else if changes[0].path == [] then Some(changes[0].edit)
    else Here(changes[1..])
  }

  function AfterEdit(edit: Option<Edit>, replayed: Option<Value>): Option<Value> {
    match edit
    case Some(Add(v)) => Some(v)
    case Some(Remove(_)) => None
    case _ => replayed
  }

  function FieldHeads(changes: seq<Entry>): (r: set<string>)
    ensures forall k :: k in r <==> exists e :: e in changes && e.path != [] && e.path[0] == Field(k)
  {
    set e | e in changes && e.path != [] && e.path[0].Field? :: e.path[0].name
  }

  /** The key by which the changes address the items of a list, if they do. */
  function ListKey(changes: seq<Entry>): (r: Option<string>)
    ensures r.Some? ==> exists e :: e in changes && e.path != [] && e.path[0].Ident? && e.path[0].key == r.value
    ensures r.None? ==> forall e :: e in changes && e.path != [] ==> !e.path[0].Ident?
  {
    if changes == [] then None
    else if changes[0].path != [] && changes[0].path[0].Ident? then Some(changes[0].path[0].key)
    else ListKey(changes[1..])
  }

  function ItemStep(item: Value, key: Option<string>, index: nat): Step {
    if key.Some? && item.Obj? && key.value in item.fields then Ident(key.value, item.fields[key.value])
    else At(index)
  }

  /** New items of an identity-keyed list go to its end, in the order of the changes. */
  function AddedItems(changes: seq<Entry>): seq<Value> {
    if changes == [] then []
    else
      var e := changes[0];
      (if |e.path| == 1 && e.path[0].Ident? && e.edit.Add? then [e.edit.added] else []) +
      AddedItems(changes[1..])
  }

  function LastIndex(changes: seq<Entry>): (r: int)
    ensures forall e :: e in changes && e.path != [] && e.path[0].At? ==> e.path[0].index <= r
  {
    if changes == [] then -1
    else
      var e, rest := changes[0], LastIndex(changes[1..]);
      if e.path != [] && e.path[0].At? && rest < e.path[0].index then e.path[0].index else rest
  }

  /** New rows of any other list go to its end by their index. */
  function AddedRows(changes: seq<Entry>, index: nat): seq<Value>
    decreases LastIndex(changes) + 1 - index
  {
    var edit := Here(Below(changes, At(index)));
    if index <= LastIndex(changes) && edit.Some? && edit.value.Add? then
      [edit.value.added] + AddedRows(changes, index + 1)
    else []
  }

  function Replay(doc: Value, changes: seq<Entry>): Value
    decreases doc, 1
  {
    var edit := Here(changes);
    if edit.Some? && edit.value.Change? then edit.value.after
    else
      match doc
      case Obj(fields) => Obj(ReplayFields(doc, changes))
      case Arr(items) =>
        var key := ListKey(changes);
        Arr(ReplayItems(items, 0, key, changes) +
            (if key.Some? then AddedItems(changes) else AddedRows(changes, |items|)))
      case _ => doc
  }

  function ReplayFields(doc: Value, changes: seq<Entry>): map<string, Value>
    requires doc.Obj?
    decreases doc, 0
  {
    map k | k in doc.fields.Keys + FieldHeads(changes) &&
            FieldAfter(doc, changes, k).Some? :: FieldAfter(doc, changes, k).value
  }

  function FieldAfter(doc: Value, changes: seq<Entry>, k: string): Option<Value>
    requires doc.Obj?
    decreases doc, 0, 0
  {
    var below := Below(changes, Field(k));
    AfterEdit(Here(below), if k in doc.fields then Some(Replay(doc.fields[k], below)) else None)
  }

  function ItemAfter(items: seq<Value>, i: nat, key: Option<string>, changes: seq<Entry>): Option<Value>
    requires items != []
    decreases items, 0, 0
  {
    var below := Below(changes, ItemStep(items[0], key, i));
    AfterEdit(Here(below), Some(Replay(items[0], below)))
  }

  function ReplayItems(items: seq<Value>, i: nat, key: Option<string>, changes: seq<Entry>): seq<Value>
    decreases items, 0
  {
    if items == [] then []
    else
      var item := ItemAfter(items, i, key, changes);
      (if item.Some? then [item.value] else []) + ReplayItems(items[1..], i + 1, key, changes)
  }
}
