/** Dropping operator-declared noise from a document before it is stored. */
module IgnoredPaths {
  import opened Wrappers
  import opened Documents
  import opened PrintedPaths

  // ----- Dropping -----

  /** The document without the fields whose printed path is noise. */
  function Strip(v: Value, path: string, noise: string -> bool): Value {
    match v
    case Obj(fields) =>
      Obj(map k | k in fields && !noise(Child(path, k)) :: Strip(fields[k], Child(path, k), noise))
    case Arr(items) => Arr(StripAll(items, path, noise))
    case _ => v
  }

  function StripAll(items: seq<Value>, path: string, noise: string -> bool): (r: seq<Value>)
    ensures |r| == |items|
  {
    seq(|items|, i requires 0 <= i < |items| => Strip(items[i], Element(path, i), noise))
  }

  /** Fills the kept fields one by one and the list items in order. */
  method StripIgnored(v: Value, path: string, noise: string -> bool) returns (r: Value)
    ensures r == Strip(v, path, noise)
    decreases v
  {
    match v
    case Obj(fields) =>
      var kept: map<string, Value> := map[];
      var todo := fields.Keys;
      while todo != {}
        invariant todo <= fields.Keys
        invariant kept == map k | k in fields && k !in todo && !noise(Child(path, k)) :: Strip(fields[k], Child(path, k), noise)
        decreases todo
      {
        var k :| k in todo;
        if !noise(Child(path, k)) {
          var item := StripIgnored(fields[k], Child(path, k), noise);
          kept := kept[k := item];
        }
        todo := todo - {k};
      }
      r := Obj(kept);
    case Arr(items) =>
      var walked: seq<Value> := [];
      for i := 0 to |items|
        invariant walked == StripAll(items, path, noise)[..i]
      {
        var item := StripIgnored(items[i], Element(path, i), noise);
        walked := walked + [item];
      }
      r := Arr(walked);
    case _ => r := v;
  }

  // ----- What stays -----

  datatype Hop = Key(key: string) | Index(index: nat)

  /** What stands at the end of some steps. */
  function Find(v: Value, steps: seq<Hop>): Option<Value> {
    if steps == [] then Some(v)
    else
      match steps[0]
      case Key(k) => if v.Obj? && k in v.fields then Find(v.fields[k], steps[1..]) else None
      case Index(i) => if v.Arr? && i < |v.items| then Find(v.items[i], steps[1..]) else None
  }

  function Printed(path: string, step: Hop): string {
    match step
    case Key(k) => Child(path, k)
    case Index(i) => Element(path, i)
  }

  function PrintedAll(path: string, steps: seq<Hop>): string
    decreases steps
  {
    if steps == [] then path else PrintedAll(Printed(path, steps[0]), steps[1..])
  }

  /** No key on the way is noise; list positions never are. */
  predicate Quiet(path: string, steps: seq<Hop>, noise: string -> bool)
    decreases steps
  {
    steps == [] ||
    ((steps[0].Key? ==> !noise(Printed(path, steps[0]))) && Quiet(Printed(path, steps[0]), steps[1..], noise))
  }

  /** Exactly the places without noise on their way stay, each holding its own stripped value. */
  lemma {:induction false} StaysIffQuiet(v: Value, path: string, noise: string -> bool, steps: seq<Hop>)
    ensures Find(Strip(v, path, noise), steps) ==
            if Find(v, steps).Some? && Quiet(path, steps, noise)
            then Some(Strip(Find(v, steps).value, PrintedAll(path, steps), noise)) else None
    decreases steps
  {
    if steps != [] {
      match steps[0]
      case Key(k) => if v.Obj? && k in v.fields { StaysIffQuiet(v.fields[k], Child(path, k), noise, steps[1..]); }
      case Index(i) => if v.Arr? && i < |v.items| { StaysIffQuiet(v.items[i], Element(path, i), noise, steps[1..]); }
    }
  }

  /** Dropping by two sets of patterns one after the other is dropping by both at once. */
  lemma {:induction false} StripByBoth(v: Value, path: string, a: string -> bool, b: string -> bool, both: string -> bool)
    requires forall p :: both(p) <==> a(p) || b(p)
    ensures Strip(Strip(v, path, a), path, b) == Strip(v, path, both)
    decreases v
  {
    match v
    case Obj(fields) =>
      forall k | k in fields ensures
        Strip(Strip(fields[k], Child(path, k), a), Child(path, k), b) == Strip(fields[k], Child(path, k), both)
      {
        StripByBoth(fields[k], Child(path, k), a, b, both);
      }
    case Arr(items) =>
      forall i | 0 <= i < |items| ensures
        Strip(Strip(items[i], Element(path, i), a), Element(path, i), b) == Strip(items[i], Element(path, i), both)
      {
        StripByBoth(items[i], Element(path, i), a, b, both);
      }
      assert StripAll(StripAll(items, path, a), path, b) == StripAll(items, path, both);
    case _ =>
  }

  /** Dropping a second time drops nothing. */
  lemma StripIsIdempotent(v: Value, path: string, noise: string -> bool)
    ensures Strip(Strip(v, path, noise), path, noise) == Strip(v, path, noise)
  {
    StripByBoth(v, path, noise, noise, noise);
  }
}
