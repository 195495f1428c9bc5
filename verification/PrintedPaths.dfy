/** How paths inside a document are written, and the order of what is written. */
module PrintedPaths {
  import opened Documents

  function Digits(n: nat): string {
    if n < 10 then ["0123456789"[n]] else Digits(n / 10) + ["0123456789"[n % 10]]
  }

  function Number(n: int): string {
    if n < 0 then "-" + Digits(-n) else Digits(n)
  }

  function Child(path: string, key: string): string {
    if path == "" then key else path + "." + key
  }

  function Element(path: string, index: nat): string {
    path + "[" + Digits(index) + "]"
  }

  /** Identities are texts and integers. */
  function Item(path: string, key: string, id: Value): string {
    path + "[" + key + "=" + (if id.Str? then id.s else if id.Int? then Number(id.n) else "") + "]"
  }

  function Print(path: Path): string {
    if path == [] then ""
    else
      var base := Print(path[..|path| - 1]);
      match path[|path| - 1]
      case Field(name) => Child(base, name)
      case At(index) => Element(base, index)
      case Ident(key, id) => Item(base, key, id)
  }

  /** The order of texts, character by character. */
  predicate Precedes(s: string, t: string) {
    s == [] || (t != [] && (s[0] < t[0] || (s[0] == t[0] && Precedes(s[1..], t[1..]))))
  }

  lemma {:induction false} PrecedesIsTotal(s: string, t: string)
    ensures Precedes(s, t) || Precedes(t, s)
  {
    if s != [] && t != [] { PrecedesIsTotal(s[1..], t[1..]); }
  }

  lemma {:induction false} PrecedesIsTransitive(s: string, t: string, u: string)
    requires Precedes(s, t) && Precedes(t, u)
    ensures Precedes(s, u)
  {
    if s != [] && t != [] && u != [] && s[0] == t[0] == u[0] { PrecedesIsTransitive(s[1..], t[1..], u[1..]); }
  }
}
