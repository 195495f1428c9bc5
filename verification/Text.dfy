/** Trimming of white space. */
module Text {

  /** The characters that count as white space. */
  predicate IsSpace(c: char) {
    || '\t' <= c <= '\r' || '\U{1C}' <= c <= ' ' || c in {'\U{85}', '\U{A0}', '\U{1680}'}
    || '\U{2000}' <= c <= '\U{200A}' || c in {'\U{2028}', '\U{2029}', '\U{202F}', '\U{205F}', '\U{3000}'}
  }

  predicate Blank(s: string) {
    forall i :: 0 <= i < |s| ==> IsSpace(s[i])
  }

  predicate Trimmed(s: string) {
    s == "" || (!IsSpace(s[0]) && !IsSpace(s[|s| - 1]))
  }

  function StripLeft(s: string): string {
    if s != "" && IsSpace(s[0]) then StripLeft(s[1..]) else s
  }

  function StripRight(s: string): string {
    if s != "" && IsSpace(s[|s| - 1]) then StripRight(s[..|s| - 1]) else s
  }

  function Strip(s: string): string {
    StripRight(StripLeft(s))
  }

  lemma {:induction false} StripLeftSplits(s: string) returns (left: string)
    ensures s == left + StripLeft(s) && Blank(left)
    ensures StripLeft(s) == "" || !IsSpace(StripLeft(s)[0])
  {
    if s != "" && IsSpace(s[0]) {
      var rest := StripLeftSplits(s[1..]);
      left := [s[0]] + rest;
    } else {
      left := "";
    }
  }

  lemma {:induction false} StripRightSplits(s: string) returns (right: string)
    ensures s == StripRight(s) + right && Blank(right)
    ensures StripRight(s) == "" || !IsSpace(StripRight(s)[|StripRight(s)| - 1])
  {
    if s != "" && IsSpace(s[|s| - 1]) {
      var rest := StripRightSplits(s[..|s| - 1]);
      right := rest + [s[|s| - 1]];
    } else {
      right := "";
    }
  }

  /** Trimming removes white space from both ends and leaves none there. */
  lemma StripSplits(s: string) returns (left: string, right: string)
    ensures s == left + Strip(s) + right && Blank(left) && Blank(right) && Trimmed(Strip(s))
  {
    hide StripLeft, StripRight;
    left := StripLeftSplits(s);
    right := StripRightSplits(StripLeft(s));
    assert s == left + Strip(s) + right;
    if Strip(s) != "" { assert Strip(s)[0] == StripLeft(s)[0]; }
  }

  lemma StripOfTrimmed(s: string)
    requires Trimmed(s)
    ensures Strip(s) == s
  {
  }

  lemma StripTwice(s: string)
    ensures Strip(Strip(s)) == Strip(s)
  {
    hide Strip;
    var left, right := StripSplits(s);
    StripOfTrimmed(Strip(s));
  }

  lemma {:induction false} StripLeftIs(s: string, left: string, rest: string)
    requires s == left + rest && Blank(left)
    ensures StripLeft(s) == StripLeft(rest)
  {
    if left != "" {
      assert s[0] == left[0] && s[1..] == left[1..] + rest;
      StripLeftIs(s[1..], left[1..], rest);
    } else {
      assert s == rest;
    }
  }

  /** Trimming the right end keeps everything up to the last character that is not white space. */
  lemma {:induction false} StripRightKeeps(s: string, k: nat)
    requires k < |s| && !IsSpace(s[k])
    ensures k < |StripRight(s)| && StripRight(s) <= s
  {
    if IsSpace(s[|s| - 1]) { StripRightKeeps(s[..|s| - 1], k); }
  }

  /** Once a text has a character that is not white space, trimming removes the same from its left
      whatever follows. */
  lemma StripOfPrefix(left: string, core: string, more: string)
    requires Blank(left) && core != "" && !IsSpace(core[0])
    ensures Strip(left + core + more) == StripRight(core + more)
  {
    assert left + core + more == left + (core + more);
    StripLeftIs(left + core + more, left, core + more);
    assert (core + more)[0] == core[0];
  }
}
