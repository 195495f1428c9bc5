/** Splitting a migration script into statements. */
module SqlSplit {
  import opened Wrappers
  import opened Text

  /** The scanner after some characters. */
  datatype Scan = Scan(statements: seq<string>, buffer: string, single: bool, double: bool, comment: bool,
                       previous: Option<char>)

  const START := Scan([], "", false, false, false, None)

  function Collected(statements: seq<string>, text: string): seq<string> {
    if Strip(text) != "" then statements + [Strip(text)] else statements
  }

  /** A second dash outside quotes takes the first one back and starts a comment. */
  predicate StartsComment(s: Scan, c: char) {
    c == '-' && s.previous == Some('-') && !s.single && !s.double
  }

  function Quoted(s: Scan, c: char): Scan {
    s.(single := if c == '\'' && !s.double then !s.single else s.single,
       double := if c == '"' && !s.single then !s.double else s.double)
  }

  function Step(s: Scan, c: char): Scan {
    if s.comment then
      if c == '\n' then s.(comment := false, buffer := s.buffer + [c], previous := Some(c)) else s.(previous := Some(c))
    else if StartsComment(s, c) then
      s.(buffer := if s.buffer == "" then "" else s.buffer[..|s.buffer| - 1], comment := true, previous := None)
    else
      var q := Quoted(s, c);
      if c == ';' && !q.single && !q.double then
        q.(statements := Collected(q.statements, q.buffer), buffer := "", previous := Some(c))
      else q.(buffer := q.buffer + [c], previous := Some(c))
  }

  function ScanFrom(s: Scan, text: string): Scan
    decreases text
  {
    if text == "" then s else ScanFrom(Step(s, text[0]), text[1..])
  }

  function Final(s: Scan): seq<string> {
    Collected(s.statements, s.buffer)
  }

  function SplitOf(sql: string): seq<string> {
    Final(ScanFrom(START, sql))
  }

  lemma {:induction false} ScanConcat(s: Scan, a: string, b: string)
    ensures ScanFrom(s, a + b) == ScanFrom(ScanFrom(s, a), b)
    decreases a
  {
    if a == "" {
      assert a + b == b;
    } else {
      assert (a + b)[0] == a[0] && (a + b)[1..] == a[1..] + b;
      ScanConcat(Step(s, a[0]), a[1..], b);
    }
  }

  lemma ScanOne(s: Scan, c: char)
    ensures ScanFrom(s, [c]) == Step(s, c)
  {
    assert [c][1..] == "";
  }

  // ----- The dash that is taken back -----

  /** Outside comments a dash just seen is the last character of the buffer. */
  predicate DashAtEnd(s: Scan) {
    !s.comment && s.previous == Some('-') ==> s.buffer != "" && s.buffer[|s.buffer| - 1] == '-'
  }

  lemma StepKeepsDashAtEnd(s: Scan, c: char)
    requires DashAtEnd(s)
    ensures DashAtEnd(Step(s, c))
    ensures !s.comment && StartsComment(s, c) ==> s.buffer == Step(s, c).buffer + "-"
  {
    hide Strip;
  }

  /** Whatever was read, taking a character back removes a dash. */
  lemma {:induction false} TakesBackADash(s: Scan, text: string)
    requires DashAtEnd(s)
    ensures DashAtEnd(ScanFrom(s, text))
    decreases text
  {
    if text != "" {
      StepKeepsDashAtEnd(s, text[0]);
      TakesBackADash(Step(s, text[0]), text[1..]);
    }
  }

  /** The loop over the characters. */
  method SplitSqlStatements(sql: string) returns (statements: seq<string>)
    ensures statements == SplitOf(sql)
  {
    hide Strip;
    statements := [];
    var buffer := "";
    var inSingle, inDouble, inLineComment := false, false, false;
    var previous: Option<char> := None;
    for i := 0 to |sql|
      invariant Scan(statements, buffer, inSingle, inDouble, inLineComment, previous) == ScanFrom(START, sql[..i])
    {
      var c := sql[i];
      ghost var s := ScanFrom(START, sql[..i]);
      assert sql[..i + 1] == sql[..i] + [c];
      ScanConcat(START, sql[..i], [c]);
      ScanOne(s, c);
      TakesBackADash(START, sql[..i]);
      if inLineComment {
        if c == '\n' {
          inLineComment := false;
          buffer := buffer + [c];
        }
        previous := Some(c);
        continue;
      }
      if c == '-' && previous == Some('-') && !inSingle && !inDouble {
        buffer := buffer[..|buffer| - 1];
        inLineComment := true;
        previous := None;
        continue;
      }
      if c == '\'' && !inDouble {
        inSingle := !inSingle;
      } else if c == '"' && !inSingle {
        inDouble := !inDouble;
      }
      if c == ';' && !inSingle && !inDouble {
        var statement := Strip(buffer);
        if statement != "" { statements := statements + [statement]; }
        buffer := "";
        previous := Some(c);
        continue;
      }
      buffer := buffer + [c];
      previous := Some(c);
    }
    assert sql[..|sql|] == sql;
    var tail := Strip(buffer);
    if tail != "" { statements := statements + [tail]; }
  }

  // ----- Splitting undoes joining -----

  /** Whether the first i characters leave single and double quotes open. */
  function OpenQuotes(text: string, i: nat): (bool, bool)
    requires i <= |text|
  {
    if i == 0 then (false, false)
    else
      var (single, double) := OpenQuotes(text, i - 1);
      (if text[i - 1] == '\'' && !double then !single else single,
       if text[i - 1] == '"' && !single then !double else double)
  }

  /** A statement of its own: trimmed, not empty, quotes closed, and outside quotes neither a
      semicolon nor two dashes. */
  predicate IsStatement(text: string) {
    && text != "" && Trimmed(text)
    && OpenQuotes(text, |text|) == (false, false)
    && forall i :: 0 <= i < |text| && OpenQuotes(text, i) == (false, false) ==>
         text[i] != ';' && !(text[i] == '-' && i > 0 && text[i - 1] == '-')
  }

  /** The scan of the first i characters of a statement that begins with `s`. */
  function Within(s: Scan, text: string, i: nat): Scan
    requires i <= |text|
  {
    Scan(s.statements, text[..i], OpenQuotes(text, i).0, OpenQuotes(text, i).1, false,
         if i == 0 then s.previous else Some(text[i - 1]))
  }

  lemma {:induction false} ScanStatement(s: Scan, text: string, i: nat)
    requires IsStatement(text) && i <= |text|
    requires s.buffer == "" && !s.single && !s.double && !s.comment && s.previous != Some('-')
    ensures ScanFrom(s, text[..i]) == Within(s, text, i)
  {
    if i > 0 {
      hide IsStatement, Step, OpenQuotes;
      ScanStatement(s, text, i - 1);
      assert text[..i] == text[..i - 1] + [text[i - 1]];
      ScanConcat(s, text[..i - 1], [text[i - 1]]);
      ScanOne(Within(s, text, i - 1), text[i - 1]);
      StatementStep(text, Within(s, text, i - 1), i - 1);
    }
  }

  lemma StatementStep(text: string, s: Scan, i: nat)
    requires IsStatement(text) && i < |text| && !s.comment && (s.single, s.double) == OpenQuotes(text, i)
    requires s.previous == Some('-') ==> i > 0 && text[i - 1] == '-'
    ensures var (single, double) := OpenQuotes(text, i + 1);
      Step(s, text[i]) == s.(buffer := s.buffer + [text[i]], single := single, double := double, previous := Some(text[i]))
  {
    hide Strip;
    assert OpenQuotes(text, i) == (false, false) ==> text[i] != ';';
  }

  function Join(statements: seq<string>): string {
    if statements == [] then ""
    else if |statements| == 1 then statements[0]
    else statements[0] + ";" + Join(statements[1..])
  }

  /** Splitting gives back any statements that were joined by semicolons. */
  lemma SplitUndoesJoin(statements: seq<string>)
    requires forall i :: 0 <= i < |statements| ==> IsStatement(statements[i])
    ensures SplitOf(Join(statements)) == statements
  {
    hide Strip;
    if statements == [] {
      assert Strip("") == "" by { StripOfTrimmed(""); }
    } else {
      ScanJoined(START, statements);
    }
  }

  lemma {:induction false} ScanJoined(s: Scan, statements: seq<string>)
    requires statements != [] && forall i :: 0 <= i < |statements| ==> IsStatement(statements[i])
    requires s.buffer == "" && !s.single && !s.double && !s.comment && s.previous != Some('-')
    ensures Final(ScanFrom(s, Join(statements))) == s.statements + statements
    decreases statements
  {
    hide Strip, IsStatement, Step;
    var first := statements[0];
    ClosedQuotes(first);
    ScanStatement(s, first, |first|);
    assert first[..|first|] == first;
    var read := ScanFrom(s, first);
    StatementEnds(s, first, read);
    if |statements| > 1 {
      ScanConcat(s, first + ";", Join(statements[1..]));
      ScanConcat(s, first, ";");
      ScanOne(read, ';');
      ScanJoined(Step(read, ';'), statements[1..]);
      assert s.statements + [first] + statements[1..] == s.statements + statements;
    } else {
      assert statements == [first];
    }
  }

  lemma ClosedQuotes(text: string)
    requires IsStatement(text)
    ensures text != "" && OpenQuotes(text, |text|) == (false, false)
  {
  }

  lemma StatementEnds(s: Scan, first: string, read: Scan)
    requires IsStatement(first) && first != ""
    requires read.statements == s.statements && read.buffer == first && !read.single && !read.double && !read.comment
    ensures Final(read) == s.statements + [first]
    ensures Step(read, ';') == Scan(s.statements + [first], "", false, false, false, Some(';'))
  {
    hide StripLeft, StripRight;
    StripOfTrimmed(first);
  }

  // ----- Line comments -----

  predicate OneLine(text: string) {
    forall i :: 0 <= i < |text| ==> text[i] != '\n'
  }

  lemma {:induction false} CommentIsSkipped(s: Scan, text: string)
    requires s.comment && OneLine(text)
    ensures var t := ScanFrom(s, text); t == s.(previous := t.previous)
    decreases text
  {
    hide Strip;
    if text != "" {
      var t := Step(s, text[0]);
      CommentIsSkipped(t, text[1..]);
    }
  }

  /** The end of a line, with or without a comment before it. */
  function Ended(s: Scan): Scan {
    s.(comment := false, buffer := s.buffer + "\n", previous := Some('\n'))
  }

  lemma CommentLine(s: Scan, text: string)
    requires s.comment && OneLine(text)
    ensures ScanFrom(s, text + "\n") == Ended(s)
  {
    hide Strip;
    CommentIsSkipped(s, text);
    ScanConcat(s, text, "\n");
    ScanOne(ScanFrom(s, text), '\n');
  }

  lemma NewLine(s: Scan)
    requires !s.comment
    ensures ScanFrom(s, "\n") == Ended(s)
  {
    hide Strip;
    ScanOne(s, '\n');
  }

  /** Where a comment can be added at the end of a line without being noticed. */
  predicate TakesComment(s: Scan) {
    s.comment || (!s.single && !s.double && s.previous != Some('-'))
  }

  lemma UnnoticedComment(s: Scan, text: string)
    requires TakesComment(s) && OneLine(text)
    ensures ScanFrom(s, "--" + text + "\n") == ScanFrom(s, "\n")
  {
    hide Strip;
    var line := "--" + text;
    assert line + "\n" == "--" + text + "\n";
    if s.comment {
      CommentLine(s, line);
      CommentLine(s, "");
      assert "" + "\n" == "\n";
    } else {
      var two := Step(Step(s, '-'), '-');
      assert two == s.(comment := true, previous := None);
      SkipTwo(s, text + "\n");
      assert line + "\n" == "--" + (text + "\n");
      CommentLine(two, text);
      NewLine(s);
    }
  }

  lemma SkipTwo(s: Scan, rest: string)
    ensures ScanFrom(s, "--" + rest) == ScanFrom(Step(Step(s, '-'), '-'), rest)
  {
    hide Step;
    var text := "--" + rest;
    assert text[0] == '-' && text[1..] == "-" + rest && ("-" + rest)[1..] == rest;
  }

  function NonBlank(text: string): nat {
    if text == "" then 0 else NonBlank(text[..|text| - 1]) + if IsSpace(text[|text| - 1]) then 0 else 1
  }

  lemma {:induction false} NonBlankConcat(a: string, b: string)
    ensures NonBlank(a + b) == NonBlank(a) + NonBlank(b)
  {
    if b == "" {
      assert a + b == a;
    } else {
      assert (a + b)[..|a + b| - 1] == a + b[..|b| - 1];
      NonBlankConcat(a, b[..|b| - 1]);
    }
  }

  lemma {:induction false} NonBlankOfBlank(text: string)
    ensures Blank(text) <==> NonBlank(text) == 0
  {
    if text != "" { NonBlankOfBlank(text[..|text| - 1]); }
  }

  /** Trimming keeps all characters that are not white space. */
  lemma NonBlankOfStrip(text: string)
    ensures NonBlank(Strip(text)) == NonBlank(text)
    ensures Strip(text) == "" <==> NonBlank(text) == 0
  {
    hide Strip;
    var left, right := StripSplits(text);
    NonBlankConcat(left + Strip(text), right);
    NonBlankConcat(left, Strip(text));
    NonBlankOfBlank(left);
    NonBlankOfBlank(right);
    NonBlankOfBlank(Strip(text));
  }

  /** The same scan over two different texts before it: they end up in the same place of the same
      statement, or both are still in the buffer. */
  predicate Apart(u: Scan, v: Scan, p: string, q: string, w: string) {
    && v == u.(buffer := q + w) && u.buffer == p + w
    && (!u.comment && u.previous == Some('-') ==> w != "" && w[|w| - 1] == '-')
  }

  lemma ApartStep(u: Scan, v: Scan, p: string, q: string, w: string, c: char) returns (more: string)
    requires Apart(u, v, p, q, w) && p != "" && q != "" && !(c == ';' && !u.comment && !u.single && !u.double)
    ensures Apart(Step(u, c), Step(v, c), p, q, more)
    ensures Step(u, c).statements == u.statements
  {
    hide Strip;
    if u.comment {
      more := if c == '\n' then w + [c] else w;
      assert (p + w) + [c] == p + (w + [c]) && (q + w) + [c] == q + (w + [c]);
    } else if StartsComment(u, c) {
      more := w[..|w| - 1];
      assert (p + w)[..|p + w| - 1] == p + more && (q + w)[..|q + w| - 1] == q + more;
    } else {
      more := w + [c];
      assert (p + w) + [c] == p + more && (q + w) + [c] == q + more;
    }
  }

  /** Two scans that differ only in the text before end with the same statements around the one that
      holds it. */
  lemma {:induction false} ApartResults(u: Scan, v: Scan, p: string, q: string, w: string, text: string)
    returns (more: string, rest: seq<string>)
    requires Apart(u, v, p, q, w) && p != "" && q != ""
    ensures Final(ScanFrom(u, text)) == Collected(u.statements, p + more) + rest
    ensures Final(ScanFrom(v, text)) == Collected(u.statements, q + more) + rest
    decreases text
  {
    hide Strip;
    if text == "" {
      more, rest := w, [];
    } else if text[0] == ';' && !u.comment && !u.single && !u.double {
      more := w;
      var a, b := Step(u, ';'), Step(v, ';');
      rest := SameButStatements(a, b, text[1..]);
    } else {
      var next := ApartStep(u, v, p, q, w, text[0]);
      more, rest := ApartResults(Step(u, text[0]), Step(v, text[0]), p, q, next, text[1..]);
    }
  }

  /** What a scan adds does not depend on the statements before. */
  lemma {:induction false} SameButStatements(a: Scan, b: Scan, text: string) returns (rest: seq<string>)
    requires b == a.(statements := b.statements)
    ensures Final(ScanFrom(a, text)) == a.statements + rest && Final(ScanFrom(b, text)) == b.statements + rest
    decreases text
  {
    hide Strip, Step;
    if text == "" {
      rest := Collected([], a.buffer);
    } else {
      var added := SameStep(a, b, text[0]);
      var more := SameButStatements(Step(a, text[0]), Step(b, text[0]), text[1..]);
      rest := added + more;
    }
  }

  lemma SameStep(a: Scan, b: Scan, c: char) returns (added: seq<string>)
    requires b == a.(statements := b.statements)
    ensures Step(b, c) == Step(a, c).(statements := Step(b, c).statements)
    ensures Step(a, c).statements == a.statements + added && Step(b, c).statements == b.statements + added
  {
    hide Strip;
    added := Step(a, c).statements[|a.statements|..];
  }

  /** A comment after a dash at the end of a line takes the dash away from its statement. */
  lemma CommentAfterADash(s: Scan, text: string, after: string)
    requires DashAtEnd(s) && !s.comment && !s.single && !s.double && s.previous == Some('-') && OneLine(text)
    ensures Final(ScanFrom(s, "--" + text + "\n" + after)) != Final(ScanFrom(s, "\n" + after))
  {
    hide Strip, ScanFrom, Final, NonBlank;
    var q := s.buffer[..|s.buffer| - 1];
    assert s.buffer == q + "-";
    var u := Ended(s.(buffer := q));
    var v := Ended(s);
    AfterTheDash(s, q, text, after);
    var more, rest := ApartResults(u, v, q + "\n", q + "-\n", "", after);
    NonBlankConcat(q + "\n", more);
    NonBlankConcat(q + "-\n", more);
    NonBlankConcat(q, "\n");
    NonBlankConcat(q, "-\n");
    OneDash();
    NonBlankOfStrip(q + "\n" + more);
    NonBlankOfStrip(q + "-\n" + more);
    CollectedDiffer(s.statements, q + "\n" + more, q + "-\n" + more, rest);
  }

  lemma OneDash()
    ensures NonBlank("\n") == 0 && NonBlank("-\n") == 1
  {
    assert "-\n"[..1] == "-" && "-"[..0] == "" && "\n"[..0] == "";
  }

  lemma CollectedDiffer(statements: seq<string>, a: string, b: string, rest: seq<string>)
    requires Strip(b) != "" && NonBlank(Strip(a)) != NonBlank(Strip(b))
    ensures Collected(statements, a) + rest != Collected(statements, b) + rest
  {
    hide Strip, NonBlank;
    var x, y := Collected(statements, a) + rest, Collected(statements, b) + rest;
    if Strip(a) != "" {
      assert x[|statements|] == Strip(a) && y[|statements|] == Strip(b);
    } else {
      assert |x| + 1 == |y|;
    }
  }

  lemma AfterTheDash(s: Scan, q: string, text: string, after: string)
    requires s.buffer == q + "-" && !s.comment && !s.single && !s.double && s.previous == Some('-') && OneLine(text)
    ensures ScanFrom(s, "--" + text + "\n" + after) == ScanFrom(Ended(s.(buffer := q)), after)
    ensures ScanFrom(s, "\n" + after) == ScanFrom(Ended(s), after)
  {
    hide Strip;
    var one := Step(s, '-');
    assert one == s.(buffer := q, comment := true, previous := None);
    var line := "-" + text;
    assert "--" + text + "\n" + after == "-" + ((line + "\n") + after);
    ScanConcat(s, "-", (line + "\n") + after);
    ScanOne(s, '-');
    ScanConcat(one, line + "\n", after);
    CommentLine(one, line);
    ScanConcat(s, "\n", after);
    NewLine(s);
  }

  // ----- Comments inside quotes -----

  /** The text `p` is fixed at the front of the buffer: nothing can take its end back. */
  predicate Fixed(s: Scan, p: string) {
    && p <= s.buffer
    && (!s.comment && s.previous == Some('-') && !s.single && !s.double ==> |p| < |s.buffer|)
  }

  lemma FixedStep(s: Scan, p: string, c: char)
    requires Fixed(s, p) && !(c == ';' && !s.comment && !s.single && !s.double)
    ensures Fixed(Step(s, c), p) && Step(s, c).statements == s.statements
  {
    hide Strip;
  }

  lemma {:induction false} FixedResult(s: Scan, p: string, text: string) returns (more: string, rest: seq<string>)
    requires Fixed(s, p)
    ensures Final(ScanFrom(s, text)) == Collected(s.statements, p + more) + rest
    decreases text
  {
    hide Strip, Step;
    if text == "" {
      more, rest := s.buffer[|p|..], [];
      assert p + more == s.buffer;
    } else if text[0] == ';' && !s.comment && !s.single && !s.double {
      more := s.buffer[|p|..];
      assert p + more == s.buffer;
      EndOfStatement(s);
      rest := SameButStatements(Step(s, ';'), Step(s, ';'), text[1..]);
    } else {
      FixedStep(s, p, text[0]);
      more, rest := FixedResult(Step(s, text[0]), p, text[1..]);
    }
  }

  lemma EndOfStatement(s: Scan)
    requires !s.comment && !s.single && !s.double
    ensures Step(s, ';').statements == Collected(s.statements, s.buffer)
  {
    hide Strip;
  }

  /** An open quote is in the buffer, so the buffer is not blank, and comments begin outside quotes. */
  predicate QuoteInBuffer(s: Scan) {
    s.single || s.double ==> NonBlank(s.buffer) > 0 && !s.comment
  }

  lemma StepKeepsQuoteInBuffer(s: Scan, c: char)
    requires QuoteInBuffer(s)
    ensures QuoteInBuffer(Step(s, c))
  {
    hide Strip;
    NonBlankConcat(s.buffer, [c]);
    assert [c][..0] == "";
  }

  lemma {:induction false} QuotesAreInBuffer(s: Scan, text: string)
    requires QuoteInBuffer(s)
    ensures QuoteInBuffer(ScanFrom(s, text))
    decreases text
  {
    hide QuoteInBuffer;
    if text != "" {
      StepKeepsQuoteInBuffer(s, text[0]);
      QuotesAreInBuffer(Step(s, text[0]), text[1..]);
    }
  }

  /** A comment inside quotes becomes part of the quoted text. */
  lemma CommentInQuotes(s: Scan, text: string, after: string)
    requires QuoteInBuffer(s) && (s.single || s.double)
    ensures Final(ScanFrom(s, "--" + text + "\n" + after)) != Final(ScanFrom(s, "\n" + after))
  {
    hide Strip, ScanFrom, Final, NonBlank, Step;
    var b := s.buffer;
    var u := s.(buffer := b + "--", previous := Some('-'));
    assert "--" + text + "\n" + after == "--" + (text + "\n" + after);
    SkipTwo(s, text + "\n" + after);
    DashesInQuotes(s);
    ScanConcat(s, "\n", after);
    NewLine(s);
    var more, rest := FixedResult(u, b + "--", text + "\n" + after);
    var more', rest' := FixedResult(Ended(s), b + "\n", after);
    PrefixesDiffer(b, more, more');
    FirstDiffers(s.statements, b + "--" + more, b + "\n" + more', rest, rest');
  }

  lemma DashesInQuotes(s: Scan)
    requires !s.comment && (s.single || s.double)
    ensures Step(Step(s, '-'), '-') == s.(buffer := s.buffer + "--", previous := Some('-'))
  {
    hide Strip;
    assert s.buffer + ['-'] + ['-'] == s.buffer + "--";
  }

  lemma PrefixesDiffer(b: string, more: string, more': string)
    requires NonBlank(b) > 0
    ensures Strip(b + "--" + more) != Strip(b + "\n" + more')
    ensures Strip(b + "--" + more) != "" && Strip(b + "\n" + more') != ""
  {
    hide Strip, NonBlank, StripRight;
    var left := StripLeftSplits(b);
    var core := StripLeft(b);
    NonBlankOfBlank(b);
    assert b == left + core;
    assert core != "" by { assert left + "" == left; }
    var y, z := core + "--" + more, core + "\n" + more';
    assert b + "--" + more == left + core + ("--" + more) && b + "\n" + more' == left + core + ("\n" + more');
    assert core + ("--" + more) == y && core + ("\n" + more') == z;
    StripOfPrefix(left, core, "--" + more);
    StripOfPrefix(left, core, "\n" + more');
    assert y[|core|] == '-' && z[|core|] == '\n' && z[0] == core[0];
    StripRightKeeps(y, |core|);
    StripRightKeeps(z, 0);
    if |StripRight(z)| > |core| { assert StripRight(z)[|core|] == '\n' && StripRight(y)[|core|] == '-'; }
  }

  lemma FirstDiffers(statements: seq<string>, a: string, b: string, rest: seq<string>, rest': seq<string>)
    requires Strip(a) != "" && Strip(b) != "" && Strip(a) != Strip(b)
    ensures Collected(statements, a) + rest != Collected(statements, b) + rest'
  {
    hide Strip;
    assert (Collected(statements, a) + rest)[|statements|] == Strip(a);
    assert (Collected(statements, b) + rest')[|statements|] == Strip(b);
  }

  // ----- The exact condition -----

  /** A line comment put at the end of a line leaves the statements as they are exactly when it stands
      in another comment, or outside quotes and not directly behind a dash. */
  lemma CommentIsUnnoticedIff(before: string, text: string, after: string)
    requires OneLine(text)
    ensures SplitOf(before + "--" + text + "\n" + after) == SplitOf(before + "\n" + after) <==>
            TakesComment(ScanFrom(START, before))
  {
    hide Strip, ScanFrom, Final, Step;
    var s := ScanFrom(START, before);
    TakesBackADash(START, before);
    QuotesAreInBuffer(START, before);
    assert before + "--" + text + "\n" + after == before + ("--" + text + "\n" + after);
    assert before + "\n" + after == before + ("\n" + after);
    ScanConcat(START, before, "--" + text + "\n" + after);
    ScanConcat(START, before, "\n" + after);
    if TakesComment(s) {
      ScanConcat(s, "--" + text + "\n", after);
      ScanConcat(s, "\n", after);
      UnnoticedComment(s, text);
    } else if s.single || s.double {
      CommentInQuotes(s, text, after);
    } else {
      CommentAfterADash(s, text, after);
    }
  }
}
