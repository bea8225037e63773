/** The JavaScript string operations the recipient handling relies on:
    `trim`, `split('\n')`, `join('\n')`, `startsWith` and the `[0-9]` class. */
module Text {

  /** The character class `[0-9]` of a JavaScript regular expression. */
  predicate IsDigit(c: char) {
    '0' <= c <= '9'
  }

  predicate AllDigits(s: string) {
    forall i :: 0 <= i < |s| ==> IsDigit(s[i])
  }

  /** The characters `String.prototype.trim` removes: WhiteSpace and LineTerminator
      of ECMAScript (tab, vertical tab, form feed, space, no-break space, the byte
      order mark, the Unicode space separators, LF, CR, LS and PS). */
  predicate IsWhitespace(c: char) {
    c == '\t' || c == '\n' || c == '\U{000B}' || c == '\U{000C}' || c == '\r' ||
    c == ' ' || c == '\U{00A0}' || c == '\U{1680}' || ('\U{2000}' <= c <= '\U{200A}') ||
    c == '\U{2028}' || c == '\U{2029}' || c == '\U{202F}' || c == '\U{205F}' ||
    c == '\U{3000}' || c == '\U{FEFF}'
  }

  predicate StartsWith(s: string, prefix: string) {
    |prefix| <= |s| && s[..|prefix|] == prefix
  }

  /** The first index at or after `k` that does not hold whitespace. */
  function SkipLeading(s: string, k: nat): (j: nat)
    requires k <= |s|
    ensures k <= j <= |s|
    ensures forall i :: k <= i < j ==> IsWhitespace(s[i])
    ensures j < |s| ==> !IsWhitespace(s[j])
    decreases |s| - k
  {
    if k < |s| && IsWhitespace(s[k]) then SkipLeading(s, k + 1) else k
  }

  /** The end of `s[..e]` once its trailing whitespace is dropped. */
  function SkipTrailing(s: string, e: nat): (j: nat)
    requires e <= |s|
    ensures j <= e
    ensures forall i :: j <= i < e ==> IsWhitespace(s[i])
    ensures j > 0 ==> !IsWhitespace(s[j - 1])
  {
    if e > 0 && IsWhitespace(s[e - 1]) then SkipTrailing(s, e - 1) else e
  }

  /** Every character is one `trim` removes. */
  predicate Blank(s: string) {
    forall i :: 0 <= i < |s| ==> IsWhitespace(s[i])
  }

  /** `s.trim()`: a string that neither starts nor ends with whitespace is kept. */
  function Trim(s: string): (r: string)
    ensures |r| <= |s|
    ensures (s == "" || (!IsWhitespace(s[0]) && !IsWhitespace(s[|s| - 1]))) ==> r == s
    ensures r != "" ==> !IsWhitespace(r[0]) && !IsWhitespace(r[|r| - 1])
    ensures exists i, j :: 0 <= i <= j <= |s| && r == s[i..j] && Blank(s[..i]) && Blank(s[j..])
  {
    var a := SkipLeading(s, 0);
    var t := s[a..];
    var b := SkipTrailing(t, |t|);
    assert t[..b] == s[a..a + b];
    assert Blank(s[..a]) by {
      assert forall i :: 0 <= i < a ==> s[..a][i] == s[i];
    }
    assert Blank(s[a + b..]) by {
      var u := s[a + b..];
      assert forall i :: 0 <= i < |u| ==> u[i] == t[b + i];
    }
    t[..b]
  }

  lemma TrimBlank(s: string)
    requires Blank(s)
    ensures Trim(s) == ""
  {
  }

  lemma BlankOfTrimEmpty(s: string)
    requires Trim(s) == ""
    ensures Blank(s)
  {
  }

  /** `s.trim() === ''` holds exactly for the blank strings. */
  lemma TrimEmptyIffBlank(s: string)
    ensures Trim(s) == "" <==> Blank(s)
  {
    if Blank(s) {
      TrimBlank(s);
    }
    if Trim(s) == "" {
      BlankOfTrimEmpty(s);
    }
  }

  /** A digit string is left alone by `trim`, and trims to "" only when empty. */
  lemma DigitsTrimToThemselves(s: string)
    requires AllDigits(s)
    ensures Trim(s) == s
    ensures Trim(s) == "" <==> s == ""
  {
    if s != "" {
      assert IsDigit(s[0]) && IsDigit(s[|s| - 1]);
      assert !IsWhitespace(s[0]) && !IsWhitespace(s[|s| - 1]);
    }
  }

  /** The number of newlines in `s`. */
  function Newlines(s: string): nat {
    if s == "" then 0 else (if s[0] == '\n' then 1 else 0) + Newlines(s[1..])
  }

  lemma {:induction false} NewlinesAppend(a: string, b: string)
    ensures Newlines(a + b) == Newlines(a) + Newlines(b)
  {
    if a == "" {
      assert a + b == b;
    } else {
      assert (a + b)[0] == a[0] && (a + b)[1..] == a[1..] + b;
      NewlinesAppend(a[1..], b);
    }
  }

  /** `s.split('\n')`: never empty, one more piece than there are newlines,
      and no piece holds a newline. */
  function Split(s: string): (r: seq<string>)
    ensures |r| == Newlines(s) + 1
    ensures forall i :: 0 <= i < |r| ==> '\n' !in r[i]
  {
    if s == "" then [""]
    else
      assert s == [s[0]] + s[1..];
      if s[0] == '\n' then [""] + Split(s[1..])
      else
        var t := Split(s[1..]);
        [[s[0]] + t[0]] + t[1..]
  }

  /** `lines.join('\n')`; joining no lines gives "". */
  function Join(lines: seq<string>): string {
    if |lines| == 0 then ""
    else if |lines| == 1 then lines[0]
    else lines[0] + "\n" + Join(lines[1..])
  }

  /** Joining a line in front of at least one more line puts a newline between. */
  lemma {:induction false} JoinCons(head: string, rest: seq<string>)
    requires |rest| >= 1
    ensures Join([head] + rest) == head + ("\n" + Join(rest))
  {
    assert ([head] + rest)[1..] == rest;
  }

  /** The last piece of `s.split('\n')`: the text after the last newline. */
  function LastLine(s: string): string {
    var lines := Split(s);
    lines[|lines| - 1]
  }

  /** Joining the pieces of a split gives back the text. */
  lemma {:induction false} JoinSplit(s: string)
    ensures Join(Split(s)) == s
  {
    if s != "" {
      JoinSplit(s[1..]);
      var t := Split(s[1..]);
      if s[0] != '\n' && |t| > 1 {
        assert Join(t) == t[0] + "\n" + Join(t[1..]);
        assert ([[s[0]] + t[0]] + t[1..])[1..] == t[1..];
      }
    }
  }

  /** A newline-free head is glued onto the first piece of what follows it. */
  lemma {:induction false} SplitAfterLine(x: string, y: string)
    requires '\n' !in x
    ensures Split(x + y) == [x + Split(y)[0]] + Split(y)[1..]
  {
    if x != "" {
      assert x[0] in x;
      assert forall c :: c in x[1..] ==> c in x;
      assert (x + y)[0] == x[0] && (x + y)[1..] == x[1..] + y;
      SplitAfterLine(x[1..], y);
      var t := Split(x[1..] + y);
      assert t[0] == x[1..] + Split(y)[0] && t[1..] == Split(y)[1..];
      assert Split(x + y) == [[x[0]] + t[0]] + t[1..];
      assert [x[0]] + (x[1..] + Split(y)[0]) == x + Split(y)[0];
    } else {
      assert x + y == y;
      assert x + Split(y)[0] == Split(y)[0];
      assert Split(y) == [Split(y)[0]] + Split(y)[1..];
    }
  }

  /** A leading newline starts an empty first piece. */
  lemma SplitAfterNewline(y: string)
    ensures Split("\n" + y) == [""] + Split(y)
  {
    var s := "\n" + y;
    assert s[0] == '\n' && s[1..] == y;
  }

  /** A newline-free string is a single piece. */
  lemma SplitOfLine(line: string)
    requires '\n' !in line
    ensures Split(line) == [line]
  {
    SplitAfterLine(line, "");
    assert line + "" == line;
  }

  /** One more line in front of a join that splits back correctly. */
  lemma SplitJoinStep(lines: seq<string>)
    requires |lines| >= 2 && '\n' !in lines[0]
    requires Split(Join(lines[1..])) == lines[1..]
    ensures Split(Join(lines)) == lines
  {
    var head, rest := lines[0], lines[1..];
    var tail := "\n" + Join(rest);
    JoinCons(head, rest);
    assert lines == [head] + rest;
    assert Join(lines) == head + tail;
    SplitAfterNewline(Join(rest));
    var pieces := Split(tail);
    assert pieces == [""] + rest;
    assert pieces[0] == "" && pieces[1..] == rest;
    SplitAfterLine(head, tail);
    assert Split(head + tail) == [head + ""] + rest;
    assert head + "" == head;
  }

  /** Splitting the join of newline-free lines gives back the lines. */
  lemma {:induction false} SplitJoin(lines: seq<string>)
    requires |lines| >= 1
    requires forall i :: 0 <= i < |lines| ==> '\n' !in lines[i]
    ensures Split(Join(lines)) == lines
  {
    if |lines| == 1 {
      SplitOfLine(lines[0]);
    } else {
      SplitJoin(lines[1..]);
      SplitJoinStep(lines);
    }
  }
}
