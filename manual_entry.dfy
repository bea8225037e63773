/** The manual-entry recipient list: the textarea normaliser run on every input
    event, the per-line O/X markers, the recipient count, the line-number gutter,
    the caret correction and the Enter-key guard. */
module ManualEntry {
  import opened Text
  import Phone

  /** At most this many lines are kept in the textarea. */
  const MaxRecipients: nat := 100
  /** At most this many digits are kept on a line. */
  const MaxDigits: nat := 11

  // ---------------------------------------------------------------------------
  // The normalisation pipeline

  /** `line.replace(/[^0-9]/g, '')`: the digits of the line, in order. */
  function DigitsOnly(s: string): (r: string)
    ensures AllDigits(r) && |r| <= |s|
    ensures AllDigits(s) ==> r == s
    ensures |s| == 1 ==> r == (if IsDigit(s[0]) then s else "")
  {
    if s == "" then ""
    else (if IsDigit(s[0]) then [s[0]] else "") + DigitsOnly(s[1..])
  }

  /** The digits of a line, cut to their first eleven (`substring(0, 11)`). */
  function CleanLine(line: string): (r: string)
    ensures AllDigits(r) && |r| <= MaxDigits && |r| <= |line|
    ensures AllDigits(line) && |line| <= MaxDigits ==> r == line
    ensures |r| == if |DigitsOnly(line)| > MaxDigits then MaxDigits else |DigitsOnly(line)|
    ensures r == DigitsOnly(line)[..|r|]
  {
    var d := DigitsOnly(line);
    if |d| > MaxDigits then d[..MaxDigits] else d
  }

  function CleanLines(lines: seq<string>): seq<string> {
    seq(|lines|, i requires 0 <= i < |lines| => CleanLine(lines[i]))
  }

  /** `slice(0, 100)` applied when there are more than 100 lines: the first 100
      lines, in their original order. */
  function CapLines(lines: seq<string>): (r: seq<string>)
    ensures |r| == if |lines| > MaxRecipients then MaxRecipients else |lines|
    ensures r == lines[..|r|]
  {
    if |lines| > MaxRecipients then lines[..MaxRecipients] else lines
  }

  /** The lines after digit cleaning and the 100-line cap, before the blank-line
      collapse: the first 100 cleaned lines of the raw text. */
  function ProcessedLines(raw: string): (r: seq<string>)
    ensures 1 <= |r| <= MaxRecipients && |r| <= |Split(raw)|
    ensures |r| == if |Split(raw)| > MaxRecipients then MaxRecipients else |Split(raw)|
    ensures forall i :: 0 <= i < |r| ==> r[i] == CleanLine(Split(raw)[i])
    ensures forall i :: 0 <= i < |r| ==> AllDigits(r[i]) && |r[i]| <= MaxDigits
  {
    CapLines(CleanLines(Split(raw)))
  }

  predicate NoDoubleNewline(s: string) {
    forall i :: 0 <= i < |s| - 1 ==> !(s[i] == '\n' && s[i + 1] == '\n')
  }

  /** `s.replace(/\n{2,}/g, '\n')`: every run of newlines shrinks to one, i.e. a
      newline right after a newline is dropped. */
  function Collapse(s: string): (r: string)
    ensures |r| <= |s|
    ensures |s| > 0 ==> |r| > 0 && r[0] == s[0]
    ensures NoDoubleNewline(r)
  {
    if |s| < 2 then s
    else if s[0] == '\n' && s[1] == '\n' then Collapse(s[1..])
    else [s[0]] + Collapse(s[1..])
  }

  /** The new textarea value computed from the raw one (js/main.js:86-106). */
  function Normalize(raw: string): string {
    Collapse(Join(ProcessedLines(raw)))
  }

  /** A value the normaliser can produce: digit lines of at most eleven digits, at
      most 100 lines, never two newlines in a row. */
  predicate Canonical(text: string) {
    var lines := Split(text);
    NoDoubleNewline(text) && |lines| <= MaxRecipients &&
    forall i :: 0 <= i < |lines| ==> AllDigits(lines[i]) && |lines[i]| <= MaxDigits
  }

  // ---------------------------------------------------------------------------
  // The collapse, seen line by line

  /** Drops every empty line except the last one. */
  function DropEmptyButLast(lines: seq<string>): (r: seq<string>)
    requires |lines| >= 1
    ensures 1 <= |r| <= |lines|
    ensures r[|r| - 1] == lines[|lines| - 1]
    ensures forall x :: x in r ==> x in lines
    ensures forall i :: 0 <= i < |r| - 1 ==> r[i] != ""
  {
    if |lines| == 1 then lines
    else if lines[0] == "" then DropEmptyButLast(lines[1..])
    else [lines[0]] + DropEmptyButLast(lines[1..])
  }

  /** What the newline collapse does to a list of lines: the first and the last
      line stay, the empty lines between them go. */
  function Squeeze(lines: seq<string>): (r: seq<string>)
    requires |lines| >= 1
    ensures 1 <= |r| <= |lines| && r[0] == lines[0]
    ensures r[|r| - 1] == lines[|lines| - 1]
    ensures forall x :: x in r ==> x in lines
    ensures forall i :: 0 < i < |r| - 1 ==> r[i] != ""
  {
    if |lines| == 1 then lines else [lines[0]] + DropEmptyButLast(lines[1..])
  }

  /** The non-empty lines, in order. */
  function NonEmpty(lines: seq<string>): seq<string> {
    if lines == [] then []
    else (if lines[0] == "" then [] else [lines[0]]) + NonEmpty(lines[1..])
  }

  /** One collapse step: a character that does not start a double newline is kept. */
  lemma CollapseKeeps(c: char, y: string)
    requires c != '\n' || y == "" || y[0] != '\n'
    ensures Collapse([c] + y) == [c] + Collapse(y)
  {
    var s := [c] + y;
    assert s[0] == c && s[1..] == y;
    if y == "" {
      assert s == [c];
    } else {
      assert s[1] == y[0];
    }
  }

  /** One collapse step: the first newline of a double newline is dropped. */
  lemma CollapseDrops(y: string)
    ensures Collapse("\n" + ("\n" + y)) == Collapse("\n" + y)
  {
    var s := "\n" + ("\n" + y);
    assert s[0] == '\n' && s[1] == '\n' && s[1..] == "\n" + y;
  }

  lemma {:induction false} CollapseAfterLine(x: string, y: string)
    requires '\n' !in x
    ensures Collapse(x + y) == x + Collapse(y)
  {
    if x == "" {
      assert x + y == y;
    } else {
      assert x[0] in x;
      assert forall c :: c in x[1..] ==> c in x;
      CollapseAfterLine(x[1..], y);
      CollapseKeeps(x[0], x[1..] + y);
      assert x + y == [x[0]] + (x[1..] + y);
      assert x == [x[0]] + x[1..];
    }
  }

  lemma {:induction false} CollapseNewlineJoin(lines: seq<string>)
    requires |lines| >= 1
    requires forall i :: 0 <= i < |lines| ==> '\n' !in lines[i]
    ensures Collapse("\n" + Join(lines)) == "\n" + Join(DropEmptyButLast(lines))
  {
    if |lines| == 1 {
      CollapseNewlineLine(lines[0]);
    } else {
      var rest := lines[1..];
      assert forall i :: 0 <= i < |rest| ==> rest[i] == lines[i + 1];
      CollapseNewlineJoin(rest);
      if lines[0] == "" {
        CollapseEmptyHead(lines);
      } else {
        CollapseLineHead(lines);
      }
    }
  }

  lemma CollapseNewlineLine(line: string)
    requires '\n' !in line
    ensures Collapse("\n" + line) == "\n" + line
  {
    if line != "" {
      assert line[0] in line;
      CollapseKeeps('\n', line);
      CollapseLine(line);
    } else {
      assert "\n" + line == "\n";
    }
  }

  /** An empty first line after a newline disappears in the collapse. */
  lemma CollapseEmptyHead(lines: seq<string>)
    requires |lines| >= 2 && lines[0] == ""
    requires Collapse("\n" + Join(lines[1..])) == "\n" + Join(DropEmptyButLast(lines[1..]))
    ensures Collapse("\n" + Join(lines)) == "\n" + Join(DropEmptyButLast(lines))
  {
    var rest := lines[1..];
    assert lines == [""] + rest;
    JoinCons("", rest);
    assert Join(lines) == "\n" + Join(rest);
    CollapseDrops(Join(rest));
  }

  /** A non-empty first line after a newline is kept in the collapse. */
  lemma CollapseLineHead(lines: seq<string>)
    requires |lines| >= 2 && lines[0] != "" && '\n' !in lines[0]
    requires Collapse("\n" + Join(lines[1..])) == "\n" + Join(DropEmptyButLast(lines[1..]))
    ensures Collapse("\n" + Join(lines)) == "\n" + Join(DropEmptyButLast(lines))
  {
    var head, rest := lines[0], lines[1..];
    var tail := "\n" + Join(rest);
    assert lines == [head] + rest;
    JoinCons(head, rest);
    assert head[0] in head;
    assert (head + tail)[0] == head[0];
    CollapseKeeps('\n', head + tail);
    CollapseAfterLine(head, tail);
    var d := DropEmptyButLast(rest);
    assert DropEmptyButLast(lines) == [head] + d;
    JoinCons(head, d);
  }

  /** A line without newlines is left alone by the collapse. */
  lemma CollapseLine(line: string)
    requires '\n' !in line
    ensures Collapse(line) == line
  {
    CollapseAfterLine(line, "");
    assert line + "" == line;
  }

  /** Collapsing newline runs in joined lines is joining the squeezed lines. */
  lemma {:induction false} CollapseJoin(lines: seq<string>)
    requires |lines| >= 1
    requires forall i :: 0 <= i < |lines| ==> '\n' !in lines[i]
    ensures Collapse(Join(lines)) == Join(Squeeze(lines))
  {
    if |lines| == 1 {
      CollapseLine(lines[0]);
    } else {
      CollapseJoinMore(lines);
    }
  }

  lemma CollapseJoinMore(lines: seq<string>)
    requires |lines| >= 2
    requires forall i :: 0 <= i < |lines| ==> '\n' !in lines[i]
    ensures Collapse(Join(lines)) == Join(Squeeze(lines))
  {
    var head, rest := lines[0], lines[1..];
    assert lines == [head] + rest;
    JoinCons(head, rest);
    assert forall i :: 0 <= i < |rest| ==> rest[i] == lines[i + 1];
    CollapseNewlineJoin(rest);
    CollapseAfterLine(head, "\n" + Join(rest));
    JoinCons(head, DropEmptyButLast(rest));
  }

  /** Text without a double newline is left alone by the collapse. */
  lemma {:induction false} CollapseFixed(s: string)
    requires NoDoubleNewline(s)
    ensures Collapse(s) == s
  {
    if |s| >= 2 {
      assert !(s[0] == '\n' && s[1] == '\n');
      assert NoDoubleNewline(s[1..]) by {
        forall i | 0 <= i < |s[1..]| - 1
          ensures !(s[1..][i] == '\n' && s[1..][i + 1] == '\n')
        {
          assert s[1..][i] == s[i + 1] && s[1..][i + 1] == s[i + 2];
        }
      }
      CollapseFixed(s[1..]);
      assert s == [s[0]] + s[1..];
    }
  }

  lemma {:induction false} NonEmptyDropEmptyButLast(lines: seq<string>)
    requires |lines| >= 1
    ensures NonEmpty(DropEmptyButLast(lines)) == NonEmpty(lines)
  {
    if |lines| > 1 {
      var rest := lines[1..];
      NonEmptyDropEmptyButLast(rest);
      if lines[0] != "" {
        var d := DropEmptyButLast(rest);
        assert ([lines[0]] + d)[1..] == d;
      }
    }
  }

  /** Squeezing loses no non-empty line and keeps their order. */
  lemma NonEmptySqueeze(lines: seq<string>)
    requires |lines| >= 1
    ensures NonEmpty(Squeeze(lines)) == NonEmpty(lines)
  {
    if |lines| > 1 {
      NonEmptyDropEmptyButLast(lines[1..]);
      var d := DropEmptyButLast(lines[1..]);
      assert ([lines[0]] + d)[1..] == d;
    }
  }

  // ---------------------------------------------------------------------------
  // What the normaliser guarantees

  lemma DigitLinesHaveNoNewline(lines: seq<string>)
    requires forall i :: 0 <= i < |lines| ==> AllDigits(lines[i])
    ensures forall i :: 0 <= i < |lines| ==> '\n' !in lines[i]
  {
    forall i | 0 <= i < |lines| ensures '\n' !in lines[i] {
      assert forall k :: 0 <= k < |lines[i]| ==> IsDigit(lines[i][k]);
    }
  }

  /** The lines of the normalised text are the processed lines with the empty
      lines between the first and the last removed. */
  lemma NormalizedLines(raw: string)
    ensures Split(Normalize(raw)) == Squeeze(ProcessedLines(raw))
  {
    var p := ProcessedLines(raw);
    DigitLinesHaveNoNewline(p);
    CollapseJoin(p);
    var q := Squeeze(p);
    assert forall i :: 0 <= i < |q| ==> q[i] in p;
    SplitJoin(q);
  }

  /** Every line of the normalised text holds only digits, at most eleven of
      them; there are at most 100 lines and never two newlines in a row. */
  lemma NormalizeCanonical(raw: string)
    ensures Canonical(Normalize(raw))
  {
    NormalizedLines(raw);
    var p := ProcessedLines(raw);
    var q := Squeeze(p);
    forall i | 0 <= i < |q| ensures AllDigits(q[i]) && |q[i]| <= MaxDigits {
      assert q[i] in p;
    }
  }

  /** A canonical text is its own normal form. */
  lemma CanonicalFixed(text: string)
    requires Canonical(text)
    ensures Normalize(text) == text
  {
    var lines := Split(text);
    assert CleanLines(lines) == lines;
    assert ProcessedLines(text) == lines;
    JoinSplit(text);
    CollapseFixed(text);
  }

  /** Running the normaliser on its own output changes nothing. */
  lemma NormalizeIdempotent(raw: string)
    ensures Normalize(Normalize(raw)) == Normalize(raw)
  {
    NormalizeCanonical(raw);
    CanonicalFixed(Normalize(raw));
  }

  /** The non-empty lines of the normalised text are exactly the non-empty
      cleaned lines among the first 100 raw lines, in their original order. */
  lemma NormalizeKeepsNumbers(raw: string)
    ensures NonEmpty(Split(Normalize(raw))) == NonEmpty(ProcessedLines(raw))
  {
    NormalizedLines(raw);
    NonEmptySqueeze(ProcessedLines(raw));
  }

  lemma {:induction false} JoinShrinks(short: seq<string>, long: seq<string>)
    requires 1 <= |short| <= |long|
    requires forall i :: 0 <= i < |short| ==> |short[i]| <= |long[i]|
    ensures |Join(short)| <= |Join(long)|
  {
    if |short| > 1 {
      JoinShrinks(short[1..], long[1..]);
    }
  }

  /** Normalisation only ever removes characters. */
  lemma NormalizeShrinks(raw: string)
    ensures |Normalize(raw)| <= |raw|
  {
    var lines := Split(raw);
    JoinShrinks(ProcessedLines(raw), lines);
    JoinSplit(raw);
  }

  // ---------------------------------------------------------------------------
  // The derived displays: markers, count, line numbers

  /** The validity marker next to a line: nothing, O or X. */
  datatype Marker = Unmarked | MarkO | MarkX

  /** The marker of one line (js/main.js:123-139). */
  function MarkerOf(line: string): (m: Marker)
    ensures m == Unmarked <==> Trim(line) == ""
    ensures m == MarkO <==> Phone.IsValid(Trim(line))
  {
    var t := Trim(line);
    if t == "" then Unmarked
    else if !StartsWith(t, "01") then MarkX
    else if StartsWith(t, "010") then (if |t| == 11 then MarkO else MarkX)
    else if |t| == 10 || |t| == 11 then MarkO
    else MarkX
  }

  function MarkLines(lines: seq<string>): seq<Marker> {
    seq(|lines|, i requires 0 <= i < |lines| => MarkerOf(lines[i]))
  }

  /** The marker gutter: one marker per line of the text. */
  function Markers(text: string): seq<Marker> {
    MarkLines(Split(text))
  }

  /** `filter(line => line.trim() !== '')`. */
  function NonBlankLines(lines: seq<string>): seq<string> {
    if lines == [] then []
    else (if Trim(lines[0]) == "" then [] else [lines[0]]) + NonBlankLines(lines[1..])
  }

  /** The "N / 100" counter: the number of non-blank lines. */
  function RecipientCount(text: string): nat {
    |NonBlankLines(Split(text))|
  }

  /** The line-number gutter: one number per line, counting from 1, so one more
      than there are newlines, and as many as there are markers. */
  function LineNumbers(text: string): (r: seq<nat>)
    ensures |r| == Newlines(text) + 1 && |r| == |Markers(text)|
    ensures forall i :: 0 <= i < |r| ==> r[i] == i + 1
  {
    var n := |Split(text)|;
    seq(n, i requires 0 <= i < n => i + 1)
  }

  function CountMarked(ms: seq<Marker>): nat {
    if ms == [] then 0 else (if ms[0] == Unmarked then 0 else 1) + CountMarked(ms[1..])
  }

  /** The counter equals the number of lines that carry an O or an X marker. */
  lemma {:induction false} CountMatchesMarkers(lines: seq<string>)
    ensures CountMarked(MarkLines(lines)) == |NonBlankLines(lines)|
  {
    if lines != [] {
      CountMatchesMarkers(lines[1..]);
      assert MarkLines(lines)[1..] == MarkLines(lines[1..]);
    }
  }

  lemma {:induction false} NonBlankDigitLines(lines: seq<string>)
    requires forall i :: 0 <= i < |lines| ==> AllDigits(lines[i])
    ensures NonBlankLines(lines) == NonEmpty(lines)
  {
    if lines != [] {
      DigitsTrimToThemselves(lines[0]);
      NonBlankDigitLines(lines[1..]);
    }
  }

  /** After normalisation the counter is the number of non-empty cleaned lines
      among the first 100 raw lines, so it never exceeds 100. */
  lemma CountAfterNormalize(raw: string)
    ensures RecipientCount(Normalize(raw)) == |NonEmpty(ProcessedLines(raw))|
    ensures RecipientCount(Normalize(raw)) <= MaxRecipients
  {
    var lines := Split(Normalize(raw));
    NormalizeCanonical(raw);
    NonBlankDigitLines(lines);
    NormalizeKeepsNumbers(raw);
    NonEmptyNoLonger(ProcessedLines(raw));
  }

  lemma {:induction false} NonEmptyNoLonger(lines: seq<string>)
    ensures |NonEmpty(lines)| <= |lines|
  {
    if lines != [] {
      NonEmptyNoLonger(lines[1..]);
    }
  }

  /** On a canonical text a line is unmarked iff it is empty and marked O iff it
      is a valid phone number as it stands. */
  lemma MarkersOfCanonical(text: string, i: nat)
    requires Canonical(text) && i < |Split(text)|
    ensures Markers(text)[i] == Unmarked <==> Split(text)[i] == ""
    ensures Markers(text)[i] == MarkO <==> Phone.IsValid(Split(text)[i])
  {
    DigitsTrimToThemselves(Split(text)[i]);
  }

  /** Clearing the field and normalising gives the empty text, a count of 0, no
      marker and the single line number 1. */
  lemma ResetState()
    ensures Normalize("") == ""
    ensures RecipientCount(Normalize("")) == 0
    ensures Markers(Normalize("")) == [Unmarked]
    ensures LineNumbers(Normalize("")) == [1]
  {
    assert Split("") == [""];
    assert CleanLine("") == "";
    assert CleanLines([""]) == [""];
    assert ProcessedLines("") == [""];
    assert Join([""]) == "";
    assert Normalize("") == "";
    assert Trim("") == "";
    assert MarkLines([""]) == [Unmarked];
    assert NonBlankLines([""]) == [];
  }

  lemma {:induction false} DigitsOnlyAppend(a: string, b: string)
    ensures DigitsOnly(a + b) == DigitsOnly(a) + DigitsOnly(b)
  {
    if a != "" {
      assert (a + b)[0] == a[0] && (a + b)[1..] == a[1..] + b;
      DigitsOnlyAppend(a[1..], b);
    } else {
      assert a + b == b;
    }
  }

  /** Text without a newline is one line: normalising it keeps its first eleven
      digits. */
  lemma NormalizeLine(line: string)
    requires '\n' !in line
    ensures Normalize(line) == CleanLine(line)
  {
    SplitOfLine(line);
    assert ProcessedLines(line) == [CleanLine(line)];
    DigitLinesHaveNoNewline([CleanLine(line)]);
    CollapseLine(CleanLine(line));
  }

  // ---------------------------------------------------------------------------
  // The caret

  /** The caret the handler sets (js/main.js:115-117): the old caret moved left
      by the whole change in length, wherever the removed characters were. */
  function NewCaret(raw: string, selectionStart: int): (c: int)
    ensures c <= selectionStart
    ensures selectionStart == |raw| ==> c == |Normalize(raw)|
    ensures Canonical(raw) ==> c == selectionStart
  {
    NormalizeShrinks(raw);
    assert Canonical(raw) ==> Normalize(raw) == raw by {
      if Canonical(raw) { CanonicalFixed(raw); }
    }
    selectionStart - (|raw| - |Normalize(raw)|)
  }

  // ---------------------------------------------------------------------------
  // The Enter-key guard

  /** What the keydown handler does with a key (js/main.js:154-186). */
  datatype KeyOutcome = Proceed | BlockedAtLimit | BlockedLine

  /** `value.substring(0, selectionStart).split('\n').pop()`: the text of the
      caret's line before the caret. */
  function CurrentLine(text: string, selectionStart: int): string {
    var cut := if selectionStart < 0 then 0
               else if selectionStart > |text| then |text|
               else selectionStart;
    LastLine(text[..cut])
  }

  /** The keydown decision: Enter is refused when the text already has 100 lines,
      or when the caret's line is blank, or starts with "010" without being 11
      characters long; every other key passes. */
  function OnKeyDown(key: string, text: string, selectionStart: int): (o: KeyOutcome)
    ensures key != "Enter" ==> o == Proceed
    ensures o == BlockedAtLimit <==> key == "Enter" && |Split(text)| >= MaxRecipients
    ensures key == "Enter" && |Split(text)| < MaxRecipients ==>
              (o == Proceed <==>
                 !Blank(CurrentLine(text, selectionStart)) &&
                 !(StartsWith(CurrentLine(text, selectionStart), "010") &&
                   |CurrentLine(text, selectionStart)| != 11))
  {
    if key != "Enter" then Proceed
    else if |Split(text)| >= MaxRecipients then BlockedAtLimit
    else
      var line := CurrentLine(text, selectionStart);
      TrimEmptyIffBlank(line);
      var invalid010 := StartsWith(line, "010") && |line| != 11;
      var creatingEmptyLine := Trim(line) == "";
      if invalid010 || creatingEmptyLine then BlockedLine else Proceed
  }

  /** An Enter that passes the guard leaves at most 100 lines, so typing never
      reaches the normaliser's cap. */
  lemma EnterKeepsCap(text: string, selectionStart: nat)
    requires selectionStart <= |text|
    requires OnKeyDown("Enter", text, selectionStart) == Proceed
    ensures |Split(text[..selectionStart] + "\n" + text[selectionStart..])| <= MaxRecipients
    ensures ProcessedLines(text[..selectionStart] + "\n" + text[selectionStart..]) ==
            CleanLines(Split(text[..selectionStart] + "\n" + text[selectionStart..]))
  {
    var before, after := text[..selectionStart], text[selectionStart..];
    assert text == before + after;
    NewlinesAppend(before, "\n");
    NewlinesAppend(before + "\n", after);
    NewlinesAppend(before, after);
    assert Newlines("\n") == 1;
  }

  /** Only the "010" length rule is checked on Enter: a line "02" is let through
      although it is marked X. */
  lemma EnterIgnoresOtherPrefixes()
    ensures OnKeyDown("Enter", "02", 2) == Proceed
    ensures MarkerOf("02") == MarkX
  {
    assert Split("02") == ["02"] by { SplitOfLine("02"); }
    assert "02"[..2] == "02";
    assert CurrentLine("02", 2) == "02";
  }

  // ---------------------------------------------------------------------------
  // The textarea and its gutters

  /** The manual-entry widgets: the textarea's value and selection, the
      line-number and marker gutters, the counter, and the paste flag. */
  class RecipientEditor {
    var value: string
    var selectionStart: int
    var selectionEnd: int
    var lineNumbers: seq<nat>
    var markers: seq<Marker>
    var count: nat
    var isPasting: bool

    /** The gutters and the counter always describe the canonical value. */
    ghost predicate Valid()
      reads this
    {
      Canonical(value) &&
      lineNumbers == LineNumbers(value) &&
      markers == Markers(value) &&
      count == RecipientCount(value)
    }

    /** Page load: the paste flag starts cleared and the handler runs once on
        the textarea's initial content (js/main.js:67, 151). */
    constructor (initial: string, caret: int)
      ensures Valid()
      ensures value == Normalize(initial) && !isPasting
      ensures selectionStart == selectionEnd == NewCaret(initial, caret)
    {
      isPasting := false;
      new;
      var _ := HandleInput(initial, caret);
    }

    /** The paste listener raises the flag (js/main.js:71-72). */
    method Paste()
      modifies this
      ensures isPasting
      ensures value == old(value) && selectionStart == old(selectionStart)
      ensures selectionEnd == old(selectionEnd) && lineNumbers == old(lineNumbers)
      ensures markers == old(markers) && count == old(count)
    {
      isPasting := true;
    }

    /** The input handler (js/main.js:83-147), given the raw text and caret the
        browser produced. It answers whether the overflow alert is shown: only
        when more than 100 lines arrived by a paste. */
    method HandleInput(raw: string, caret: int) returns (overflowAlert: bool)
      modifies this
      ensures Valid()
      ensures value == Normalize(raw)
      ensures selectionStart == selectionEnd == NewCaret(raw, caret)
      ensures overflowAlert <==> old(isPasting) && |Split(raw)| > MaxRecipients
      ensures !isPasting
    {
      var processed := CleanLines(Split(raw));
      overflowAlert := |processed| > MaxRecipients && isPasting;
      processed := CapLines(processed);
      isPasting := false;
      var newValue := Collapse(Join(processed));
      assert newValue == Normalize(raw);
      NormalizeCanonical(raw);
      var diff := |raw| - |newValue|;
      Show(newValue, caret - diff);
    }

    /** Writing a canonical value and the caret back to the textarea, then
        redrawing the line numbers, the markers and the counter for it
        (js/main.js:112-117, 141-146). */
    method Show(newValue: string, caret: int)
      requires Canonical(newValue)
      modifies this
      ensures Valid()
      ensures value == newValue && selectionStart == selectionEnd == caret
      ensures lineNumbers == LineNumbers(newValue) && markers == Markers(newValue)
      ensures count == RecipientCount(newValue)
      ensures isPasting == old(isPasting)
    {
      value, selectionStart, selectionEnd := newValue, caret, caret;
      count, markers, lineNumbers := RecipientCount(newValue), Markers(newValue), LineNumbers(newValue);
    }

    /** `resetSimpleRegistration(force)` (js/main.js:572-580): when forced or
        when the field holds something, clear it and rerun the handler; the reset
        button's copy (js/main.js:304-310) is the forced case. */
    method Reset(force: bool)
      requires Valid()
      modifies this
      ensures Valid()
      ensures force || Trim(old(value)) != "" ==>
                value == "" && selectionStart == 0 && selectionEnd == 0 &&
                count == 0 && markers == [Unmarked] && lineNumbers == [1] && !isPasting
      ensures !force && Trim(old(value)) == "" ==>
                value == old(value) && selectionStart == old(selectionStart) &&
                selectionEnd == old(selectionEnd) && count == old(count) &&
                markers == old(markers) && lineNumbers == old(lineNumbers) &&
                isPasting == old(isPasting)
    {
      if force || Trim(value) != "" {
        value := "";
        var _ := HandleInput("", 0);
        ResetState();
      }
    }
  }

  /** A cleaned line is the line's digits cut to eleven. */
  lemma CleanLineOfDigits(line: string)
    ensures CleanLine(line) ==
            DigitsOnly(line)[..if |DigitsOnly(line)| > MaxDigits then MaxDigits else |DigitsOnly(line)|]
  {
  }

  /** Cleaning a line and then appending to it cleans like appending first: the
      digits beyond the eleventh are dropped either way. */
  lemma CleanThenAppend(line: string, extra: string)
    ensures CleanLine(CleanLine(line) + extra) == CleanLine(line + extra)
  {
    var v := CleanLine(line);
    var d, e := DigitsOnly(line), DigitsOnly(extra);
    DigitsOnlyAppend(v, extra);
    DigitsOnlyAppend(line, extra);
    CleanLineOfDigits(v + extra);
    CleanLineOfDigits(line + extra);
    if |d| > MaxDigits {
      assert (v + e)[..MaxDigits] == v == d[..MaxDigits] == (d + e)[..MaxDigits];
    } else {
      assert v == d;
    }
  }

  /** A digit string holds no newline. */
  lemma DigitsHaveNoNewline(s: string)
    requires AllDigits(s)
    ensures '\n' !in s
  {
    assert forall c :: c in s ==> IsDigit(c);
  }

  /** Typing one more character of a newline-free line at the end of the field
      appends its digit, if it is one, as long as the line holds fewer than
      eleven digits; beyond that the field stays at the first eleven. */
  lemma TypeOneMore(typed: string, i: nat)
    requires '\n' !in typed && i < |typed|
    ensures Normalize(CleanLine(typed[..i]) + [typed[i]]) == CleanLine(typed[..i + 1])
  {
    var value := CleanLine(typed[..i]);
    var raw := value + [typed[i]];
    assert typed[..i + 1] == typed[..i] + [typed[i]];
    assert typed[i] in typed;
    DigitsHaveNoNewline(value);
    assert '\n' !in raw;
    NormalizeLine(raw);
    CleanThenAppend(typed[..i], [typed[i]]);
  }

  /** A hyphen contributes no digit. */
  lemma DropHyphen(x: string, y: string)
    ensures DigitsOnly(x + "-" + y) == DigitsOnly(x) + DigitsOnly(y)
  {
    DigitsOnlyAppend(x + "-", y);
    DigitsOnlyAppend(x, "-");
  }

  /** The digits of a number written in hyphen-separated digit groups are the
      groups joined. */
  lemma HyphenatedDigits(a: string, b: string, c: string)
    requires AllDigits(a) && AllDigits(b) && AllDigits(c)
    ensures DigitsOnly(a + "-" + b + "-" + c) == a + b + c
  {
    DropHyphen(a + "-" + b, c);
    DropHyphen(a, b);
  }

  /** "010-1234-5678" is the three groups joined by hyphens. */
  lemma HyphenatedSpelling()
    ensures "010-1234-5678" == "010" + "-" + "1234" + "-" + "5678"
    ensures "01012345678" == "010" + "1234" + "5678"
  {
  }

  lemma DigitsOfExample()
    ensures DigitsOnly("a1b2c3") == "123"
  {
    assert DigitsOnly("3") == "3";
    assert DigitsOnly("c3") == "3" by { assert "c3"[1..] == "3"; }
    assert DigitsOnly("2c3") == "23" by { assert "2c3"[1..] == "c3"; }
    assert DigitsOnly("b2c3") == "23" by { assert "b2c3"[1..] == "2c3"; }
    assert DigitsOnly("1b2c3") == "123" by { assert "1b2c3"[1..] == "b2c3"; }
    assert "a1b2c3"[1..] == "1b2c3";
  }

  /** Typing "a1b2c3" one character at a time into an empty field leaves "123"
      with the caret after the 3. */
  method TypingScenario() {
    var editor := new RecipientEditor("", 0);
    TypingDigits(editor, "a1b2c3");
    DigitsOfExample();
    assert editor.value == "123" && editor.selectionStart == 3;
  }

  /** Typing "010-1234-5678" keeps its eleven digits and drops the hyphens. */
  lemma CleanHyphenated()
    ensures CleanLine("010-1234-5678") == "01012345678"
  {
    HyphenatedSpelling();
    HyphenatedDigits("010", "1234", "5678");
    CleanLineOfDigits("010-1234-5678");
  }

  /** Typing "010-1234-5678" one character at a time into an empty field leaves
      "01012345678" with the caret at its end. */
  method TypingHyphenatedScenario() {
    var editor := new RecipientEditor("", 0);
    TypingDigits(editor, "010-1234-5678");
    CleanHyphenated();
    assert editor.value == "01012345678" && editor.selectionStart == 11;
  }

  /** Typing a newline-free line at the end of an empty field: the field holds
      the first eleven digits typed so far, the caret stays at its end. */
  method TypingDigits(editor: RecipientEditor, typed: string)
    requires editor.value == "" && editor.selectionStart == editor.selectionEnd == 0
    requires '\n' !in typed
    modifies editor
    ensures editor.value == CleanLine(typed)
    ensures editor.selectionStart == editor.selectionEnd == |editor.value|
  {
    var i := 0;
    assert typed[..0] == "";
    while i < |typed|
      invariant 0 <= i <= |typed|
      invariant editor.value == CleanLine(typed[..i])
      invariant editor.selectionStart == editor.selectionEnd == |editor.value|
    {
      TypeOneMore(typed, i);
      var raw := editor.value + [typed[i]];
      var _ := editor.HandleInput(raw, |raw|);
      i := i + 1;
    }
    assert typed[..i] == typed;
  }
}
