/** The spreadsheet ("bulk registration") import: every first-column cell is
    checked in order, and the first bad cell voids the whole batch. */
module SheetImport {
  import opened Text
  import opened Results
  import Phone
  import ManualEntry

  /** More rows than this are refused before any row is looked at. */
  const MaxRows: nat := 20000

  /** Why an import was refused, one case per message the handler can throw. */
  datatype ImportError =
    | TooManyRows          // more than 20,000 rows
    | DisallowedCharacter  // a character other than a digit or '-'
    | MissingPrefix        // does not start with "01"
    | Bad010Length         // starts with "010" but is not 11 digits long
    | BadLength            // another "01x" number not 10 or 11 digits long

  /** What happens to one cell. */
  datatype CellOutcome = Skip | Accept(phone: string) | Reject(error: ImportError)

  /** `!/[^0-9-]/.test(s)`. */
  predicate AllowedChars(s: string) {
    forall i :: 0 <= i < |s| ==> IsDigit(s[i]) || s[i] == '-'
  }

  /** `s.replace(/-/g, '')`. */
  function StripHyphens(s: string): (r: string)
    ensures |r| <= |s| && '-' !in r
    ensures AllowedChars(s) ==> AllDigits(r)
    ensures AllDigits(s) ==> r == s
    ensures |s| == 1 ==> r == (if s[0] == '-' then "" else s)
  {
    if s == "" then ""
    else (if s[0] == '-' then "" else [s[0]]) + StripHyphens(s[1..])
  }

  /** Removing hyphens works piece by piece. */
  lemma {:induction false} StripHyphensAppend(a: string, b: string)
    ensures StripHyphens(a + b) == StripHyphens(a) + StripHyphens(b)
  {
    if a != "" {
      assert (a + b)[0] == a[0] && (a + b)[1..] == a[1..] + b;
      StripHyphensAppend(a[1..], b);
    } else {
      assert a + b == b;
    }
  }

  /** One iteration of the row loop (js/main.js:239-257): blank cells are
      skipped; the checks run in a fixed order and the first that fails names
      the error; a cell that passes them all yields its hyphen-free number. */
  function CheckCell(cell: string): (o: CellOutcome)
    ensures o == Skip <==> Trim(cell) == ""
    ensures o == Reject(DisallowedCharacter) <==> Trim(cell) != "" && !AllowedChars(Trim(cell))
    ensures o.Accept? <==>
              Trim(cell) != "" && AllowedChars(Trim(cell)) && Phone.IsValid(StripHyphens(Trim(cell)))
    ensures o.Accept? ==> o.phone == StripHyphens(Trim(cell)) && AllDigits(o.phone)
    ensures o.Reject? ==> o.error != TooManyRows
    ensures var p := StripHyphens(Trim(cell));
            o == Reject(MissingPrefix) <==>
              Trim(cell) != "" && AllowedChars(Trim(cell)) && !StartsWith(p, "01")
    ensures var p := StripHyphens(Trim(cell));
            o == Reject(Bad010Length) <==>
              Trim(cell) != "" && AllowedChars(Trim(cell)) && StartsWith(p, "01") &&
              StartsWith(p, "010") && |p| != 11
    ensures var p := StripHyphens(Trim(cell));
            o == Reject(BadLength) <==>
              Trim(cell) != "" && AllowedChars(Trim(cell)) && StartsWith(p, "01") &&
              !StartsWith(p, "010") && !(10 <= |p| <= 11)
  {
    var originalPhone := Trim(cell);
    if originalPhone == "" then Skip
    else if !AllowedChars(originalPhone) then Reject(DisallowedCharacter)
    else
      var phone := StripHyphens(originalPhone);
      if !StartsWith(phone, "01") then Reject(MissingPrefix)
      else if StartsWith(phone, "010") && |phone| != 11 then Reject(Bad010Length)
      else if !StartsWith(phone, "010") && (|phone| < 10 || |phone| > 11) then Reject(BadLength)
      else Accept(phone)
  }

  /** A cell padded with spaces and written as hyphen-separated digit groups
      is accepted as the digits alone, when they form a valid number. */
  lemma PaddedHyphenatedAccepted(a: string, b: string, c: string)
    requires AllDigits(a) && AllDigits(b) && AllDigits(c) && a != "" && c != ""
    requires Phone.IsValid(a + b + c)
    ensures CheckCell(" " + a + "-" + b + "-" + c + " ") == Accept(a + b + c)
  {
    var x := a + "-" + b + "-" + c;
    assert " " + a + "-" + b + "-" + c + " " == " " + x + " ";
    assert x[0] == a[0] && x[|x| - 1] == c[|c| - 1];
    assert IsDigit(x[0]) && IsDigit(x[|x| - 1]);
    TrimPadded(x);
    HyphenatedAllowed(a, b, c);
    StripTwoHyphens(a, b, c);
  }

  lemma HyphenatedAllowed(a: string, b: string, c: string)
    requires AllDigits(a) && AllDigits(b) && AllDigits(c)
    ensures AllowedChars(a + "-" + b + "-" + c)
  {
    var x := a + "-" + b + "-" + c;
    forall i | 0 <= i < |x|
      ensures IsDigit(x[i]) || x[i] == '-'
    {
      if i < |a| {
        assert x[i] == a[i];
      } else if |a| < i < |a| + 1 + |b| {
        assert x[i] == b[i - |a| - 1];
      } else if i > |a| + 1 + |b| {
        assert x[i] == c[i - |a| - |b| - 2];
      }
    }
  }

  /** `trim` drops one space on each side of a text that starts and ends with
      something else. */
  lemma TrimPadded(x: string)
    requires x != "" && !IsWhitespace(x[0]) && !IsWhitespace(x[|x| - 1])
    ensures Trim(" " + x + " ") == x
  {
    var s := " " + x + " ";
    assert s[0] == ' ' && s[1] == x[0];
    assert SkipLeading(s, 0) == 1;
    var t := s[1..];
    assert t == x + " ";
    assert t[|t| - 1] == ' ' && t[|t| - 2] == x[|x| - 1];
    assert SkipTrailing(t, |t|) == |t| - 1;
    assert t[..|t| - 1] == x;
  }

  /** The example " 010-1234-5678 " is accepted as 01012345678. */
  lemma HyphenatedCellAccepted()
    ensures CheckCell(" 010-1234-5678 ") == Accept("01012345678")
  {
    Phone.Examples();
    assert "010" + "1234" + "5678" == "01012345678";
    assert AllDigits("010") && AllDigits("1234") && AllDigits("5678");
    PaddedHyphenatedAccepted("010", "1234", "5678");
    ExampleSpelling();
  }

  lemma ExampleSpelling()
    ensures " " + "010" + "-" + "1234" + "-" + "5678" + " " == " 010-1234-5678 "
  {
  }

  /** A number written in three hyphen-separated groups loses only the hyphens. */
  lemma StripTwoHyphens(a: string, b: string, c: string)
    requires AllDigits(a) && AllDigits(b) && AllDigits(c)
    ensures StripHyphens(a + "-" + b + "-" + c) == a + b + c
  {
    var h := "-";
    assert StripHyphens(h) == "";
    var x1 := a + h;
    StripHyphensAppend(a, h);
    assert StripHyphens(x1) == a;
    var x2 := x1 + b;
    StripHyphensAppend(x1, b);
    assert StripHyphens(x2) == a + b;
    var x3 := x2 + h;
    StripHyphensAppend(x2, h);
    assert StripHyphens(x3) == a + b;
    StripHyphensAppend(x3, c);
    assert StripHyphens(x3 + c) == a + b + c;
  }


  /** The row loop over a list of cells: the accepted numbers in order, or the
      error of the first rejected cell. */
  function ValidateRows(cells: seq<string>): (r: Result<seq<string>, ImportError>)
    ensures r.Success? ==> |r.value| <= |cells|
    ensures r.Success? ==> forall i :: 0 <= i < |r.value| ==>
              Phone.IsValid(r.value[i]) && AllDigits(r.value[i])
    ensures r.Failure? ==> r.error != TooManyRows
  {
    if cells == [] then Success([])
    else
      match ValidateRows(cells[..|cells| - 1])
      case Failure(e) => Failure(e)
      case Success(phones) =>
        match CheckCell(cells[|cells| - 1])
        case Skip => Success(phones)
        case Accept(p) => Success(phones + [p])
        case Reject(e) => Failure(e)
  }

  /** The whole import given the first-column cells of the first sheet
      (js/main.js:232-258). */
  function Import(cells: seq<string>): (r: Result<seq<string>, ImportError>)
    ensures |cells| > MaxRows ==> r == Failure(TooManyRows)
    ensures r == Failure(TooManyRows) ==> |cells| > MaxRows
    ensures r.Success? ==> forall i :: 0 <= i < |r.value| ==>
              Phone.IsValid(r.value[i]) && AllDigits(r.value[i])
  {
    if |cells| > MaxRows then Failure(TooManyRows) else ValidateRows(cells)
  }

  /** What one cell adds to the accepted numbers. */
  function Contribution(cell: string): seq<string> {
    match CheckCell(cell)
    case Accept(p) => [p]
    case _ => []
  }

  /** The numbers of the accepted cells, in the order of the rows. */
  function AcceptedPhones(cells: seq<string>): seq<string> {
    if cells == [] then []
    else Contribution(cells[0]) + AcceptedPhones(cells[1..])
  }

  lemma {:induction false} AcceptedPhonesSnoc(cells: seq<string>, cell: string)
    ensures AcceptedPhones(cells + [cell]) == AcceptedPhones(cells) + Contribution(cell)
  {
    if cells == [] {
      assert [] + [cell] == [cell];
      assert [cell][1..] == [];
    } else {
      var c := cells + [cell];
      assert c[0] == cells[0];
      assert c[1..] == cells[1..] + [cell];
      AcceptedPhonesSnoc(cells[1..], cell);
      assert AcceptedPhones(c) == Contribution(cells[0]) + AcceptedPhones(cells[1..] + [cell]);
    }
  }

  /** Once a prefix of the rows has failed, later rows change nothing. */
  lemma {:induction false} FailurePersists(cells: seq<string>, k: nat)
    requires k <= |cells|
    requires ValidateRows(cells[..k]).Failure?
    ensures ValidateRows(cells) == ValidateRows(cells[..k])
  {
    if k < |cells| {
      var init := cells[..|cells| - 1];
      assert init[..k] == cells[..k];
      FailurePersists(init, k);
    } else {
      assert cells[..k] == cells;
    }
  }

  /** No cell of the list is rejected. */
  predicate NoneRejected(cells: seq<string>) {
    forall i :: 0 <= i < |cells| ==> !CheckCell(cells[i]).Reject?
  }

  lemma NoneRejectedSnoc(init: seq<string>, last: string)
    ensures NoneRejected(init + [last]) <==> NoneRejected(init) && !CheckCell(last).Reject?
  {
    var c := init + [last];
    assert c[|init|] == last;
    assert forall i :: 0 <= i < |init| ==> c[i] == init[i];
  }

  /** One more row on the back: a failure stays, a skipped cell adds nothing,
      an accepted cell adds its number and a rejected cell fails. */
  lemma ValidateRowsSnoc(init: seq<string>, last: string)
    ensures ValidateRows(init + [last]) ==
            if ValidateRows(init).Failure? then ValidateRows(init)
            else if CheckCell(last).Reject? then Failure(CheckCell(last).error)
            else Success(ValidateRows(init).value + Contribution(last))
  {
    var c := init + [last];
    assert c[..|c| - 1] == init && c[|c| - 1] == last;
    if CheckCell(last).Skip? {
      assert ValidateRows(init).Success? ==> ValidateRows(init).value + [] == ValidateRows(init).value;
    }
  }

  /** The rows pass exactly when no cell is rejected, and then the result is
      the accepted numbers in row order. */
  lemma {:induction false} ValidateRowsSuccess(cells: seq<string>)
    ensures ValidateRows(cells).Success? <==> NoneRejected(cells)
    ensures ValidateRows(cells).Success? ==> ValidateRows(cells).value == AcceptedPhones(cells)
  {
    if cells != [] {
      var init, last := cells[..|cells| - 1], cells[|cells| - 1];
      assert cells == init + [last];
      ValidateRowsSuccess(init);
      ValidateRowsSnoc(init, last);
      NoneRejectedSnoc(init, last);
      AcceptedPhonesSnoc(init, last);
    }
  }

  /** An import succeeds exactly when the sheet has at most 20,000 rows and no
      cell is rejected; its numbers are those of the accepted cells, in order,
      and the count shown is their number. */
  lemma ImportSucceeds(cells: seq<string>)
    ensures Import(cells).Success? <==>
            |cells| <= MaxRows && forall i :: 0 <= i < |cells| ==> !CheckCell(cells[i]).Reject?
    ensures Import(cells).Success? ==> Import(cells).value == AcceptedPhones(cells)
  {
    ValidateRowsSuccess(cells);
  }

  /** The first rejected cell decides the error, whatever follows it. */
  lemma {:induction false} FirstRejectionWins(cells: seq<string>, i: nat)
    requires |cells| <= MaxRows && i < |cells|
    requires CheckCell(cells[i]).Reject?
    requires forall j :: 0 <= j < i ==> !CheckCell(cells[j]).Reject?
    ensures Import(cells) == Failure(CheckCell(cells[i]).error)
  {
    var before := cells[..i];
    assert forall j :: 0 <= j < |before| ==> before[j] == cells[j];
    assert NoneRejected(before);
    ValidateRowsSuccess(before);
    RejectedRow(cells, i);
    FailurePersists(cells, i + 1);
  }

  /** A rejected row after rows that passed fails the rows up to it. */
  lemma RejectedRow(cells: seq<string>, i: nat)
    requires i < |cells| && ValidateRows(cells[..i]).Success?
    requires CheckCell(cells[i]).Reject?
    ensures ValidateRows(cells[..i + 1]) == Failure(CheckCell(cells[i]).error)
  {
    var upto := cells[..i + 1];
    assert upto[..|upto| - 1] == cells[..i];
    assert upto[|upto| - 1] == cells[i];
  }

  /** For a string of digits the import's checks accept exactly when the manual
      entry marks the line O, and an accepted number is kept as it is. */
  lemma {:induction false} ImportAgreesWithMarker(s: string)
    requires AllDigits(s)
    ensures CheckCell(s).Accept? <==> ManualEntry.MarkerOf(s) == ManualEntry.MarkO
    ensures CheckCell(s).Accept? ==> CheckCell(s).phone == s
    ensures s != "" && !CheckCell(s).Accept? ==> CheckCell(s).Reject?
  {
    DigitsTrimToThemselves(s);
    assert AllowedChars(s);
  }

  /** The row loop as the handler runs it: checks each cell in turn, collects
      the accepted numbers and leaves at the first failure. */
  method ValidateSheet(cells: seq<string>) returns (r: Result<seq<string>, ImportError>)
    ensures r == Import(cells)
  {
    if |cells| > MaxRows {
      return Failure(TooManyRows);
    }
    var validatedPhones: seq<string> := [];
    for i := 0 to |cells|
      invariant ValidateRows(cells[..i]) == Success(validatedPhones)
    {
      assert cells[..i + 1][..i] == cells[..i];
      assert cells[..i + 1][i] == cells[i];
      var originalPhone := Trim(cells[i]);
      if originalPhone == "" {
        continue;
      }
      if !AllowedChars(originalPhone) {
        FailurePersists(cells, i + 1);
        return Failure(DisallowedCharacter);
      }
      var phone := StripHyphens(originalPhone);
      if !StartsWith(phone, "01") {
        FailurePersists(cells, i + 1);
        return Failure(MissingPrefix);
      }
      if StartsWith(phone, "010") && |phone| != 11 {
        FailurePersists(cells, i + 1);
        return Failure(Bad010Length);
      }
      if !StartsWith(phone, "010") && (|phone| < 10 || |phone| > 11) {
        FailurePersists(cells, i + 1);
        return Failure(BadLength);
      }
      validatedPhones := validatedPhones + [phone];
    }
    assert cells[..|cells|] == cells;
    return Success(validatedPhones);
  }

  /** What the file input delivers: nothing chosen, a file the spreadsheet
      reader cannot read, or the first-column cells of its first sheet. */
  datatype FileChoice = NoFile | Unreadable | Sheet(firstColumn: seq<string>)

  /** The message the failed upload reports before resetting. */
  datatype UploadFailure = UnreadableFile | Rejected(error: ImportError)

  /** The bulk-registration widgets: the file input, the preview table of
      accepted numbers and its "N rows" label. */
  class BulkUpload {
    var fileChosen: bool
    var previewVisible: bool
    var previewPhones: seq<string>
    var countLabel: nat

    /** The preview shows only numbers that passed every check, and its label
        counts them; a preview is shown exactly when a file is kept. */
    ghost predicate Valid()
      reads this
    {
      countLabel == |previewPhones| &&
      previewVisible == fileChosen &&
      (!previewVisible ==> previewPhones == []) &&
      forall i :: 0 <= i < |previewPhones| ==>
        Phone.IsValid(previewPhones[i]) && AllDigits(previewPhones[i])
    }

    ghost predicate Empty()
      reads this
    {
      !fileChosen && !previewVisible && previewPhones == [] && countLabel == 0
    }

    constructor ()
      ensures Valid() && Empty()
    {
      fileChosen, previewVisible, previewPhones, countLabel := false, false, [], 0;
    }

    /** `resetExcelUpload` (js/main.js:294-299, 556-566). */
    method Reset()
      modifies this
      ensures Valid() && Empty()
    {
      fileChosen := false;
      previewVisible := false;
      previewPhones := [];
      countLabel := 0;
    }

    /** The file input's change handler with its reader callback
        (js/main.js:213-277): a successful import replaces the preview; no file,
        an unreadable file or any rejected row leaves the empty state. */
    method OnFileSelected(file: FileChoice) returns (failure: Option<UploadFailure>)
      modifies this
      ensures Valid()
      ensures file.Sheet? && Import(file.firstColumn).Success? ==>
                failure == None && fileChosen && previewVisible &&
                previewPhones == Import(file.firstColumn).value &&
                countLabel == |Import(file.firstColumn).value|
      ensures !(file.Sheet? && Import(file.firstColumn).Success?) ==> Empty()
      ensures file.NoFile? ==> failure == None
      ensures file.Unreadable? ==> failure == Some(UnreadableFile)
      ensures file.Sheet? && Import(file.firstColumn).Failure? ==>
                failure == Some(Rejected(Import(file.firstColumn).error))
    {
      match file {
        case NoFile =>
          Reset();
          failure := None;
        case Unreadable =>
          Reset();
          failure := Some(UnreadableFile);
        case Sheet(cells) =>
          var result := ValidateSheet(cells);
          match result {
            case Success(phones) =>
              fileChosen := true;
              previewPhones := phones;
              countLabel := |phones|;
              previewVisible := true;
              failure := None;
            case Failure(e) =>
              Reset();
              failure := Some(Rejected(e));
          }
      }
    }
  }
}
