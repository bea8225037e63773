/** Assembling the recipient list when the coupon form is sent: the manual tab
    reads the textarea and its marker gutter, the bulk tab reads the preview. */
module Submission {
  import opened Text
  import opened Results
  import Phone
  import ManualEntry
  import SheetImport

  /** One entry of the request's recipient list. */
  datatype Recipient = Recipient(phoneNumber: string)

  /** The recipient tab that is active when the form is sent. */
  datatype Tab = SimpleTab | BulkTab

  /** Why sending stops, one case per alert of the recipient checks. */
  datatype SendError =
    | EmptyManualList      // the textarea holds only whitespace
    | InvalidManualNumber  // the gutter shows an X marker
    | NoFileUploaded       // the file input is empty
    | NoRecipients         // the assembled list is empty

  /** `map(phone => phone.trim()).filter(phone => phone !== '')`. */
  function TrimmedNonBlank(lines: seq<string>): seq<string> {
    if lines == [] then []
    else (if Trim(lines[0]) == "" then [] else [Trim(lines[0])]) + TrimmedNonBlank(lines[1..])
  }

  /** The phone numbers the manual tab sends for a textarea value. */
  function ManualPhones(text: string): seq<string> {
    TrimmedNonBlank(Split(text))
  }

  function ToRecipients(phones: seq<string>): (r: seq<Recipient>)
    ensures |r| == |phones| && forall i :: 0 <= i < |r| ==> r[i].phoneNumber == phones[i]
  {
    seq(|phones|, i requires 0 <= i < |phones| => Recipient(phones[i]))
  }

  /** The recipient part of the send handler (js/main.js:462-495): `gutter` is
      the marker gutter as displayed, `fileChosen` whether the file input holds
      a file and `preview` the phone column of the preview table. */
  function CollectRecipients(tab: Tab, text: string, gutter: seq<ManualEntry.Marker>,
                             fileChosen: bool, preview: seq<string>): (r: Result<seq<Recipient>, SendError>)
    ensures r.Success? ==> |r.value| > 0
    ensures tab.SimpleTab? && r.Success? ==>
              Trim(text) != "" && ManualEntry.MarkX !in gutter
    ensures tab.BulkTab? && r.Success? ==> fileChosen
    ensures tab.SimpleTab? && r.Success? ==> r.value == ToRecipients(ManualPhones(text))
    ensures tab.BulkTab? && r.Success? ==> r.value == ToRecipients(preview)
    ensures tab.SimpleTab? ==> r != Failure(NoFileUploaded)
    ensures tab.BulkTab? ==> r != Failure(EmptyManualList) && r != Failure(InvalidManualNumber)
    ensures tab.SimpleTab? && Trim(text) == "" ==> r == Failure(EmptyManualList)
    ensures tab.SimpleTab? && Trim(text) != "" && ManualEntry.MarkX in gutter ==>
              r == Failure(InvalidManualNumber)
    ensures tab.BulkTab? && !fileChosen ==> r == Failure(NoFileUploaded)
    ensures r == Failure(NoRecipients) <==>
              (if tab.SimpleTab? then Trim(text) != "" && ManualEntry.MarkX !in gutter && |ManualPhones(text)| == 0
               else fileChosen && |preview| == 0)
  {
    var assembled :=
      match tab
      case SimpleTab =>
        if Trim(text) == "" then Failure(EmptyManualList)
        else if ManualEntry.MarkX in gutter then Failure(InvalidManualNumber)
        else Success(ToRecipients(ManualPhones(text)))
      case BulkTab =>
        if !fileChosen then Failure(NoFileUploaded)
        else Success(ToRecipients(preview));
    match assembled
    case Failure(e) => Failure(e)
    case Success(recipients) =>
      if |recipients| == 0 then Failure(NoRecipients) else Success(recipients)
  }

  /** A line that is not marked X trims to a valid number or to nothing. */
  lemma {:induction false} UnmarkedOrValid(lines: seq<string>)
    requires forall i :: 0 <= i < |lines| ==> ManualEntry.MarkerOf(lines[i]) != ManualEntry.MarkX
    ensures forall j :: 0 <= j < |TrimmedNonBlank(lines)| ==> Phone.IsValid(TrimmedNonBlank(lines)[j])
  {
    if lines != [] {
      UnmarkedOrValid(lines[1..]);
    }
  }

  /** The manual tab sends one number per non-blank line: as many as the
      "N / 100" counter shows. */
  lemma {:induction false} TrimmedNonBlankCount(lines: seq<string>)
    ensures |TrimmedNonBlank(lines)| == |ManualEntry.NonBlankLines(lines)|
  {
    if lines != [] {
      TrimmedNonBlankCount(lines[1..]);
    }
  }

  /** On lines of digits trimming changes nothing: the sent numbers are the
      non-empty lines themselves. */
  lemma {:induction false} TrimmedDigitLines(lines: seq<string>)
    requires forall i :: 0 <= i < |lines| ==> AllDigits(lines[i])
    ensures TrimmedNonBlank(lines) == ManualEntry.NonEmpty(lines)
  {
    if lines != [] {
      DigitsTrimToThemselves(lines[0]);
      TrimmedDigitLines(lines[1..]);
    }
  }

  /** A character that is not whitespace lies on a non-blank line. */
  lemma {:induction false} NonBlankLineExists(s: string, k: nat)
    requires k < |s| && !IsWhitespace(s[k])
    ensures exists j :: 0 <= j < |Split(s)| && !Blank(Split(s)[j])
  {
    var t := Split(s[1..]);
    if k == 0 {
      assert Split(s)[0][0] == s[0];
    } else {
      assert s[1..][k - 1] == s[k];
      NonBlankLineExists(s[1..], k - 1);
      var j' :| 0 <= j' < |t| && !Blank(t[j']);
      if s[0] == '\n' {
        assert Split(s)[j' + 1] == t[j'];
      } else if j' == 0 {
        var m :| 0 <= m < |t[0]| && !IsWhitespace(t[0][m]);
        assert Split(s)[0][m + 1] == t[0][m];
      } else {
        assert Split(s)[j'] == t[j'];
      }
    }
  }

  lemma {:induction false} TrimmedNonBlankNotEmpty(lines: seq<string>, j: nat)
    requires j < |lines| && !Blank(lines[j])
    ensures |TrimmedNonBlank(lines)| > 0
  {
    if j == 0 {
      TrimEmptyIffBlank(lines[0]);
    } else if Trim(lines[0]) == "" {
      TrimmedNonBlankNotEmpty(lines[1..], j - 1);
    }
  }

  /** A textarea that is not blank holds at least one number, so on the manual
      tab the "no recipients" alert can never be reached. */
  lemma ManualNeverEmpty(text: string)
    requires Trim(text) != ""
    ensures |ManualPhones(text)| > 0
  {
    TrimEmptyIffBlank(text);
    var k :| 0 <= k < |text| && !IsWhitespace(text[k]);
    NonBlankLineExists(text, k);
    var j :| 0 <= j < |Split(text)| && !Blank(Split(text)[j]);
    TrimmedNonBlankNotEmpty(Split(text), j);
  }

  /** With the gutter the input handler drew for the value, the manual tab
      sends exactly when the value is not blank and no line is marked X; it then
      sends the trimmed non-blank lines in order, every one of them valid, as
      many as the counter shows. */
  lemma ManualOutcome(text: string, fileChosen: bool, preview: seq<string>)
    ensures var r := CollectRecipients(SimpleTab, text, ManualEntry.Markers(text), fileChosen, preview);
            (r.Success? <==> Trim(text) != "" && ManualEntry.MarkX !in ManualEntry.Markers(text)) &&
            (Trim(text) == "" ==> r == Failure(EmptyManualList)) &&
            (Trim(text) != "" && ManualEntry.MarkX in ManualEntry.Markers(text) ==>
               r == Failure(InvalidManualNumber)) &&
            r != Failure(NoRecipients) &&
            (r.Success? ==> r.value == ToRecipients(ManualPhones(text))) &&
            (r.Success? ==> |r.value| == ManualEntry.RecipientCount(text)) &&
            (r.Success? ==> forall i :: 0 <= i < |r.value| ==> Phone.IsValid(r.value[i].phoneNumber))
  {
    var lines := Split(text);
    TrimmedNonBlankCount(lines);
    if Trim(text) != "" {
      ManualNeverEmpty(text);
    }
    if ManualEntry.MarkX !in ManualEntry.Markers(text) {
      assert forall i :: 0 <= i < |lines| ==> ManualEntry.Markers(text)[i] == ManualEntry.MarkerOf(lines[i]);
      UnmarkedOrValid(lines);
    }
  }

  /** After the input handler has run, the manual tab sends the non-empty
      cleaned lines among the first 100 typed lines, in order. */
  lemma ManualAfterNormalize(raw: string)
    ensures ManualPhones(ManualEntry.Normalize(raw)) == ManualEntry.NonEmpty(ManualEntry.ProcessedLines(raw))
  {
    ManualEntry.NormalizeCanonical(raw);
    TrimmedDigitLines(Split(ManualEntry.Normalize(raw)));
    ManualEntry.NormalizeKeepsNumbers(raw);
  }

  /** The bulk tab sends exactly the previewed numbers, in order, once a file
      is kept and the preview is not empty. */
  lemma BulkOutcome(text: string, gutter: seq<ManualEntry.Marker>, fileChosen: bool, preview: seq<string>)
    ensures var r := CollectRecipients(BulkTab, text, gutter, fileChosen, preview);
            (r.Success? <==> fileChosen && |preview| > 0) &&
            (r == Failure(NoRecipients) <==> fileChosen && |preview| == 0) &&
            (r.Success? ==> |r.value| == |preview|) &&
            (r.Success? ==> forall i :: 0 <= i < |r.value| ==> r.value[i].phoneNumber == preview[i])
  {
  }

  /** Whatever tab is active, every number sent passed the phone-number rule,
      as long as the editor and the upload widgets are in the states their
      handlers leave them in. */
  lemma SentNumbersValid(tab: Tab, editor: ManualEntry.RecipientEditor, upload: SheetImport.BulkUpload)
    requires editor.Valid() && upload.Valid()
    ensures var r := CollectRecipients(tab, editor.value, editor.markers, upload.fileChosen, upload.previewPhones);
            r.Success? ==> forall i :: 0 <= i < |r.value| ==> Phone.IsValid(r.value[i].phoneNumber)
  {
    ManualOutcome(editor.value, upload.fileChosen, upload.previewPhones);
  }
}
