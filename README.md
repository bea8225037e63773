# Recipient phone numbers of the coupon dispatch form

The coupon dispatch page collects the mobile numbers that coupons are sent to, in
one of two ways.

- **Manual registration** ("간편등록"): a textarea with a line-number gutter,
  an O/X marker gutter and an "N / 100" counter. On every input event the handler
  normalises the text:
  - each line keeps only its digits, cut to 11;
  - at most 100 lines are kept;
  - runs of empty lines collapse.

  The handler then moves the caret and redraws the gutters. A keydown guard refuses
  Enter when the text has 100 lines or more. It also refuses Enter when the current
  line's text before the caret is blank, or starts with "010" and is not 11
  characters long.
- **Bulk registration** ("대량등록(엑셀)"): the first column of an uploaded
  spreadsheet is checked row by row. The checks stop at the first bad cell, and a bad
  cell voids the whole batch and resets the widgets. The accepted, hyphen-free
  numbers are previewed with their count.

When the form is sent, the active tab's numbers become the request's recipient list.
The manual tab refuses a blank text or any X marker.

Both paths apply one Korean mobile-number rule. A number must start with "01". A
"010" number has exactly 11 digits; any other "01x" number has 10 or 11.

The model has these modules:

- `Text`: the JavaScript string operations involved.
  - `trim` with ECMAScript's whitespace set.
  - `split('\n')` and `join('\n')`, with their round trips proved.
  - `startsWith`.
- `Phone`: the shared validity rule.
- `ManualEntry`:
  - the normaliser as pure functions;
  - the derived displays;
  - the Enter guard;
  - the `RecipientEditor` class, which holds the textarea, its caret, its gutters and the paste flag.
- `SheetImport`:
  - the per-cell checks;
  - the import as a specification function;
  - the handler's row loop, proved equal to that function;
  - the `BulkUpload` class, which holds the file input, the preview and its label.
- `Submission`: recipient assembly in the send handler.
- `Results`: `Option` and `Result` values, which stand in for thrown errors and early returns.

## Model

| member | source | states |
|---|---|---|
| Text.Trim | js/main.js:124 | `trim` removes whitespace only at the ends: the result is a slice of the string with only whitespace before and after it, and does not start or end with whitespace; a string with no whitespace at either end is kept |
| Text.TrimEmptyIffBlank | js/main.js:120 | a line trims to "" exactly when every character is whitespace |
| Text.DigitsTrimToThemselves | js/main.js:124 | a digit string trims to itself, and to "" only when empty |
| Text.Join | js/main.js:106 | `join('\n')`: no lines give "", one line itself, otherwise the first line, a newline and the join of the rest (definition; its contract is in JoinSplit and SplitJoin) |
| Text.Split | js/main.js:86 | `split('\n')` gives one more piece than there are newlines, none holding a newline |
| Text.JoinSplit | js/main.js:86-106 | joining the pieces of a split gives back the text |
| Text.SplitJoin | js/main.js:86-106 | splitting the join of newline-free lines gives back the lines |
| Phone.IsValid | js/main.js:127-138 | the phone rule: starts with "01"; a "010" number has exactly 11 characters, any other 10 or 11 (definition; its consequences are in Examples, MarkerOf and CheckCell) |
| Phone.Examples | js/main.js:127-138 | 11-digit "010…" is valid, 10-digit "010…" is not, 10-digit "016…" is valid, "02…" is not |
| ManualEntry.DigitsOnly | js/main.js:90 | removing non-digits leaves only digits, never lengthens and keeps a digit string; one character stays exactly when it is a digit |
| ManualEntry.DigitsOnlyAppend | js/main.js:90 | digits are removed piece by piece: the digits of a + b are those of a followed by those of b |
| ManualEntry.CleanLine | js/main.js:89-92 | a cleaned line is the first min(11, n) of the line's n digits; a line already of at most 11 digits is kept |
| ManualEntry.CapLines | js/main.js:95-101 | the cap keeps the first min(n, 100) lines, in order |
| ManualEntry.ProcessedLines | js/main.js:86-101 | exactly min(n, 100) lines for n raw lines, each the cleaned raw line at the same position; lines are cleaned before the cap |
| ManualEntry.Collapse | js/main.js:106 | collapsing never lengthens, keeps the first character and leaves no two newlines in a row |
| ManualEntry.CollapseJoin | js/main.js:106 | on joined lines the collapse drops the empty lines after the first line, except the last line |
| ManualEntry.Normalize | js/main.js:86-106 | the new value is the processed lines joined with newlines, then collapsed (definition; its contract is in NormalizedLines, NormalizeCanonical, NormalizeIdempotent and the lemmas after them) |
| ManualEntry.NormalizedLines | js/main.js:86-106 | the normalised text's lines are the processed lines with those inner empty lines dropped |
| ManualEntry.NormalizeCanonical | js/main.js:86-106 | the normalised text has at most 100 lines, each at most 11 digits, and no double newline |
| ManualEntry.CanonicalFixed | js/main.js:86-106 | such a canonical text normalises to itself |
| ManualEntry.NormalizeIdempotent | js/main.js:86-106 | normalising twice gives the same text as normalising once |
| ManualEntry.NormalizeKeepsNumbers | js/main.js:86-106 | the non-empty lines after normalising are the non-empty processed lines, in order |
| ManualEntry.NormalizeShrinks | js/main.js:86-115 | the normalised text is never longer than the raw text, so the caret shift is never negative |
| ManualEntry.NormalizeLine | js/main.js:86-106 | a single line normalises to its cleaned form |
| ManualEntry.MarkerOf | js/main.js:123-139 | no marker exactly for a blank line; O exactly when the trimmed line satisfies the phone rule |
| ManualEntry.MarkLines | js/main.js:123-139 | one marker per line, in order, each the line's MarkerOf (definition) |
| ManualEntry.Markers | js/main.js:123-139 | the marker gutter marks the lines of the text split at newlines (definition; its contract is in LineNumbers, MarkersOfCanonical and CountMatchesMarkers) |
| ManualEntry.MarkersOfCanonical | js/main.js:123-139 | on a normalised text a line is unmarked iff empty, and O iff valid as it stands |
| ManualEntry.LineNumbers | js/main.js:142 | the gutter numbers the lines 1, 2, … with one number per line and per marker |
| ManualEntry.NonBlankLines | js/main.js:120 | keeps, in order, the lines that do not trim to "" (definition) |
| ManualEntry.RecipientCount | js/main.js:120 | the counter is the number of non-blank lines of the text (definition; its contract is in CountMatchesMarkers, CountAfterNormalize and TrimmedNonBlankCount) |
| ManualEntry.CountMatchesMarkers | js/main.js:120-139 | the counter equals the number of lines carrying an O or an X |
| ManualEntry.CountAfterNormalize | js/main.js:95-120 | after the handler the counter is the number of non-empty processed lines, at most 100 |
| ManualEntry.ResetState | js/main.js:304-310 | clearing gives the empty text, a count of 0, one unmarked line and the line number 1 |
| ManualEntry.NewCaret | js/main.js:114-117 | the caret never moves right; a caret at the end stays at the end; a canonical text keeps it |
| ManualEntry.CurrentLine | js/main.js:169-170 | the caret's line is the last newline-free piece of the text before the caret, the caret clamped to the text as `substring` does (definition; used by OnKeyDown) |
| ManualEntry.OnKeyDown | js/main.js:154-177 | keys other than Enter pass; Enter is refused at the limit exactly when there are 100 lines or more; below it, Enter passes exactly when the current line is not blank and is not a "010" line of other than 11 characters |
| ManualEntry.EnterKeepsCap | js/main.js:158-164 | an allowed Enter leaves at most 100 lines, so the 100-line cap drops nothing |
| ManualEntry.EnterIgnoresOtherPrefixes | js/main.js:172-177 | Enter after "02" is allowed although the line is marked X |
| ManualEntry.RecipientEditor.constructor | js/main.js:151 | page load runs the handler once: gutters consistent, value normalised, paste flag clear |
| ManualEntry.RecipientEditor.Paste | js/main.js:71-72 | a paste raises the flag and changes nothing else |
| ManualEntry.RecipientEditor.HandleInput | js/main.js:83-147 | new value is the normalised text, gutters and counter match it, caret as written, alert only on pasted overflow, flag cleared |
| ManualEntry.RecipientEditor.Show | js/main.js:112-146 | writing a canonical value and caret back redraws the line numbers, markers and counter for that value and keeps the invariant |
| ManualEntry.RecipientEditor.Reset | js/main.js:572-580 | forced or non-blank: cleared to the empty state; otherwise nothing changes |
| ManualEntry.CleanThenAppend | js/main.js:89-92 | cleaning a line and then appending to it cleans like appending first |
| ManualEntry.TypeOneMore | js/main.js:83-117 | with the cleaned prefix of a newline-free line in the field, typing its next character at the end leaves the cleaned longer prefix: that character is appended when it is a digit and fewer than 11 digits are there, and otherwise nothing changes |
| ManualEntry.TypingDigits | js/main.js:150 | typing any newline-free line one key at a time leaves its first 11 digits, the caret at the end |
| ManualEntry.HyphenatedDigits | js/main.js:90 | the digits of digit groups joined by hyphens are the groups joined |
| ManualEntry.CleanHyphenated | js/main.js:89-92 | the typed line "010-1234-5678" is kept as "01012345678" |
| SheetImport.AllowedChars | js/main.js:243 | a cell passes the charset check exactly when each character is a digit or a hyphen (definition; used by CheckCell) |
| SheetImport.StripHyphens | js/main.js:245 | no hyphen remains and nothing is added; a `[0-9-]` cell becomes all digits; a digit string is kept; one character is dropped exactly when it is a hyphen |
| SheetImport.StripHyphensAppend | js/main.js:245 | hyphens are removed piece by piece: stripping a + b gives the stripped a followed by the stripped b |
| SheetImport.CheckCell | js/main.js:239-257 | skip iff blank; the charset error first; then, on the hyphen-free number, the missing-"01" error, the "010"-length error and the other-length error each exactly when their check is the first to fail; accept iff the number satisfies the phone rule |
| SheetImport.PaddedHyphenatedAccepted | js/main.js:239-257 | a valid number written as digit groups joined by hyphens, with a space at each end, is accepted as its digits alone |
| SheetImport.HyphenatedCellAccepted | js/main.js:239-257 | the cell " 010-1234-5678 " is accepted as "01012345678" |
| SheetImport.ValidateRows | js/main.js:237-258 | accepted numbers are valid digit strings, no more than the rows; errors are per-cell ones |
| SheetImport.Import | js/main.js:232-258 | more than 20,000 rows is the row-count error and nothing else is; a success holds only valid numbers |
| SheetImport.FailurePersists | js/main.js:237-258 | once a row fails, later rows change nothing |
| SheetImport.ValidateRowsSuccess | js/main.js:237-258 | the rows pass iff no cell is rejected, and then give the accepted numbers in row order |
| SheetImport.ImportSucceeds | js/main.js:232-258 | import succeeds iff at most 20,000 rows and no rejected cell; the numbers are the accepted ones in order |
| SheetImport.FirstRejectionWins | js/main.js:239-257 | the first rejected cell names the error, whatever follows it |
| SheetImport.ImportAgreesWithMarker | js/main.js:239-255 | for a digit string the import accepts it unchanged exactly when the manual gutter marks it O |
| SheetImport.ValidateSheet | js/main.js:232-258 | the handler's loop with early exits returns exactly the import's result |
| SheetImport.BulkUpload.constructor | js/main.js:206-212 | the widgets start empty |
| SheetImport.BulkUpload.Reset | js/main.js:294-299 | file input, preview, table and label are cleared |
| SheetImport.BulkUpload.OnFileSelected | js/main.js:213-275 | success shows exactly the imported numbers and their count; no file, an unreadable file or a rejection leaves the empty state and names the failure |
| Submission.TrimmedNonBlank | js/main.js:475-477 | each line trimmed, the empty results dropped, the order kept (definition; its contract is in TrimmedNonBlankCount and TrimmedDigitLines) |
| Submission.ManualPhones | js/main.js:475-477 | the manual tab's numbers are the trimmed non-blank lines of the text (definition) |
| Submission.ToRecipients | js/main.js:478 | one record per number, in order |
| Submission.CollectRecipients | js/main.js:462-495 | a sent list is never empty; manual needs a non-blank text and no X and sends the trimmed non-blank lines; bulk needs a file and sends the previewed numbers; a blank text gives the "enter recipients" error, an X marker the "invalid numbers" error, a missing file the "no file" error, and "no recipients" occurs exactly when the tab's checks pass with nothing to send |
| Submission.UnmarkedOrValid | js/main.js:465-478 | with no X marker every trimmed non-blank line is a valid number |
| Submission.TrimmedNonBlankCount | js/main.js:475-477 | the manual tab sends as many numbers as the counter shows |
| Submission.TrimmedDigitLines | js/main.js:475-477 | on digit lines the sent numbers are the non-empty lines themselves |
| Submission.ManualNeverEmpty | js/main.js:491-495 | a non-blank text yields at least one number, so the manual tab never reaches the "no recipients" alert |
| Submission.ManualOutcome | js/main.js:462-495 | manual sends iff non-blank with no X; a blank text is refused with the "enter recipients" error and a text with an X with the "invalid numbers" error; a sent list is the trimmed non-blank lines, every one valid, as many as counted |
| Submission.ManualAfterNormalize | js/main.js:475-477 | after the input handler the sent numbers are the non-empty cleaned lines among the first 100, in order |
| Submission.BulkOutcome | js/main.js:479-495 | bulk sends iff a file is kept and the preview is not empty, is "no recipients" iff the preview is empty, and then sends exactly the previewed numbers, as many as previewed |
| Submission.SentNumbersValid | js/main.js:462-495 | whichever tab is active, every number sent satisfies the phone rule |

## Left out

- Spreadsheet parsing (`XLSX.read`, `sheet_to_json`) is a foreign library. `Sheet(firstColumn)` stands in for the first-column cells after `String(row[0] || '')`, and `Unreadable` for any exception it throws.
- `alert`, `confirm`, the `setTimeout` background flash and the "shake" pulses, and focus changes are side effects. Alerts appear only as returned values: `overflowAlert`, the `UploadFailure`, the `SendError`.
- The Enter handler's `preventDefault`, and the browser's insertion of the newline after an allowed Enter, are browser behaviour; `OnKeyDown` only decides.
- The file reader is asynchronous. `OnFileSelected` runs the read and its callback as one step, so interleavings with other events are not modelled.
- The file input's value is set by the browser when a file is picked. The model sets `fileChosen` only when an import succeeds, which is the state once the handler has finished.
- ManualEntry.NewCaret: the caret is kept as the formula gives it, which can be negative: after a paste past the 100-line cap the text can shrink by more than the caret's offset. What the browser does with a negative caret is not modelled: it stores the selection as an unsigned 32-bit number and clamps it to the text length, so such a caret lands at the end of the text. That is the one case where "the caret never moves right" does not describe what the user sees.
- JavaScript strings are UTF-16, and the model's characters are code points. Lengths of text with characters outside the Basic Multilingual Plane differ. Only the caret offset is affected, since the stored lines are digits.
- The tab show/hide handlers only ask for confirmation and call the two resets; the resets are modelled, the modal and the tab switching are not.
- The rest of the page is outside the recipient handling:
  - the other form fields, the email check and the character counters;
  - the product search and its cache;
  - the date formatting and `parseInt`;
  - the request payload and the `fetch` calls;
  - the backend service.
