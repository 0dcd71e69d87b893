# The Three-Body Problem extractor, modelled in Dafny

The extractor reformats the text that `pdftotext -layout` produces from a PDF
of *The Three-Body Problem* (三体) into continuous prose. Its core is
`process_line` (`extract.py`). This is a state machine that looks at one raw
line and does one of these things:

- drops it as noise before the story starts;
- recognises it as the page-number marker at the foot of the current page and
  moves to the next page, skipping the pages that hold only an illustration;
- drops it as blank or as one of the book's header/footer lines;
- fails, when an even-page line is indented less than the even-page margin of
  11;
- prints it as the continuation of the current paragraph;
- prints it as the start of a new paragraph, after a blank-line separator. The
  first new paragraph on each page is also preceded by a "Page n" heading.

The main loop feeds every line through `process_line` and prints the
fragments one after another.

The model has five modules:

- `Wrappers` (`wrappers.dfy`): `Option` and `Result`.
- `Text` (`text.dfy`): Python's `strip()`, `lstrip()`, `lstrip('\x0c')` and the
  indentation count `len(s) - len(s.lstrip())`. Each is built from recursive
  functions, with lemmas stating exactly what it removes.
- `Decimal` (`decimal.dfy`): `str(n)` for naturals, with its inverse and both
  round trips.
- `Extract` (`extract.dfy`): `State`, `BookDescription`, the book-1
  configuration, `EVEN_INDENTATION` and the illustration-page skip.
  `ProcessLine` is `process_line` and returns `Result<Step, Error>`: either the
  optional fragment plus the next state, or the even-page failure. Lemmas give
  its behaviour case by case.
- `Driver` (`driver.dfy`): the main loop. `Run` is the pure left fold and
  `ExtractText` is the imperative loop, proved to print what `Run` says. There
  are also whole-run properties: the page number never goes back, no run sits
  on an illustration page, and "Page n" headings appear in strictly increasing
  page order, so each page gets at most one.

Whitespace is the fixed set that Python's `str.isspace()` accepts:

- U+0009 to U+000D;
- U+001C to U+001F;
- space, U+0085 and U+00A0;
- U+1680;
- U+2000 to U+200A;
- U+2028, U+2029, U+202F and U+205F;
- U+3000.

All the string properties are stated relative to that set.

Details of `extract.py` the model keeps:

- Every leading form feed is removed before indentation is measured
  (`lstrip('\x0c')`, extract.py:68).
- The illustration pages and the ignored lines are lists, and membership is
  list membership.
- The line that starts the story moves the state to page 1 without skipping
  illustration pages. A run therefore stays off illustration pages only when
  page 1 is not one, which holds for book 1.
- `has_output_page_num` starts as the integer 0 and is later set to booleans.
  Only its truth value is ever used, so it is a `bool` that starts `false`.
- The loop prints only truthy fragments. Printing an empty string prints
  nothing, and `process_line` never returns one, so `Run` concatenates every
  fragment.
- The exception is not caught. Output printed before the failing line stays
  printed, so a failed run is `Aborted(output, error)`, holding what was printed
  and the error.

## Model

| member | source | states |
|---|---|---|
| Extract.ProcessLine | extract.py:41-89 | Fails exactly on an even-page content line whose indentation is below the margin, and the error carries the stripped line. The page number never decreases, and a changed page number is 1 or not an illustration page. The heading flag is cleared only by moving to a later page. A "Page n" heading is printed exactly when the flag goes from clear to set, and every other fragment is the stripped line, with or without the separator. No printed fragment is empty. |
| Extract.SkipIllustrations | extract.py:52-55 | The skip loop ends. Its result is at least its start, is not an illustration page, and every page from the start up to the result is an illustration page. |
| Extract.SkipIllustrationsIsLeast | extract.py:54-55 | The skip stops at the first non-illustration page: any non-illustration page at or after the start is at or beyond the result. |
| Extract.PreStartSuppressed | extract.py:45-47 | While the page number is 0, a line whose stripped text does not start with the start text prints nothing and leaves the state unchanged. |
| Extract.StartLineFallsThrough | extract.py:45-51 | A line that starts the story is not consumed: its outcome is the outcome it would have on page 1. |
| Extract.PageMarkerAdvances | extract.py:51-57 | A line equal to the current page number prints nothing. The new page is above the old one and is not an illustration page, every page skipped in between is an illustration page, and the heading flag is cleared. |
| Extract.PageMarkerIsNumeral | extract.py:51 | A line is a page marker exactly when its stripped text is a canonical decimal numeral whose value is the current page. |
| Extract.BlankOrBoilerplateSuppressed | extract.py:59-65 | A blank or ignored line that is not the page marker prints nothing, on odd and even pages alike. Once past the start the state is unchanged. |
| Extract.EvenPageMarginChecked | extract.py:67-77 | On an even page, a content line fails exactly when its indentation, counted after removing all leading form feeds, is below 11. Otherwise its adjusted indentation is that count minus 11. |
| Extract.ContinuationPrintsTextOnly | extract.py:79-81 | A content line with adjusted indentation 0 or above 4 prints exactly its stripped text, with no separator or heading, and the state is unchanged. |
| Extract.NewParagraphStartsWithSeparator | extract.py:82-89 | A content line with adjusted indentation from 1 to 4 prints a blank-line separator and its stripped text. The heading of the current page comes first exactly when the flag was clear. Afterwards the flag is set and the page is unchanged. |
| Extract.IndentedLine | extract.py:68-70 | A line made of indentation, text and a line break strips to the text, and its measured indentation is the length of the indentation. |
| Extract.OddPageParagraphExample | extract.py:83-89 | On page 5, before any heading, three spaces then "Hello world" print "\n\nPage 5\n\nHello world" and set the flag. |
| Extract.EvenPageParagraphExample | extract.py:72-89 | On page 6, fourteen spaces (margin plus three) open a paragraph, and no heading is printed once the page has one. |
| Extract.EvenPageFailureExample | extract.py:73-76 | On page 6 a content line indented by three is the layout failure. |
| Extract.MarkerSkipsOneIllustrationExample | extract.py:30-57 | For book 1, the marker of page 82 moves to page 84, past illustration page 83. |
| Extract.MarkerSkipsTwoIllustrationsExample | extract.py:30-57 | For book 1, the marker of page 103, after a form feed, moves to page 106, past pages 104 and 105. |
| Text.TrimLeftRemovesLeadingWhitespace | extract.py:70 | `lstrip()` leaves a suffix. Everything it removed is whitespace and the suffix does not start with whitespace. |
| Text.IndentedText | extract.py:70 | Whitespace followed by text that does not start with whitespace has exactly that much indentation. |
| Text.TrimRightRemovesTrailingWhitespace | extract.py:46 | The trailing half of `strip()` leaves a prefix. Everything it removed is whitespace and the prefix does not end with whitespace. |
| Text.LeadingWhitespaceIsMaximalPrefix | extract.py:70 | `len(line) - len(line.lstrip())` is the length of the longest whitespace prefix. |
| Text.StripRemovesSurroundingWhitespace | extract.py:60 | `strip()` is the slice after the leading whitespace and before trailing whitespace only. It neither starts nor ends with whitespace, and it is empty exactly when the line is all whitespace. |
| Text.DropFormFeedsRemovesLeadingFormFeeds | extract.py:67-68 | `lstrip('\x0c')` removes exactly the longest run of leading form feeds, not just one. |
| Text.StripOfDropFormFeeds | extract.py:68-81 | Stripping the line after its form feeds are removed gives the same text as stripping the original line. |
| Decimal.NatToDecimal | extract.py:51 | `str(n)` is a nonempty digit string with no leading zero, and it starts with "0" only for 0. |
| Decimal.ValueOfNatToDecimal | extract.py:51 | Reading back the numeral of n gives n. |
| Decimal.NatToDecimalOfValue | extract.py:51 | Every canonical digit string is the numeral of the number it denotes. |
| Decimal.NatToDecimalInjective | extract.py:51 | Different page numbers have different numerals, so a line can be the marker of only one page. |
| Driver.Run | extract.py:110-114 | The fold over the lines: if it completes, the final page number is at least the initial one. |
| Driver.RunAppend | extract.py:111-114 | Running two pieces of input one after the other equals running their concatenation. A failure in the first piece ends the run. |
| Driver.RunNextLine | extract.py:111-114 | After a completed prefix, the next line's fragment is appended to the printed text, or its failure ends the run with the output so far. |
| Driver.RunSingleLine | extract.py:112-114 | A run over one line prints that line's fragment, or fails with its error. |
| Driver.AbortedPrefixEndsRun | extract.py:111-112 | Once a prefix fails, the rest of the input is never looked at. |
| Driver.ExtractText | extract.py:110-114 | The imperative loop prints exactly what `Run` produces from the initial state. It reports a failure exactly when `Run` aborts, and with the same error. |
| Driver.PreStartRunIsSilent | extract.py:45-47 | Before any line starts with the start text, a run prints nothing and stays before page 1. |
| Driver.RunStaysOffIllustrations | extract.py:48-55 | A run that starts off illustration pages never ends on one, apart from page 1. |
| Driver.Book1NeverOnIllustrationPage | extract.py:30-36 | With the book-1 configuration, a run from the initial state never ends on an illustration page. |
| Driver.HeadingsNotBefore | extract.py:83-88 | Every heading a run prints is for the current page or a later one. It is for a later one if the current page already has its heading. |
| Driver.HeadingsStrictlyIncrease | extract.py:56-88 | The pages of the printed "Page n" headings strictly increase over a run, so each page is headed at most once. |

## Left out

- Command-line parsing with `argparse` (extract.py:7-9, 106): plumbing with no logic.
- `run_pdftotext` (extract.py:92-102): it runs an external program on a temporary file, and its error is an OS error code. The model starts from the sequence of lines that program produces.
- Opening the text file and printing (extract.py:111, 114): I/O. `Run` and `ExtractText` return the printed text instead of writing it. Decoding the file's bytes into characters is not modelled; lines are given as strings, with their line breaks.
- The exception message format (extract.py:76): the error carries the stripped line but not the formatted message.
- Whitespace: the model uses the fixed set listed above. It does not follow changes in Python's Unicode database.
