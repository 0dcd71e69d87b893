/** The per-line state machine that turns the pdftotext output of the novel
    into paragraphs: `process_line` with its state and book configuration. */
module Extract {
  import opened Wrappers
  import opened Text
  import opened Decimal

  /** Pagination state. `pageNum` is 0 until the first line of the story has
      been seen and the current page afterwards; `hasOutputPageNum` says
      whether the "Page n" heading of the current page has been emitted. */
  datatype State = State(pageNum: nat, hasOutputPageNum: bool)

  /** The state the driver starts from. */
  const InitialState: State := State(0, false)

  /** What the extractor knows about one book's layout: the text the story
      starts with, the pages that hold only an illustration (so their numbers
      never appear as page markers), and header/footer lines to drop. */
  datatype BookDescription = BookDescription(
    startText: string,
    illustrationPages: seq<int>,
    ignoreLines: seq<string>)

  /** The one book described: the first volume of the San Ti trilogy. */
  const Book1: BookDescription := BookDescription(
    "汪淼觉得",
    [83, 104, 105, 158, 159, 208, 209],
    ["中国科幻基石丛书", "地球往事·三体"])

  /** The extra left margin every line of an even page carries. */
  const EvenIndentation: nat := 11

  /** The only failure: a content line on an even page is indented less than
      the even-page margin. It carries the stripped line, as the exception
      message of `process_line` does. */
  datatype Error = EvenPageUnderIndented(text: string)

  /** The outcome of one line: the fragment to print, if any, and the new state. */
  datatype Step = Step(output: Option<string>, next: State)

  /** The heading that opens the first paragraph printed on page `p`. */
  function PageHeading(p: nat): string {
    "\n\nPage " + NatToDecimal(p)
  }

  /** The first page number at or after `p` that is not an illustration page:
      the loop that skips consecutive illustration pages. */
  function SkipIllustrations(p: nat, pages: seq<int>): (q: nat)
    ensures q >= p
    ensures q !in pages
    ensures forall k | p <= k < q :: k in pages
    decreases set k | k in pages && k >= p
  {
    if p in pages then
      var later := set k | k in pages && k >= p + 1;
      var from := set k | k in pages && k >= p;
      assert p in from && p !in later;
      assert later <= from;
      SkipIllustrations(p + 1, pages)
    else
      p
  }

  /** The skip lands on the least page at or after `p` that is not an
      illustration page: any other candidate lies at or beyond it. */
  lemma SkipIllustrationsIsLeast(p: nat, pages: seq<int>, q: nat)
    requires q >= p && q !in pages
    ensures SkipIllustrations(p, pages) <= q
  {
  }

  // The classification vocabulary of `ProcessLine`, in the order `process_line`
  // tests it.

  /** The line comes before the start of the story and is dropped. */
  predicate BeforeStart(line: string, st: State, desc: BookDescription) {
    st.pageNum == 0 && !(desc.startText <= Strip(line))
  }

  /** The page a line that is not dropped as pre-start noise belongs to:
      the line that starts the story is on page 1. */
  function CurrentPage(st: State): nat {
    if st.pageNum == 0 then 1 else st.pageNum
  }

  /** The line is the number of the current page, printed at its foot. */
  predicate IsPageMarker(line: string, st: State) {
    Strip(line) == NatToDecimal(CurrentPage(st))
  }

  /** The line is blank or one of the book's header/footer lines. */
  predicate IsBlankOrBoilerplate(line: string, desc: BookDescription) {
    Strip(line) == [] || Strip(line) in desc.ignoreLines
  }

  /** The line is story text. */
  predicate IsContent(line: string, st: State, desc: BookDescription) {
    !BeforeStart(line, st, desc) && !IsPageMarker(line, st) && !IsBlankOrBoilerplate(line, desc)
  }

  /** The indentation measured on a raw line: its leading whitespace once all
      of its leading form feeds are removed. */
  function Indentation(line: string): nat {
    LeadingWhitespace(DropFormFeeds(line))
  }

  /** The indentation of a content line relative to its page's margin;
      negative when an even-page line sits left of the margin. */
  function AdjustedIndentation(line: string, page: nat): int {
    if page % 2 == 0 then Indentation(line) - EvenIndentation else Indentation(line)
  }

  /** `process_line`: classify one raw line, return the fragment to print and
      the next state, or fail the even-page margin check. The line is measured
      here (stripped text, indentation) and classified by `ClassifyLine`. */
  function ProcessLine(line: string, st: State, desc: BookDescription): (r: Result<Step, Error>)
    // The one failure: an even-page content line left of the margin.
    ensures r.Failure? ==> IsContent(line, st, desc) && AdjustedIndentation(line, CurrentPage(st)) < 0
    ensures IsContent(line, st, desc) && AdjustedIndentation(line, CurrentPage(st)) < 0 ==> r.Failure?
    ensures r.Failure? ==> r.error == EvenPageUnderIndented(Strip(line))
    // Whatever happens, the page number never goes back, a new page number
    // is 1 or not an illustration page, and the heading flag is cleared
    // only by moving on to a later page.
    ensures r.Success? ==> r.value.next.pageNum >= st.pageNum
    ensures r.Success? && r.value.next.pageNum != st.pageNum ==>
              r.value.next.pageNum == 1 || r.value.next.pageNum !in desc.illustrationPages
    ensures r.Success? && st.hasOutputPageNum && !r.value.next.hasOutputPageNum ==>
              r.value.next.pageNum > st.pageNum
    // A "Page n" heading is printed exactly when the line sets the heading
    // flag that was clear; every other fragment is the stripped text, with
    // or without the paragraph separator.
    ensures r.Success? && !st.hasOutputPageNum && r.value.next.hasOutputPageNum ==>
              r.value.output == Some(PageHeading(r.value.next.pageNum) + ("\n\n" + Strip(line)))
    ensures r.Success? && r.value.output.Some? && !(!st.hasOutputPageNum && r.value.next.hasOutputPageNum) ==>
              (r.value.output.value == Strip(line) || r.value.output.value == "\n\n" + Strip(line))
    // Every printed fragment is non-empty.
    ensures r.Success? && r.value.output.Some? ==> r.value.output.value != []
  {
    // `process_line` strips the line again after removing its leading
    // form feeds; that yields the same text.
    StripOfDropFormFeeds(line);
    ClassifyLine(Strip(line), Indentation(line), st, desc)
  }

  /** The body of `process_line` once the line is measured: `text` is the
      stripped line and `indentation` its measured indentation. */
  function ClassifyLine(text: string, indentation: nat, st: State, desc: BookDescription): Result<Step, Error> {
    if st.pageNum == 0 && !(desc.startText <= text) then
      Success(Step(None, st))
    else
      var page := if st.pageNum == 0 then 1 else st.pageNum;
      if text == NatToDecimal(page) then
        Success(Step(None, State(SkipIllustrations(page + 1, desc.illustrationPages), false)))
      else if text == [] then
        Success(Step(None, st.(pageNum := page)))
      else if text in desc.ignoreLines then
        Success(Step(None, st.(pageNum := page)))
      else if page % 2 == 0 && indentation < EvenIndentation then
        Failure(EvenPageUnderIndented(text))
      else
        var adjusted := if page % 2 == 0 then indentation - EvenIndentation else indentation;
        if adjusted == 0 || adjusted > 4 then
          Success(Step(Some(text), st.(pageNum := page)))
        else
          var paragraph := "\n\n" + text;
          if !st.hasOutputPageNum then
            Success(Step(Some(PageHeading(page) + paragraph), State(page, true)))
          else
            Success(Step(Some(paragraph), State(page, true)))
  }

  /** Pre-start suppression: before the start text nothing is printed and
      the state does not change. */
  lemma PreStartSuppressed(line: string, st: State, desc: BookDescription)
    requires BeforeStart(line, st, desc)
    ensures ProcessLine(line, st, desc) == Success(Step(None, st))
  {
  }

  /** A line starting the story is not consumed by the start check: it is
      processed exactly as if the state were already on page 1. */
  lemma StartLineFallsThrough(line: string, st: State, desc: BookDescription)
    requires st.pageNum == 0 && desc.startText <= Strip(line)
    ensures ProcessLine(line, st, desc) == ProcessLine(line, st.(pageNum := 1), desc)
  {
  }

  /** A page marker prints nothing and moves to the next page that is not an
      illustration page, skipping every illustration page in between; the new
      page has had no heading yet. */
  lemma PageMarkerAdvances(line: string, st: State, desc: BookDescription)
    requires !BeforeStart(line, st, desc) && IsPageMarker(line, st)
    ensures var r := ProcessLine(line, st, desc);
            && r.Success?
            && r.value.output == None
            && r.value.next.pageNum > CurrentPage(st)
            && r.value.next.pageNum !in desc.illustrationPages
            && (forall k | CurrentPage(st) < k < r.value.next.pageNum :: k in desc.illustrationPages)
            && !r.value.next.hasOutputPageNum
  {
  }

  /** Blank and boilerplate lines print nothing, on odd and even pages alike.
      The state is unchanged, except that a blank line that starts the story
      (possible only with an empty start text) still moves to page 1. */
  lemma BlankOrBoilerplateSuppressed(line: string, st: State, desc: BookDescription)
    requires !BeforeStart(line, st, desc) && !IsPageMarker(line, st) && IsBlankOrBoilerplate(line, desc)
    ensures ProcessLine(line, st, desc) == Success(Step(None, st.(pageNum := CurrentPage(st))))
    ensures st.pageNum != 0 ==> ProcessLine(line, st, desc) == Success(Step(None, st))
  {
  }

  /** Even-page margin check: on an even page a content line whose
      indentation, counted after all leading form feeds are removed, is below
      the margin is a failure; otherwise the margin is subtracted, and the
      continuation and new-paragraph rules (`ContinuationPrintsTextOnly`,
      `NewParagraphStartsWithSeparator`) apply to that adjusted value. */
  lemma EvenPageMarginChecked(line: string, st: State, desc: BookDescription)
    requires IsContent(line, st, desc) && CurrentPage(st) % 2 == 0
    ensures LeadingWhitespace(DropFormFeeds(line)) < EvenIndentation <==> ProcessLine(line, st, desc).Failure?
    ensures AdjustedIndentation(line, CurrentPage(st)) == LeadingWhitespace(DropFormFeeds(line)) - EvenIndentation
  {
  }

  /** Continuation: a content line at the margin, or indented by more than
      four, prints its stripped text alone and changes nothing. */
  lemma ContinuationPrintsTextOnly(line: string, st: State, desc: BookDescription)
    requires IsContent(line, st, desc)
    requires AdjustedIndentation(line, CurrentPage(st)) == 0 || AdjustedIndentation(line, CurrentPage(st)) > 4
    ensures ProcessLine(line, st, desc) == Success(Step(Some(Strip(line)), st.(pageNum := CurrentPage(st))))
  {
  }

  /** New paragraph: a content line indented by one to four prints a
      blank-line separator and its stripped text, preceded by the page heading
      exactly when the page has had none yet; afterwards it has one, and the
      page stays the same. */
  lemma NewParagraphStartsWithSeparator(line: string, st: State, desc: BookDescription)
    requires IsContent(line, st, desc) && 1 <= AdjustedIndentation(line, CurrentPage(st)) <= 4
    ensures ProcessLine(line, st, desc) ==
              Success(Step(
                Some((if st.hasOutputPageNum then "" else PageHeading(CurrentPage(st))) + "\n\n" + Strip(line)),
                State(CurrentPage(st), true)))
  {
    var text := Strip(line);
    if st.hasOutputPageNum {
      assert "" + "\n\n" + text == "\n\n" + text;
    } else {
      assert PageHeading(CurrentPage(st)) + "\n\n" + text == PageHeading(CurrentPage(st)) + ("\n\n" + text);
    }
  }

  /** A line is a page marker exactly when its stripped text is a canonical
      decimal numeral denoting the current page. */
  lemma PageMarkerIsNumeral(line: string, st: State)
    ensures IsPageMarker(line, st) <==>
              IsCanonical(Strip(line)) && DecimalValue(Strip(line)) == CurrentPage(st)
  {
    ValueOfNatToDecimal(CurrentPage(st));
    if IsCanonical(Strip(line)) {
      NatToDecimalOfValue(Strip(line));
    }
  }

  /** A line made of indentation `w`, then text, then the line break
      strips to the text and measures `|w|`. */
  lemma IndentedLine(w: string, text: string)
    requires AllWhitespace(w) && (w == [] || w[0] != FormFeed)
    requires text != [] && !IsWhitespace(text[0]) && !IsWhitespace(text[|text| - 1])
    ensures Strip(w + text + "\n") == text
    ensures Indentation(w + text + "\n") == |w|
  {
    var line := w + text + "\n";
    assert line == w + (text + "\n");
    IndentedText(w, text + "\n");
    assert DropFormFeeds(line) == line;
    assert TrimRight(text + "\n") == TrimRight(text);
  }

  /** The worked example of an odd page: on page 5, before any heading, a
      line indented by three spaces opens a paragraph under "Page 5". */
  lemma OddPageParagraphExample()
    ensures ProcessLine("   " + "Hello world" + "\n", State(5, false), Book1) ==
              Success(Step(Some("\n\nPage 5\n\nHello world"), State(5, true)))
  {
    var line := "   " + "Hello world" + "\n";
    IndentedLine("   ", "Hello world");
    assert NatToDecimal(5) == "5";
    assert "Hello world" !in Book1.ignoreLines;
    NewParagraphStartsWithSeparator(line, State(5, false), Book1);
    assert PageHeading(5) + "\n\n" + "Hello world" == "\n\nPage 5\n\nHello world";
  }

  /** On an even page the margin of eleven is subtracted first: fourteen
      spaces are an indentation of three, which opens a paragraph (here on a
      page that already has its heading). */
  lemma EvenPageParagraphExample()
    ensures ProcessLine("              " + "continued text" + "\n", State(6, true), Book1) ==
              Success(Step(Some("\n\ncontinued text"), State(6, true)))
  {
    var line := "              " + "continued text" + "\n";
    IndentedLine("              ", "continued text");
    assert NatToDecimal(6) == "6";
    assert "continued text" !in Book1.ignoreLines;
    NewParagraphStartsWithSeparator(line, State(6, true), Book1);
    assert "" + "\n\n" + "continued text" == "\n\ncontinued text";
  }

  /** An even-page content line indented by only three is a layout failure. */
  lemma EvenPageFailureExample()
    ensures ProcessLine("   " + "continued text" + "\n", State(6, true), Book1) ==
              Failure(EvenPageUnderIndented("continued text"))
  {
    IndentedLine("   ", "continued text");
    assert NatToDecimal(6) == "6";
    assert "continued text" !in Book1.ignoreLines;
  }

  /** The marker of page 82 skips the illustration page 83. */
  lemma MarkerSkipsOneIllustrationExample()
    ensures ProcessLine("82\n", State(82, true), Book1) == Success(Step(None, State(84, false)))
  {
    assert Strip("82\n") == "82";
    assert NatToDecimal(82) == "82";
    assert SkipIllustrations(83, Book1.illustrationPages) == 84;
  }

  /** The marker of page 103, on a line that begins with a form feed, skips
      the two illustration pages 104 and 105. */
  lemma MarkerSkipsTwoIllustrationsExample()
    ensures ProcessLine([FormFeed] + "103\n", State(103, true), Book1) == Success(Step(None, State(106, false)))
  {
    IndentedText([FormFeed], "103\n");
    assert TrimRight("103\n") == "103";
    assert NatToDecimal(103) == "103";
    assert SkipIllustrations(104, Book1.illustrationPages) == 106;
  }
}
