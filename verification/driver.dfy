/** The main loop of the extractor: every line of the pdftotext output goes
    through `process_line` in order, and the fragments it returns are printed
    one after another with nothing in between. */
module Driver {
  import opened Wrappers
  import opened Text
  import opened Extract

  /** How a run over a sequence of lines ends. Either every line was
      processed, or a line failed the even-page margin check, which stops the
      run; in both cases `output` is what was printed before that point. */
  datatype RunResult =
    | Completed(output: string, final: State)
    | Aborted(output: string, error: Error)

  /** What the loop prints for one line's outcome: the fragment if there is
      one, nothing otherwise. */
  function Emit(output: Option<string>): string {
    match output
    case None => ""
    case Some(text) => text
  }

  function Prepend(prefix: string, r: RunResult): RunResult {
    r.(output := prefix + r.output)
  }

  /** Process `lines` in order from state `st`, concatenating the fragments. */
  function Run(lines: seq<string>, st: State, desc: BookDescription): (r: RunResult)
    ensures r.Completed? ==> r.final.pageNum >= st.pageNum
    decreases |lines|
  {
    if lines == [] then
      Completed("", st)
    else
      match ProcessLine(lines[0], st, desc)
      case Failure(e) => Aborted("", e)
      case Success(step) => Prepend(Emit(step.output), Run(lines[1..], step.next, desc))
  }

  /** The whole program on the lines of one converted book. */
  function ExtractBook(lines: seq<string>, desc: BookDescription): RunResult {
    Run(lines, InitialState, desc)
  }

  /** Running over two pieces of input one after the other is running over
      their concatenation: the run is a left fold. */
  lemma {:induction false} RunAppend(a: seq<string>, b: seq<string>, st: State, desc: BookDescription)
    ensures Run(a + b, st, desc) ==
              match Run(a, st, desc)
              case Completed(out, next) => Prepend(out, Run(b, next, desc))
              case Aborted(_, _) => Run(a, st, desc)
  {
    if a == [] {
      assert a + b == b;
      assert "" + Run(b, st, desc).output == Run(b, st, desc).output;
    } else {
      assert (a + b)[0] == a[0] && (a + b)[1..] == a[1..] + b;
      match ProcessLine(a[0], st, desc)
      case Failure(e) =>
      case Success(step) =>
        RunAppend(a[1..], b, step.next, desc);
        var e := Emit(step.output);
        match Run(a[1..], step.next, desc)
        case Completed(out, next) =>
          var rest := Run(b, next, desc);
          assert e + (out + rest.output) == (e + out) + rest.output;
        case Aborted(_, _) =>
    }
  }

  /** One more line after a completed prefix of the input: its fragment is
      appended to what was printed, or its failure ends the run. */
  lemma RunNextLine(lines: seq<string>, i: nat, st: State, desc: BookDescription)
    requires i < |lines| && Run(lines[..i], st, desc).Completed?
    ensures var done := Run(lines[..i], st, desc);
            Run(lines[..i + 1], st, desc) ==
              match ProcessLine(lines[i], done.final, desc)
              case Failure(e) => Aborted(done.output, e)
              case Success(step) => Completed(done.output + Emit(step.output), step.next)
  {
    var done := Run(lines[..i], st, desc);
    RunAppend(lines[..i], [lines[i]], st, desc);
    assert lines[..i] + [lines[i]] == lines[..i + 1];
    RunSingleLine(lines[i], done.final, desc);
  }

  /** A run over a single line is that line's outcome. */
  lemma RunSingleLine(line: string, st: State, desc: BookDescription)
    ensures Run([line], st, desc) ==
              match ProcessLine(line, st, desc)
              case Failure(e) => Aborted("", e)
              case Success(step) => Completed(Emit(step.output), step.next)
  {
    assert [line][1..] == [];
    match ProcessLine(line, st, desc)
    case Failure(e) =>
    case Success(step) =>
      assert Emit(step.output) + "" == Emit(step.output);
  }

  /** Once a prefix of the input has failed, the rest of the input is never
      looked at. */
  lemma AbortedPrefixEndsRun(lines: seq<string>, k: nat, st: State, desc: BookDescription)
    requires k <= |lines| && Run(lines[..k], st, desc).Aborted?
    ensures Run(lines, st, desc) == Run(lines[..k], st, desc)
  {
    RunAppend(lines[..k], lines[k..], st, desc);
    assert lines[..k] + lines[k..] == lines;
  }

  /** The extractor's imperative main loop: it prints what `Run` says, and a
      failing line stops it with the error `Run` reports. */
  method ExtractText(lines: seq<string>, desc: BookDescription) returns (out: string, failure: Option<Error>)
    ensures failure.None? <==> ExtractBook(lines, desc).Completed?
    ensures out == ExtractBook(lines, desc).output
    ensures failure.Some? ==> failure.value == ExtractBook(lines, desc).error
  {
    var st := InitialState;
    out := "";
    var i := 0;
    while i < |lines|
      invariant 0 <= i <= |lines|
      invariant Run(lines[..i], InitialState, desc) == Completed(out, st)
    {
      RunNextLine(lines, i, InitialState, desc);
      match ProcessLine(lines[i], st, desc)
      case Failure(e) =>
        AbortedPrefixEndsRun(lines, i + 1, InitialState, desc);
        return out, Some(e);
      case Success(step) =>
        var txt := step.output;
        if txt.Some? && txt.value != [] {
          out := out + txt.value;
        } else {
          assert out + Emit(txt) == out;
        }
        st := step.next;
        i := i + 1;
    }
    assert lines[..|lines|] == lines;
    failure := None;
  }

  /** Before the start text appears, a run prints nothing and stays before
      page 1. */
  lemma {:induction false} PreStartRunIsSilent(lines: seq<string>, st: State, desc: BookDescription)
    requires st.pageNum == 0
    requires forall i | 0 <= i < |lines| :: !(desc.startText <= Strip(lines[i]))
    ensures Run(lines, st, desc) == Completed("", st)
  {
    if lines != [] {
      PreStartRunIsSilent(lines[1..], st, desc);
    }
  }

  /** Page numbers the run can reach: before the start, page 1, or a page
      that is not an illustration page. */
  predicate OffIllustrations(st: State, desc: BookDescription) {
    st.pageNum <= 1 || st.pageNum !in desc.illustrationPages
  }

  /** A run never leaves the state on an illustration page other than page 1,
      and on none at all when page 1 is not an illustration page. */
  lemma {:induction false} RunStaysOffIllustrations(lines: seq<string>, st: State, desc: BookDescription)
    requires OffIllustrations(st, desc)
    ensures Run(lines, st, desc).Completed? ==> OffIllustrations(Run(lines, st, desc).final, desc)
  {
    if lines != [] {
      match ProcessLine(lines[0], st, desc)
      case Failure(_) =>
      case Success(step) =>
        RunStaysOffIllustrations(lines[1..], step.next, desc);
    }
  }

  /** For the one book described, page 1 is not an illustration page, so a
      run from the start never sits on an illustration page. */
  lemma Book1NeverOnIllustrationPage(lines: seq<string>)
    ensures ExtractBook(lines, Book1).Completed? ==>
              ExtractBook(lines, Book1).final.pageNum !in Book1.illustrationPages
  {
    RunStaysOffIllustrations(lines, InitialState, Book1);
  }

  /** The pages whose "Page n" heading a run prints, in order. A heading is
      printed exactly when a line sets the heading flag that was clear. */
  function HeadingPages(lines: seq<string>, st: State, desc: BookDescription): seq<nat>
    decreases |lines|
  {
    if lines == [] then
      []
    else
      match ProcessLine(lines[0], st, desc)
      case Failure(_) => []
      case Success(step) =>
        (if !st.hasOutputPageNum && step.next.hasOutputPageNum then [step.next.pageNum] else [])
        + HeadingPages(lines[1..], step.next, desc)
  }

  /** Every heading a run prints is for the current page or a later one, and
      for a later one when the current page already has its heading. */
  lemma {:induction false} HeadingsNotBefore(lines: seq<string>, st: State, desc: BookDescription)
    ensures forall p | p in HeadingPages(lines, st, desc) ::
              p >= st.pageNum && (st.hasOutputPageNum ==> p > st.pageNum)
  {
    if lines != [] {
      match ProcessLine(lines[0], st, desc)
      case Failure(_) =>
      case Success(step) =>
        HeadingsNotBefore(lines[1..], step.next, desc);
    }
  }

  predicate StrictlyIncreasing(xs: seq<nat>) {
    forall i, j | 0 <= i < j < |xs| :: xs[i] < xs[j]
  }

  lemma PrependBelowIncreasing(x: nat, xs: seq<nat>)
    requires StrictlyIncreasing(xs)
    requires forall p | p in xs :: p > x
    ensures StrictlyIncreasing([x] + xs)
  {
    var ys := [x] + xs;
    forall i, j | 0 <= i < j < |ys|
      ensures ys[i] < ys[j]
    {
      assert ys[j] == xs[j - 1];
      if i > 0 {
        assert ys[i] == xs[i - 1];
      } else {
        assert xs[j - 1] in xs;
      }
    }
  }

  /** The pages of the printed headings strictly increase: each page gets
      at most one "Page n" heading in the whole run. */
  lemma {:induction false} HeadingsStrictlyIncrease(lines: seq<string>, st: State, desc: BookDescription)
    ensures StrictlyIncreasing(HeadingPages(lines, st, desc))
  {
    if lines != [] {
      match ProcessLine(lines[0], st, desc)
      case Failure(_) =>
      case Success(step) =>
        var rest := HeadingPages(lines[1..], step.next, desc);
        HeadingsStrictlyIncrease(lines[1..], step.next, desc);
        if !st.hasOutputPageNum && step.next.hasOutputPageNum {
          HeadingsNotBefore(lines[1..], step.next, desc);
          PrependBelowIncreasing(step.next.pageNum, rest);
        } else {
          assert HeadingPages(lines, st, desc) == rest;
        }
    }
  }
}
