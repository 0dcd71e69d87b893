/** The string operations the extractor uses: `str.strip()`, `str.lstrip()`,
    `str.lstrip('\x0c')` and the indentation count built from them. */
module Text {

  /** The characters Python's `str.isspace()` accepts, which are the ones
      `strip()` and `lstrip()` remove when called without arguments. */
  predicate IsWhitespace(c: char) {
    || ('\t' <= c <= '\r')                 // tab, line feed, vertical tab, form feed, carriage return
    || ('\U{001C}' <= c <= '\U{001F}')     // information separators
    || c == ' '
    || c == '\U{0085}'
    || c == '\U{00A0}'
    || c == '\U{1680}'
    || ('\U{2000}' <= c <= '\U{200A}')
    || c == '\U{2028}' || c == '\U{2029}'
    || c == '\U{202F}' || c == '\U{205F}'
    || c == '\U{3000}'                     // ideographic space
  }

  /** The page-break control character pdftotext puts at the start of a page. */
  const FormFeed: char := '\U{000C}'

  predicate AllWhitespace(s: string) {
    forall i | 0 <= i < |s| :: IsWhitespace(s[i])
  }

  /** `s.lstrip()`: `s` without its leading whitespace. */
  function TrimLeft(s: string): (r: string)
    ensures |r| <= |s|
  {
    if s != [] && IsWhitespace(s[0]) then TrimLeft(s[1..]) else s
  }

  /** `s.rstrip()`: `s` without its trailing whitespace. */
  function TrimRight(s: string): string {
    if s != [] && IsWhitespace(s[|s| - 1]) then TrimRight(s[..|s| - 1]) else s
  }

  /** `len(s) - len(s.lstrip())`: how many whitespace characters `s` starts with. */
  function LeadingWhitespace(s: string): nat {
    |s| - |TrimLeft(s)|
  }

  /** `s.strip()`: `s` without its leading and trailing whitespace. */
  function Strip(s: string): string {
    TrimRight(TrimLeft(s))
  }

  /** `s.lstrip('\x0c')`: `s` without the form feeds it starts with (all of
      them, not only the first). */
  function DropFormFeeds(s: string): string {
    if s != [] && s[0] == FormFeed then DropFormFeeds(s[1..]) else s
  }

  /** `lstrip()` removes exactly the maximal whitespace prefix: what it
      leaves is a suffix of `s`, everything before it is whitespace, and the
      suffix does not start with whitespace. */
  lemma {:induction false} TrimLeftRemovesLeadingWhitespace(s: string)
    ensures var r := TrimLeft(s);
            && r == s[|s| - |r|..]
            && AllWhitespace(s[..|s| - |r|])
            && (r == [] || !IsWhitespace(r[0]))
  {
    if s != [] && IsWhitespace(s[0]) {
      var t := s[1..];
      TrimLeftRemovesLeadingWhitespace(t);
      var r := TrimLeft(t);
      assert s[|s| - |r|..] == t[|t| - |r|..];
      assert s[..|s| - |r|] == [s[0]] + t[..|t| - |r|];
    }
  }

  /** A line made of whitespace `w` followed by text `t` that does not start
      with whitespace: `lstrip()` leaves `t`, and the indentation is `|w|`. */
  lemma {:induction false} IndentedText(w: string, t: string)
    requires AllWhitespace(w)
    requires t == [] || !IsWhitespace(t[0])
    ensures TrimLeft(w + t) == t
    ensures LeadingWhitespace(w + t) == |w|
  {
    if w != [] {
      assert (w + t)[0] == w[0];
      assert (w + t)[1..] == w[1..] + t;
      IndentedText(w[1..], t);
    } else {
      assert w + t == t;
    }
  }

  /** `rstrip()` removes exactly the maximal whitespace suffix. */
  lemma {:induction false} TrimRightRemovesTrailingWhitespace(s: string)
    ensures var r := TrimRight(s);
            && |r| <= |s|
            && r == s[..|r|]
            && AllWhitespace(s[|r|..])
            && (r == [] || !IsWhitespace(r[|r| - 1]))
  {
    if s != [] && IsWhitespace(s[|s| - 1]) {
      var p := s[..|s| - 1];
      TrimRightRemovesTrailingWhitespace(p);
      var r := TrimRight(p);
      assert s[..|r|] == p[..|r|];
      assert s[|r|..] == p[|r|..] + [s[|s| - 1]];
    }
  }

  /** The indentation count is the length of the maximal whitespace prefix. */
  lemma LeadingWhitespaceIsMaximalPrefix(s: string)
    ensures var n := LeadingWhitespace(s);
            && AllWhitespace(s[..n])
            && (n == |s| || !IsWhitespace(s[n]))
  {
    TrimLeftRemovesLeadingWhitespace(s);
  }

  /** `strip()` leaves the slice of `s` that starts after the leading
      whitespace and is followed by whitespace only; it neither starts nor
      ends with whitespace, and it is empty exactly when `s` is all
      whitespace. */
  lemma StripRemovesSurroundingWhitespace(s: string)
    ensures var r := Strip(s);
            var n := LeadingWhitespace(s);
            && n + |r| <= |s|
            && r == s[n..n + |r|]
            && AllWhitespace(s[n + |r|..])
            && (r == [] || (!IsWhitespace(r[0]) && !IsWhitespace(r[|r| - 1])))
            && (r == [] <==> AllWhitespace(s))
  {
    var t := TrimLeft(s);
    TrimLeftRemovesLeadingWhitespace(s);
    TrimRightRemovesTrailingWhitespace(t);
    var r := Strip(s);
    var n := LeadingWhitespace(s);
    assert s[n..n + |r|] == t[..|r|];
    assert s[n + |r|..] == t[|r|..];
    if r == [] {
      assert s == s[..n] + s[n..];
    } else {
      assert !IsWhitespace(s[n]);
    }
  }

  /** `lstrip('\x0c')` removes exactly the maximal run of leading form feeds. */
  lemma {:induction false} DropFormFeedsRemovesLeadingFormFeeds(s: string)
    ensures var r := DropFormFeeds(s);
            && |r| <= |s|
            && r == s[|s| - |r|..]
            && (forall i | 0 <= i < |s| - |r| :: s[i] == FormFeed)
            && (r == [] || r[0] != FormFeed)
  {
    if s != [] && s[0] == FormFeed {
      var t := s[1..];
      DropFormFeedsRemovesLeadingFormFeeds(t);
      var r := DropFormFeeds(t);
      assert s[|s| - |r|..] == t[|t| - |r|..];
      forall i | 0 <= i < |s| - |r|
        ensures s[i] == FormFeed
      {
        if i > 0 {
          assert s[i] == t[i - 1];
        }
      }
    }
  }

  /** Dropping leading whitespace first does not change what `lstrip()` leaves. */
  lemma {:induction false} TrimLeftOfDropFormFeeds(s: string)
    ensures TrimLeft(DropFormFeeds(s)) == TrimLeft(s)
  {
    if s != [] && s[0] == FormFeed {
      TrimLeftOfDropFormFeeds(s[1..]);
    }
  }

  /** Removing the leading form feeds does not change the stripped text, so
      the extractor may strip either the original or the cleaned line. */
  lemma StripOfDropFormFeeds(s: string)
    ensures Strip(DropFormFeeds(s)) == Strip(s)
  {
    TrimLeftOfDropFormFeeds(s);
  }
}
