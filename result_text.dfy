/** The content formatting of internal/ui/common/result.go: which lines are
    kept whole, how a long plain line is wrapped at spaces, and how the
    content is rebuilt line by line. The source measures and slices bytes;
    here every string element stands for one byte. */
module ResultText {
  import opened GoStrings
  import Styles

  datatype ResultType = ResultSuccess | ResultError | ResultWarning

  /** The iota values of the three result types. */
  function Ordinal(t: ResultType): (n: nat)
    ensures n <= 2
  {
    match t
    case ResultSuccess => 0
    case ResultError => 1
    case ResultWarning => 2
  }

  /** The three types have distinct values. */
  lemma OrdinalsDistinct(t: ResultType, u: ResultType)
    requires Ordinal(t) == Ordinal(u)
    ensures t == u
  {
  }

  datatype Result = Result(typ: ResultType, title: string, content: string)

  function Success(title: string, content: string): (r: Result)
    ensures r.typ == ResultSuccess && r.title == title && r.content == content
  {
    Result(ResultSuccess, title, content)
  }

  function Error(title: string, content: string): (r: Result)
    ensures r.typ == ResultError && r.title == title && r.content == content
  {
    Result(ResultError, title, content)
  }

  function Warning(title: string, content: string): (r: Result)
    ensures r.typ == ResultWarning && r.title == title && r.content == content
  {
    Result(ResultWarning, title, content)
  }

  /** Substrings that mark git paths and refs. */
  const PathIndicators: seq<string> := [".git", "refs/", "origin/", "HEAD"]

  /** A drive letter path such as `C:\` or `D:/`. */
  predicate WindowsPath(line: string) {
    |line| > 2 && line[1] == ':' && (line[2] == '/' || line[2] == '\\')
  }

  /** The lines that are never wrapped: URLs, absolute paths, ref arrows and
      git paths or refs. */
  predicate Preserved(line: string) {
    Contains(line, "://") || HasPrefix(line, "/") || WindowsPath(line)
    || Contains(line, " -> ")
    || exists k :: 0 <= k < |PathIndicators| && Contains(line, PathIndicators[k])
  }

  /** The check, with its early returns and its loop over the indicators. */
  method ShouldPreserveLine(line: string) returns (b: bool)
    ensures b == Preserved(line)
  {
    if Contains(line, "://") {
      return true;
    }
    if HasPrefix(line, "/") {
      return true;
    }
    if |line| > 2 && line[1] == ':' && (line[2] == '/' || line[2] == '\\') {
      return true;
    }
    if Contains(line, " -> ") {
      return true;
    }
    for k := 0 to |PathIndicators|
      invariant forall m :: 0 <= m < k ==> !Contains(line, PathIndicators[m])
    {
      if Contains(line, PathIndicators[k]) {
        return true;
      }
    }
    return false;
  }

  /** Where a line longer than `w` is cut: the last space inside its first `w`
      bytes, or `w` itself when that space is missing or at offset 0. */
  function BreakPoint(remaining: string, w: int): (bp: int)
    requires 1 <= w < |remaining|
    ensures 1 <= bp <= w
  {
    var b := LastIndexChar(remaining[..w], ' ');
    if b <= 0 then w else b
  }

  /** The pieces the wrapping loop emits for `remaining`. */
  function WrapRest(remaining: string, w: int): (pieces: seq<string>)
    requires w >= 1
    decreases |remaining|
  {
    if |remaining| <= w then (if remaining == [] then [] else [remaining])
    else
      var bp := BreakPoint(remaining, w);
      [remaining[..bp]] + WrapRest(TrimLeftBlanks(remaining[bp..]), w)
  }

  /** wrapLine: a line that fits is returned alone, otherwise it is wrapped. */
  function Wrap(line: string, w: int): (pieces: seq<string>)
    requires w >= 1
  {
    if |line| <= w then [line] else WrapRest(line, w)
  }

  /** One turn of the wrapping loop. */
  lemma WrapRestStep(remaining: string, w: int)
    requires 1 <= w < |remaining|
    ensures var bp := BreakPoint(remaining, w);
      WrapRest(remaining, w) == [remaining[..bp]] + WrapRest(TrimLeftBlanks(remaining[bp..]), w)
  {
  }

  /** The loop's exit: what is left fits and is emitted unless empty. */
  lemma WrapRestDone(remaining: string, w: int)
    requires 1 <= w && |remaining| <= w
    ensures WrapRest(remaining, w) == if remaining == [] then [] else [remaining]
  {
  }

  /** The loop invariant of wrapLine survives one cut. */
  lemma WrapLoopStep(result: seq<string>, remaining: string, w: int, all: seq<string>)
    requires 1 <= w < |remaining| && result + WrapRest(remaining, w) == all
    ensures var bp := BreakPoint(remaining, w);
      (result + [remaining[..bp]]) + WrapRest(TrimLeftBlanks(remaining[bp..]), w) == all
  {
    var bp := BreakPoint(remaining, w);
    var piece := remaining[..bp];
    var rest := WrapRest(TrimLeftBlanks(remaining[bp..]), w);
    assert WrapRest(remaining, w) == [piece] + rest by {
      WrapRestStep(remaining, w);
    }
    assert (result + [piece]) + rest == result + ([piece] + rest);
  }

  /** At the loop's exit, what is left is emitted unless empty. */
  lemma WrapLoopEnd(result: seq<string>, remaining: string, w: int, all: seq<string>)
    requires 1 <= w && |remaining| <= w && result + WrapRest(remaining, w) == all
    ensures (if |remaining| > 0 then result + [remaining] else result) == all
  {
    WrapRestDone(remaining, w);
    if remaining == [] {
      assert result + [] == result;
    }
  }

  method WrapLine(line: string, maxWidth: int) returns (result: seq<string>)
    requires maxWidth >= 1
    ensures result == Wrap(line, maxWidth)
  {
    if |line| <= maxWidth {
      return [line];
    }
    result := [];
    var remaining := line;
    ghost var all := WrapRest(line, maxWidth);
    assert result + all == all;
    while |remaining| > maxWidth
      invariant result + WrapRest(remaining, maxWidth) == all
      decreases |remaining|
    {
      var breakPoint := LastIndexChar(remaining[..maxWidth], ' ');
      if breakPoint <= 0 {
        breakPoint := maxWidth;
      }
      assert breakPoint == BreakPoint(remaining, maxWidth);
      WrapLoopStep(result, remaining, maxWidth, all);
      result := result + [remaining[..breakPoint]];
      remaining := TrimLeftBlanks(remaining[breakPoint..]);
    }
    WrapLoopEnd(result, remaining, maxWidth, all);
    if |remaining| > 0 {
      result := result + [remaining];
    }
  }

  /** Every piece of a wrapped line is non-empty and at most `w` long. */
  lemma {:induction false} WrapRestBounds(remaining: string, w: int)
    requires w >= 1
    ensures forall p :: p in WrapRest(remaining, w) ==> 1 <= |p| <= w
    decreases |remaining|
  {
    if |remaining| > w {
      var bp := BreakPoint(remaining, w);
      WrapRestBounds(TrimLeftBlanks(remaining[bp..]), w);
    }
  }

  /** A line that fits comes back alone; a longer one comes back as pieces
      that are non-empty and fit. */
  lemma WrapBounds(line: string, w: int)
    requires w >= 1
    ensures |line| <= w ==> Wrap(line, w) == [line]
    ensures |line| > w ==> forall p :: p in Wrap(line, w) ==> 1 <= |p| <= w
  {
    if |line| > w {
      WrapRestBounds(line, w);
    }
  }

  /** The characters of `s` other than spaces, in order. */
  function NonSpaces(s: string): (r: string)
    ensures |r| <= |s|
  {
    if s == [] then [] else (if s[0] == ' ' then [] else [s[0]]) + NonSpaces(s[1..])
  }

  lemma {:induction false} NonSpacesAppend(a: string, b: string)
    ensures NonSpaces(a + b) == NonSpaces(a) + NonSpaces(b)
    decreases |a|
  {
    if a == [] {
      assert a + b == b;
    } else {
      assert (a + b)[0] == a[0] && (a + b)[1..] == a[1..] + b;
      NonSpacesAppend(a[1..], b);
    }
  }

  lemma {:induction false} NonSpacesTrim(s: string)
    ensures NonSpaces(TrimLeftBlanks(s)) == NonSpaces(s)
    decreases |s|
  {
    if s != [] && s[0] == ' ' {
      NonSpacesTrim(s[1..]);
    }
  }

  /** One cut keeps the non-space characters: those of the piece, then those
      of the trimmed rest. */
  lemma CutKeepsNonSpaces(remaining: string, bp: int)
    requires 0 <= bp <= |remaining|
    ensures NonSpaces(remaining) == NonSpaces(remaining[..bp]) + NonSpaces(TrimLeftBlanks(remaining[bp..]))
  {
    assert remaining == remaining[..bp] + remaining[bp..];
    NonSpacesAppend(remaining[..bp], remaining[bp..]);
    NonSpacesTrim(remaining[bp..]);
  }

  lemma {:induction false} WrapRestKeepsNonSpaces(remaining: string, w: int)
    requires w >= 1
    ensures NonSpaces(Concat(WrapRest(remaining, w))) == NonSpaces(remaining)
    decreases |remaining|
  {
    if |remaining| > w {
      var bp := BreakPoint(remaining, w);
      var rest := TrimLeftBlanks(remaining[bp..]);
      WrapRestStep(remaining, w);
      WrapRestKeepsNonSpaces(rest, w);
      ConcatCons(remaining[..bp], WrapRest(rest, w));
      NonSpacesAppend(remaining[..bp], Concat(WrapRest(rest, w)));
      CutKeepsNonSpaces(remaining, bp);
    } else if remaining != [] {
      assert WrapRest(remaining, w) == [remaining] + [];
      ConcatCons(remaining, []);
      assert remaining + [] == remaining;
    }
  }

  /** Wrapping drops only spaces: the non-space characters of the pieces, read
      in order, are those of the line. */
  lemma WrapKeepsNonSpaces(line: string, w: int)
    requires w >= 1
    ensures NonSpaces(Concat(Wrap(line, w))) == NonSpaces(line)
  {
    if |line| <= w {
      assert Concat([line]) == line;
    } else {
      WrapRestKeepsNonSpaces(line, w);
    }
  }

  /** Text that is not all spaces never wraps to nothing. */
  lemma WrapRestNonEmpty(remaining: string, w: int)
    requires w >= 1 && remaining != [] && remaining[|remaining| - 1] != ' '
    ensures WrapRest(remaining, w) != []
  {
  }

  /** A line longer than `w` that ends in a non-space wraps to several pieces. */
  lemma WrapSplits(line: string, w: int)
    requires w >= 1 && |line| > w && line[|line| - 1] != ' '
    ensures |Wrap(line, w)| >= 2
  {
    var bp := BreakPoint(line, w);
    var rest := TrimLeftBlanks(line[bp..]);
    assert rest != [] && rest[|rest| - 1] == line[|line| - 1];
    WrapRestNonEmpty(rest, w);
  }

  /** formatContent's guard: a width of zero or less becomes 76. */
  function EffectiveWidth(maxWidth: int): (w: int)
    ensures w >= 1
    ensures maxWidth > 0 ==> w == maxWidth
    ensures maxWidth <= 0 ==> w == 76
  {
    if maxWidth <= 0 then 76 else maxWidth
  }

  /** The output lines for one input line. */
  function FormatLine(line: string, w: int): seq<string>
    requires w >= 1
  {
    if Preserved(line) then [line]
    else if |line| > w then Wrap(line, w)
    else [line]
  }

  function FormatLines(lines: seq<string>, w: int): seq<string>
    requires w >= 1
  {
    if lines == [] then [] else FormatLine(lines[0], w) + FormatLines(lines[1..], w)
  }

  function FormatSpec(content: string, maxWidth: int): string {
    Join(FormatLines(Split(content, "\n"), EffectiveWidth(maxWidth)), "\n")
  }

  lemma {:induction false} FormatLinesSnoc(lines: seq<string>, line: string, w: int)
    requires w >= 1
    ensures FormatLines(lines + [line], w) == FormatLines(lines, w) + FormatLine(line, w)
    decreases |lines|
  {
    if lines == [] {
      assert FormatLines([line], w) == FormatLine(line, w) + FormatLines([], w);
    } else {
      assert (lines + [line])[1..] == lines[1..] + [line];
      FormatLinesSnoc(lines[1..], line, w);
    }
  }

  /** The formatting of one more line of the input. */
  lemma FormatLinesPrefix(lines: seq<string>, i: int, w: int)
    requires w >= 1 && 0 <= i < |lines|
    ensures FormatLines(lines[..i + 1], w) == FormatLines(lines[..i], w) + FormatLine(lines[i], w)
  {
    assert lines[..i + 1] == lines[..i] + [lines[i]];
    FormatLinesSnoc(lines[..i], lines[i], w);
  }

  method FormatContent(content: string, maxWidth: int) returns (s: string)
    ensures s == FormatSpec(content, maxWidth)
  {
    var w := maxWidth;
    if w <= 0 {
      w := 76;
    }
    var lines := Split(content, "\n");
    var result: seq<string> := [];
    for i := 0 to |lines|
      invariant result == FormatLines(lines[..i], w)
    {
      var line := lines[i];
      var keep := ShouldPreserveLine(line);
      var out: seq<string>;
      if keep {
        out := [line];
      } else if |line| > w {
        out := WrapLine(line, w);
      } else {
        out := [line];
      }
      assert out == FormatLine(line, w);
      FormatLinesPrefix(lines, i, w);
      result := result + out;
    }
    assert lines[..|lines|] == lines;
    s := Join(result, "\n");
  }

  /** The content part of RenderResult: the result's content formatted for
      the content width less the four columns of border and padding. */
  function RenderedContent(r: Result, terminalWidth: int): string {
    FormatSpec(r.content, Styles.GetContentWidth(terminalWidth) - 4)
  }

  /** RenderResult always passes formatContent a width between 36 and 76,
      so the fallback to 76 never fires there and the content is wrapped at
      exactly the content width less four. */
  lemma RenderWidthInRange(terminalWidth: int)
    ensures 36 <= Styles.GetContentWidth(terminalWidth) - 4 <= 76
    ensures EffectiveWidth(Styles.GetContentWidth(terminalWidth) - 4)
            == Styles.GetContentWidth(terminalWidth) - 4
  {
  }

  /** Success, Error and Warning build three distinct results that differ in
      their type alone: the title is shown as given and the content is
      formatted identically whatever the severity. */
  lemma SeveritiesShareContent(title: string, content: string, terminalWidth: int)
    ensures Success(title, content) != Error(title, content)
    ensures Error(title, content) != Warning(title, content)
    ensures Success(title, content) != Warning(title, content)
    ensures Ordinal(Success(title, content).typ) == 0
    ensures Ordinal(Error(title, content).typ) == 1
    ensures Ordinal(Warning(title, content).typ) == 2
    ensures Success(title, content).title == Error(title, content).title
            == Warning(title, content).title == title
    ensures RenderedContent(Success(title, content), terminalWidth)
            == RenderedContent(Error(title, content), terminalWidth)
            == RenderedContent(Warning(title, content), terminalWidth)
            == FormatSpec(content, Styles.GetContentWidth(terminalWidth) - 4)
  {
  }

  /** Formatting works line by line in order. */
  lemma {:induction false} FormatLinesAppend(a: seq<string>, b: seq<string>, w: int)
    requires w >= 1
    ensures FormatLines(a + b, w) == FormatLines(a, w) + FormatLines(b, w)
    decreases |a|
  {
    if a == [] {
      assert a + b == b;
    } else {
      assert (a + b)[0] == a[0] && (a + b)[1..] == a[1..] + b;
      FormatLinesAppend(a[1..], b, w);
    }
  }

  /** A line that is preserved or fits is kept whole, whatever its length. */
  lemma KeptWhole(line: string, w: int)
    requires w >= 1 && (Preserved(line) || |line| <= w)
    ensures FormatLine(line, w) == [line]
  {
  }

  /** A long plain line is replaced by its wrapped pieces. */
  lemma LongPlainWrapped(line: string, w: int)
    requires w >= 1 && !Preserved(line) && |line| > w
    ensures FormatLine(line, w) == WrapRest(line, w)
    ensures forall p :: p in FormatLine(line, w) ==> 1 <= |p| <= w
  {
    WrapRestBounds(line, w);
  }

  /** Every output line either fits or is a preserved input line. */
  lemma {:induction false} FormatLinesShape(lines: seq<string>, w: int)
    requires w >= 1
    ensures forall o :: o in FormatLines(lines, w) ==> |o| <= w || (o in lines && Preserved(o))
    decreases |lines|
  {
    if lines != [] {
      FormatLinesShape(lines[1..], w);
      if !Preserved(lines[0]) && |lines[0]| > w {
        WrapRestBounds(lines[0], w);
      }
    }
  }

  /** A line that formatting leaves alone. */
  predicate Unwrapped(line: string, w: int) {
    Preserved(line) || |line| <= w
  }

  /** Content whose lines are all preserved or short comes back unchanged. */
  lemma {:induction false} FormatLinesVerbatim(lines: seq<string>, w: int)
    requires w >= 1
    requires forall k :: 0 <= k < |lines| ==> Unwrapped(lines[k], w)
    ensures FormatLines(lines, w) == lines
    decreases |lines|
  {
    if lines != [] {
      FormatLinesVerbatim(lines[1..], w);
    }
  }

  lemma FormatVerbatim(content: string, maxWidth: int)
    requires forall line :: line in Split(content, "\n") ==> Unwrapped(line, EffectiveWidth(maxWidth))
    ensures FormatSpec(content, maxWidth) == content
  {
    var lines := Split(content, "\n");
    FormatLinesVerbatim(lines, EffectiveWidth(maxWidth));
    JoinSplit(content, "\n");
  }

  /** The wrap cases of result_test.go that fit on one line. */
  lemma WrapShortVectors(line: string, w: int)
    requires line == "Hello world" && w in [20, 11]
    ensures Wrap(line, w) == [line]
  {
  }

  /** The word-boundary case of result_test.go: the cut falls on the space
      after "Hello world". */
  lemma WrapWordBoundaryVector(a: string, b: string)
    requires a == "Hello world" && b == "foo bar"
    ensures Wrap(a + " " + b, 12) == [a, b]
  {
    OneSpaceCut(a, b, 12);
  }

  /** A word that ends one byte before the width, then a space and a short
      word: two pieces. */
  lemma OneSpaceCut(a: string, b: string, w: int)
    requires 1 <= |a| && |a| + 1 == w && 0 < |b| <= w && b[0] != ' '
    ensures Wrap(a + " " + b, w) == [a, b]
  {
    CutAtSpace(a, b, w);
    WrapRestDone(b, w);
    TwoPieces(a, b, w);
  }

  lemma TwoPieces(a: string, b: string, w: int)
    requires |a| + 1 == w && |b| > 0 && WrapRest(a + " " + b, w) == [a] + [b]
    ensures Wrap(a + " " + b, w) == [a, b]
  {
    assert [a] + [b] == [a, b];
    assert |a + " " + b| > w;
  }

  /** The forced-break case of result_test.go: a word longer than the
      width is cut at the width. */
  lemma WrapForcedVector(a: string, b: string, c: string)
    requires a == "Superlongw" && b == "ordwithout" && c == "spaces"
    ensures Wrap(a + (b + c), 10) == [a, b, c]
  {
    TwoForcedCuts(a, b, c, 10);
  }

  /** Two words of exactly the width with no space in them are cut off one
      after the other, and the short word after them is the last piece. */
  lemma TwoForcedCuts(a: string, b: string, c: string, w: int)
    requires |a| == w == |b| && w >= 1 && ' ' !in a && ' ' !in b
    requires 0 < |c| <= w && c[0] != ' '
    ensures Wrap(a + (b + c), w) == [a, b, c]
  {
    LastForcedCut(b, c, w);
    assert (b + c)[0] == b[0] && b[0] in b;
    ForcedCut(a, b + c, w);
    ThreePieces(a, b, c, w);
  }

  lemma LastForcedCut(b: string, c: string, w: int)
    requires |b| == w >= 1 && ' ' !in b && 0 < |c| <= w && c[0] != ' '
    ensures WrapRest(b + c, w) == [b, c]
  {
    ForcedCut(b, c, w);
    WrapRestDone(c, w);
  }

  lemma ThreePieces(a: string, b: string, c: string, w: int)
    requires |a| == w >= 1 && |b| > 0 && WrapRest(a + (b + c), w) == [a] + [b, c]
    ensures Wrap(a + (b + c), w) == [a, b, c]
  {
    assert [a] + [b, c] == [a, b, c];
    assert |a + (b + c)| > w;
  }

  /** One cut of the wrapping, given where it falls and what is left. */
  lemma Cut(remaining: string, w: int, bp: int, next: string)
    requires 1 <= w < |remaining| && BreakPoint(remaining, w) == bp
    requires TrimLeftBlanks(remaining[bp..]) == next
    ensures WrapRest(remaining, w) == [remaining[..bp]] + WrapRest(next, w)
  {
    WrapRestStep(remaining, w);
  }

  /** A cut at the width, when the first `w` bytes hold no space. */
  lemma ForcedCut(a: string, b: string, w: int)
    requires |a| == w >= 1 && ' ' !in a && b != [] && b[0] != ' '
    ensures WrapRest(a + b, w) == [a] + WrapRest(b, w)
  {
    var r := a + b;
    assert r[..w] == a;
    assert LastIndexChar(a, ' ') == -1;
    assert r[w..] == b;
    Cut(r, w, w, b);
  }

  /** A cut at the single space that follows `a`, when no other space comes
      before the width. */
  lemma CutAtSpace(a: string, b: string, w: int)
    requires 1 <= |a| < w < |a| + 1 + |b| && b[0] != ' '
    requires forall k :: 0 <= k < w - |a| - 1 ==> b[k] != ' '
    ensures WrapRest(a + " " + b, w) == [a] + WrapRest(b, w)
  {
    var r := a + " " + b;
    var head := r[..w];
    forall k | |a| < k < w ensures head[k] != ' ' {
      assert head[k] == b[k - |a| - 1];
    }
    assert head[|a|] == ' ';
    LastIndexCharAt(head, ' ', |a|);
    assert r[|a|..] == " " + b;
    assert (" " + b)[1..] == b;
    assert TrimLeftBlanks(b) == b;
    assert r[..|a|] == a;
    Cut(r, w, |a|, b);
  }

  // The test strings below are written as concatenations at the space,
  // marker or cut each proof is about ("://", " -> ", "HEAD", "refs/"): the
  // verifier finds a substring or a cut in a short piece cheaply, and
  // reasoning about the long literals whole runs out of resource.

  lemma WrapMultipleTail(r2: string)
    requires r2 == "jumps over the" + " " + "lazy dog"
    ensures WrapRest(r2, 15) == ["jumps over the", "lazy dog"]
  {
    CutAtSpace("jumps over the", "lazy dog", 15);
    WrapRestDone("lazy dog", 15);
  }

  lemma WrapMultipleMiddle(r1: string, r2: string)
    requires r2 == "jumps over the" + " " + "lazy dog"
    requires r1 == "brown fox" + " " + r2
    ensures WrapRest(r1, 15) == ["brown fox", "jumps over the", "lazy dog"]
  {
    assert r2[..5] == "jumps";
    CutAtSpace("brown fox", r2, 15);
    WrapMultipleTail(r2);
  }

  lemma WrapMultipleHead(line: string, r1: string, r2: string)
    requires r2 == "jumps over the" + " " + "lazy dog"
    requires r1 == "brown fox" + " " + r2
    requires line == "The quick" + " " + r1
    ensures WrapRest(line, 15) == ["The quick"] + WrapRest(r1, 15)
  {
    assert r1[..5] == "brown";
    CutAtSpace("The quick", r1, 15);
  }

  /** The multiple-break case of result_test.go: "The quick", then the
      three pieces of what follows. */
  lemma WrapMultipleVector(line: string, r1: string, r2: string)
    requires r2 == "jumps over the" + " " + "lazy dog"
    requires r1 == "brown fox" + " " + r2
    requires line == "The quick" + " " + r1
    ensures Wrap(line, 15) == ["The quick"] + WrapRest(r1, 15)
    ensures WrapRest(r1, 15) == ["brown fox", "jumps over the", "lazy dog"]
  {
    WrapMultipleHead(line, r1, r2);
    WrapMultipleMiddle(r1, r2);
  }

  /** Lines result_test.go expects to be kept whole. */
  lemma PreservedUrls(line: string)
    requires line in ["See: https" + "://" + "example.com/path",
                      "Error at https" + "://" + "github.com/user/repo/issues/123"]
    ensures Preserved(line)
  {
    if line == "See: https" + "://" + "example.com/path" {
      ContainsMiddle("See: https", "://", "example.com/path");
    } else {
      ContainsMiddle("Error at https", "://", "github.com/user/repo/issues/123");
    }
  }

  lemma PreservedPaths(line: string)
    requires line in ["/usr/local/bin/gitflow-toolkit", "C:/Users/test/file.txt"]
    ensures Preserved(line)
  {
    if line == "/usr/local/bin/gitflow-toolkit" {
      assert line[..1] == "/";
      AbsolutePreserved(line);
    } else {
      WindowsPreserved(line);
    }
  }

  lemma AbsolutePreserved(line: string)
    requires HasPrefix(line, "/")
    ensures Preserved(line)
  {
  }

  lemma WindowsPreserved(line: string)
    requires WindowsPath(line)
    ensures Preserved(line)
  {
  }

  lemma PreservedArrow(line: string)
    requires line == "origin/main" + " -> " + "local/main"
    ensures Preserved(line)
  {
    ContainsMiddle("origin/main", " -> ", "local/main");
  }

  lemma PreservedRefs(line: string)
    requires line in ["HEAD" + " is now at abc123", "refs/" + "heads/master",
                      "fatal: " + ".git" + "/hooks/commit-msg failed"]
    ensures Preserved(line)
  {
    if line == "HEAD" + " is now at abc123" {
      ContainsMiddle("", "HEAD", " is now at abc123");
      assert "" + "HEAD" + " is now at abc123" == line;
      assert Contains(line, PathIndicators[3]);
    } else if line == "refs/" + "heads/master" {
      ContainsMiddle("", "refs/", "heads/master");
      assert "" + "refs/" + "heads/master" == line;
      assert Contains(line, PathIndicators[1]);
    } else {
      ContainsMiddle("fatal: ", ".git", "/hooks/commit-msg failed");
      assert Contains(line, PathIndicators[0]);
    }
  }

  /** A line without '/', '>', '.' or 'H' and without a drive letter is plain. */
  lemma NoMarkers(line: string)
    requires '/' !in line && '>' !in line && '.' !in line && 'H' !in line && !WindowsPath(line)
    ensures !Preserved(line)
  {
    NotContainsMissingChar(line, "://", 1);
    NotContainsMissingChar(line, " -> ", 2);
    NotContainsMissingChar(line, PathIndicators[0], 0);
    NotContainsMissingChar(line, PathIndicators[1], 4);
    NotContainsMissingChar(line, PathIndicators[2], 6);
    NotContainsMissingChar(line, PathIndicators[3], 0);
    assert forall k :: 0 <= k < |PathIndicators| ==> !Contains(line, PathIndicators[k]);
    if line != [] {
      assert line[0] in line;
    }
  }

  /** No character of `s` is one that the markers start with or contain. */
  predicate PlainChars(s: string) {
    '/' !in s && '>' !in s && '.' !in s && 'H' !in s
  }

  /** The plain lines of result_test.go, the one with a colon included. */
  lemma PlainSimple(p1: string, p2: string, p3: string)
    requires p1 == "This is a " && p2 == "simple err" && p3 == "or message"
    ensures !Preserved(p1 + p2 + p3)
  {
    assert PlainChars(p1) && PlainChars(p2) && PlainChars(p3);
    PlainThree(p1, p2, p3);
  }

  lemma PlainColon(p1: string, p2: string, p3: string)
    requires p1 == "Error: " && p2 == "something " && p3 == "went wrong"
    ensures !Preserved(p1 + p2 + p3)
  {
    assert PlainChars(p1) && PlainChars(p2) && PlainChars(p3);
    PlainThree(p1, p2, p3);
  }

  /** Three plain pieces with a second character that is no drive colon. */
  lemma PlainThree(p1: string, p2: string, p3: string)
    requires PlainChars(p1) && PlainChars(p2) && PlainChars(p3) && |p1| > 2 && p1[1] != ':'
    ensures !Preserved(p1 + p2 + p3)
  {
    var line := p1 + p2 + p3;
    assert PlainChars(line);
    assert line[1] == p1[1];
    NoMarkers(line);
  }

  /** A URL line of result_test.go stays whole although it is longer than
      the width. */
  lemma LongUrlKept(line: string)
    requires line == "See: https" + "://" + "example.com/very/long/path/that/should/not/be/wrapped"
    ensures |line| > 40 && FormatLine(line, 40) == [line]
  {
    ContainsMiddle("See: https", "://", "example.com/very/long/path/that/should/not/be/wrapped");
  }

  /** A plain line longer than the width that ends in a non-space is
      formatted onto several lines, as the long error message of
      result_test.go is at width 40. */
  lemma PlainLong(line: string, w: int)
    requires w >= 1 && |line| > w && |line| > 2 && PlainChars(line)
    requires line[1] != ':' && line[|line| - 1] != ' '
    ensures |FormatLine(line, w)| >= 2
  {
    NoMarkers(line);
    WrapSplits(line, w);
  }
}
