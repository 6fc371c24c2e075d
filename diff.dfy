/** internal/git/diff.go: cutting a unified `git diff` into per-file chunks. */
module Diff {
  import opened GoStrings

  /** One file's part of a diff. */
  datatype FileDiff = FileDiff(path: string, diff: string)

  const HeaderPrefix: string := "diff --git "

  /** A line that opens a new file chunk. */
  predicate IsHeader(line: string) {
    HasPrefix(line, HeaderPrefix)
  }

  /** strings.SplitN(s, sep, 2)[0]: the text before the first `sep`. */
  function FirstField(s: string, sep: string): (r: string)
    requires sep != []
    ensures r <= s
  {
    var i := Index(s, sep);
    if i < 0 then s else s[..i]
  }

  /** extractFilePath: the path after the first " b/", falling back to the
      "a/" side, falling back to the whole header text. */
  function ExtractFilePath(line: string): string {
    var rest := TrimPrefix(line, HeaderPrefix);
    var parts := Split(rest, " b/");
    if |parts| >= 2 then parts[1]
    else if HasPrefix(rest, "a/") then TrimPrefix(FirstField(rest, " "), "a/")
    else rest
  }

  /** In "a/P b/Q" with no " b/" inside P the first " b/" is the separator. */
  lemma SeparatorIndex(p: string, q: string)
    requires !Contains(p, " b/")
    ensures Index("a/" + p + " b/" + q, " b/") == |p| + 2
  {
    var s := "a/" + p + " b/" + q;
    var sep := " b/";
    assert s[|p| + 2..|p| + 5] == sep;
    assert OccursAt(s, sep, |p| + 2);
    forall j | 0 <= j < |p| + 2 ensures !OccursAt(s, sep, j) {
      if j < 2 {
        assert s[j..j + 3][0] == s[j] != ' ';
      } else if j + 3 <= |p| + 2 {
        assert s[j..j + 3] == p[j - 2..j + 1];
        assert !OccursAt(p, sep, j - 2);
      } else if j == |p| + 1 {
        assert s[j..j + 3][1] == s[j + 1] == ' ';
      } else {
        assert s[j..j + 3][2] == s[j + 2] == ' ';
      }
    }
  }

  /** A header "diff --git a/P b/Q" yields Q when P holds no " b/" and Q holds
      none either; this covers paths with spaces. */
  lemma ExtractFromStandardHeader(p: string, q: string)
    requires !Contains(p, " b/") && !Contains(q, " b/")
    ensures ExtractFilePath(HeaderPrefix + "a/" + p + " b/" + q) == q
  {
    var rest := "a/" + p + " b/" + q;
    var line := HeaderPrefix + rest;
    assert HasPrefix(line, HeaderPrefix);
    assert TrimPrefix(line, HeaderPrefix) == rest;
    SeparatorIndex(p, q);
    assert rest[|p| + 2 + 3..] == q;
    assert Split(rest, " b/") == [rest[..|p| + 2]] + Split(q, " b/");
    assert Split(q, " b/") == [q];
    assert Split(rest, " b/")[1] == q;
    assert ExtractFilePath(line) == q;
    assert line == HeaderPrefix + "a/" + p + " b/" + q;
  }

  /** The header cases of diff_test.go: plain, nested and with spaces. */
  lemma ExtractTestPaths(p: string)
    requires p in ["main.go", "internal/config/config.go", "path with spaces/file.go"]
    ensures ExtractFilePath(HeaderPrefix + "a/" + p + " b/" + p) == p
  {
    assert 'b' !in p;
    NotContainsMissingChar(p, " b/", 1);
    ExtractFromStandardHeader(p, p);
  }

  /** Headers without " b/": the first space-delimited token minus "a/" when
      the text starts with "a/", the whole text after the prefix otherwise. */
  lemma ExtractFallback(line: string)
    requires !Contains(TrimPrefix(line, HeaderPrefix), " b/")
    ensures var rest := TrimPrefix(line, HeaderPrefix);
            ExtractFilePath(line) ==
              if HasPrefix(rest, "a/") then TrimPrefix(FirstField(rest, " "), "a/") else rest
  {
    var rest := TrimPrefix(line, HeaderPrefix);
    assert Split(rest, " b/") == [rest];
  }

  // ---------------------------------------------------------------------
  // Specification of SplitDiffByFile

  /** The lines grouped into runs that each start at a header line; lines
      before the first header belong to no group. Defined from the back, the
      way the lines are consumed. */
  function Groups(lines: seq<string>): (gs: seq<seq<string>>)
    decreases |lines|
  {
    if lines == [] then []
    else
      var init := Groups(lines[..|lines| - 1]);
      var l := lines[|lines| - 1];
      if IsHeader(l) then init + [[l]]
      else if init == [] then []
      else init[..|init| - 1] + [init[|init| - 1] + [l]]
  }

  /** The text of one chunk: its lines joined; the chunk that runs to the end
      of the input loses one trailing newline. */
  function ChunkText(g: seq<string>, final: bool): string {
    if final then TrimSuffix(Join(g, "\n"), "\n") else Join(g, "\n")
  }

  /** Chunks for groups that are followed by another group. */
  function EmitInner(gs: seq<seq<string>>): seq<FileDiff>
    requires forall k :: 0 <= k < |gs| ==> gs[k] != []
  {
    if gs == [] then []
    else
      var g := gs[|gs| - 1];
      var p := ExtractFilePath(g[0]);
      EmitInner(gs[..|gs| - 1]) + (if p == "" then [] else [FileDiff(p, ChunkText(g, false))])
  }

  ghost predicate WellGrouped(gs: seq<seq<string>>) {
    forall k :: 0 <= k < |gs| ==> gs[k] != [] && IsHeader(gs[k][0])
  }

  lemma {:induction false} GroupsShape(lines: seq<string>)
    ensures WellGrouped(Groups(lines))
    ensures forall k, j :: 0 <= k < |Groups(lines)| && 0 < j < |Groups(lines)[k]| ==>
              !IsHeader(Groups(lines)[k][j])
    ensures forall k, j :: 0 <= k < |Groups(lines)| && 0 <= j < |Groups(lines)[k]| ==>
              Groups(lines)[k][j] in lines
    decreases |lines|
  {
    if lines != [] {
      GroupsShape(lines[..|lines| - 1]);
    }
  }

  /** The chunks of a list of lines: one per group whose header names a
      path, the last group's text losing one trailing newline. */
  function ChunksOf(lines: seq<string>): seq<FileDiff> {
    var gs := Groups(lines);
    GroupsShape(lines);
    if gs == [] then []
    else
      var last := gs[|gs| - 1];
      var p := ExtractFilePath(last[0]);
      EmitInner(gs[..|gs| - 1]) + (if p == "" then [] else [FileDiff(p, ChunkText(last, true))])
  }

  /** What SplitDiffByFile returns. */
  function SplitSpec(diff: string): seq<FileDiff> {
    if diff == [] then [] else ChunksOf(Split(diff, "\n"))
  }

  /** The state of SplitDiffByFile after the first `i` lines: the chunks of
      all closed groups are out, the open group's path is current and its
      text is in the builder (with the newline that every line but the very
      last one gets). */
  ghost predicate LoopInv(lines: seq<string>, i: nat, result: seq<FileDiff>,
                          currentPath: string, currentDiff: string)
    requires i <= |lines|
  {
    var gs := Groups(lines[..i]);
    WellGrouped(gs) &&
    (gs == [] ==> currentPath == "" && result == []) &&
    (gs != [] ==>
      result == EmitInner(gs[..|gs| - 1]) &&
      currentPath == ExtractFilePath(gs[|gs| - 1][0]) &&
      (currentPath != "" ==>
        currentDiff == Join(gs[|gs| - 1], "\n") +
          (if i < |lines| || |gs[|gs| - 1]| == 1 then "\n" else "")))
  }

  lemma GroupsSnoc(lines: seq<string>, i: nat)
    requires i < |lines|
    ensures var gs := Groups(lines[..i]);
            Groups(lines[..i + 1]) ==
              if IsHeader(lines[i]) then gs + [[lines[i]]]
              else if gs == [] then []
              else gs[..|gs| - 1] + [gs[|gs| - 1] + [lines[i]]]
  {
    assert lines[..i + 1][..i] == lines[..i];
  }

  lemma StepHeader(lines: seq<string>, i: nat, result: seq<FileDiff>,
                   currentPath: string, currentDiff: string,
                   result': seq<FileDiff>, currentPath': string, currentDiff': string)
    requires i < |lines| && IsHeader(lines[i])
    requires LoopInv(lines, i, result, currentPath, currentDiff)
    requires result' ==
      if currentPath != "" then result + [FileDiff(currentPath, TrimSuffix(currentDiff, "\n"))] else result
    requires currentPath' == ExtractFilePath(lines[i]) && currentDiff' == lines[i] + "\n"
    ensures LoopInv(lines, i + 1, result', currentPath', currentDiff')
  {
    var gs := Groups(lines[..i]);
    GroupsSnoc(lines, i);
    var ngs := gs + [[lines[i]]];
    assert Groups(lines[..i + 1]) == ngs;
    assert ngs[..|ngs| - 1] == gs;
    assert ngs[|ngs| - 1] == [lines[i]];
    assert Join([lines[i]], "\n") == lines[i];
    assert WellGrouped(ngs) by {
      forall k | 0 <= k < |ngs| ensures ngs[k] != [] && IsHeader(ngs[k][0]) {
        if k < |gs| {
          assert ngs[k] == gs[k];
        }
      }
    }
    if gs != [] {
      var g := gs[|gs| - 1];
      assert gs[..|gs| - 1] + [g] == gs;
      if currentPath != "" {
        TrimNewline(Join(g, "\n"));
        assert TrimSuffix(currentDiff, "\n") == ChunkText(g, false);
        assert EmitInner(gs) == result + [FileDiff(currentPath, ChunkText(g, false))];
      } else {
        assert EmitInner(gs) == result;
      }
    }
  }

  lemma StepOther(lines: seq<string>, i: nat, result: seq<FileDiff>,
                  currentPath: string, currentDiff: string, currentDiff': string)
    requires i < |lines| && !IsHeader(lines[i])
    requires LoopInv(lines, i, result, currentPath, currentDiff)
    requires currentDiff' ==
      if currentPath != "" then currentDiff + lines[i] + (if i < |lines| - 1 then "\n" else "")
      else currentDiff
    ensures LoopInv(lines, i + 1, result, currentPath, currentDiff')
  {
    var gs := Groups(lines[..i]);
    GroupsSnoc(lines, i);
    var ngs := Groups(lines[..i + 1]);
    if gs == [] {
      assert ngs == [];
    } else {
      var g := gs[|gs| - 1];
      var front := gs[..|gs| - 1];
      var ng := g + [lines[i]];
      assert ngs == front + [ng];
      assert ngs[..|ngs| - 1] == front;
      assert ngs[|ngs| - 1] == ng;
      assert ng[0] == g[0];
      assert WellGrouped(ngs) by {
        forall k | 0 <= k < |ngs| ensures ngs[k] != [] && IsHeader(ngs[k][0]) {
          if k < |front| {
            assert ngs[k] == gs[k];
          }
        }
      }
      if currentPath != "" {
        assert currentDiff == Join(g, "\n") + "\n";
        JoinSnoc(g, lines[i], "\n");
        assert Join(ng, "\n") == Join(g, "\n") + "\n" + lines[i];
      }
    }
  }

  /** SplitDiffByFile: one pass over the lines with a current path and a
      builder for the current chunk. */
  method SplitDiffByFile(diff: string) returns (result: seq<FileDiff>)
    ensures result == SplitSpec(diff)
  {
    if diff == "" {
      return [];
    }
    result := [];
    var currentPath := "";
    var currentDiff := "";
    var lines := Split(diff, "\n");
    for i := 0 to |lines|
      invariant LoopInv(lines, i, result, currentPath, currentDiff)
    {
      var line := lines[i];
      ghost var result0, currentPath0, currentDiff0 := result, currentPath, currentDiff;
      if HasPrefix(line, "diff --git ") {
        if currentPath != "" {
          result := result + [FileDiff(currentPath, TrimSuffix(currentDiff, "\n"))];
        }
        currentPath := ExtractFilePath(line);
        currentDiff := "";
        currentDiff := currentDiff + line;
        currentDiff := currentDiff + "\n";
        assert currentDiff == lines[i] + "\n";
        StepHeader(lines, i, result0, currentPath0, currentDiff0, result, currentPath, currentDiff);
      } else {
        if currentPath != "" {
          currentDiff := currentDiff + line;
          if i < |lines| - 1 {
            currentDiff := currentDiff + "\n";
          }
        }
        StepOther(lines, i, result, currentPath, currentDiff0, currentDiff);
      }
    }
    Finish(lines, result, currentPath, currentDiff);
    if currentPath != "" {
      result := result + [FileDiff(currentPath, TrimSuffix(currentDiff, "\n"))];
    }
  }

  lemma NoTrailingNewline(x: string)
    requires !Contains(x, "\n")
    ensures TrimSuffix(x, "\n") == x
  {
    if HasSuffix(x, "\n") {
      assert OccursAt(x, "\n", |x| - 1);
    }
  }

  lemma Finish(lines: seq<string>, result: seq<FileDiff>,
               currentPath: string, currentDiff: string)
    requires forall k :: 0 <= k < |lines| ==> !Contains(lines[k], "\n")
    requires LoopInv(lines, |lines|, result, currentPath, currentDiff)
    ensures currentPath == "" ==> result == ChunksOf(lines)
    ensures currentPath != "" ==>
      result + [FileDiff(currentPath, TrimSuffix(currentDiff, "\n"))] == ChunksOf(lines)
  {
    assert lines[..|lines|] == lines;
    var gs := Groups(lines);
    GroupsShape(lines);
    if gs != [] && currentPath != "" {
      var g := gs[|gs| - 1];
      if |g| == 1 {
        TrimNewline(g[0]);
        assert Join(g, "\n") == g[0];
        assert g[0] in lines;
        NoTrailingNewline(g[0]);
      }
      assert TrimSuffix(currentDiff, "\n") == ChunkText(g, true);
      assert ChunksOf(lines) == EmitInner(gs[..|gs| - 1]) + [FileDiff(currentPath, ChunkText(g, true))];
    }
  }

  // ---------------------------------------------------------------------
  // Properties of the chunking

  /** Lines from the first header on; everything when a header opens the input. */
  function FromFirstHeader(lines: seq<string>): (r: seq<string>)
    ensures |r| <= |lines| && r == lines[|lines| - |r|..]
  {
    if lines == [] then []
    else if IsHeader(lines[0]) then lines
    else FromFirstHeader(lines[1..])
  }

  /** Extending the input by one line extends the part after the first header
      by that line, once a header has been seen. */
  lemma {:induction false} FromFirstHeaderSnoc(lines: seq<string>, l: string)
    ensures FromFirstHeader(lines + [l]) ==
      if FromFirstHeader(lines) != [] then FromFirstHeader(lines) + [l]
      else if IsHeader(l) then [l] else []
    decreases |lines|
  {
    if lines != [] {
      assert (lines + [l])[0] == lines[0];
      assert (lines + [l])[1..] == lines[1..] + [l];
      FromFirstHeaderSnoc(lines[1..], l);
    } else {
      assert [] + [l] == [l];
      assert [l][1..] == [];
    }
  }

  function Flatten(gs: seq<seq<string>>): seq<string> {
    if gs == [] then [] else Flatten(gs[..|gs| - 1]) + gs[|gs| - 1]
  }

  lemma FlattenSnoc(gs: seq<seq<string>>, g: seq<string>)
    ensures Flatten(gs + [g]) == Flatten(gs) + g
  {
    assert (gs + [g])[..|gs|] == gs;
  }

  lemma FlattenExtendLast(front: seq<seq<string>>, g: seq<string>, l: string)
    ensures Flatten(front + [g + [l]]) == Flatten(front + [g]) + [l]
    ensures g != [] ==> Flatten(front + [g]) != []
  {
    FlattenSnoc(front, g + [l]);
    FlattenSnoc(front, g);
  }

  /** The groups hold exactly the lines from the first header on, in order. */
  lemma {:induction false} GroupsCover(lines: seq<string>)
    ensures Flatten(Groups(lines)) == FromFirstHeader(lines)
    decreases |lines|
  {
    if lines != [] {
      var init := lines[..|lines| - 1];
      var l := lines[|lines| - 1];
      assert init + [l] == lines;
      GroupsCover(init);
      FromFirstHeaderSnoc(init, l);
      GroupsShape(init);
      var gs := Groups(init);
      if IsHeader(l) {
        FlattenSnoc(gs, [l]);
      } else if gs != [] {
        assert gs[..|gs| - 1] + [gs[|gs| - 1]] == gs;
        FlattenExtendLast(gs[..|gs| - 1], gs[|gs| - 1], l);
      }
    }
  }

  /** Without a header line there are no groups. */
  lemma {:induction false} NoHeaderNoGroups(lines: seq<string>)
    requires forall k :: 0 <= k < |lines| ==> !IsHeader(lines[k])
    ensures Groups(lines) == []
    decreases |lines|
  {
    if lines != [] {
      NoHeaderNoGroups(lines[..|lines| - 1]);
    }
  }

  /** Without a header line there are no chunks. */
  lemma NoHeaderNoChunks(diff: string)
    requires forall k :: 0 <= k < |Split(diff, "\n")| ==> !IsHeader(Split(diff, "\n")[k])
    ensures SplitSpec(diff) == []
  {
    if diff != [] {
      NoHeaderNoGroups(Split(diff, "\n"));
    }
  }

  /** Number of header lines that name a path. */
  function CountNamedHeaders(lines: seq<string>): nat {
    if lines == [] then 0
    else
      CountNamedHeaders(lines[..|lines| - 1]) +
        (if IsHeader(lines[|lines| - 1]) && ExtractFilePath(lines[|lines| - 1]) != "" then 1 else 0)
  }

  /** Number of groups whose header names a path. */
  function CountNamedGroups(gs: seq<seq<string>>): nat
    requires forall k :: 0 <= k < |gs| ==> gs[k] != []
  {
    if gs == [] then 0
    else CountNamedGroups(gs[..|gs| - 1]) + (if ExtractFilePath(gs[|gs| - 1][0]) != "" then 1 else 0)
  }

  lemma {:induction false} EmitInnerCount(gs: seq<seq<string>>)
    requires forall k :: 0 <= k < |gs| ==> gs[k] != []
    ensures |EmitInner(gs)| == CountNamedGroups(gs)
    decreases |gs|
  {
    if gs != [] {
      EmitInnerCount(gs[..|gs| - 1]);
    }
  }

  lemma {:induction false} NamedGroupsCount(lines: seq<string>)
    ensures WellGrouped(Groups(lines))
    ensures CountNamedGroups(Groups(lines)) == CountNamedHeaders(lines)
    decreases |lines|
  {
    GroupsShape(lines);
    if lines != [] {
      var init := lines[..|lines| - 1];
      var l := lines[|lines| - 1];
      NamedGroupsCount(init);
      var gs := Groups(init);
      if IsHeader(l) {
        assert (gs + [[l]])[..|gs|] == gs;
      } else if gs != [] {
        var ngs := gs[..|gs| - 1] + [gs[|gs| - 1] + [l]];
        assert ngs[..|ngs| - 1] == gs[..|gs| - 1];
        assert (gs[|gs| - 1] + [l])[0] == gs[|gs| - 1][0];
      }
    }
  }

  /** One chunk per header line that names a path. */
  lemma ChunkCount(diff: string)
    requires diff != ""
    ensures |SplitSpec(diff)| == CountNamedHeaders(Split(diff, "\n"))
  {
    var lines := Split(diff, "\n");
    NamedGroupsCount(lines);
    var gs := Groups(lines);
    if gs != [] {
      EmitInnerCount(gs[..|gs| - 1]);
      assert gs[..|gs| - 1] + [gs[|gs| - 1]] == gs;
    }
  }

  /** The first line of a chunk text (strings.SplitN(d, "\n", 2)[0]). */
  function FirstLine(d: string): string {
    FirstField(d, "\n")
  }

  lemma FirstLineOf(h: string, d: string)
    requires !Contains(h, "\n")
    requires d == h || HasPrefix(d, h + "\n")
    ensures FirstLine(d) == h
  {
    if d != h {
      assert forall j :: 0 <= j < |h| ==> !OccursAt(d, "\n", j) by {
        forall j | 0 <= j < |h| ensures !OccursAt(d, "\n", j) {
          assert d[j..j + 1] == h[j..j + 1];
          assert !OccursAt(h, "\n", j);
        }
      }
      assert d[|h|..|h| + 1] == "\n";
      assert OccursAt(d, "\n", |h|);
    }
  }

  /** A chunk text begins with its group's header line. */
  lemma ChunkTextHead(g: seq<string>, final: bool)
    requires g != [] && !Contains(g[0], "\n")
    ensures var t := ChunkText(g, final); t == g[0] || HasPrefix(t, g[0] + "\n")
  {
    NoTrailingNewline(g[0]);
    if |g| > 1 {
      var rest := Join(g[1..], "\n");
      assert Join(g, "\n") == g[0] + "\n" + rest;
      if final && HasSuffix(Join(g, "\n"), "\n") {
        if rest != [] {
          assert TrimSuffix(Join(g, "\n"), "\n") == g[0] + "\n" + rest[..|rest| - 1];
        } else {
          assert TrimSuffix(Join(g, "\n"), "\n") == g[0];
        }
      }
    }
  }

  /** A chunk is well formed when its first line is a header and its path is
      the one that header names, and is not empty. */
  ghost predicate WellFormedChunk(c: FileDiff) {
    c.path != "" && IsHeader(FirstLine(c.diff)) && c.path == ExtractFilePath(FirstLine(c.diff))
  }

  lemma {:induction false} EmitInnerWellFormed(gs: seq<seq<string>>)
    requires WellGrouped(gs)
    requires forall k :: 0 <= k < |gs| ==> !Contains(gs[k][0], "\n")
    ensures forall c :: c in EmitInner(gs) ==> WellFormedChunk(c)
    decreases |gs|
  {
    if gs != [] {
      var g := gs[|gs| - 1];
      EmitInnerWellFormed(gs[..|gs| - 1]);
      ChunkTextHead(g, false);
      FirstLineOf(g[0], ChunkText(g, false));
    }
  }

  /** Every chunk starts with a "diff --git " line and carries the non-empty
      path that line names. */
  lemma ChunksWellFormed(diff: string)
    ensures forall c :: c in SplitSpec(diff) ==> WellFormedChunk(c)
  {
    if diff != [] {
      var lines := Split(diff, "\n");
      var gs := Groups(lines);
      GroupsShape(lines);
      assert forall k :: 0 <= k < |gs| ==> gs[k][0] in lines;
      if gs != [] {
        var g := gs[|gs| - 1];
        EmitInnerWellFormed(gs[..|gs| - 1]);
        ChunkTextHead(g, true);
        FirstLineOf(g[0], ChunkText(g, true));
      }
    }
  }

  /** The chunk texts in order. */
  function Texts(cs: seq<FileDiff>): (ts: seq<string>)
    ensures |ts| == |cs| && forall k :: 0 <= k < |cs| ==> ts[k] == cs[k].diff
  {
    seq(|cs|, k requires 0 <= k < |cs| => cs[k].diff)
  }

  /** Every header line names a path. */
  ghost predicate AllHeadersNamed(lines: seq<string>) {
    forall k :: 0 <= k < |lines| && IsHeader(lines[k]) ==> ExtractFilePath(lines[k]) != ""
  }

  lemma FlattenNonEmpty(gs: seq<seq<string>>)
    requires gs != [] && gs[|gs| - 1] != []
    ensures Flatten(gs) != []
  {
    assert |Flatten(gs)| >= |gs[|gs| - 1]|;
  }

  /** The texts of closed groups whose headers all name paths. */
  lemma EmitInnerSnoc(front: seq<seq<string>>, g: seq<string>)
    requires forall k :: 0 <= k < |front| ==> front[k] != []
    requires g != [] && ExtractFilePath(g[0]) != ""
    ensures Texts(EmitInner(front + [g])) == Texts(EmitInner(front)) + [Join(g, "\n")]
  {
    assert (front + [g])[..|front|] == front;
    var c := FileDiff(ExtractFilePath(g[0]), Join(g, "\n"));
    assert EmitInner(front + [g]) == EmitInner(front) + [c];
  }

  lemma {:induction false} InnerJoin(gs: seq<seq<string>>)
    requires gs != []
    requires forall k :: 0 <= k < |gs| ==> gs[k] != [] && ExtractFilePath(gs[k][0]) != ""
    ensures |EmitInner(gs)| == |gs|
    ensures Join(Texts(EmitInner(gs)), "\n") == Join(Flatten(gs), "\n")
    decreases |gs|
  {
    var front, g := gs[..|gs| - 1], gs[|gs| - 1];
    assert front + [g] == gs;
    EmitInnerSnoc(front, g);
    FlattenSnoc(front, g);
    if front == [] {
      assert Texts(EmitInner(gs)) == [Join(g, "\n")];
      assert Flatten(gs) == g;
    } else {
      InnerJoin(front);
      var tf := Texts(EmitInner(front));
      JoinSnoc(tf, Join(g, "\n"), "\n");
      FlattenNonEmpty(front);
      JoinAppend(Flatten(front), g, "\n");
    }
  }

  lemma TrimSuffixAppend(x: string, y: string)
    requires y != []
    ensures TrimSuffix(x + y, "\n") == x + TrimSuffix(y, "\n")
  {
    assert (x + y)[|x + y| - 1..] == y[|y| - 1..];
    if HasSuffix(y, "\n") {
      assert (x + y)[..|x + y| - 1] == x + y[..|y| - 1];
    }
  }

  lemma JoinChunks(front: seq<seq<string>>, g: seq<string>)
    requires forall k :: 0 <= k < |front| ==> front[k] != [] && ExtractFilePath(front[k][0]) != ""
    requires g != [] && IsHeader(g[0])
    ensures Join(Texts(EmitInner(front)) + [ChunkText(g, true)], "\n") ==
            TrimSuffix(Join(Flatten(front + [g]), "\n"), "\n")
  {
    FlattenSnoc(front, g);
    GroupTextNonEmpty(g);
    if front == [] {
      assert Flatten(front + [g]) == g;
      assert Texts(EmitInner(front)) + [ChunkText(g, true)] == [ChunkText(g, true)];
    } else {
      InnerJoin(front);
      JoinSnoc(Texts(EmitInner(front)), ChunkText(g, true), "\n");
      FlattenNonEmpty(front);
      JoinAppend(Flatten(front), g, "\n");
      TrimSuffixAppend(Join(Flatten(front), "\n") + "\n", Join(g, "\n"));
    }
  }

  /** When every header names a path, joining the chunk texts with newlines
      gives back the input from its first header on, less one trailing
      newline: nothing is lost, duplicated or reordered. */
  lemma RoundTrip(lines: seq<string>)
    requires AllHeadersNamed(lines)
    ensures Join(Texts(ChunksOf(lines)), "\n") == TrimSuffix(Join(FromFirstHeader(lines), "\n"), "\n")
  {
    GroupsCover(lines);
    NamedGroups(lines);
    var gs := Groups(lines);
    if gs != [] {
      var front, g := gs[..|gs| - 1], gs[|gs| - 1];
      assert front + [g] == gs;
      LastChunkNamed(lines);
      JoinChunks(front, g);
    }
  }

  /** With a named last group, the chunk texts are the inner texts followed
      by the final group's text. */
  lemma LastChunkNamed(lines: seq<string>)
    requires WellGrouped(Groups(lines)) && Groups(lines) != []
    requires ExtractFilePath(Groups(lines)[|Groups(lines)| - 1][0]) != ""
    ensures var gs := Groups(lines);
      Texts(ChunksOf(lines)) == Texts(EmitInner(gs[..|gs| - 1])) + [ChunkText(gs[|gs| - 1], true)]
  {
  }

  lemma GroupTextNonEmpty(g: seq<string>)
    requires g != [] && IsHeader(g[0])
    ensures Join(g, "\n") != []
  {
    if |g| > 1 {
      assert Join(g, "\n") == g[0] + "\n" + Join(g[1..], "\n");
    }
  }

  lemma {:induction false} NamedGroups(lines: seq<string>)
    requires AllHeadersNamed(lines)
    ensures WellGrouped(Groups(lines))
    ensures forall k :: 0 <= k < |Groups(lines)| ==> ExtractFilePath(Groups(lines)[k][0]) != ""
  {
    GroupsShape(lines);
    forall k | 0 <= k < |Groups(lines)| ensures ExtractFilePath(Groups(lines)[k][0]) != "" {
      var h := Groups(lines)[k][0];
      assert h in lines;
      var j :| 0 <= j < |lines| && lines[j] == h;
    }
  }

  /** For a diff that opens with a header, as `git diff` output does, the
      chunks rejoined are the diff itself, less one trailing newline. */
  lemma RoundTripDiff(diff: string)
    requires IsHeader(diff)
    requires AllHeadersNamed(Split(diff, "\n"))
    ensures Join(Texts(SplitSpec(diff)), "\n") == TrimSuffix(diff, "\n")
  {
    var lines := Split(diff, "\n");
    FirstLineIsHeader(diff);
    assert FromFirstHeader(lines) == lines;
    RoundTrip(lines);
    JoinSplit(diff, "\n");
  }

  lemma FirstLineIsHeader(diff: string)
    requires IsHeader(diff)
    ensures IsHeader(Split(diff, "\n")[0])
  {
    var i := Index(diff, "\n");
    if i >= 0 {
      assert diff[i..i + 1] == "\n";
      assert diff[i] == '\n';
      forall j | 0 <= j < |HeaderPrefix| ensures diff[j] != '\n' {
        assert diff[j] == diff[..|HeaderPrefix|][j] == HeaderPrefix[j];
      }
      assert i >= |HeaderPrefix|;
      assert diff[..i][..|HeaderPrefix|] == HeaderPrefix;
    }
  }
}
