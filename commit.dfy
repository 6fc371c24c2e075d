/** internal/git/commit.go: the text of a conventional commit message. */
module Commit {
  import opened GoStrings

  /** A structured commit message; `sob` is the Signed-off-by line. */
  datatype CommitMessage = CommitMessage(
    typ: string, scope: string, subject: string, body: string, footer: string, sob: string)

  /** The header line `type(scope): subject`. */
  function Header(m: CommitMessage): string {
    m.typ + "(" + m.scope + "): " + m.subject
  }

  /** An optional section: nothing when empty, else a blank line and the text. */
  function Section(x: string): string {
    if x == "" then "" else "\n\n" + x
  }

  /** The message text: header, body, footer and sign-off, then one newline. */
  function Layout(m: CommitMessage): string {
    Header(m) + Section(m.body) + Section(m.footer) + Section(m.sob) + "\n"
  }

  /** CommitMessage.String: the sections appended to a builder in turn. */
  method String(m: CommitMessage) returns (s: string)
    ensures s == Layout(m)
  {
    var sb := "";
    sb := sb + m.typ + "(" + m.scope + "): " + m.subject;
    assert sb == Header(m);
    if m.body != "" {
      sb := sb + "\n\n";
      sb := sb + m.body;
    }
    assert sb == Header(m) + Section(m.body);
    if m.footer != "" {
      sb := sb + "\n\n";
      sb := sb + m.footer;
    }
    assert sb == Header(m) + Section(m.body) + Section(m.footer);
    if m.sob != "" {
      sb := sb + "\n\n";
      sb := sb + m.sob;
    }
    assert sb == Header(m) + Section(m.body) + Section(m.footer) + Section(m.sob);
    sb := sb + "\n";
    s := sb;
  }

  /** The layout opens with the header and closes with a newline. */
  lemma LayoutFrame(m: CommitMessage)
    ensures HasPrefix(Layout(m), Header(m))
    ensures HasSuffix(Layout(m), "\n")
    ensures m.body == "" && m.footer == "" && m.sob == "" ==> Layout(m) == Header(m) + "\n"
  {
    var rest := Section(m.body) + Section(m.footer) + Section(m.sob) + "\n";
    assert Layout(m) == Header(m) + rest;
  }

  /** The non-empty texts of a list, in order. */
  function NonEmpty(xs: seq<string>): (r: seq<string>)
    ensures forall k :: 0 <= k < |r| ==> r[k] != "" && r[k] in xs
  {
    if xs == [] then []
    else if xs[0] == "" then NonEmpty(xs[1..])
    else [xs[0]] + NonEmpty(xs[1..])
  }

  function Sections(xs: seq<string>): string {
    if xs == [] then "" else Section(xs[0]) + Sections(xs[1..])
  }

  lemma {:induction false} JoinSections(h: string, xs: seq<string>)
    ensures Join([h] + NonEmpty(xs), "\n\n") == h + Sections(xs)
    decreases |xs|
  {
    if xs != [] {
      if xs[0] == "" {
        JoinSections(h, xs[1..]);
      } else {
        JoinSections(xs[0], xs[1..]);
        JoinCons(h, [xs[0]] + NonEmpty(xs[1..]), "\n\n");
        assert [h] + NonEmpty(xs) == [h] + ([xs[0]] + NonEmpty(xs[1..]));
      }
    }
  }

  /** A text that can stand between blank lines without creating or hiding one. */
  predicate Paragraph(x: string) {
    !Contains(x, "\n\n") && !HasSuffix(x, "\n")
  }

  /** The layout is the header and the non-empty sections joined by blank
      lines, then a newline. */
  lemma LayoutIsJoin(m: CommitMessage)
    ensures Layout(m) == Join([Header(m)] + NonEmpty([m.body, m.footer, m.sob]), "\n\n") + "\n"
  {
    var xs := [m.body, m.footer, m.sob];
    SectionsOfThree(m.body, m.footer, m.sob);
    JoinSections(Header(m), xs);
    assert Layout(m) == (Header(m) + Sections(xs)) + "\n";
  }

  lemma SectionsOfThree(a: string, b: string, c: string)
    ensures Sections([a, b, c]) == Section(a) + Section(b) + Section(c)
  {
    var xs := [a, b, c];
    assert xs[1..] == [b, c] && xs[1..][1..] == [c] && xs[1..][1..][1..] == [];
    assert Sections([c]) == Section(c);
  }

  /** The layout less its final newline, cut at every blank line, gives back
      the header followed by exactly the non-empty sections, body before
      footer before sign-off. */
  lemma LayoutSections(m: CommitMessage)
    requires Paragraph(Header(m)) && Paragraph(m.body) && Paragraph(m.footer) && Paragraph(m.sob)
    ensures Split(TrimSuffix(Layout(m), "\n"), "\n\n") == [Header(m)] + NonEmpty([m.body, m.footer, m.sob])
  {
    var xs := [m.body, m.footer, m.sob];
    var parts := [Header(m)] + NonEmpty(xs);
    LayoutIsJoin(m);
    TrimNewline(Join(parts, "\n\n"));
    forall k | 0 <= k < |parts| ensures Paragraph(parts[k]) {
      if k > 0 {
        assert parts[k] in xs;
      }
    }
    SplitJoinParagraphs(parts);
  }

  /** With no newline in type, scope and subject, the first line is the header. */
  lemma FirstLineIsHeader(m: CommitMessage)
    requires !Contains(m.typ, "\n") && !Contains(m.scope, "\n") && !Contains(m.subject, "\n")
    ensures var s := Layout(m); var i := Index(s, "\n"); i >= 0 && s[..i] == Header(m)
  {
    var h := Header(m);
    NewlineFree(m.typ);
    NewlineFree(m.scope);
    NewlineFree(m.subject);
    assert '\n' !in h;
    NewlineFree(h);
    var rest := Layout(m)[|h| + 1..];
    assert Layout(m) == h + "\n" + rest by {
      if m.body == "" && m.footer == "" && m.sob == "" {
        assert Layout(m) == h + "\n";
      } else {
        assert Layout(m)[|h|] == '\n';
      }
    }
    FirstLineAfter(h, rest);
  }

  /** A text contains the one-character string "\n" exactly when it holds a newline. */
  lemma NewlineFree(s: string)
    ensures !Contains(s, "\n") <==> '\n' !in s
  {
    if '\n' !in s {
      NotContainsMissingChar(s, "\n", 0);
    } else {
      var j :| 0 <= j < |s| && s[j] == '\n';
      assert s[j..j + 1] == "\n";
      ContainsAt(s, "\n", j);
    }
  }

  /** The layout for each combination of present sections. */
  lemma LayoutCases(m: CommitMessage)
    ensures m.body == "" && m.footer == "" && m.sob == "" ==> Layout(m) == Header(m) + "\n"
    ensures m.body != "" && m.footer == "" && m.sob == "" ==> Layout(m) == Header(m) + "\n\n" + m.body + "\n"
    ensures m.body == "" && m.footer != "" && m.sob == "" ==> Layout(m) == Header(m) + "\n\n" + m.footer + "\n"
    ensures m.body == "" && m.footer == "" && m.sob != "" ==> Layout(m) == Header(m) + "\n\n" + m.sob + "\n"
    ensures m.body != "" && m.footer != "" && m.sob != "" ==>
      Layout(m) == Header(m) + "\n\n" + m.body + "\n\n" + m.footer + "\n\n" + m.sob + "\n"
  {
  }

  /** The cases of git_test.go, each expected text written in its sections. */
  lemma LayoutBasic()
    ensures Layout(CommitMessage("feat", "api", "add new endpoint", "", "", ""))
      == "feat(api): add new endpoint" + "\n"
  {
    var m := CommitMessage("feat", "api", "add new endpoint", "", "", "");
    assert Header(m) == "feat(api): add new endpoint";
    assert Section(m.body) == "";
    assert Section(m.footer) == "";
    assert Section(m.sob) == "";
  }

  lemma LayoutWithBody()
    ensures Layout(CommitMessage("fix", "auth", "fix login bug", "This fixes the login issue\nwhen password contains special chars.", "", ""))
      == "fix(auth): fix login bug" + "\n\n" + "This fixes the login issue\nwhen password contains special chars." + "\n"
  {
    var m := CommitMessage("fix", "auth", "fix login bug", "This fixes the login issue\nwhen password contains special chars.", "", "");
    assert Header(m) == "fix(auth): fix login bug";
    assert Section(m.body) == "\n\n" + "This fixes the login issue\nwhen password contains special chars.";
    assert Section(m.footer) == "";
    assert Section(m.sob) == "";
  }

  lemma LayoutWithFooter()
    ensures Layout(CommitMessage("feat", "core", "add feature", "", "BREAKING CHANGE: API changed", ""))
      == "feat(core): add feature" + "\n\n" + "BREAKING CHANGE: API changed" + "\n"
  {
    var m := CommitMessage("feat", "core", "add feature", "", "BREAKING CHANGE: API changed", "");
    assert Header(m) == "feat(core): add feature";
    assert Section(m.body) == "";
    assert Section(m.footer) == "\n\n" + "BREAKING CHANGE: API changed";
    assert Section(m.sob) == "";
  }

  lemma LayoutWithSignOff()
    ensures Layout(CommitMessage("docs", "readme", "update docs", "", "", "Signed-off-by: Test User <test@example.com>"))
      == "docs(readme): update docs" + "\n\n" + "Signed-off-by: Test User <test@example.com>" + "\n"
  {
    var m := CommitMessage("docs", "readme", "update docs", "", "", "Signed-off-by: Test User <test@example.com>");
    assert Header(m) == "docs(readme): update docs";
    assert Section(m.body) == "";
    assert Section(m.footer) == "";
    assert Section(m.sob) == "\n\n" + "Signed-off-by: Test User <test@example.com>";
  }

  lemma LayoutFull()
    ensures Layout(CommitMessage("feat", "api", "add user endpoint", "Add new user management endpoint.", "Closes #123", "Signed-off-by: Test User <test@example.com>"))
      == "feat(api): add user endpoint" + "\n\n" + "Add new user management endpoint." + "\n\n" + "Closes #123" + "\n\n" + "Signed-off-by: Test User <test@example.com>" + "\n"
  {
    var m := CommitMessage("feat", "api", "add user endpoint", "Add new user management endpoint.", "Closes #123", "Signed-off-by: Test User <test@example.com>");
    assert Header(m) == "feat(api): add user endpoint";
    assert Section(m.body) == "\n\n" + "Add new user management endpoint.";
    assert Section(m.footer) == "\n\n" + "Closes #123";
    assert Section(m.sob) == "\n\n" + "Signed-off-by: Test User <test@example.com>";
  }
}
