/** internal/git/hook.go with the pattern of internal/config/config.go:
    `^(feat|fix|...|hotfix)\((\S.*)\):\s(\S.*)|^Merge.*`, under RE2 rules
    (no multi-line flag: `^` is the start of the text, `.` is anything but
    a newline, `\s` is one of tab, newline, form feed, carriage return and
    space). */
module Hook {
  import opened Wrappers
  import opened GoStrings
  import Config
  import Commit

  /** RE2's `\s`. */
  predicate IsRegexSpace(c: char) {
    c == '\t' || c == '\n' || c == '\U{C}' || c == '\r' || c == ' '
  }

  /** At offset j: "):", one `\s`, one `\S`. */
  predicate CloseAt(s: string, j: int) {
    0 <= j && j + 4 <= |s| && s[j] == ')' && s[j + 1] == ':' && IsRegexSpace(s[j + 2]) && !IsRegexSpace(s[j + 3])
  }

  /** The first alternative matches at offset 0 with type t and the closing
      "):" at offset j: the scope s[|t|+1..j] is non-empty, opens with a
      `\S` and holds no newline; the subject opens with a `\S`. */
  ghost predicate TypedHeaderAt(s: string, t: string, j: int) {
    HasPrefix(s, t + "(") && |t| + 1 < j && CloseAt(s, j) && !IsRegexSpace(s[|t| + 1]) &&
    forall k :: |t| + 1 < k < j ==> s[k] != '\n'
  }

  /** The pattern matches somewhere, which with both alternatives anchored
      means at offset 0. */
  ghost predicate PatternMatches(s: string) {
    HasPrefix(s, "Merge") ||
    exists t, j :: t in Config.PatternTypes && TypedHeaderAt(s, t, j)
  }

  /** Searches for the closing "):" from offset j on, giving up at a newline. */
  function ScanClose(s: string, j: nat): bool
    decreases |s| - j
  {
    if j + 4 > |s| then false
    else if CloseAt(s, j) then true
    else if s[j] == '\n' then false
    else ScanClose(s, j + 1)
  }

  lemma {:induction false} ScanCloseSpec(s: string, j: nat)
    ensures ScanClose(s, j) <==>
      exists c :: j <= c && CloseAt(s, c) && forall k :: j <= k < c ==> s[k] != '\n'
    decreases |s| - j
  {
    if j + 4 > |s| {
    } else if CloseAt(s, j) {
      assert j <= j && CloseAt(s, j);
    } else if s[j] == '\n' {
      forall c | j <= c && CloseAt(s, c) ensures exists k :: j <= k < c && s[k] == '\n' {
        assert c != j;
      }
    } else {
      ScanCloseSpec(s, j + 1);
      if ScanClose(s, j + 1) {
        var c :| j + 1 <= c && CloseAt(s, c) && forall k :: j + 1 <= k < c ==> s[k] != '\n';
        assert forall k :: j <= k < c ==> s[k] != '\n';
      }
      forall c | j <= c && CloseAt(s, c) && (forall k :: j <= k < c ==> s[k] != '\n')
        ensures ScanClose(s, j + 1)
      {
        assert c != j;
      }
    }
  }

  /** The first alternative for one type. */
  function MatchType(s: string, t: string): bool {
    HasPrefix(s, t + "(") && |t| + 1 < |s| && !IsRegexSpace(s[|t| + 1]) && ScanClose(s, |t| + 2)
  }

  lemma MatchTypeSpec(s: string, t: string)
    ensures MatchType(s, t) <==> exists j :: TypedHeaderAt(s, t, j)
  {
    if HasPrefix(s, t + "(") && |t| + 1 < |s| && !IsRegexSpace(s[|t| + 1]) {
      ScanCloseSpec(s, |t| + 2);
      if ScanClose(s, |t| + 2) {
        var c :| |t| + 2 <= c && CloseAt(s, c) && forall k :: |t| + 2 <= k < c ==> s[k] != '\n';
        assert TypedHeaderAt(s, t, c);
      }
      forall j | TypedHeaderAt(s, t, j) ensures ScanClose(s, |t| + 2) {
        assert forall k :: |t| + 2 <= k < j ==> s[k] != '\n';
      }
    }
  }

  function MatchAnyType(s: string, ts: seq<string>): bool {
    if ts == [] then false else MatchType(s, ts[0]) || MatchAnyType(s, ts[1..])
  }

  lemma {:induction false} MatchAnyTypeSpec(s: string, ts: seq<string>)
    ensures MatchAnyType(s, ts) <==> exists t, j :: t in ts && TypedHeaderAt(s, t, j)
    decreases |ts|
  {
    if ts != [] {
      MatchTypeSpec(s, ts[0]);
      MatchAnyTypeSpec(s, ts[1..]);
      forall t, j | t in ts && TypedHeaderAt(s, t, j) ensures MatchAnyType(s, ts) {
        if t != ts[0] {
          assert t in ts[1..];
        }
      }
    }
  }

  /** Number of capturing groups in the pattern: FindStringSubmatch yields
      nothing on no match and 1 + 3 strings on a match. */
  const PatternGroups := 3

  function FindStringSubmatchLen(content: string): (n: nat)
    ensures n == 0 || n == PatternGroups + 1
  {
    if HasPrefix(content, "Merge") || MatchAnyType(content, Config.PatternTypes) then PatternGroups + 1 else 0
  }

  datatype HookError = ErrInvalidCommitMessage

  /** ValidateCommitMessageContent: nil exactly when the pattern matches,
      ErrInvalidCommitMessage otherwise. */
  function ValidateCommitMessageContent(content: string): (r: Option<HookError>)
    ensures r == None <==> PatternMatches(content)
    ensures r != None ==> r == Some(ErrInvalidCommitMessage)
  {
    MatchAnyTypeSpec(content, Config.PatternTypes);
    if FindStringSubmatchLen(content) != 4 then Some(ErrInvalidCommitMessage) else None
  }

  /** Anything opening with "Merge" passes. */
  lemma MergeAccepted(rest: string)
    ensures ValidateCommitMessageContent("Merge" + rest) == None
  {
    assert HasPrefix("Merge" + rest, "Merge");
  }

  /** Text before the type is not skipped: a message whose first character
      opens neither a type nor "Merge" is rejected. */
  lemma AnchoredAtStart(s: string)
    requires s != [] && s[0] !in "fdsrtcphM"
    ensures ValidateCommitMessageContent(s) == Some(ErrInvalidCommitMessage)
  {
    forall t, j | t in Config.PatternTypes ensures !TypedHeaderAt(s, t, j) {
      assert (t + "(")[0] == t[0];
    }
  }

  /** A header built from a listed type, a scope that opens with a non-space
      and holds no newline, and a subject that opens with a non-space, passes
      whatever follows it; in particular every well-formed commit text. */
  lemma AcceptsHeader(t: string, scope: string, subject: string, rest: string)
    requires t in Config.PatternTypes
    requires scope != [] && !IsRegexSpace(scope[0]) && forall k :: 0 <= k < |scope| ==> scope[k] != '\n'
    requires subject != [] && !IsRegexSpace(subject[0])
    ensures ValidateCommitMessageContent(t + "(" + scope + "): " + subject + rest) == None
  {
    var s := t + "(" + scope + "): " + subject + rest;
    var j := |t| + 1 + |scope|;
    assert s[|t| + 1] == scope[0];
    assert s[j..j + 4] == "): " + [subject[0]];
    assert s[..|t| + 1] == t + "(";
    forall k | |t| + 1 < k < j ensures s[k] != '\n' {
      assert s[k] == scope[k - |t| - 1];
    }
    assert TypedHeaderAt(s, t, j);
  }

  lemma AcceptsLayout(m: Commit.CommitMessage)
    requires m.typ in Config.PatternTypes
    requires m.scope != [] && !IsRegexSpace(m.scope[0]) && forall k :: 0 <= k < |m.scope| ==> m.scope[k] != '\n'
    requires m.subject != [] && !IsRegexSpace(m.subject[0])
    ensures ValidateCommitMessageContent(Commit.Layout(m)) == None
  {
    var rest := Commit.Section(m.body) + Commit.Section(m.footer) + Commit.Section(m.sob) + "\n";
    AcceptsHeader(m.typ, m.scope, m.subject, rest);
    assert Commit.Layout(m) == m.typ + "(" + m.scope + "): " + m.subject + rest;
  }

  /** The nine accepted headers of config_test.go, one per type. */
  const AcceptedHeaders: seq<(string, string, string)> := [
    ("feat", "scope", "add new feature"),
    ("fix", "api", "fix null pointer"),
    ("docs", "readme", "update installation"),
    ("style", "lint", "format code"),
    ("refactor", "core", "simplify logic"),
    ("test", "unit", "add more tests"),
    ("chore", "ci", "update workflow"),
    ("perf", "db", "optimize query"),
    ("hotfix", "auth", "fix login bug")
  ]

  lemma AcceptedExamples(i: nat)
    requires i < |AcceptedHeaders|
    ensures var (t, scope, subject) := AcceptedHeaders[i];
      ValidateCommitMessageContent(t + "(" + scope + "): " + subject) == None
  {
    var (t, scope, subject) := AcceptedHeaders[i];
    AcceptsHeader(t, scope, subject, "");
    assert t + "(" + scope + "): " + subject + "" == t + "(" + scope + "): " + subject;
  }

  lemma AcceptedMerge(msg: string)
    requires msg == "Merge" + " branch 'main' into feature"
    ensures ValidateCommitMessageContent(msg) == None
  {
    MergeAccepted(" branch 'main' into feature");
  }

  /** A message is rejected when it opens neither with "Merge" nor with any
      type followed by "(". */
  lemma RejectsUnopened(s: string)
    requires !HasPrefix(s, "Merge")
    requires forall t :: t in Config.PatternTypes ==> !HasPrefix(s, t + "(")
    ensures ValidateCommitMessageContent(s) == Some(ErrInvalidCommitMessage)
  {
  }

  /** A message that only "feat(" can open is rejected when no usable "):"
      follows that opening. */
  lemma RejectsFeat(s: string)
    requires !HasPrefix(s, "Merge")
    requires forall t :: t in Config.PatternTypes && t != "feat" ==> !HasPrefix(s, t + "(")
    requires forall j :: 5 < j ==> !CloseAt(s, j)
    ensures ValidateCommitMessageContent(s) == Some(ErrInvalidCommitMessage)
  {
  }

  /** A type opens `s` only if it shares the first two characters of `s`. */
  lemma OpeningPair(s: string)
    requires |s| >= 2
    ensures forall t :: t in Config.PatternTypes && HasPrefix(s, t + "(") ==> t[0] == s[0] && t[1] == s[1]
  {
    forall t | t in Config.PatternTypes && HasPrefix(s, t + "(") ensures t[0] == s[0] && t[1] == s[1] {
      assert (t + "(")[0] == t[0] && (t + "(")[1] == t[1];
    }
  }

  /** Only "feat" can open a message that starts with "fe". */
  lemma OnlyFeat(s: string)
    requires |s| >= 2 && s[0] == 'f' && s[1] == 'e'
    ensures forall t :: t in Config.PatternTypes && t != "feat" ==> !HasPrefix(s, t + "(")
  {
    OpeningPair(s);
  }

  /** The rejected cases of config_test.go. */
  lemma RejectedNoType(s: string)
    requires s == "(scope): message"
    ensures ValidateCommitMessageContent(s) == Some(ErrInvalidCommitMessage)
  {
    AnchoredAtStart(s);
  }

  lemma RejectedNoScope(s: string)
    requires s == "feat: message"
    ensures ValidateCommitMessageContent(s) == Some(ErrInvalidCommitMessage)
  {
    OnlyFeat(s);
    PrefixMismatch(s, "feat(", 4);
    PrefixMismatch(s, "Merge", 0);
    RejectsUnopened(s);
  }

  lemma RejectedNoColon(s: string)
    requires s == "feat(scope) message"
    ensures ValidateCommitMessageContent(s) == Some(ErrInvalidCommitMessage)
  {
    OnlyFeat(s);
    PrefixMismatch(s, "Merge", 0);
    forall j | 5 < j ensures !CloseAt(s, j) {
      if j + 4 <= |s| {
        assert s[j + 1] in s;
      }
    }
    RejectsFeat(s);
  }

  lemma RejectedEmptyScope(s: string)
    requires s == "feat(): message"
    ensures ValidateCommitMessageContent(s) == Some(ErrInvalidCommitMessage)
  {
    OnlyFeat(s);
    PrefixMismatch(s, "Merge", 0);
    forall j | 5 < j ensures !CloseAt(s, j) {
      if j + 4 <= |s| {
        assert s[j + 1] in s[7..];
      }
    }
    RejectsFeat(s);
  }

  lemma RejectedEmptySubject(s: string)
    requires s == "feat(scope): "
    ensures ValidateCommitMessageContent(s) == Some(ErrInvalidCommitMessage)
  {
    OnlyFeat(s);
    PrefixMismatch(s, "Merge", 0);
    forall j | 5 < j ensures !CloseAt(s, j) {
      if j + 4 <= |s| {
        assert s[j + 1] in s[..11];
      }
    }
    RejectsFeat(s);
  }

  /** Covers "random commit message": no type starts with "ra". */
  lemma RejectedRandom(s: string)
    requires |s| >= 2 && s[0] == 'r' && s[1] == 'a'
    ensures ValidateCommitMessageContent(s) == Some(ErrInvalidCommitMessage)
  {
    OpeningPair(s);
    PrefixMismatch(s, "Merge", 0);
    RejectsUnopened(s);
  }
}
