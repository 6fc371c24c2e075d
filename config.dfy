/** internal/config/config.go: commit types, the commit message pattern and
    the install layout, as the newer internal packages use them. */
module Config {
  import opened GoStrings
  import Consts

  const Feat := "feat"
  const Fix := "fix"
  const Docs := "docs"
  const Style := "style"
  const Refactor := "refactor"
  const Test := "test"
  const Chore := "chore"
  const Perf := "perf"
  const Hotfix := "hotfix"

  const CmdCommit := "ci"
  const CmdPush := "ps"

  datatype CommitType = CommitType(name: string, description: string)

  const CommitTypes: seq<CommitType> := [
    CommitType(Feat, "Introducing new features"),
    CommitType(Fix, "Bug fix"),
    CommitType(Docs, "Writing docs"),
    CommitType(Style, "Improving structure/format of the code"),
    CommitType(Refactor, "Refactoring code"),
    CommitType(Test, "When adding missing tests"),
    CommitType(Chore, "Changing CI/CD"),
    CommitType(Perf, "Improving performance"),
    CommitType(Hotfix, "Bug fix urgently")
  ]

  /** CommitTypeNames: fills a slice of the same length with the names. */
  method CommitTypeNames() returns (names: seq<string>)
    ensures |names| == |CommitTypes|
    ensures forall i :: 0 <= i < |names| ==> names[i] == CommitTypes[i].name
  {
    var a := new string[|CommitTypes|];
    for i := 0 to |CommitTypes|
      invariant forall j :: 0 <= j < i ==> a[j] == CommitTypes[j].name
    {
      a[i] := CommitTypes[i].name;
    }
    names := a[..];
  }

  /** The names CommitTypeNames yields: nine, distinct, in the fixed order. */
  lemma CommitTypeNamesOrder(names: seq<string>)
    requires |names| == |CommitTypes|
    requires forall i :: 0 <= i < |names| ==> names[i] == CommitTypes[i].name
    ensures names == [Feat, Fix, Docs, Style, Refactor, Test, Chore, Perf, Hotfix]
    ensures Distinct(names)
  {
  }

  /** The alternation at the head of CommitMessagePattern:
      (feat|fix|docs|style|refactor|test|chore|perf|hotfix). */
  const PatternTypes: seq<string> := ["feat", "fix", "docs", "style", "refactor", "test", "chore", "perf", "hotfix"]

  /** The pattern accepts exactly the declared commit types. */
  lemma PatternTypesAreCommitTypes()
    ensures forall t :: t in PatternTypes <==> exists i :: 0 <= i < |CommitTypes| && CommitTypes[i].name == t
  {
    forall t | t in PatternTypes ensures exists i :: 0 <= i < |CommitTypes| && CommitTypes[i].name == t {
      var i :| 0 <= i < |PatternTypes| && PatternTypes[i] == t;
      assert CommitTypes[i].name == t;
    }
  }

  const StrictHostKeyEnv := "GIT_SSH_STRICT_HOST_KEY"

  const BinaryName := "gitflow-toolkit"
  const GitCommandPrefix := "git-"
  const ToolkitHomeDir := ".gitflow-toolkit"
  const HooksDir := "hooks"
  const CommitMsgHook := "commit-msg"
  const DefaultInstallDir := "/usr/local/bin"
  const TempFilePrefix := "gitflow"

  /** Names linked as `git-<name>`: the commit and push aliases, then every
      commit type in order, none twice. */
  function SymlinkCommands(): (cmds: seq<string>)
    ensures |cmds| == 11 && Distinct(cmds)
    ensures cmds[0] == CmdCommit && cmds[1] == CmdPush
    ensures forall i :: 0 <= i < |CommitTypes| ==> cmds[i + 2] == CommitTypes[i].name
  {
    [CmdCommit, CmdPush, Feat, Fix, Docs, Style, Refactor, Test, Chore, Perf, Hotfix]
  }

  /** The two packages declare the same commit types and the same links. */
  lemma AgreesWithConsts()
    ensures |CommitTypes| == |Consts.CommitTypes|
    ensures forall i :: 0 <= i < |CommitTypes| ==>
      CommitTypes[i].name == Consts.CommitTypes[i].name &&
      CommitTypes[i].description == Consts.CommitTypes[i].description
    ensures SymlinkCommands() == Consts.SymlinkCommands()
  {
  }
}
