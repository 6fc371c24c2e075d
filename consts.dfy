/** consts/consts.go: the constants shared by the commands, the UI and the
    LLM client. */
module Consts {
  import opened GoStrings

  /** Commit types of the Angular convention. */
  const Feat := "feat"
  const Fix := "fix"
  const Docs := "docs"
  const Style := "style"
  const Refactor := "refactor"
  const Test := "test"
  const Chore := "chore"
  const Perf := "perf"
  const Hotfix := "hotfix"

  /** Aliases of the commit and push subcommands. */
  const CmdCommit := "ci"
  const CmdPush := "ps"

  datatype CommitType = CommitType(name: string, description: string)

  const CommitTypes: seq<CommitType> := [
    CommitType(Feat, "Introducing new features"),
    CommitType(Fix, "Bug fix"),
    CommitType(Docs, "Writing docs"),
    CommitType(Style, "Improving structure/format of the code"),
    CommitType(Refactor, "Refactoring code"),
    CommitType(Test, "When adding missing tests"),
    CommitType(Chore, "Changing CI/CD"),
    CommitType(Perf, "Improving performance"),
    CommitType(Hotfix, "Bug fix urgently")
  ]

  /** The names of a list of commit types, in order. */
  function Names(ts: seq<CommitType>): (ns: seq<string>)
    ensures |ns| == |ts| && forall i :: 0 <= i < |ts| ==> ns[i] == ts[i].name
  {
    seq(|ts|, i requires 0 <= i < |ts| => ts[i].name)
  }

  /** The nine commit types, distinct, in their fixed order. */
  lemma CommitTypeOrder()
    ensures Names(CommitTypes) == [Feat, Fix, Docs, Style, Refactor, Test, Chore, Perf, Hotfix]
    ensures Distinct(Names(CommitTypes))
  {
  }

  const LuckyCommitBinary := "lucky_commit"
  /** Longest hash prefix lucky_commit is asked for. */
  const LuckyCommitMaxLen := 12
  const LuckyCommitURL := "https://github.com/not-an-aardvark/lucky-commit"

  const LLMDefaultOllamaHost := "http://localhost:11434"
  const LLMDefaultOpenRouterHost := "https://openrouter.ai"
  const LLMDefaultDiffContext := 5
  /** Two minutes, in seconds. */
  const LLMDefaultRequestTimeoutSeconds := 120
  const LLMDefaultRetries := 0
  const LLMDefaultLang := "en"
  /** The source holds the float64 nearest to 0.3. */
  const LLMDefaultTemperature: real := 0.3
  const LLMDefaultConcurrency := 3

  const LLMLangEN := "en"
  const LLMLangZH := "zh"
  const LLMLangBilingual := "bilingual"

  /** The output languages the client accepts. */
  const LLMLanguages: seq<string> := [LLMLangEN, LLMLangZH, LLMLangBilingual]

  predicate IsLLMLanguage(lang: string) {
    lang in LLMLanguages
  }

  lemma LLMDefaults()
    ensures IsLLMLanguage(LLMDefaultLang) && LLMDefaultLang == LLMLangEN
    ensures Distinct(LLMLanguages)
    ensures LLMDefaultConcurrency == 3 && LLMDefaultRetries == 0
  {
  }

  const LLMDefaultOllamaModel := "qwen2.5-coder:7b"
  const LLMDefaultOpenRouterModel := "mistralai/devstral-2512:free"

  /** System prompt for the per-file summaries. */
  const LLMDefaultFilePrompt := "You are a git diff analyzer. Output only a brief summary, no formatting."

  const BinaryName := "gitflow-toolkit"
  const GitCommandPrefix := "git-"
  const DefaultInstallDir := "/usr/local/bin"
  const TempFilePrefix := "gitflow"

  /** Names linked as `git-<name>` to the binary: the two aliases, then every
      commit type in order, none twice. */
  function SymlinkCommands(): (cmds: seq<string>)
    ensures |cmds| == 11 && Distinct(cmds)
    ensures cmds == [CmdCommit, CmdPush] + Names(CommitTypes)
  {
    [CmdCommit, CmdPush, Feat, Fix, Docs, Style, Refactor, Test, Chore, Perf, Hotfix]
  }
}
