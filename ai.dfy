/** The AI commit flow of internal/ui/commit/ai.go: per-file analysis with a
    bounded number of files in flight, the scrolling file list, the prompt
    for the final message, and the preview that asks what to do with it.
    Each bubbletea Update is a function from the old state to the new one,
    and the classes AiModel and AiPreviewModel apply it to their fields. */
module AiCommit {
  import opened Wrappers
  import opened GoStrings
  import Diff
  import Consts
  import LuckyUi

  // ---------------------------------------------------------------------
  // File status and counting.
  // ---------------------------------------------------------------------

  datatype FileStatus = Pending | Running | Analyzed | Errored

  /** The integer codes of fileStatus. */
  function StatusCode(s: FileStatus): (n: int)
    ensures -1 <= n <= 2
  {
    match s
    case Pending => 0
    case Running => 1
    case Analyzed => 2
    case Errored => -1
  }

  lemma StatusCodesDistinct(a: FileStatus, b: FileStatus)
    ensures StatusCode(a) == StatusCode(b) <==> a == b
  {
  }

  function CountStatus(status: seq<FileStatus>, st: FileStatus): (n: nat)
    ensures n <= |status|
  {
    if status == [] then 0 else (if status[0] == st then 1 else 0) + CountStatus(status[1..], st)
  }

  lemma {:induction false} CountUpdate(status: seq<FileStatus>, i: int, v: FileStatus, st: FileStatus)
    requires 0 <= i < |status|
    ensures CountStatus(status[i := v], st) ==
      CountStatus(status, st) - (if status[i] == st then 1 else 0) + (if v == st then 1 else 0)
  {
    if i == 0 {
      assert status[i := v][1..] == status[1..];
    } else {
      assert status[i := v][1..] == status[1..][i - 1 := v];
      CountUpdate(status[1..], i - 1, v, st);
    }
  }

  /** A status that every file has is counted once per file; and conversely. */
  lemma {:induction false} CountAll(status: seq<FileStatus>, st: FileStatus)
    ensures CountStatus(status, st) == |status| <==> forall i :: 0 <= i < |status| ==> status[i] == st
  {
    if status != [] {
      CountAll(status[1..], st);
      if CountStatus(status, st) == |status| {
        assert status[0] == st;
        forall i | 0 < i < |status| ensures status[i] == st {
          assert status[1..][i - 1] == status[i];
        }
      } else if forall i :: 0 <= i < |status| ==> status[i] == st {
        forall i | 0 <= i < |status| - 1 ensures status[1..][i] == st {
          assert status[1..][i] == status[i + 1];
        }
      }
    }
  }

  /** The lowest index holding st, or -1. */
  function FirstWith(status: seq<FileStatus>, st: FileStatus): (i: int)
    ensures -1 <= i < |status|
    ensures i >= 0 ==> status[i] == st && forall k :: 0 <= k < i ==> status[k] != st
    ensures i == -1 <==> st !in status
  {
    if status == [] then -1
    else if status[0] == st then 0
    else
      var r := FirstWith(status[1..], st);
      if r < 0 then -1 else r + 1
  }

  /** The scan the source writes out each time it looks for a status. */
  method FindFirst(status: seq<FileStatus>, st: FileStatus) returns (i: int)
    ensures i == FirstWith(status, st)
  {
    for j := 0 to |status|
      invariant forall k :: 0 <= k < j ==> status[k] != st
    {
      if status[j] == st {
        return j;
      }
    }
    return -1;
  }

  // ---------------------------------------------------------------------
  // The analysis model.
  // ---------------------------------------------------------------------

  datatype Phase = Analyzing | Generating

  /** The fields of aiModel that Update reads or writes; the spinner, the
      client and the cancellation context are left out. */
  datatype AiState = AiState(
    files: seq<Diff.FileDiff>, summaries: seq<string>, status: seq<FileStatus>,
    completed: int, running: int, concurrency: int, finalMsg: string,
    progressPos: int, phase: Phase, done: bool, cancelled: bool, err: Option<string>)

  function Min(a: int, b: int): int { if a <= b then a else b }
  function Max(a: int, b: int): int { if a >= b then a else b }

  /** The first files up to the concurrency limit run, the rest wait. */
  function InitialStatus(n: nat, concurrency: int): (status: seq<FileStatus>)
    ensures |status| == n
  {
    seq(n, i => if i < concurrency then Running else Pending)
  }

  lemma {:induction false} InitialCounts(n: nat, concurrency: int)
    ensures CountStatus(InitialStatus(n, concurrency), Running) == Min(n, Max(concurrency, 0))
    ensures CountStatus(InitialStatus(n, concurrency), Analyzed) == 0
  {
    if n > 0 {
      var s := InitialStatus(n, concurrency);
      assert s[1..] == InitialStatus(n - 1, concurrency - 1);
      InitialCounts(n - 1, concurrency - 1);
    }
  }

  /** newAIModel, with the configured concurrency as a parameter. */
  function NewAi(files: seq<Diff.FileDiff>, concurrency: int): (s: AiState) {
    AiState(files, seq(|files|, i => ""), InitialStatus(|files|, concurrency),
      0, Min(|files|, Max(concurrency, 0)), concurrency, "", 0, Analyzing, false, false, None)
  }

  /** newAIModel: marks files running until the limit is reached. */
  method NewAiModel(files: seq<Diff.FileDiff>, concurrency: int) returns (s: AiState)
    ensures s == NewAi(files, concurrency)
  {
    var status := seq(|files|, i => Pending);
    var running := 0;
    var i := 0;
    while i < |files|
      invariant 0 <= i <= |files| && |status| == |files|
      invariant running == i && (i <= concurrency || i == 0)
      invariant forall k :: 0 <= k < |files| ==> status[k] == if k < i then Running else Pending
    {
      if running >= concurrency {
        break;
      }
      status := status[i := Running];
      running := running + 1;
      i := i + 1;
    }
    assert running == Min(|files|, Max(concurrency, 0));
    assert status == InitialStatus(|files|, concurrency);
    s := AiState(files, seq(|files|, i => ""), status, 0, running, concurrency, "", 0,
      Analyzing, false, false, None);
  }

  /** startNextFile: the lowest pending file, unless the limit is reached. */
  function NextFile(s: AiState): (i: int)
    ensures i == -1 <==> s.running >= s.concurrency || Pending !in s.status
    ensures i >= 0 ==>
      i < |s.status| && s.status[i] == Pending && forall k :: 0 <= k < i ==> s.status[k] != Pending
  {
    if s.running >= s.concurrency then -1 else FirstWith(s.status, Pending)
  }

  method StartNextFile(s: AiState) returns (i: int)
    ensures i == NextFile(s)
  {
    if s.running >= s.concurrency {
      return -1;
    }
    i := FindFirst(s.status, Pending);
  }

  datatype Msg =
    | KeyMsg(key: string)
    | SpinnerTick
    | AiTick
    | FileAnalyzed(idx: int, summary: string, analyzeErr: Option<string>)
    | FinalGenerated(message: string, generateErr: Option<string>)
    | OtherMsg

  datatype Cmd = NoCmd | Quit | SpinnerCmd | TickCmd | Analyze(index: int) | GenerateFinal

  predicate Shaped(s: AiState) {
    |s.status| == |s.files| && |s.summaries| == |s.files|
  }

  /** An analysis reports on a file the model has. */
  predicate Deliverable(s: AiState, msg: Msg) {
    msg.FileAnalyzed? ==> Shaped(s) && 0 <= msg.idx < |s.files|
  }

  /** The handling of one file's analysis. */
  function Analyzed1(s: AiState, idx: int, summary: string, e: Option<string>): (AiState, Cmd)
    requires Shaped(s) && 0 <= idx < |s.files|
  {
    var t := s.(running := s.running - 1);
    if e.Some? then
      (t.(status := t.status[idx := Errored],
          err := Some("failed to analyze " + s.files[idx].path + ": " + e.value), done := true), Quit)
    else AnalyzedOk(t, idx, summary)
  }

  /** A successful analysis: the summary is stored, and either every file is
      done and the final message is generated, or the next pending file starts. */
  function AnalyzedOk(t: AiState, idx: int, summary: string): (AiState, Cmd)
    requires Shaped(t) && 0 <= idx < |t.files|
  {
    var u := t.(summaries := t.summaries[idx := summary], status := t.status[idx := Analyzed],
                completed := t.completed + 1);
    if u.completed >= |u.files| then (u.(phase := Generating), GenerateFinal)
    else
      var next := NextFile(u);
      if next >= 0 then (u.(status := u.status[next := Running], running := u.running + 1), Analyze(next))
      else (u, NoCmd)
  }

  /** aiModel.Update. */
  function Step(s: AiState, msg: Msg): (AiState, Cmd)
    requires Deliverable(s, msg)
  {
    match msg
    case KeyMsg(key) => if key == "ctrl+c" then (s.(cancelled := true), Quit) else (s, NoCmd)
    case SpinnerTick => (s, SpinnerCmd)
    case AiTick =>
      if !s.done && !s.cancelled then (s.(progressPos := (s.progressPos + 1) % LuckyUi.Width), TickCmd)
      else (s, NoCmd)
    case FileAnalyzed(idx, summary, e) =>
      if s.cancelled then (s, Quit) else Analyzed1(s, idx, summary, e)
    case FinalGenerated(message, e) =>
      if s.cancelled then (s, Quit)
      else if e.Some? then (s.(done := true, err := Some("failed to generate commit message: " + e.value)), Quit)
      else (s.(done := true, finalMsg := message), Quit)
    case OtherMsg => (s, NoCmd)
  }

  /** The counters agree with the statuses, no more files run than the limit
      allows, and the generating phase is only entered with every file done. */
  predicate AiInvariant(s: AiState) {
    && Shaped(s)
    && s.running == CountStatus(s.status, Running)
    && (s.running <= s.concurrency || s.running == 0)
    && s.completed == CountStatus(s.status, Analyzed)
    && 0 <= s.progressPos < LuckyUi.Width
    && (s.phase == Generating ==> s.completed == |s.files|)
  }

  lemma NewAiInvariant(files: seq<Diff.FileDiff>, concurrency: int)
    ensures AiInvariant(NewAi(files, concurrency))
    ensures NewAi(files, concurrency).running == Min(|files|, Max(concurrency, 0))
    ensures forall i :: 0 <= i < |files| ==>
      NewAi(files, concurrency).status[i] == if i < concurrency then Running else Pending
  {
    InitialCounts(|files|, concurrency);
  }

  /** Update keeps the invariant, given that an analysis only ever reports
      on a file that is running. */
  lemma StepInvariant(s: AiState, msg: Msg)
    requires Deliverable(s, msg) && AiInvariant(s)
    requires msg.FileAnalyzed? ==> s.status[msg.idx] == Running
    ensures AiInvariant(Step(s, msg).0)
  {
    if msg.FileAnalyzed? && !s.cancelled {
      AnalyzedInvariant(s, msg.idx, msg.summary, msg.analyzeErr);
    }
  }

  /** The invariant across the handling of one file's analysis. */
  lemma AnalyzedInvariant(s: AiState, idx: int, summary: string, e: Option<string>)
    requires AiInvariant(s) && 0 <= idx < |s.files| && s.status[idx] == Running
    ensures AiInvariant(Analyzed1(s, idx, summary, e).0)
  {
    if e.Some? {
      CountUpdate(s.status, idx, Errored, Running);
      CountUpdate(s.status, idx, Errored, Analyzed);
    } else {
      CountUpdate(s.status, idx, Analyzed, Running);
      CountUpdate(s.status, idx, Analyzed, Analyzed);
      var u := s.(running := s.running - 1, summaries := s.summaries[idx := summary],
                  status := s.status[idx := Analyzed], completed := s.completed + 1);
      if u.completed < |u.files| {
        var next := NextFile(u);
        if next >= 0 {
          CountUpdate(u.status, next, Running, Running);
          CountUpdate(u.status, next, Running, Analyzed);
        }
      }
    }
  }

  /** A failed analysis marks its file, records the error and ends the run. */
  lemma AnalysisError(s: AiState, idx: int, summary: string, e: string)
    requires Shaped(s) && 0 <= idx < |s.files| && !s.cancelled
    ensures var (t, cmd) := Step(s, FileAnalyzed(idx, summary, Some(e)));
      && cmd == Quit && t.done && t.status[idx] == Errored && StatusCode(t.status[idx]) == -1
      && t.err == Some("failed to analyze " + s.files[idx].path + ": " + e)
  {
  }

  /** A successful analysis of the last outstanding file moves the run to
      the generating phase, and then every file is analyzed. */
  lemma AllAnalyzedGenerates(s: AiState, idx: int, summary: string)
    requires AiInvariant(s) && 0 <= idx < |s.files| && s.status[idx] == Running && !s.cancelled
    requires s.completed + 1 >= |s.files|
    ensures var (t, cmd) := Step(s, FileAnalyzed(idx, summary, None));
      && cmd == GenerateFinal && t.phase == Generating
      && forall i :: 0 <= i < |t.status| ==> t.status[i] == Analyzed
  {
    StepInvariant(s, FileAnalyzed(idx, summary, None));
    var t := Step(s, FileAnalyzed(idx, summary, None)).0;
    CountAll(t.status, Analyzed);
  }

  /** Otherwise the freed slot goes to the lowest pending file, if any. */
  lemma AnalyzedStartsNext(s: AiState, idx: int, summary: string)
    requires AiInvariant(s) && 0 <= idx < |s.files| && s.status[idx] == Running && !s.cancelled
    requires s.completed + 1 < |s.files|
    ensures var u := s.(running := s.running - 1, summaries := s.summaries[idx := summary],
                        status := s.status[idx := Analyzed], completed := s.completed + 1);
      var (t, cmd) := Step(s, FileAnalyzed(idx, summary, None));
      && t.summaries[idx] == summary && t.status[idx] == Analyzed
      && (NextFile(u) >= 0 ==> cmd == Analyze(NextFile(u)) && t.status[NextFile(u)] == Running
                               && t.running == s.running)
      && (NextFile(u) < 0 ==> cmd == NoCmd && t.running == s.running - 1)
  {
  }

  /** After cancellation, results are dropped and the program quits. */
  lemma CancelledIgnoresResults(s: AiState, msg: Msg)
    requires Deliverable(s, msg) && s.cancelled && (msg.FileAnalyzed? || msg.FinalGenerated?)
    ensures Step(s, msg) == (s, Quit)
  {
  }

  /** aiModel, with its Update applied in place. */
  class AiModel {
    const files: seq<Diff.FileDiff>
    const concurrency: int
    var summaries: seq<string>
    var status: seq<FileStatus>
    var completed: int
    var running: int
    var finalMsg: string
    var progressPos: int
    var phase: Phase
    var done: bool
    var cancelled: bool
    var err: Option<string>

    function Snapshot(): AiState
      reads this
    {
      AiState(files, summaries, status, completed, running, concurrency, finalMsg,
        progressPos, phase, done, cancelled, err)
    }

    constructor(files: seq<Diff.FileDiff>, concurrency: int)
      ensures Snapshot() == NewAi(files, concurrency)
    {
      var s := NewAiModel(files, concurrency);
      this.files := files;
      this.concurrency := concurrency;
      summaries := s.summaries;
      status := s.status;
      completed := s.completed;
      running := s.running;
      finalMsg := s.finalMsg;
      progressPos := s.progressPos;
      phase := s.phase;
      done := s.done;
      cancelled := s.cancelled;
      err := s.err;
    }

    method Update(msg: Msg) returns (cmd: Cmd)
      requires Deliverable(Snapshot(), msg)
      modifies this
      ensures (Snapshot(), cmd) == Step(old(Snapshot()), msg)
    {
      match msg {
        case KeyMsg(key) =>
          cmd := NoCmd;
          if key == "ctrl+c" {
            cancelled := true;
            cmd := Quit;
          }
        case SpinnerTick =>
          cmd := SpinnerCmd;
        case AiTick =>
          cmd := NoCmd;
          if !done && !cancelled {
            progressPos := (progressPos + 1) % LuckyUi.Width;
            cmd := TickCmd;
          }
        case FileAnalyzed(idx, summary, e) =>
          if cancelled {
            return Quit;
          }
          cmd := FileDone(idx, summary, e);
        case FinalGenerated(message, e) =>
          cmd := Quit;
          if !cancelled {
            done := true;
            if e.Some? {
              err := Some("failed to generate commit message: " + e.value);
            } else {
              finalMsg := message;
            }
          }
        case OtherMsg =>
          cmd := NoCmd;
      }
    }

    /** The fileAnalyzedMsg case of Update, once the run is known not to be
        cancelled. */
    method FileDone(idx: int, summary: string, e: Option<string>) returns (cmd: Cmd)
      requires Shaped(Snapshot()) && 0 <= idx < |files|
      modifies this
      ensures (Snapshot(), cmd) == Analyzed1(old(Snapshot()), idx, summary, e)
    {
      running := running - 1;
      if e.Some? {
        status := status[idx := Errored];
        err := Some("failed to analyze " + files[idx].path + ": " + e.value);
        done := true;
        return Quit;
      }
      cmd := FileSucceeded(idx, summary);
    }

    method FileSucceeded(idx: int, summary: string) returns (cmd: Cmd)
      requires Shaped(Snapshot()) && 0 <= idx < |files|
      modifies this
      ensures (Snapshot(), cmd) == AnalyzedOk(old(Snapshot()), idx, summary)
    {
      summaries := summaries[idx := summary];
      status := status[idx := Analyzed];
      completed := completed + 1;
      if completed >= |files| {
        phase := Generating;
        return GenerateFinal;
      }
      var next := StartNextFile(Snapshot());
      cmd := NoCmd;
      if next >= 0 {
        status := status[next := Running];
        running := running + 1;
        cmd := Analyze(next);
      }
    }
  }

  // ---------------------------------------------------------------------
  // The scrolling file list.
  // ---------------------------------------------------------------------

  const MaxVisibleFiles := 10
  const ContextAbove := 2

  /** The file the list follows: the first running one, else the first pending one. */
  function Focus(status: seq<FileStatus>): (f: int)
    ensures -1 <= f < |status|
    ensures f >= 0 && Running in status ==> f == FirstWith(status, Running)
    ensures Running !in status ==> f == FirstWith(status, Pending)
  {
    var r := FirstWith(status, Running);
    if r >= 0 then r else FirstWith(status, Pending)
  }

  /** calcVisibleRange as a function of the statuses. */
  function VisibleRange(status: seq<FileStatus>, maxVisible: int): (int, int) {
    var total := |status|;
    if total <= maxVisible then (0, total)
    else
      var f := Focus(status);
      if f < 0 then (0, maxVisible)
      else
        var start := if f - ContextAbove < 0 then 0 else f - ContextAbove;
        if start + maxVisible > total then
          (if total - maxVisible < 0 then 0 else total - maxVisible, total)
        else (start, start + maxVisible)
  }

  method CalcVisibleRange(status: seq<FileStatus>, maxVisible: int) returns (start: int, end: int)
    ensures (start, end) == VisibleRange(status, maxVisible)
  {
    var total := |status|;
    if total <= maxVisible {
      return 0, total;
    }
    var firstRunning := FindFirst(status, Running);
    if firstRunning < 0 {
      firstRunning := FindFirst(status, Pending);
    }
    if firstRunning < 0 {
      return 0, maxVisible;
    }
    start := firstRunning - ContextAbove;
    if start < 0 {
      start := 0;
    }
    end := start + maxVisible;
    if end > total {
      end := total;
      start := end - maxVisible;
      if start < 0 {
        start := 0;
      }
    }
  }

  /** A short list is shown whole; a long one through a window of exactly
      maxVisible files inside the list, which for a window of three or more
      always holds the file being followed. */
  lemma VisibleRangeProperties(status: seq<FileStatus>, maxVisible: int)
    ensures var (start, end) := VisibleRange(status, maxVisible);
      && (|status| <= maxVisible ==> start == 0 && end == |status|)
      && (|status| > maxVisible ==> 0 <= start && end <= |status| && end - start == maxVisible)
      && (maxVisible >= 3 && Focus(status) >= 0 ==> start <= Focus(status) < end)
  {
  }

  /** The progress bar of the analysis view is the lucky-commit bar. */
  lemma AiBarIsPulse(s: AiState)
    requires AiInvariant(s)
    ensures LuckyUi.CountFull(LuckyUi.ProgressBar(s.progressPos)) == LuckyUi.PulseWidth
  {
    LuckyUi.PulseCount(s.progressPos);
  }

  // ---------------------------------------------------------------------
  // The prompt for the final message.
  // ---------------------------------------------------------------------

  const ExampleEN := "Example:\nInput:\n- auth.go: Added JWT validation\n- user.go: Added profile endpoint\n"
    + "- docs.md: Updated API docs\n\nOutput:\nfeat(api): add authentication and user profile\n\n"
    + "- implement JWT token validation\n- add user profile endpoint\n- update API documentation\n\nInput:\n"
  const ExampleZH := "示例:\n输入:\n- auth.go: 添加了 JWT 验证\n- user.go: 添加了用户资料接口\n"
    + "- docs.md: 更新了 API 文档\n\n输出:\nfeat(api): 添加用户认证和资料功能\n\n"
    + "- 实现 JWT token 验证\n- 添加用户资料接口\n- 更新 API 文档\n\n输入:\n"
  const ExampleBilingual := "Example:\nInput:\n- auth.go: Added JWT validation\n- user.go: Added profile endpoint\n"
    + "- docs.md: Updated API docs\n\nOutput:\nfeat(api): add authentication and user profile (添加用户认证和资料功能)\n\n"
    + "- 实现 JWT token 验证\n- 添加用户资料接口\n- 更新 API 文档\n\nInput:\n"

  /** The few-shot example for the client's language. */
  function Example(lang: string): string {
    if lang == Consts.LLMLangZH then ExampleZH
    else if lang == Consts.LLMLangBilingual then ExampleBilingual
    else ExampleEN
  }

  /** One input line: the file's path and its trimmed summary. */
  function SummaryLine(path: string, summary: string): string {
    "- " + path + ": " + TrimSpace(summary) + "\n"
  }

  /** The lines for the first n files, skipping those without a summary. */
  function SummaryLines(files: seq<Diff.FileDiff>, summaries: seq<string>, n: nat): string
    requires n <= |summaries| <= |files|
  {
    if n == 0 then ""
    else
      var line := if summaries[n - 1] != "" then SummaryLine(files[n - 1].path, summaries[n - 1]) else "";
      SummaryLines(files, summaries, n - 1) + line
  }

  lemma SummaryLinesStep(files: seq<Diff.FileDiff>, summaries: seq<string>, i: nat)
    requires i < |summaries| <= |files|
    ensures SummaryLines(files, summaries, i + 1) == SummaryLines(files, summaries, i)
      + (if summaries[i] != "" then SummaryLine(files[i].path, summaries[i]) else "")
  {
  }

  lemma AppendAssoc(a: string, b: string, c: string)
    ensures (a + b) + c == a + (b + c)
  {
  }

  /** buildCommitPrompt: the example, one line per summarised file, then the
      request for the output. */
  method BuildCommitPrompt(lang: string, files: seq<Diff.FileDiff>, summaries: seq<string>)
    returns (prompt: string)
    requires |summaries| <= |files|
    ensures prompt == Example(lang) + SummaryLines(files, summaries, |summaries|) + "\nOutput:"
  {
    var sb := Example(lang);
    sb := WriteSummaryLines(sb, files, summaries);
    prompt := sb + "\nOutput:";
  }

  /** The loop of buildCommitPrompt, writing after what the builder holds. */
  method WriteSummaryLines(sb0: string, files: seq<Diff.FileDiff>, summaries: seq<string>)
    returns (sb: string)
    requires |summaries| <= |files|
    ensures sb == sb0 + SummaryLines(files, summaries, |summaries|)
  {
    sb := sb0;
    ghost var lines := "";
    assert sb0 + "" == sb0;
    for i := 0 to |summaries|
      invariant lines == SummaryLines(files, summaries, i)
      invariant sb == sb0 + lines
    {
      SummaryLinesStep(files, summaries, i);
      if summaries[i] != "" {
        var line := SummaryLine(files[i].path, summaries[i]);
        AppendAssoc(sb0, lines, line);
        sb := sb + line;
        lines := lines + line;
      } else {
        assert lines + "" == lines;
      }
    }
  }

  /** The indices below n whose summary is not empty, in increasing order. */
  function Kept(summaries: seq<string>, n: nat): (ks: seq<nat>)
    requires n <= |summaries|
    ensures forall k :: 0 <= k < |ks| ==> ks[k] < n
  {
    if n == 0 then [] else Kept(summaries, n - 1) + (if summaries[n - 1] != "" then [n - 1] else [])
  }

  lemma KeptStep(summaries: seq<string>, n: nat)
    requires 0 < n <= |summaries|
    ensures Kept(summaries, n) ==
      if summaries[n - 1] != "" then Kept(summaries, n - 1) + [n - 1] else Kept(summaries, n - 1)
  {
    var ks := Kept(summaries, n - 1);
    if summaries[n - 1] == "" {
      assert ks + [] == ks;
    }
  }

  /** Kept lists every index with a summary, only those, each once and in
      increasing order. */
  lemma {:induction false} KeptIndices(summaries: seq<string>, n: nat)
    requires n <= |summaries|
    ensures var ks := Kept(summaries, n);
      && (forall k :: 0 <= k < |ks| ==> summaries[ks[k]] != "")
      && (forall k, l :: 0 <= k < l < |ks| ==> ks[k] < ks[l])
      && (forall i :: 0 <= i < n && summaries[i] != "" ==> i in ks)
  {
    KeptSummarised(summaries, n);
    KeptIncreasing(summaries, n);
    KeptComplete(summaries, n);
  }

  lemma {:induction false} KeptSummarised(summaries: seq<string>, n: nat)
    requires n <= |summaries|
    ensures forall k :: 0 <= k < |Kept(summaries, n)| ==> summaries[Kept(summaries, n)[k]] != ""
  {
    if n > 0 {
      KeptSummarised(summaries, n - 1);
      KeptStep(summaries, n);
    }
  }

  lemma {:induction false} KeptIncreasing(summaries: seq<string>, n: nat)
    requires n <= |summaries|
    ensures forall k, l :: 0 <= k < l < |Kept(summaries, n)| ==> Kept(summaries, n)[k] < Kept(summaries, n)[l]
  {
    if n > 0 {
      KeptIncreasing(summaries, n - 1);
      KeptStep(summaries, n);
    }
  }

  lemma {:induction false} KeptComplete(summaries: seq<string>, n: nat)
    requires n <= |summaries|
    ensures forall i :: 0 <= i < n && summaries[i] != "" ==> i in Kept(summaries, n)
  {
    if n > 0 {
      KeptComplete(summaries, n - 1);
      KeptStep(summaries, n);
      var ks, kn := Kept(summaries, n - 1), Kept(summaries, n);
      forall i | 0 <= i < n && summaries[i] != "" ensures i in kn {
        if i < n - 1 {
          assert i in ks;
        } else {
          assert kn[|ks|] == i;
        }
      }
    }
  }


  /** The lines for a list of indices, in that order. */
  function LinesFor(files: seq<Diff.FileDiff>, summaries: seq<string>, ks: seq<nat>): string
    requires |summaries| <= |files|
    requires forall k :: 0 <= k < |ks| ==> ks[k] < |summaries|
  {
    if ks == [] then ""
    else
      var last := ks[|ks| - 1];
      LinesFor(files, summaries, ks[..|ks| - 1]) + SummaryLine(files[last].path, summaries[last])
  }

  lemma LinesForSnoc(files: seq<Diff.FileDiff>, summaries: seq<string>, ks: seq<nat>, j: nat)
    requires |summaries| <= |files| && j < |summaries|
    requires forall k :: 0 <= k < |ks| ==> ks[k] < |summaries|
    ensures LinesFor(files, summaries, ks + [j]) ==
      LinesFor(files, summaries, ks) + SummaryLine(files[j].path, summaries[j])
  {
    assert (ks + [j])[..|ks|] == ks;
  }

  /** The prompt holds exactly one line per file with a summary, in file order. */
  lemma {:induction false} OneLinePerSummary(files: seq<Diff.FileDiff>, summaries: seq<string>, n: nat)
    requires n <= |summaries| <= |files|
    ensures SummaryLines(files, summaries, n) == LinesFor(files, summaries, Kept(summaries, n))
  {
    if n > 0 {
      var j: nat := n - 1;
      var ks := Kept(summaries, j);
      KeptStep(summaries, n);
      OneLinePerSummary(files, summaries, j);
      SummaryLinesStep(files, summaries, j);
      if summaries[j] != "" {
        LinesForSnoc(files, summaries, ks, j);
        assert Kept(summaries, n) == ks + [j];
      } else {
        var prev := SummaryLines(files, summaries, j);
        assert prev + "" == prev;
        assert Kept(summaries, n) == ks;
      }
    } else {
      assert Kept(summaries, n) == [];
    }
  }


  // ---------------------------------------------------------------------
  // The preview of the generated message.
  // ---------------------------------------------------------------------

  datatype PreviewState = PreviewState(selected: int, committed: bool, edit: bool, retry: bool, cancelled: bool)

  datatype PreviewCmd = PreviewNone | PreviewQuit

  /** newAIPreviewModel. */
  const NewPreview := PreviewState(0, false, false, false, false)

  /** aiPreviewModel.Update on a key. */
  function PreviewStep(s: PreviewState, key: string): (PreviewState, PreviewCmd) {
    if key == "ctrl+c" || key == "esc" || key == "q" then (s.(cancelled := true), PreviewQuit)
    else if key == "enter" then
      (if s.selected == 0 then s.(committed := true)
       else if s.selected == 1 then s.(edit := true)
       else if s.selected == 2 then s.(retry := true)
       else s, PreviewQuit)
    else if key == "c" then (s.(committed := true), PreviewQuit)
    else if key == "e" then (s.(edit := true), PreviewQuit)
    else if key == "r" then (s.(retry := true), PreviewQuit)
    else if key == "left" || key == "h" then (if s.selected > 0 then s.(selected := s.selected - 1) else s, PreviewNone)
    else if key == "right" || key == "l" then (if s.selected < 2 then s.(selected := s.selected + 1) else s, PreviewNone)
    else if key == "tab" then (s.(selected := GoRem3(s.selected + 1)), PreviewNone)
    else (s, PreviewNone)
  }

  /** Go's `% 3`, which truncates toward zero. */
  function GoRem3(a: int): int {
    LuckyUi.GoRem(a, 3)
  }

  /** The selection stays on one of the three buttons: left and right stop
      at the ends, tab wraps around. */
  lemma PreviewSelection(s: PreviewState, key: string)
    requires 0 <= s.selected <= 2
    ensures var t := PreviewStep(s, key).0;
      && 0 <= t.selected <= 2
      && ((key == "left" || key == "h") ==> t.selected == Max(s.selected - 1, 0))
      && ((key == "right" || key == "l") ==> t.selected == Min(s.selected + 1, 2))
      && (key == "tab" ==> t.selected == (s.selected + 1) % 3)
  {
    var t := PreviewStep(s, key).0;
    if key == "left" || key == "h" {
      PreviewLeft(s, key);
    } else if key == "right" || key == "l" {
      PreviewRight(s, key);
    } else if key == "tab" {
      PreviewTab(s);
    } else {
      assert t.selected == s.selected;
    }
  }

  lemma PreviewLeft(s: PreviewState, key: string)
    requires key == "left" || key == "h"
    ensures PreviewStep(s, key).0.selected == if s.selected > 0 then s.selected - 1 else s.selected
  {
  }

  lemma PreviewRight(s: PreviewState, key: string)
    requires key == "right" || key == "l"
    ensures PreviewStep(s, key).0.selected == if s.selected < 2 then s.selected + 1 else s.selected
  {
  }

  lemma PreviewTab(s: PreviewState)
    requires s.selected >= 0
    ensures PreviewStep(s, "tab").0.selected == (s.selected + 1) % 3
  {
  }

  /** Enter acts on the selected button; the letter keys act directly. */
  lemma PreviewEnter(s: PreviewState)
    requires s == NewPreview.(selected := s.selected) && 0 <= s.selected <= 2
    ensures var (t, cmd) := PreviewStep(s, "enter");
      && cmd == PreviewQuit
      && (t.committed <==> s.selected == 0)
      && (t.edit <==> s.selected == 1)
      && (t.retry <==> s.selected == 2)
      && !t.cancelled
  {
  }

  /** Exactly the action keys quit the preview. */
  lemma PreviewQuits(s: PreviewState, key: string)
    ensures PreviewStep(s, key).1 == PreviewQuit <==>
      key in ["ctrl+c", "esc", "q", "enter", "c", "e", "r"]
  {
  }

  /** aiPreviewModel, with its Update applied in place to a key. */
  class AiPreviewModel {
    var selected: int
    var committed: bool
    var edit: bool
    var retry: bool
    var cancelled: bool

    function Snapshot(): PreviewState
      reads this
    {
      PreviewState(selected, committed, edit, retry, cancelled)
    }

    constructor()
      ensures Snapshot() == NewPreview
    {
      selected := 0;
      committed := false;
      edit := false;
      retry := false;
      cancelled := false;
    }

    method Update(key: string) returns (cmd: PreviewCmd)
      modifies this
      ensures (Snapshot(), cmd) == PreviewStep(old(Snapshot()), key)
    {
      cmd := PreviewQuit;
      if key == "ctrl+c" || key == "esc" || key == "q" {
        cancelled := true;
      } else if key == "enter" {
        if selected == 0 {
          committed := true;
        } else if selected == 1 {
          edit := true;
        } else if selected == 2 {
          retry := true;
        }
      } else if key == "c" {
        committed := true;
      } else if key == "e" {
        edit := true;
      } else if key == "r" {
        retry := true;
      } else {
        cmd := PreviewNone;
        if key == "left" || key == "h" {
          if selected > 0 {
            selected := selected - 1;
          }
        } else if key == "right" || key == "l" {
          if selected < 2 {
            selected := selected + 1;
          }
        } else if key == "tab" {
          selected := GoRem3(selected + 1);
        }
      }
    }
  }

  datatype Action = CommitAction | EditAction | RetryAction | CancelAction

  datatype PreviewResult = PreviewResult(message: string, action: Action)

  /** runAIPreview: a failed program or a cancellation cancels; otherwise
      edit wins over retry, and retry over commit. */
  function PreviewOutcome(message: string, programFailed: bool, final: PreviewState): (r: PreviewResult)
    ensures r.message == message
    ensures r.action == CancelAction <==> programFailed || final.cancelled
    ensures r.action == EditAction <==> !programFailed && !final.cancelled && final.edit
    ensures r.action == RetryAction <==> !programFailed && !final.cancelled && !final.edit && final.retry
  {
    if programFailed || final.cancelled then PreviewResult(message, CancelAction)
    else if final.edit then PreviewResult(message, EditAction)
    else if final.retry then PreviewResult(message, RetryAction)
    else PreviewResult(message, CommitAction)
  }

  /** From a fresh preview, one key leads to the action it names. */
  lemma PreviewKeyActions(message: string)
    ensures PreviewOutcome(message, false, PreviewStep(NewPreview, "enter").0).action == CommitAction
    ensures PreviewOutcome(message, false, PreviewStep(NewPreview, "e").0).action == EditAction
    ensures PreviewOutcome(message, false, PreviewStep(NewPreview, "r").0).action == RetryAction
    ensures PreviewOutcome(message, false, PreviewStep(NewPreview, "q").0).action == CancelAction
    ensures PreviewOutcome(message, false, PreviewStep(PreviewStep(NewPreview, "tab").0, "enter").0).action == EditAction
  {
  }
}
