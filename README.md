# gitflow-toolkit in Dafny

gitflow-toolkit is a git helper that writes conventional commits
(`type(scope): subject`), creates typed branches, pushes, and can ask a
language model to draft the commit message. It installs itself as a set of
`git-<command>` symlinks, either with its own installer or through a Homebrew
formula. This project models the logic at its centre and proves what that
logic promises:

- **Git text handling.**
  - `Diff` models the split of a staged diff into per-file chunks.
  - `Commit` models the layout of a commit message.
  - `Hook` models the commit-msg check against the conventional-commit pattern.
  - `LuckyPrefix` models the validation of a lucky-commit hash prefix.
- **Configuration and constants.**
  - `Consts` holds the commit types, the symlinked commands and the LLM defaults.
  - `Config` holds the derived name lists.
- **Terminal screens, as state machines.** The Bubble Tea models are
  classes whose `Update` changes their fields in place. Each class is
  specified by a pure `Step` function on a value snapshot, and the
  properties are proved about `Step`.
  - `Task` covers the multi-task and single-task runners.
  - `LuckyUi` covers the lucky-commit progress screen.
  - `AiCommit` covers the per-file analysis screen and the preview of the generated message.
  - `CommitInputs` covers the scope/subject/body/footer form.
  - `CommitConfirm` covers the confirmation screen and the commit flow.
  - `BranchUi` and `PushUi` cover the progress screens.
  - `ResultText` covers the wrapping of result boxes.
  - `Styles` covers the content width.
- **The LLM client.** `LlmClient` covers:
  - provider, host and language selection;
  - request bodies and endpoints;
  - the checks on a reply;
  - the retry loop.
- **Installation.**
  - `Install` covers the installer's paths, symlinks and task lists.
  - `Formula` covers the Homebrew formula's version, checksum manifest, platform artifacts and links.
- **Shared helpers.**
  - `GoStrings` states the Go `strings` functions the source calls (`HasPrefix`, `TrimSuffix`, `Split`, `Join`, `TrimSpace`, `Contains`, ...) on `seq<char>`.
  - `Wrappers` holds `Option` and `Result`.

Effects are parameters. Each of these is an argument of the function that
uses it:
- the outcome of a git command, a file-system call or an HTTP request;
- the configuration read from `git config`;
- the random bytes;
- the user lookup.

Keys are the strings Bubble Tea's `KeyMsg.String()` returns, which the
source's switch statements compare.

## Model

| member | source | states |
|---|---|---|
| `Diff.ExtractFromStandardHeader` | internal/git/diff.go:130-138 | a header `diff --git a/P b/Q`, where neither P nor Q holds " b/", yields Q; paths with spaces included |
| `Diff.ExtractTestPaths` | internal/git/diff_test.go:98-112 | the plain, nested and spaced header cases each yield their path |
| `Diff.ExtractFallback` | internal/git/diff.go:140-148 | without " b/", the header yields its first space-delimited token less `a/` when it starts with `a/`, and the whole text after the prefix otherwise |
| `Diff.GroupsShape` | internal/git/diff.go:92-113 | every group of lines starts at a header line and holds no other header |
| `Diff.SplitDiffByFile` | internal/git/diff.go:82-125 | the loop over lines returns exactly the per-file chunks of its specification: one per header group whose path is non-empty, the last one losing one trailing newline |
| `Diff.GroupsCover` | internal/git/diff.go:107-113 | the groups hold exactly the lines from the first header on, in input order; earlier lines are dropped |
| `Diff.NoHeaderNoChunks` | internal/git/diff.go:83-85 | an input with no header line, the empty input included, yields no chunks |
| `Diff.ChunkCount` | internal/git/diff.go:95-103 | the number of chunks equals the number of header lines whose extracted path is non-empty |
| `Diff.ChunksWellFormed` | internal/git/diff.go:93-106 | every chunk's text begins with its own `diff --git ` header line, and its path is the non-empty path taken from that header |
| `Diff.RoundTrip` | internal/git/diff.go:91-122 | when every header names a path, joining the chunk texts with newlines gives the lines from the first header on, minus one trailing newline |
| `Diff.RoundTripDiff` | internal/git/diff_test.go:42-66 | for a diff that opens with a header whose headers all name paths, the rejoined chunks are the diff itself without one trailing newline |
| `Commit.String` | internal/git/commit.go:22-48 | the builder's output is the layout: header, then each non-empty section after a blank line, then a newline |
| `Commit.LayoutFrame` | internal/git/commit.go:26-46 | the text starts with `type(scope): subject` and ends with a newline; with no optional sections it is exactly the header plus a newline |
| `Commit.LayoutIsJoin` | internal/git/commit.go:29-44 | the text is the header and the non-empty sections among body, footer and sign-off, in that order, joined by blank lines, plus a newline |
| `Commit.LayoutSections` | internal/git/commit.go:29-44 | when no part contains a blank line, splitting the text at blank lines recovers the header and exactly the non-empty sections in order, so each section appears if and only if it is non-empty |
| `Commit.FirstLineIsHeader` | internal/git/commit.go:26-31 | when type, scope and subject hold no newline, the text before the first newline is exactly the header |
| `Commit.LayoutCases` | internal/git/commit.go:26-46 | the exact text for no sections, for each single section, and for all three |
| `Commit.LayoutBasic` | internal/git/git_test.go:14-22 | the basic-message vector |
| `Commit.LayoutWithBody` | internal/git/git_test.go:23-32 | the with-body vector |
| `Commit.LayoutWithFooter` | internal/git/git_test.go:33-42 | the with-footer vector |
| `Commit.LayoutWithSignOff` | internal/git/git_test.go:43-52 | the with-sign-off vector |
| `Commit.LayoutFull` | internal/git/git_test.go:53-63 | the full-message vector |
| `Hook.ScanCloseSpec` | internal/config/config.go:52 | the scan from an offset holds exactly when some later position carries `):`, one whitespace and one non-space, with no newline before it |
| `Hook.MatchAnyTypeSpec` | internal/config/config.go:52 | the hand-written matcher holds exactly when some commit type and some closing position match the first branch of the pattern |
| `Hook.FindStringSubmatchLen` | internal/git/hook.go:28-30 | a match of the pattern always has four submatches, so the length test means "matched" |
| `Hook.ValidateCommitMessageContent` | internal/git/hook.go:26-35 | nil exactly when the content matches the pattern, and ErrInvalidCommitMessage otherwise |
| `Hook.MergeAccepted` | internal/config/config.go:52 | any content starting with `Merge` is accepted |
| `Hook.AnchoredAtStart` | internal/config/config_test.go:41 | content whose first character cannot start a type or `Merge` is rejected; matching is anchored at offset 0 |
| `Hook.AcceptsHeader` | internal/config/config.go:52 | `T(scope): subject…` is accepted for each of the nine types when the scope is non-empty, newline-free and does not start with whitespace, and the subject does not start with whitespace |
| `Hook.AcceptsLayout` | internal/git/commit.go:26 | a message laid out by the serialiser with a valid type, scope and subject passes the hook |
| `Hook.AcceptedExamples` | internal/config/config_test.go:31-39 | all nine valid example headers are accepted |
| `Hook.AcceptedMerge` | internal/config/config_test.go:40 | the merge example is accepted |
| `Hook.RejectsUnopened` | internal/config/config.go:52 | content starting neither with `Merge` nor with some type followed by `(` is rejected |
| `Hook.RejectedNoType` | internal/config/config_test.go:41 | the case with no type is rejected |
| `Hook.RejectedNoScope` | internal/config/config_test.go:42 | `feat: message` is rejected |
| `Hook.RejectedNoColon` | internal/config/config_test.go:43 | `feat(scope) message` is rejected |
| `Hook.RejectedEmptyScope` | internal/config/config_test.go:44 | `feat(): message` is rejected |
| `Hook.RejectedEmptySubject` | internal/config/config_test.go:45 | `feat(scope): ` is rejected |
| `Hook.RejectedRandom` | internal/config/config_test.go:46 | any content starting `ra`, the random message included, is rejected |
| `Config.CommitTypeNames` | internal/config/config.go:43-49 | the filled slice has the length of CommitTypes, and entry i is the name of type i |
| `Config.CommitTypeNamesOrder` | internal/config/config.go:30-40 | those names are feat, fix, docs, style, refactor, test, chore, perf, hotfix, in that order and distinct |
| `Config.PatternTypesAreCommitTypes` | internal/config/config.go:52 | the type alternation of the pattern is exactly the set of CommitTypes names |
| `Config.SymlinkCommands` | internal/config/config.go:84-98 | eleven distinct names: `ci`, `ps`, then the nine types in order |
| `Config.AgreesWithConsts` | consts/consts.go:32-42 | the config and consts tables of types and symlink commands are the same |
| `Consts.CommitTypeOrder` | consts/consts.go:32-42 | the nine type names, in order and distinct |
| `Consts.LLMDefaults` | consts/consts.go:62-72 | the default language `en` is a valid language, the three languages are distinct, the default concurrency is 3 and the default retry count is 0 |
| `Consts.SymlinkCommands` | consts/consts.go:151-165 | eleven distinct names: `ci`, `ps`, then the type names in order |
| `LuckyPrefix.ValidateLuckyPrefix` | internal/git/lucky.go:29-46 | the loop with early returns gives the result of the checks, in their order |
| `LuckyPrefix.CheckOutcomes` | internal/git/lucky.go:30-45 | empty input gives ErrLuckyPrefixEmpty; more than 12 bytes gives ErrLuckyPrefixTooLong before any character check; a non-hex character after lowercasing gives ErrLuckyPrefixInvalid; the success value is the lowercased input |
| `LuckyPrefix.SuccessShape` | internal/git/lucky.go:38-45 | a success value has length 1 to 12 and only lowercase hex characters |
| `LuckyPrefix.Idempotent` | internal/git/lucky.go:29-46 | validating a success value again returns it unchanged |
| `LuckyPrefix.Accepted` | internal/git/lucky.go:30-45 | a non-empty ASCII input of at most 12 characters whose lowercase form is hex is accepted as that lowercase form |
| `LuckyPrefix.AcceptedVectors` | internal/git/lucky_test.go:18-23 | the lowercase, uppercase, mixed and 12-character vectors |
| `LuckyPrefix.EmptyVector` | internal/git/lucky_test.go:21 | the empty vector |
| `LuckyPrefix.TooLongVector` | internal/git/lucky_test.go:22 | the 17-character vector is too long |
| `LuckyPrefix.InvalidVectors` | internal/git/lucky_test.go:24-25 | the vectors with invalid characters and with a space |
| `LuckyPrefix.SixteenZerosTooLong` | internal/git/lucky_test.go:26 | sixteen zeros are rejected as too long by the code |
| `Styles.GetContentWidth` | internal/ui/common/styles.go:71-80 | the width lies in [40, 80]; it is terminalWidth − 4 between 44 and 84, 80 above and 40 below |
| `Styles.Monotone` | internal/ui/common/styles.go:71-80 | the width never decreases as the terminal widens |
| `Styles.Vectors` | internal/ui/common/result_test.go:198-201 | 50→46, 100→80, 200→80, 30→40 |
| `Task.StateValues` | internal/ui/common/task.go:17-23 | the five task states are the distinct values 0 to 4 |
| `Task.WarnErrVectors` | internal/ui/common/task.go:31-44 | a warning reports its text, a plain error is not a warning, and a wrapped warning still is one, as errors.As unwraps |
| `Task.Outcome` | internal/ui/common/task.go:115-124 | no error means Success, a warning means Warning, any other error means Failed, each if and only if |
| `Task.NewRunner` | internal/ui/common/task.go:64-82 | one state and one empty error per task, the first task Running and the rest Pending, current task 0, not done |
| `Task.InitInvariant` | internal/ui/common/task.go:69-81 | the new runner satisfies the run invariant |
| `Task.StepInvariant` | internal/ui/common/task.go:114-146 | every message keeps the invariant: tasks before the current one succeeded or warned, later ones are pending, the current one runs (or failed once done), and each error matches its state |
| `Task.OneRunning` | internal/ui/common/task.go:114-146 | under the invariant at most one task is Running, and it is the current one |
| `Task.FatalStops` | internal/ui/common/task.go:127-130 | a fatal error marks that task Failed, stores the error, sets done, quits and leaves the current task where it is |
| `Task.ContinueAdvances` | internal/ui/common/task.go:132-145 | success or a warning records the outcome and advances; the next task is marked Running and started, or the run is done after the last task |
| `Task.KeysKeepState` | internal/ui/common/task.go:103-107 | no key changes the states or errors; exactly ctrl+c and q quit |
| `Task.FailureIsFailedState` | internal/ui/common/task.go:205-212 | under the invariant, some task has a non-nil error and state Failed if and only if some task is Failed |
| `Task.WarningsDoNotCount` | internal/ui/common/task.go:205-212 | without a Failed task there is no error, whatever warnings are stored |
| `Task.RunnerVectors` | internal/ui/common/task_test.go:72-139 | the success, failure and warning cases of the two-task runner |
| `Task.HasErrorVectors` | internal/ui/common/task_test.go:192-217 | no error at first, none with a warning only, one once a task failed |
| `Task.MultiTaskModel.constructor` | internal/ui/common/task.go:64-82 | the new model holds the state of NewRunner |
| `Task.MultiTaskModel.Update` | internal/ui/common/task.go:101-148 | updating the state arrays in place gives the state and command of the runner's step function, and a done message for the running task keeps the runner's invariant |
| `Task.MultiTaskModel.HasError` | internal/ui/common/task.go:205-212 | the loop answers true exactly when some index has an error and state Failed |
| `Task.SingleDone` | internal/ui/common/task.go:269-282 | a done message maps its error to Success, Warning or Failed, stores a non-nil error, and quits after a delay |
| `Task.SingleFallThrough` | internal/ui/common/task.go:285-289 | a message that falls through moves Pending to Running and changes nothing else |
| `Task.SingleVectors` | internal/ui/common/task_test.go:232-262 | the success and failure cases of the single-task model |
| `Task.SingleTaskModel.constructor` | internal/ui/common/task.go:224-235 | the new model is pending with no error |
| `Task.SingleTaskModel.Update` | internal/ui/common/task.go:254-290 | the in-place update gives the state, error and command of the single-task step function |
| `LuckyUi.HexEncode` | internal/ui/common/lucky.go:63-67 | two lowercase hex characters per byte |
| `LuckyUi.HexRoundTrip` | internal/ui/common/lucky.go:66 | decoding the hex encoding gives back the bytes |
| `LuckyUi.FakeHash` | internal/ui/common/lucky_test.go:7-22 | the fake hash of 20 bytes has 40 characters, all lowercase hex, and decodes to those bytes |
| `LuckyUi.RenderProgressBar` | internal/ui/common/lucky.go:173-195 | the nested loops build the bar of the specification, 20 cells wide |
| `LuckyUi.PulseWindow` | internal/ui/common/lucky.go:181-186 | cell i is lit exactly when it lies in the window of six cells starting at the position, wrapping round the end |
| `LuckyUi.PulseCount` | internal/ui/common/lucky.go:173-195 | exactly six of the twenty cells are lit |
| `LuckyUi.PulseMoves` | internal/ui/common/lucky.go:181-186 | advancing the position by one shifts the lit window by one cell, round the bar |
| `LuckyUi.NewLucky` | internal/ui/common/lucky.go:47-60 | the new model starts at position 0 with a 40-character fake hash and no outcome |
| `LuckyUi.NewLuckyInvariant` | internal/ui/common/lucky.go:47-60 | the new model satisfies the invariant |
| `LuckyUi.StepInvariant` | internal/ui/common/lucky.go:92-131 | every message keeps the position in [0, 20), success and error exclusive and after the end, and the hash recorded only on success |
| `LuckyUi.DoneFreezes` | internal/ui/common/lucky.go:110 | ticks after the end change nothing and request no further tick |
| `LuckyUi.TickAdvances` | internal/ui/common/lucky.go:109-114 | a tick while running moves the position to (p + 1) mod 20 and schedules the next tick |
| `LuckyUi.DoneOutcome` | internal/ui/common/lucky.go:116-127 | the end message sets done and quits; an error is recorded without success; without one, success is set and the hash taken only when the lookup succeeded |
| `LuckyUi.KeyOutcome` | internal/ui/common/lucky.go:94-102 | only ctrl+c quits, and it sets cancelled |
| `LuckyUi.View` | internal/ui/common/lucky.go:134-137 | the view is empty exactly once done or cancelled |
| `LuckyUi.ResultHashOnSuccess` | internal/ui/common/lucky.go:199-214 | a hash in the result implies the run succeeded without error |
| `LuckyUi.LuckyModel.constructor` | internal/ui/common/lucky.go:47-60 | the new model holds the state of NewLucky |
| `LuckyUi.LuckyModel.Update` | internal/ui/common/lucky.go:92-131 | the in-place update gives the state and command of the step function |
| `ResultText.OrdinalsDistinct` | internal/ui/common/result.go:16-20 | the three result types have distinct values 0, 1 and 2 |
| `ResultText.SeveritiesShareContent` | internal/ui/common/result.go:171-183 | Success, Error and Warning give three distinct results of types 0, 1 and 2 that carry the title as given, and their content is rendered identically at the content width less four |
| `ResultText.RenderWidthInRange` | internal/ui/common/result.go:83 | RenderResult hands formatContent a width between 36 and 76, so the fallback to 76 never fires there |
| `ResultText.ShouldPreserveLine` | internal/ui/common/result.go:115-140 | true if and only if the line contains `://`, starts with `/`, has `:` at index 1 and `/` or `\` at index 2, contains ` -> `, or contains one of `.git`, `refs/`, `origin/`, `HEAD` |
| `ResultText.BreakPoint` | internal/ui/common/result.go:153-157 | the break point lies in [1, maxWidth], so every pass of the loop makes progress |
| `ResultText.WrapLine` | internal/ui/common/result.go:143-168 | the loop over `remaining` returns the pieces of the wrap specification |
| `ResultText.WrapBounds` | internal/ui/common/result.go:144-161 | a line no longer than maxWidth is returned alone and unchanged; otherwise every piece is non-empty and at most maxWidth long |
| `ResultText.WrapKeepsNonSpaces` | internal/ui/common/result.go:153-160 | the pieces, concatenated, hold exactly the non-space characters of the line, in order: only spaces at the breaks are dropped |
| `ResultText.WrapSplits` | internal/ui/common/result.go:151-165 | a line longer than maxWidth that does not end in a space yields at least two pieces |
| `ResultText.EffectiveWidth` | internal/ui/common/result.go:91-93 | a width of 0 or less becomes 76 and any positive width is kept, so the wrap always gets a width of at least 1 |
| `ResultText.FormatContent` | internal/ui/common/result.go:90-111 | the loop over lines returns the joined lines of the formatting specification |
| `ResultText.FormatLinesAppend` | internal/ui/common/result.go:98-108 | formatting works line by line: the output for two blocks of lines is the output for each, in order |
| `ResultText.KeptWhole` | internal/ui/common/result.go:99-107 | a preserved line, or one within the width, is kept verbatim, even a preserved line longer than the width |
| `ResultText.LongPlainWrapped` | internal/ui/common/result.go:102-104 | a long plain line is replaced by its wrapped pieces, each of length 1 to maxWidth |
| `ResultText.FormatLinesShape` | internal/ui/common/result.go:98-110 | every output line is at most maxWidth long or is a preserved input line |
| `ResultText.FormatVerbatim` | internal/ui/common/result.go:90-111 | content whose lines are all preserved or short comes back unchanged |
| `ResultText.WrapShortVectors` | internal/ui/common/result_test.go:43-54 | the short-line and exact-width cases |
| `ResultText.WrapWordBoundaryVector` | internal/ui/common/result_test.go:55-60 | the word-boundary case |
| `ResultText.OneSpaceCut` | internal/ui/common/result.go:151-165 | a line of two words whose separating space falls at the width is cut into the two words |
| `ResultText.WrapForcedVector` | internal/ui/common/result_test.go:67-72 | the forced-break case |
| `ResultText.TwoForcedCuts` | internal/ui/common/result.go:153-160 | two space-free words of exactly the width followed by a short rest are cut at the width twice |
| `ResultText.CutAtSpace` | internal/ui/common/result.go:153-160 | the cut falls on the last space before the width, and the space is dropped |
| `ResultText.WrapMultipleVector` | internal/ui/common/result_test.go:61-66 | the multiple-break case |
| `ResultText.PreservedUrls` | internal/ui/common/result_test.go:14-15 | the two URL lines are preserved |
| `ResultText.PreservedPaths` | internal/ui/common/result_test.go:16-17 | the absolute and Windows paths are preserved |
| `ResultText.AbsolutePreserved` | internal/ui/common/result.go:121-123 | every line starting with `/` is preserved |
| `ResultText.WindowsPreserved` | internal/ui/common/result.go:125-127 | every line shaped like a Windows path is preserved |
| `ResultText.PreservedArrow` | internal/ui/common/result_test.go:18 | the ref-arrow line is preserved |
| `ResultText.PreservedRefs` | internal/ui/common/result_test.go:19-21 | the HEAD, refs and .git lines are preserved |
| `ResultText.NoMarkers` | internal/ui/common/result.go:115-140 | a line with none of the characters the markers need, and no Windows prefix, is not preserved |
| `ResultText.PlainSimple` | internal/ui/common/result_test.go:22 | the plain line is not preserved |
| `ResultText.PlainColon` | internal/ui/common/result_test.go:23 | the plain line with a colon is not preserved |
| `ResultText.LongUrlKept` | internal/ui/common/result_test.go:105-110 | the long URL line stays whole at width 40 although it is longer |
| `ResultText.PlainLong` | internal/ui/common/result_test.go:99-104 | a long plain line that does not end in a space is wrapped into at least two lines |
| `AiCommit.StatusCodesDistinct` | internal/ui/commit/ai.go:30 | the four file statuses have the distinct codes 0, 1, 2 and −1 |
| `AiCommit.CountUpdate` | internal/ui/commit/ai.go:281-305 | changing one file's status moves exactly that file between the counts |
| `AiCommit.FirstWith` | internal/ui/commit/ai.go:122-128 | the lowest index holding a status, or −1 exactly when none does |
| `AiCommit.FindFirst` | internal/ui/commit/ai.go:415-430 | the scan returns that lowest index |
| `AiCommit.InitialCounts` | internal/ui/commit/ai.go:69-77 | the initial statuses have min(concurrency, n) running files and none analyzed |
| `AiCommit.NewAiModel` | internal/ui/commit/ai.go:60-92 | the loop marks the first min(concurrency, n) files running, the rest pending, with the running count equal to that minimum and empty summaries |
| `AiCommit.NewAiInvariant` | internal/ui/commit/ai.go:69-77 | the new model satisfies the invariant; file i is running exactly when i < concurrency |
| `AiCommit.NextFile` | internal/ui/commit/ai.go:117-129 | −1 exactly when the running count has reached the limit or nothing is pending; otherwise the lowest pending file |
| `AiCommit.StartNextFile` | internal/ui/commit/ai.go:117-129 | the method answers as NextFile |
| `AiCommit.StepInvariant` | internal/ui/commit/ai.go:256-322 | every message keeps the invariant: the running count is the number of running files and within the limit, the completed count is the number of analyzed files, and the generating phase has every file done |
| `AiCommit.AnalysisError` | internal/ui/commit/ai.go:283-288 | a failed analysis marks its file −1, records the wrapped error, sets done and quits |
| `AiCommit.AllAnalyzedGenerates` | internal/ui/commit/ai.go:294-298 | analyzing the last outstanding file enters the generating phase, with every file analyzed, and asks for the final message |
| `AiCommit.AnalyzedStartsNext` | internal/ui/commit/ai.go:290-306 | otherwise the summary is stored and the freed slot goes to the lowest pending file, or stays free when none is pending |
| `AiCommit.CancelledIgnoresResults` | internal/ui/commit/ai.go:276-311 | after cancellation, results change nothing and quit |
| `AiCommit.AiModel.constructor` | internal/ui/commit/ai.go:60-92 | the new model holds the state of newAIModel |
| `AiCommit.AiModel.Update` | internal/ui/commit/ai.go:256-322 | the in-place update gives the state and command of the step function |
| `AiCommit.AiModel.FileDone` | internal/ui/commit/ai.go:281-306 | the in-place handling of one analysis result gives the state and command of that step |
| `AiCommit.AiModel.FileSucceeded` | internal/ui/commit/ai.go:290-306 | the in-place handling of a successful analysis gives the state and command of that step |
| `AiCommit.Focus` | internal/ui/commit/ai.go:413-431 | the first running file, or the first pending one when none runs, or −1 |
| `AiCommit.CalcVisibleRange` | internal/ui/commit/ai.go:407-456 | the method returns the window of the specification |
| `AiCommit.VisibleRangeProperties` | internal/ui/commit/ai.go:407-456 | a short list is shown whole; a long one through a window of exactly maxVisible files within the list; for maxVisible ≥ 3 the followed file lies in the window |
| `AiCommit.AiBarIsPulse` | internal/ui/commit/ai.go:458-479 | the analysis progress bar lights exactly six cells, like the lucky-commit bar |
| `AiCommit.BuildCommitPrompt` | internal/ui/commit/ai.go:189-254 | the prompt is the language's example, the summary lines, then `\nOutput:` |
| `AiCommit.WriteSummaryLines` | internal/ui/commit/ai.go:245-249 | the loop appends the summary lines of all files to the builder |
| `AiCommit.KeptIndices` | internal/ui/commit/ai.go:245-249 | the files given a line are exactly those with a non-empty summary, each once, in increasing order |
| `AiCommit.OneLinePerSummary` | internal/ui/commit/ai.go:245-249 | the summary lines are one `- path: trimmed summary` line per file with a non-empty summary, in file order |
| `AiCommit.PreviewSelection` | internal/ui/commit/ai.go:536-545 | the selection stays in [0, 2]; left/h saturate at 0, right/l at 2, and tab cycles modulo 3 |
| `AiCommit.PreviewEnter` | internal/ui/commit/ai.go:517-526 | enter on a fresh preview quits with commit, edit or retry for selection 0, 1 or 2 |
| `AiCommit.PreviewQuits` | internal/ui/commit/ai.go:513-535 | exactly the keys ctrl+c, esc, q, enter, c, e and r quit |
| `AiCommit.AiPreviewModel.constructor` | internal/ui/commit/ai.go:498-504 | the new preview starts at selection 0 with no flag set |
| `AiCommit.AiPreviewModel.Update` | internal/ui/commit/ai.go:510-549 | the in-place update gives the state and command of the preview's step function |
| `AiCommit.PreviewOutcome` | internal/ui/commit/ai.go:643-663 | the message is always echoed; a failed program or cancellation gives cancel, then edit wins over retry, and retry over commit |
| `AiCommit.PreviewKeyActions` | internal/ui/commit/ai.go:510-549 | enter, e, r and q on a fresh preview lead to commit, edit, retry and cancel; tab then enter leads to edit |
| `CommitInputs.CheckScope` | internal/ui/commit/inputs.go:147-155 | the scope fails if and only if its trimmed form is empty or it contains one of `( ) : / \`; emptiness is reported first |
| `CommitInputs.CheckSubject` | internal/ui/commit/inputs.go:160-168 | the subject fails if and only if its trimmed form is empty or it is longer than 72 bytes; emptiness is reported first |
| `CommitInputs.FirstError` | internal/ui/commit/inputs.go:248-255 | the first failing checker's error in field order, or none exactly when both checked fields pass |
| `CommitInputs.Validate` | internal/ui/commit/inputs.go:248-255 | the loop over the fields returns that first error |
| `CommitInputs.NewInputs` | internal/ui/commit/inputs.go:119-206 | the form starts with the focus on the scope field and all four fields empty |
| `CommitInputs.InputsModel.constructor` | internal/ui/commit/inputs.go:119-206 | the new model holds the state of newInputsModel |
| `CommitInputs.InputsModel.Update` | internal/ui/commit/inputs.go:212-280 | the in-place update gives the state and command of the step function |
| `CommitInputs.InputsModel.UpdateKey` | internal/ui/commit/inputs.go:232-276 | the in-place handling of a key gives the state and command of the key switch |
| `CommitInputs.FocusRing` | internal/ui/commit/inputs.go:245-274 | the focus stays in [0, 4]; tab, down and enter on a field move forward and wrap 4→0; shift+tab and up move back and wrap 0→4 |
| `CommitInputs.SubmitOutcome` | internal/ui/commit/inputs.go:246-258 | enter on Submit records the first failing checker's error and stays, or, with no error, sets submitted and quits |
| `CommitInputs.EditorAndQuitKeys` | internal/ui/commit/inputs.go:234-243 | ctrl+e asks for the editor only from the body field; ctrl+c and esc set quitting and quit |
| `CommitInputs.SubmittedIsValid` | internal/ui/commit/inputs.go:246-258 | a form that enter submits has a valid scope and subject, so the result's scope and subject are non-empty |
| `CommitInputs.AvailableHeight` | internal/ui/commit/inputs.go:315-320 | the height less the three header and four footer lines, or one line when that leaves less than one |
| `CommitInputs.WindowProperties` | internal/ui/commit/inputs.go:322-343 | when the room is less than four lines and a field has the focus, the window is exactly that tall, lies within the fields and holds the focused one; otherwise all fields are shown |
| `CommitInputs.View` | internal/ui/commit/inputs.go:306-400 | nothing is shown once quitting, submitted or waiting for the editor; otherwise the error shown is recomputed from the current values |
| `CommitInputs.KeptLinesAreText` | internal/ui/commit/inputs.go:515-521 | no kept line is a comment, and every kept line comes from the editor text |
| `CommitInputs.CleanEditorText` | internal/ui/commit/inputs.go:514-523 | the loop drops the lines whose trimmed form starts with `#` and trims the joined rest |
| `CommitInputs.NoCommentsKept` | internal/ui/commit/inputs.go:514-523 | a text without comment lines comes back only trimmed |
| `CommitInputs.TemplateRoundTrip` | internal/ui/commit/inputs.go:488-523 | two comment header lines and a blank line before a text are removed again: the cleaned result is that of the text alone |
| `CommitInputs.EditorTemplateRoundTrip` | internal/ui/commit/inputs.go:488-523 | saving the editor's template unchanged gives back the current body, cleaned |
| `CommitInputs.ChooseEditor` | internal/ui/commit/inputs.go:463-477 | EDITOR, else VISUAL, else the first of vim, vi and nano on the path; none is an error exactly when all are missing |
| `CommitInputs.PrefixBytes` | internal/ui/commit/inputs.go:449-450 | a prefix of the text of at most the given number of bytes |
| `CommitInputs.Preview` | internal/ui/commit/inputs.go:448-451 | the preview holds no newline |
| `CommitInputs.PreviewAscii` | internal/ui/commit/inputs.go:448-451 | for ASCII text the preview is the text with newlines turned into spaces, cut to 50 characters plus `...` when longer |
| `CommitInputs.RunPass` | internal/ui/commit/inputs.go:420-457 | quitting aborts, a submit returns the result, and otherwise the form restarts with the editor request cleared |
| `CommitInputs.EditKeepsText` | internal/ui/commit/inputs.go:437-455 | after any successful edit, an empty text included, the body field shows the preview, the result's body is the full edited text, trimmed, and the other fields are kept |
| `CommitConfirm.NewConfirm` | internal/ui/commit/model.go:118-120 | the preview starts undecided on the Commit button |
| `CommitConfirm.KeyOutcomes` | internal/ui/commit/model.go:130-142 | ctrl+c, esc and n cancel and quit; y confirms; enter confirms on button 0 and cancels otherwise; exactly these keys quit; the message is never changed |
| `CommitConfirm.SelectionStaysInRange` | internal/ui/commit/model.go:143-149 | left/h select 0, right/l select 1, tab toggles, no other message moves the selection, and it stays in {0, 1} |
| `CommitConfirm.RunSelectionInRange` | internal/ui/commit/model.go:126-152 | any key sequence keeps the selection in {0, 1} |
| `CommitConfirm.NeverBoth` | internal/ui/commit/model.go:126-152 | from an undecided state no key sets both confirmed and cancelled, and a key quits exactly when it decides |
| `CommitConfirm.View` | internal/ui/commit/model.go:155-157 | the view is empty exactly once confirmed or cancelled |
| `CommitConfirm.ConfirmModel.constructor` | internal/ui/commit/model.go:118-120 | the new model holds the initial state |
| `CommitConfirm.ConfirmModel.Update` | internal/ui/commit/model.go:126-152 | the in-place update gives the state and command of the step function |
| `CommitConfirm.ConfirmCommit` | internal/ui/commit/model.go:93-108 | a program error passes through, a cancelled model gives errUserAborted, and otherwise the answer is the confirmation flag |
| `CommitConfirm.RunFlowOutcome` | internal/ui/commit/model.go:23-90 | a flow is never both cancelled and failed; it is cancelled exactly when a step was aborted or the preview was not confirmed, and it succeeds exactly when everything succeeded and was confirmed |
| `CommitConfirm.RunFlowMessage` | internal/ui/commit/model.go:52-64 | once the form succeeds, the message carries its parts, with the body defaulted to the subject |
| `CommitConfirm.SessionDecides` | internal/ui/commit/model.go:93-152 | a session on the preview never ends both confirmed and cancelled, and confirmCommit reports it accordingly |
| `BranchUi.StateCode` | internal/ui/branch/model.go:20-24 | the three states are numbered 0, 1, 2 in declaration order, and each code belongs to exactly one state |
| `BranchUi.NewModel` | internal/ui/branch/model.go:38-50 | a new screen is creating, with no error and no result, and its full branch name is the type, a slash and the name |
| `BranchUi.DoneOutcome` | internal/ui/branch/model.go:90-101 | the done message always schedules the 800 ms quit; an error moves to failed, records it and leaves the result alone; no error moves to success and stores the result |
| `BranchUi.KeyOutcome` | internal/ui/branch/model.go:78-81 | keys never change the screen; ctrl+c, q, esc and enter quit, every other key does nothing |
| `BranchUi.SpinnerOnlyWhileCreating` | internal/ui/branch/model.go:83-88 | a spinner tick animates and asks for another tick exactly while creating, and never changes the state |
| `BranchUi.CreatingUntilDone` | internal/ui/branch/model.go:75-105 | any run of messages without a done message leaves state, error, result and branch name as they were |
| `BranchUi.RunAppend` | internal/ui/branch/model.go:75-105 | running two message sequences one after the other is running their concatenation |
| `BranchUi.SessionOutcome` | internal/ui/branch/model.go:75-105 | a session on a new screen that ends with its done message succeeds exactly when the creation returned no error, and reports that error, or the result on success |
| `BranchUi.BranchModel.constructor` | internal/ui/branch/model.go:38-50 | the object starts as NewModel describes |
| `BranchUi.BranchModel.Update` | internal/ui/branch/model.go:75-105 | updates the fields in place to the state Step computes and returns its command |
| `PushUi.StateCode` | internal/ui/push/model.go:19-23 | the three states are numbered 0, 1, 2 in declaration order, and each code belongs to exactly one state |
| `PushUi.NewModel` | internal/ui/push/model.go:34-43 | a new screen is pushing, with no error and no result |
| `PushUi.DoneOutcome` | internal/ui/push/model.go:83-94 | the done message always schedules the 800 ms quit; an error moves to failed and records it, no error moves to success and stores the result |
| `PushUi.KeyOutcome` | internal/ui/push/model.go:70-74 | keys never change the screen; ctrl+c, q, esc and enter quit, every other key does nothing |
| `PushUi.SpinnerOnlyWhilePushing` | internal/ui/push/model.go:76-81 | a spinner tick animates and asks for another tick exactly while pushing, and never changes the state |
| `PushUi.PushingUntilDone` | internal/ui/push/model.go:68-98 | any run of messages without a done message leaves state, error and result as they were |
| `PushUi.RunAppend` | internal/ui/push/model.go:68-98 | running two message sequences one after the other is running their concatenation |
| `PushUi.SessionOutcome` | internal/ui/push/model.go:68-98 | a session on a new screen that ends with its done message succeeds exactly when the push returned no error, and reports that error, or the result on success |
| `PushUi.PushModel.constructor` | internal/ui/push/model.go:34-43 | the object starts as NewModel describes |
| `PushUi.PushModel.Update` | internal/ui/push/model.go:68-98 | updates the fields in place to the state Step computes and returns its command |
| `LlmClient.ProviderNamesDistinct` | internal/llm/client.go:31-36 | the four providers have four different names |
| `LlmClient.NormalizedHasScheme` | internal/llm/client.go:137-145 | every non-empty host other than a bare scheme comes out starting with "http://" or "https://" |
| `LlmClient.BareSchemeLosesSlash` | internal/llm/client.go:141-142 | the bare host "http://" comes out as "http:/", which no longer has a scheme |
| `LlmClient.NormalizeHostVectors` | internal/llm/client.go:137-145 | sample cases: the empty host, a trailing slash trimmed, a bare name given https |
| `LlmClient.SelectProvider` | internal/llm/client.go:69-95 | no API key selects Ollama and only then; with a key, a host containing groq.com selects Groq, else openai.com selects OpenAI, else OpenRouter |
| `LlmClient.SelectLang` | internal/llm/client.go:105-112 | the language is always en, zh or bilingual: a configured valid one is kept, anything else becomes en |
| `LlmClient.NewClient` | internal/llm/client.go:65-133 | the provider matches the key and the final host; host and model default to the Ollama or OpenRouter values depending on the key; language, retries, key and file prompt come from the settings |
| `LlmClient.BuildClient` | internal/llm/client.go:65-133 | the step-by-step construction builds exactly the client NewClient describes |
| `LlmClient.UnconfiguredIsLocalOllama` | internal/llm/client.go:65-112 | with nothing configured, the client talks to the local Ollama at http://localhost:11434 with its default model, in English |
| `LlmClient.NeutralHostIsOpenRouter` | internal/llm/client.go:89-95 | with a key, a host that can contain neither domain selects OpenRouter |
| `LlmClient.KeyAloneIsOpenRouter` | internal/llm/client.go:74-86 | an API key with no host selects OpenRouter at its default address |
| `LlmClient.FileSystemPrompt` | internal/ui/commit/ai.go:136-142 | the configured file prompt when there is one, else the non-empty built-in file prompt |
| `LlmClient.CommitPromptPrecedence` | internal/ui/commit/ai.go:151-166 | the commit system prompt is the custom prompt of the client's language when set and that language's built-in otherwise, so it is non-empty whenever the built-in is; the prompts of the other languages play no part, and any language but zh and bilingual behaves as en |
| `LlmClient.PostTemperature` | internal/llm/client.go:155-212 | the temperature sent is the caller's when non-zero and the client's otherwise; it reaches an Ollama request as options exactly when positive and an OpenAI-style request as its value when positive and omitted (zero) otherwise |
| `LlmClient.Messages` | internal/llm/client.go:274-279 | one or two messages, the last the user prompt, and a leading system message exactly when a system prompt is given |
| `LlmClient.BuildMessages` | internal/llm/client.go:274-279 | appending the messages one at a time gives exactly Messages |
| `LlmClient.PostRouting` | internal/llm/client.go:202-314 | every request goes to a path under the host that tells Ollama (/api/generate), Groq (/openai/v1/chat/completions) and OpenRouter or OpenAI (/api/v1/chat/completions) apart; only the OpenAI-style requests carry "Bearer " followed by the API key; the system prompt and prompt reach both request shapes |
| `LlmClient.HandleOpenAI` | internal/llm/client.go:322-340 | a non-200 status, an undecodable body, an API error and an empty choice list each fail in their own way; otherwise the reply is the first choice, trimmed, and these are the only successes |
| `LlmClient.HandleOllama` | internal/llm/client.go:234-244 | a non-200 status and an undecodable body fail; otherwise the reply is the response, trimmed |
| `LlmClient.RepliesAreTrimmed` | internal/llm/client.go:340 | a non-empty successful reply neither starts nor ends with white space |
| `LlmClient.Generate` | internal/llm/client.go:160-182 | the retry loop returns what the recursive Retry definition returns |
| `LlmClient.RetryFrom` | internal/llm/client.go:160-182 | from any attempt reached with only retryable failures before it: the attempt count stays within retries+1, every attempt but the last was retryable, a success is the last attempt's reply, a context error is the last attempt's, and exhaustion means retries+1 retryable failures reporting the last error |
| `LlmClient.GenerateContract` | internal/llm/client.go:160-182 | at most retries+1 attempts; all but the last failed with the context live; success returns the last attempt's reply; a context end reports that attempt's context error; exhaustion reports retries+1 attempts, all retryable |
| `LlmClient.FirstSuccessWins` | internal/llm/client.go:161-173 | when every attempt before one within the budget failed retryably and that one succeeds, its reply is returned after exactly that many attempts |
| `LlmClient.ThirdAttemptSucceeds` | internal/llm/client_test.go:133-164 | two server errors followed by a reply, with two retries, return the reply after three attempts |
| `Install.Base` | internal/ui/install/model.go:117 | the base of a path contains no slash |
| `Install.BaseOfJoin` | internal/ui/install/model.go:117 | a slash-free name is the base of any path it is joined onto |
| `Install.RealUserPaths` | internal/ui/install/model.go:29-54 | under sudo the layout is built in the home of the user SUDO_USER names, whatever the current user; a failed lookup fails with "failed to get user info: " and the lookup's error; without sudo the current user decides; with a non-empty home and install directory the toolkit directory, hooks directory and binary end in .gitflow-toolkit, hooks and gitflow-toolkit |
| `Install.NewPathsLayout` | internal/ui/install/model_test.go:11-33 | for a home and install directory without trailing slashes: ~/.gitflow-toolkit, ~/.gitflow-toolkit/hooks and <dir>/gitflow-toolkit |
| `Install.SymlinkPaths` | internal/ui/install/model.go:57-63 | one link per entry of SymlinkCommands, in the same order, element i being git-<command i> in the install directory |
| `Install.Links` | internal/ui/install/model_test.go:35-58 | the same list as a value: same length as SymlinkCommands and element i the link of command i |
| `Install.LinksOf` | internal/ui/install/model.go:59-61 | one link per command in order, element i the link of command i |
| `Install.LinkPathInjective` | internal/ui/install/model.go:60 | two commands give the same link only if they are the same command |
| `Install.LinkBase` | internal/ui/install/model.go:117 | the base name of a link, which the install errors report, is git- and the command |
| `Install.LinksAreDistinct` | internal/ui/install/model.go:57-63 | no two links coincide, and each link's base is git- followed by its command |
| `Install.DistinctLinksOf` | internal/ui/install/model.go:57-63 | distinct slash-free commands give distinct links named after their commands |
| `Install.NoSlashInCommands` | internal/config/config.go:84-99 | the symlinked commands are distinct and contain no slash |
| `Install.InstallTasks` | internal/ui/install/model.go:100-207 | seven tasks with the names of model_test.go in order; only the last one configures hooks, and only it depends on withHook |
| `Install.UninstallTasks` | internal/ui/install/model.go:211-252 | four tasks with the names of model_test.go in order |
| `Install.TaskOrder` | internal/ui/install/model_test.go:75-124 | install cleans the home and removes old links before recreating them, unsets the hooks path as uninstall does, and no two task names of a list coincide |
| `Install.Wrap` | internal/ui/install/model.go:106 | an error wrapped with a context reads "context: cause" and is a warning exactly when the cause is |
| `Install.RemoveDir` | internal/ui/install/model.go:105-108 | removing a directory fails only on an error other than the directory being absent |
| `Install.CreateHomeRun` | internal/ui/install/model.go:137-142 | a failed mkdir reports "failed to create directory"; otherwise the ownership error, unwrapped; success exactly when both succeed |
| `Install.CopyBinaryRun` | internal/ui/install/model.go:146-168 | success exactly when locating, opening, creating and copying all succeed; a failed lookup reports "failed to locate current binary" |
| `Install.ConfigureHooksRun` | internal/ui/install/model.go:183-205 | without --hook, the warning "hook not installed (use --hook to enable)"; with it, success exactly when all four steps succeed, and a failure is never a warning |
| `Install.HookTaskOutcome` | internal/ui/install/model.go:184-186 | without --hook "Configure git hooks" ends as a warning, which the runner does not treat as fatal; with --hook it never ends as a warning |
| `Install.RemoveLinksSucceeds` | internal/ui/install/model.go:113-124 | the removal loop succeeds exactly when it gets past every link, and its failures are never warnings |
| `Install.RemoveLinksRun` | internal/ui/install/model.go:113-124 | the loop over the links returns what RemoveLinksFrom describes, for install's strict loop and uninstall's lenient one |
| `Install.CreateLinksSucceeds` | internal/ui/install/model.go:172-179 | the creation loop succeeds exactly when every link is created, and its failures are never warnings |
| `Install.CreateLinksFirstFailure` | internal/ui/install/model.go:172-179 | a failure is reported for the first link that could not be made, by its base name |
| `Install.CreateLinksRun` | internal/ui/install/model.go:172-179 | the loop returns what CreateLinksFrom describes |
| `Install.UnsetNeverFails` | internal/ui/install/model.go:127-133 | unsetting core.hooksPath never fails, in install or uninstall |
| `Install.OnlyHookTaskWarns` | internal/ui/install/model.go:100-252 | no task other than the hook task ever ends with a warning |
| `Install.CleanInstallWithoutHook` | internal/ui/install/model.go:100-207 | when every call succeeds and hooks are not wanted, the first six tasks succeed and the seventh warns |
| `Formula.Version` | Formula/gitflow-toolkit.rb:7-9 | a tag starting with v is that v followed by the version; any other tag is the version itself |
| `Formula.VersionOfTag` | Formula/gitflow-toolkit.rb:9 | exactly one leading v is removed |
| `Formula.ReleaseUsesTag` | Formula/gitflow-toolkit.rb:14-19 | the download path built from the version of tag vX contains vX again |
| `Formula.StripLeft` | Formula/gitflow-toolkit.rb:15 | removes exactly the leading run of Ruby white space and null characters |
| `Formula.StripRight` | Formula/gitflow-toolkit.rb:15 | removes exactly the trailing run of Ruby white space and null characters |
| `Formula.Lines` | Formula/gitflow-toolkit.rb:15 | no line is empty |
| `Formula.LinesPieces` | Formula/gitflow-toolkit.rb:15 | the lines are the text cut after every newline: concatenated they give the text back, every line but the last ends in its newline, and no line holds a newline before its last character |
| `Formula.Entry` | Formula/gitflow-toolkit.rb:15 | a line gives an entry exactly when, stripped and split on two spaces, it has two fields |
| `Formula.Entries` | Formula/gitflow-toolkit.rb:15 | one entry per line, in order |
| `Formula.ToHashFails` | Formula/gitflow-toolkit.rb:15 | the conversion to a hash fails exactly when some entry is not a pair |
| `Formula.ParseFailsOnBadLine` | Formula/gitflow-toolkit.rb:15 | the manifest fails to load exactly when one of its lines is not a valid entry |
| `Formula.LaterDuplicateWins` | Formula/gitflow-toolkit.rb:15 | a later line for a file overrides the digest an earlier line gave it |
| `Formula.EntryOfManifestLine` | Formula/gitflow-toolkit.rb:15 | a checksum line "digest  file" parses into the pair (file, digest) |
| `Formula.ManifestRoundTrip` | Formula/gitflow-toolkit.rb:15 | the lines of a rendered manifest convert into the map from each file to its last digest, on top of any starting map |
| `Formula.RenderThenParse` | Formula/gitflow-toolkit.rb:13-15 | parsing a manifest rendered from whitespace-free words gives back each file's last digest |
| `Formula.BlankLineFails` | Formula/gitflow-toolkit.rb:15 | a manifest containing an empty line fails to load |
| `Formula.ArtifactsDistinct` | Formula/gitflow-toolkit.rb:17-49 | macOS ignores the word size; otherwise two platforms get the same artifact exactly when they are the same platform, so each of the six artifacts belongs to exactly one platform |
| `Formula.ExpectedMissing` | Formula/gitflow-toolkit.rb:15 | a file that no entry names keeps the digest, or the absence of one, it had before |
| `Formula.ExpectedLast` | Formula/gitflow-toolkit.rb:15 | a file's digest is the one on the last entry that names it |
| `Formula.RenderedChecksum` | Formula/gitflow-toolkit.rb:13-46 | the checksum the formula takes from a rendered manifest is the digest of the last line naming the platform's artifact |
| `Formula.RenderedChecksumMissing` | Formula/gitflow-toolkit.rb:13-46 | a rendered manifest with no line for the platform's artifact gives no checksum |
| `Formula.InstalledFileIsArtifact` | Formula/gitflow-toolkit.rb:19-53 | the last segment of the download URL, the file install renames to gitflow-toolkit, is the artifact's file name |
| `Formula.InstallSymlinks` | Formula/gitflow-toolkit.rb:56-58 | eleven links, git-<cmd> for each word of the list in order, each pointing at gitflow-toolkit |
| `Formula.SameCommandsAsInstaller` | consts/consts.go:151-165 | the formula links the same eleven distinct commands as SymlinkCommands, in the same order |
| `Hook.OnlyFeat` | internal/config/config.go:52 | of the nine types, only feat can open a message that starts with fe |
| `Hook.RejectsFeat` | internal/config/config.go:52 | a message only feat( can open is rejected when no usable `):` closes the scope |

## Left out

- Terminal rendering is left out: lipgloss styles, colours, borders, spinners' frames and the bubbles `list` and `textinput` widgets. Each `View` is reduced to what it decides (whether anything is drawn, which lines are visible), and a spinner is a frame counter.
- Asynchronous execution is left out. This covers `tea.Cmd` goroutines, `tea.Batch`, `tea.Tick` and `context` cancellation. A command is a datatype value (`Quit`, `QuitAfter(800)`, ...), and a cancelled context is one field of an attempt's outcome.
- HTTP and JSON transport of the LLM client are left out. Each request of `Generate` is an attempt supplied by a function argument. A reply is given as its status, its body and its decoded form.
- Floating point is modelled by `real`: temperatures compare exactly, with no rounding.
- Timeouts and `time.Duration` are left out; the client keeps its timeout as a number of seconds. internal/llm/client.go:101 defaults it to `consts.LLMDefaultTimeout`, which consts/consts.go does not define. consts/consts.go:61 defines `LLMDefaultRequestTimeout` as two minutes, and internal/llm/client_test.go:86 expects the default client's timeout to equal it, so the model's default is 120 seconds (`Consts.LLMDefaultRequestTimeoutSeconds`).
- The effects of git, the file system and subprocesses are not modelled; their outcomes are parameters. This covers `GetStagedDiff`, `GetPreviousCommits`, `Commit`, `CreateSOB`, `CheckLuckyCommit`, the file read of `ValidateCommitMessage`, launching the editor, `runAsRealUser`, `chownToRealUser`, `NeedsSudo`, `GetRecommendedInstallDir` and the operating-system lookups behind `getRealUser`.
- `config/gitconfig.go` runs `git config`, so its values are passed in as `Settings`. The trivial accessors `GetModel`, `GetLang`, `GetFilePrompt`, `GetContext` and `GetConcurrency` are read straight from those settings.
- `crypto/rand` in `generateFakeHash` is not modelled: the random bytes are a parameter, and only the hex encoding is modelled.
- `Install.PathJoin`: models `filepath.Join` of two elements without its lexical clean-up of `.`, `..` and repeated slashes; `Install.Base` assumes a path without trailing slashes.
- Go's `len` counts bytes. `GoStrings.ByteLen` counts UTF-8 bytes where the source compares lengths. `ResultText.WrapLine` cuts by characters, which agrees with the source for ASCII text only. `CommitInputs.Preview` compares the flattened text's byte length with 50 and keeps the whole characters that fit in 50 bytes, whereas Go's `preview[:50]` can split a multi-byte character.
- `CommitInputs.ToUpperAscii`: upper-cases ASCII letters only, where Go's `strings.ToUpper` also maps other scripts.
- `AiCommit` keeps the per-file statuses in a sequence, so the aliasing of the source's slice between model copies is not represented.
- The Homebrew formula's network reads (the latest release tag and the checksum file) are parameters. The formula's `caveats` text and its `test` block are left out.
- The older generations of the tool in the root package, `ui/`, `pkg/`, `commit/`, `git/`, `cmd/` and the vendored prompt library are left out, because the `internal/` tree supersedes them.
- `LlmClient.NormalizedHasScheme`: excludes the bare hosts `http://` and `https://`. `TrimSuffix` removes their own slash, so they come out as `http:/` and `https:/` with no scheme (`LlmClient.BareSchemeLosesSlash`).
- Some tests disagree with the code, and the model follows the code:
  - internal/ui/common/task_test.go:59 expects a new runner's current task to be -1, whereas internal/ui/common/task.go:78 sets 0 (`Task.NewRunner`).
  - internal/git/lucky_test.go:26 expects a 16-character prefix to pass, whereas the limit is 12 (`LuckyPrefix.SixteenZerosTooLong`).
  - internal/llm/client_test.go calls a one-argument `normalizeHost`, `detectProvider` and an `apiPath` field, none of which client.go defines.
- `ResultText.PlainLong` states the long-line case of result_test.go for any line of that shape rather than for the literal test string.
