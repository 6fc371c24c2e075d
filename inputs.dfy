/** The commit-message form of internal/ui/commit/inputs.go: four fields with
    their checkers, a focus ring that includes the Submit button, the
    scrolling window of visible fields, the result, and the text handling
    around the external editor. */
module CommitInputs {
  import opened Wrappers
  import opened GoStrings

  const FieldCount := 4
  const ScopeField := 0
  const SubjectField := 1
  const BodyField := 2
  const FooterField := 3
  /** The focus index of the Submit button, one past the last field. */
  const SubmitFocus := FieldCount
  const MaxSubjectLen := 72
  const ScopeForbidden := "():/\\"

  // ---------------------------------------------------------------------
  // The checkers.
  // ---------------------------------------------------------------------

  datatype FieldError = ScopeEmpty | ScopeInvalid | SubjectEmpty | SubjectTooLong

  function ErrorText(e: FieldError): string {
    match e
    case ScopeEmpty => "Scope cannot be empty"
    case ScopeInvalid => "Scope cannot contain ():/\\"
    case SubjectEmpty => "Subject cannot be empty"
    case SubjectTooLong => "Subject should be <= 72 chars"
  }

  /** The scope checker: blank first, then the forbidden characters. */
  function CheckScope(s: string): (e: Option<FieldError>)
    ensures e.None? <==> TrimSpace(s) != "" && !ContainsAny(s, ScopeForbidden)
    ensures e == Some(ScopeEmpty) <==> TrimSpace(s) == ""
  {
    if TrimSpace(s) == "" then Some(ScopeEmpty)
    else if ContainsAny(s, ScopeForbidden) then Some(ScopeInvalid)
    else None
  }

  /** The subject checker: blank first, then more than 72 bytes untrimmed. */
  function CheckSubject(s: string): (e: Option<FieldError>)
    ensures e.None? <==> TrimSpace(s) != "" && ByteLen(s) <= MaxSubjectLen
    ensures e == Some(SubjectEmpty) <==> TrimSpace(s) == ""
  {
    if TrimSpace(s) == "" then Some(SubjectEmpty)
    else if ByteLen(s) > MaxSubjectLen then Some(SubjectTooLong)
    else None
  }

  /** The checker of a field; body and footer have none. */
  function Checker(field: int, value: string): Option<FieldError> {
    if field == ScopeField then CheckScope(value)
    else if field == SubjectField then CheckSubject(value)
    else None
  }

  /** The first failing checker in field order. */
  function FirstError(values: seq<string>): (e: Option<FieldError>)
    requires |values| == FieldCount
    ensures e.None? <==> CheckScope(values[ScopeField]).None? && CheckSubject(values[SubjectField]).None?
    ensures CheckScope(values[ScopeField]).Some? ==> e == CheckScope(values[ScopeField])
    ensures CheckScope(values[ScopeField]).None? ==> e == CheckSubject(values[SubjectField])
  {
    if CheckScope(values[ScopeField]).Some? then CheckScope(values[ScopeField])
    else CheckSubject(values[SubjectField])
  }

  /** The scan over the fields that Enter on Submit and View both make,
      stopping at the first error. */
  method Validate(values: seq<string>) returns (e: Option<FieldError>)
    requires |values| == FieldCount
    ensures e == FirstError(values)
  {
    for i := 0 to FieldCount
      invariant forall k :: 0 <= k < i ==> Checker(k, values[k]).None?
    {
      var r := Checker(i, values[i]);
      if r.Some? {
        return r;
      }
    }
    assert Checker(ScopeField, values[ScopeField]).None?;
    return None;
  }

  // ---------------------------------------------------------------------
  // The form.
  // ---------------------------------------------------------------------

  /** The fields of inputsModel that Update and View use; the text inputs
      are reduced to their values. */
  datatype InputsState = InputsState(
    focus: int, title: string, values: seq<string>, bodyText: string,
    err: Option<FieldError>, quitting: bool, submitted: bool, wantEditor: bool,
    width: int, height: int, inputWidth: int)

  /** strings.ToUpper for the ASCII letters. */
  function ToUpperAscii(s: string): (r: string)
    ensures |r| == |s|
  {
    seq(|s|, i requires 0 <= i < |s| =>
      if 'a' <= s[i] <= 'z' then (s[i] as int - 32) as char else s[i])
  }

  /** newInputsModel: the first field has the focus and every field is empty. */
  function NewInputs(commitType: string): (s: InputsState)
    ensures s.focus == ScopeField && |s.values| == FieldCount
    ensures forall i :: 0 <= i < FieldCount ==> s.values[i] == ""
  {
    InputsState(0, "Commit Type: " + ToUpperAscii(commitType), seq(FieldCount, i => ""), "",
      None, false, false, false, 0, 0, 0)
  }

  datatype Msg = WindowSize(w: int, h: int) | SpinnerTick | KeyMsg(key: string) | OtherMsg

  /** FocusCmd refocuses the fields; InputsCmd passes the message on to the
      text inputs. */
  datatype Cmd = NoCmd | Quit | SpinnerCmd | FocusCmd | InputsCmd

  function NextFocus(f: int): int { if f + 1 > FieldCount then 0 else f + 1 }
  function PrevFocus(f: int): int { if f - 1 < 0 then FieldCount else f - 1 }

  /** inputsModel.Update; Enter on a field falls through to the tab case. */
  function Step(s: InputsState, msg: Msg): (InputsState, Cmd)
    requires |s.values| == FieldCount
  {
    match msg
    case WindowSize(w, h) =>
      (s.(width := w, height := h, inputWidth := if w - 16 < 20 then 20 else w - 16), NoCmd)
    case SpinnerTick => (s, SpinnerCmd)
    case KeyMsg(key) => KeyStep(s, key)
    case OtherMsg => (s, InputsCmd)
  }

  /** The key switch of inputsModel.Update. */
  function KeyStep(s: InputsState, key: string): (InputsState, Cmd)
    requires |s.values| == FieldCount
  {
    if key == "ctrl+c" || key == "esc" then (s.(quitting := true), Quit)
    else if key == "ctrl+e" && s.focus == BodyField then (s.(wantEditor := true), Quit)
    else if key == "enter" && s.focus == SubmitFocus then
      var e := FirstError(s.values);
      if e.Some? then (s.(err := e), NoCmd) else (s.(submitted := true), Quit)
    else if key == "enter" || key == "tab" || key == "down" then (s.(focus := NextFocus(s.focus)), FocusCmd)
    else if key == "shift+tab" || key == "up" then (s.(focus := PrevFocus(s.focus)), FocusCmd)
    else (s, InputsCmd)
  }

  /** inputsModel, with its Update applied in place. */
  class InputsModel {
    const title: string
    const bodyText: string
    var focus: int
    var values: seq<string>
    var err: Option<FieldError>
    var quitting: bool
    var submitted: bool
    var wantEditor: bool
    var width: int
    var height: int
    var inputWidth: int

    function Snapshot(): InputsState
      reads this
    {
      InputsState(focus, title, values, bodyText, err, quitting, submitted, wantEditor,
        width, height, inputWidth)
    }

    constructor(commitType: string)
      ensures Snapshot() == NewInputs(commitType)
    {
      title := "Commit Type: " + ToUpperAscii(commitType);
      bodyText := "";
      focus := 0;
      values := seq(FieldCount, i => "");
      err := None;
      quitting := false;
      submitted := false;
      wantEditor := false;
      width := 0;
      height := 0;
      inputWidth := 0;
    }

    method Update(msg: Msg) returns (cmd: Cmd)
      requires |values| == FieldCount
      modifies this
      ensures (Snapshot(), cmd) == Step(old(Snapshot()), msg)
    {
      match msg {
        case WindowSize(w, h) =>
          width := w;
          height := h;
          inputWidth := w - 16;
          if inputWidth < 20 {
            inputWidth := 20;
          }
          cmd := NoCmd;
        case SpinnerTick =>
          cmd := SpinnerCmd;
        case KeyMsg(key) =>
          cmd := UpdateKey(key);
        case OtherMsg =>
          cmd := InputsCmd;
      }
    }

    /** The key switch of Update. */
    method UpdateKey(key: string) returns (cmd: Cmd)
      requires |values| == FieldCount
      modifies this
      ensures (Snapshot(), cmd) == KeyStep(old(Snapshot()), key)
    {
      if key == "ctrl+c" || key == "esc" {
        quitting := true;
        cmd := Quit;
      } else if key == "ctrl+e" && focus == BodyField {
        wantEditor := true;
        cmd := Quit;
      } else if key == "enter" && focus == SubmitFocus {
        var e := Validate(values);
        if e.Some? {
          err := e;
          cmd := NoCmd;
        } else {
          submitted := true;
          cmd := Quit;
        }
      } else if key == "enter" || key == "tab" || key == "down" {
        focus := focus + 1;
        if focus > FieldCount {
          focus := 0;
        }
        cmd := FocusCmd;
      } else if key == "shift+tab" || key == "up" {
        focus := focus - 1;
        if focus < 0 {
          focus := FieldCount;
        }
        cmd := FocusCmd;
      } else {
        cmd := InputsCmd;
      }
    }
  }

  /** The focus stays on the ring of four fields and the button: tab, down
      and Enter on a field move forward and wrap to the first field, shift+tab
      and up move back and wrap to the button. */
  lemma FocusRing(s: InputsState, key: string)
    requires |s.values| == FieldCount && 0 <= s.focus <= SubmitFocus
    ensures var t := Step(s, KeyMsg(key)).0;
      && 0 <= t.focus <= SubmitFocus
      && ((key == "tab" || key == "down" || (key == "enter" && s.focus < SubmitFocus)) ==>
            t.focus == (s.focus + 1) % (FieldCount + 1))
      && ((key == "shift+tab" || key == "up") ==>
            t.focus == (s.focus + FieldCount) % (FieldCount + 1))
  {
  }

  /** Enter on Submit: the first failing checker's error is recorded and the
      form stays; with no error the form is submitted. */
  lemma SubmitOutcome(s: InputsState)
    requires |s.values| == FieldCount && s.focus == SubmitFocus
    ensures var (t, cmd) := Step(s, KeyMsg("enter"));
      && (FirstError(s.values).Some? ==> t == s.(err := FirstError(s.values)) && cmd == NoCmd)
      && (FirstError(s.values).None? ==> t == s.(submitted := true) && cmd == Quit)
  {
    EnterOnSubmit(s);
  }

  lemma EnterOnSubmit(s: InputsState)
    requires |s.values| == FieldCount && s.focus == SubmitFocus
    ensures Step(s, KeyMsg("enter")) ==
      var e := FirstError(s.values);
      if e.Some? then (s.(err := e), NoCmd) else (s.(submitted := true), Quit)
  {
    assert "enter" != "ctrl+c" && "enter" != "esc" && "enter" != "ctrl+e";
  }

  /** ctrl+e only asks for the editor from the body field; ctrl+c and esc quit. */
  lemma EditorAndQuitKeys(s: InputsState)
    requires |s.values| == FieldCount
    ensures Step(s, KeyMsg("ctrl+e")).0.wantEditor <==> s.focus == BodyField || s.wantEditor
    ensures s.focus != BodyField ==> Step(s, KeyMsg("ctrl+e")) == (s, InputsCmd)
    ensures Step(s, KeyMsg("ctrl+c")) == (s.(quitting := true), Quit)
    ensures Step(s, KeyMsg("esc")) == (s.(quitting := true), Quit)
  {
  }

  datatype InputsResult = InputsResult(scope: string, subject: string, body: string, footer: string)

  /** result(): the editor's text replaces the body field when there is any,
      and every part is trimmed. */
  function Result(s: InputsState): (r: InputsResult)
    requires |s.values| == FieldCount
    ensures r.scope == TrimSpace(s.values[ScopeField]) && r.subject == TrimSpace(s.values[SubjectField])
    ensures r.footer == TrimSpace(s.values[FooterField])
    ensures r.body == TrimSpace(if s.bodyText != "" then s.bodyText else s.values[BodyField])
  {
    var body := if s.bodyText == "" then s.values[BodyField] else s.bodyText;
    InputsResult(TrimSpace(s.values[ScopeField]), TrimSpace(s.values[SubjectField]),
      TrimSpace(body), TrimSpace(s.values[FooterField]))
  }

  /** A submitted form has a scope and a subject that pass their checkers. */
  lemma SubmittedIsValid(s: InputsState)
    requires |s.values| == FieldCount && s.focus == SubmitFocus
    requires Step(s, KeyMsg("enter")).0.submitted && !s.submitted
    ensures CheckScope(s.values[ScopeField]).None? && CheckSubject(s.values[SubjectField]).None?
    ensures Result(s).scope != "" && Result(s).subject != ""
  {
    EnterOnSubmit(s);
    assert FirstError(s.values).None?;
  }

  // ---------------------------------------------------------------------
  // The view.
  // ---------------------------------------------------------------------

  const HeaderLines := 3
  const FooterLines := 4

  /** The lines left for fields below the title and above the buttons and help. */
  function AvailableHeight(height: int): (h: int)
    ensures h >= 1
    ensures height - HeaderLines - FooterLines >= 1 ==> h == height - 7
    ensures height - HeaderLines - FooterLines < 1 ==> h == 1
  {
    if height - HeaderLines - FooterLines < 1 then 1 else height - HeaderLines - FooterLines
  }

  /** The fields View draws, as [start, end). */
  function Window(height: int, focus: int): (int, int) {
    var avail := AvailableHeight(height);
    if avail < FieldCount && focus < FieldCount then
      var start := if focus - avail / 2 < 0 then 0 else focus - avail / 2;
      if start + avail > FieldCount then
        (if FieldCount - avail < 0 then 0 else FieldCount - avail, FieldCount)
      else (start, start + avail)
    else (0, FieldCount)
  }

  /** On a short terminal the window is as tall as the room left, lies among
      the fields and holds the focused one; otherwise every field is drawn. */
  lemma WindowProperties(height: int, focus: int)
    requires 0 <= focus <= SubmitFocus
    ensures var (start, end) := Window(height, focus);
      var avail := AvailableHeight(height);
      && (avail < FieldCount && focus < FieldCount ==>
            end - start == avail && 0 <= start && end <= FieldCount && start <= focus < end)
      && (avail >= FieldCount || focus == SubmitFocus ==> start == 0 && end == FieldCount)
  {
  }

  /** What View shows, without its styling: the window, the scroll marks,
      whether the button has the focus and the error next to it. */
  datatype Screen = Screen(start: int, end: int, moreAbove: bool, moreBelow: bool,
                           submitFocused: bool, err: Option<FieldError>)

  /** View: nothing once the form is left; the error shown is recomputed
      from the current values. */
  function View(s: InputsState): (v: Option<Screen>)
    requires |s.values| == FieldCount
    ensures v.None? <==> s.quitting || s.submitted || s.wantEditor
    ensures v.Some? ==> v.value.err == FirstError(s.values)
  {
    if s.quitting || s.submitted || s.wantEditor then None
    else
      var (start, end) := Window(s.height, s.focus);
      Some(Screen(start, end, start > 0, end < FieldCount, s.focus == SubmitFocus, FirstError(s.values)))
  }

  // ---------------------------------------------------------------------
  // The external editor.
  // ---------------------------------------------------------------------

  /** A line the editor result drops: its trimmed form starts with '#'. */
  predicate IsComment(line: string) {
    HasPrefix(TrimSpace(line), "#")
  }

  /** The lines that `drop` does not select, in order. */
  function Without(lines: seq<string>, drop: string -> bool): (kept: seq<string>)
    ensures |kept| <= |lines|
  {
    if lines == [] then []
    else
      var prev := Without(lines[..|lines| - 1], drop);
      if drop(lines[|lines| - 1]) then prev else prev + [lines[|lines| - 1]]
  }

  /** The lines of the editor result that are kept, in order. */
  function KeptLines(lines: seq<string>): seq<string> {
    Without(lines, IsComment)
  }

  /** No selected line is kept, and every kept line comes from the input. */
  lemma {:induction false} WithoutKeepsOthers(lines: seq<string>, drop: string -> bool)
    ensures forall k :: 0 <= k < |Without(lines, drop)| ==>
      !drop(Without(lines, drop)[k]) && Without(lines, drop)[k] in lines
  {
    if lines != [] {
      var init := lines[..|lines| - 1];
      WithoutKeepsOthers(init, drop);
      assert forall x :: x in init ==> x in lines;
    }
  }

  /** No comment line is kept, and every kept line comes from the editor text. */
  lemma KeptLinesAreText(lines: seq<string>)
    ensures forall k :: 0 <= k < |KeptLines(lines)| ==>
      !IsComment(KeptLines(lines)[k]) && KeptLines(lines)[k] in lines
  {
    WithoutKeepsOthers(lines, IsComment);
  }

  /** The editor's text with comment lines removed and the whole trimmed. */
  function EditorText(content: string): string {
    TrimSpace(Join(KeptLines(Split(content, "\n")), "\n"))
  }

  /** The comment-stripping loop of runExternalEditor. */
  method CleanEditorText(content: string) returns (text: string)
    ensures text == EditorText(content)
  {
    var lines := Split(content, "\n");
    var result: seq<string> := [];
    for i := 0 to |lines|
      invariant result == Without(lines[..i], IsComment)
    {
      assert lines[..i + 1][..i] == lines[..i];
      if !HasPrefix(TrimSpace(lines[i]), "#") {
        result := result + [lines[i]];
      }
    }
    assert lines[..|lines|] == lines;
    text := TrimSpace(Join(result, "\n"));
  }

  lemma WithoutSnoc(lines: seq<string>, x: string, drop: string -> bool)
    ensures Without(lines + [x], drop) == Without(lines, drop) + (if drop(x) then [] else [x])
  {
    assert (lines + [x])[..|lines|] == lines;
    if drop(x) {
      var k := Without(lines, drop);
      assert k + [] == k;
    }
  }

  lemma {:induction false} WithoutCons(line: string, rest: seq<string>, drop: string -> bool)
    ensures Without([line] + rest, drop) == (if drop(line) then [] else [line]) + Without(rest, drop)
    decreases |rest|
  {
    var head := if drop(line) then [] else [line];
    if rest == [] {
      WithoutSnoc([], line, drop);
      assert [] + [line] == [line] + rest;
      assert head + [] == head;
    } else {
      var init, last := rest[..|rest| - 1], rest[|rest| - 1];
      var tail := if drop(last) then [] else [last];
      assert [line] + rest == ([line] + init) + [last];
      assert rest == init + [last];
      WithoutCons(line, init, drop);
      WithoutSnoc([line] + init, last, drop);
      WithoutSnoc(init, last, drop);
      var a := Without(init, drop);
      assert (head + a) + tail == head + (a + tail);
    }
  }

  /** Lines of which none is selected all survive. */
  lemma {:induction false} WithoutNothingSelected(lines: seq<string>, drop: string -> bool)
    requires forall k :: 0 <= k < |lines| ==> !drop(lines[k])
    ensures Without(lines, drop) == lines
  {
    if lines != [] {
      WithoutNothingSelected(lines[..|lines| - 1], drop);
      assert lines[..|lines| - 1] + [lines[|lines| - 1]] == lines;
    }
  }

  /** A text with no comment line comes back from the editor trimmed only. */
  lemma NoCommentsKept(content: string)
    requires forall k :: 0 <= k < |Split(content, "\n")| ==> !IsComment(Split(content, "\n")[k])
    ensures EditorText(content) == TrimSpace(content)
  {
    WithoutNothingSelected(Split(content, "\n"), IsComment);
    JoinSplit(content, "\n");
  }

  lemma {:induction false} TrimRightNonEmpty(s: string)
    requires s != [] && !IsSpace(s[0])
    ensures TrimRightSpace(s) != []
    decreases |s|
  {
    if IsSpace(s[|s| - 1]) {
      TrimRightNonEmpty(s[..|s| - 1]);
    }
  }

  /** A line that begins with '#' is a comment. */
  lemma HashLine(line: string)
    requires line != [] && line[0] == '#'
    ensures IsComment(line)
  {
    TrimRightNonEmpty(line);
    var r := TrimSpace(line);
    assert TrimLeftSpace(line) == line;
    assert r != [] && r[0] == line[0];
    assert r[..1] == "#";
  }

  lemma TrimSpaceLeadingSpace(c: char, s: string)
    requires IsSpace(c)
    ensures TrimSpace([c] + s) == TrimSpace(s)
  {
    assert ([c] + s)[1..] == s;
  }

  lemma SplitAfterLine(h: string, rest: string)
    requires !Contains(h, "\n")
    ensures Split(h + "\n" + rest, "\n") == [h] + Split(rest, "\n")
  {
    var s := h + "\n" + rest;
    FirstLineAfter(h, rest);
    assert s[..|h|] == h;
    assert s[|h| + 1..] == rest;
  }

  /** The template's lines: the two header lines, a blank line, then the current text's. */
  lemma TemplateLines(h1: string, h2: string, current: string)
    requires !Contains(h1, "\n") && !Contains(h2, "\n")
    ensures Split(h1 + "\n" + h2 + "\n" + "\n" + current, "\n")
      == [h1] + ([h2] + ([""] + Split(current, "\n")))
  {
    NotContainsMissingChar("", "\n", 0);
    var tail := Split(current, "\n");
    var r1 := "\n" + current;
    var r2 := h2 + "\n" + r1;
    assert "" + "\n" + current == r1;
    SplitAfterLine("", current);
    assert Split(r1, "\n") == [""] + tail;
    SplitAfterLine(h2, r1);
    assert Split(r2, "\n") == [h2] + ([""] + tail);
    SplitAfterLine(h1, r2);
    TemplateShape(h1, h2, current);
  }

  lemma TemplateShape(h1: string, h2: string, current: string)
    ensures h1 + "\n" + h2 + "\n" + "\n" + current == h1 + "\n" + (h2 + "\n" + ("\n" + current))
  {
    var nl: string := "\n";
    calc {
      h1 + nl + h2 + nl + nl + current;
    ==
      (h1 + nl + h2 + nl) + (nl + current);
    ==
      (h1 + nl) + ((h2 + nl) + (nl + current));
    }
  }

  /** Two comment lines before a blank line are dropped and the blank line is kept. */
  lemma TemplateKept(h1: string, h2: string, tail: seq<string>)
    requires IsComment(h1) && IsComment(h2) && !IsComment("")
    ensures KeptLines([h1] + ([h2] + ([""] + tail))) == [""] + KeptLines(tail)
  {
    WithoutCons(h1, [h2] + ([""] + tail), IsComment);
    WithoutCons(h2, [""] + tail, IsComment);
    WithoutCons("", tail, IsComment);
  }

  /** A blank line before the kept lines disappears in the trim. */
  lemma BlankLineTrimmed(kept: seq<string>)
    ensures TrimSpace(Join([""] + kept, "\n")) == TrimSpace(Join(kept, "\n"))
  {
    if kept != [] {
      JoinCons("", kept, "\n");
      assert "" + "\n" + Join(kept, "\n") == [('\n')] + Join(kept, "\n");
      TrimSpaceLeadingSpace('\n', Join(kept, "\n"));
    }
  }

  /** Opening the editor on a template of comment lines and a blank line
      before the current text, and saving it unchanged, gives back the
      current text cleaned as the editor result would be. */
  lemma TemplateRoundTrip(h1: string, h2: string, current: string)
    requires h1 != [] && h1[0] == '#' && !Contains(h1, "\n")
    requires h2 != [] && h2[0] == '#' && !Contains(h2, "\n")
    ensures EditorText(h1 + "\n" + h2 + "\n" + "\n" + current) == EditorText(current)
  {
    HashLine(h1);
    HashLine(h2);
    assert !IsComment("");
    TemplateLines(h1, h2, current);
    TemplateKept(h1, h2, Split(current, "\n"));
    BlankLineTrimmed(KeptLines(Split(current, "\n")));
  }

  // The two header lines are written as concatenations of short literals:
  // the verifier cannot show that a 60-character literal holds no newline
  // within its resource limit, while it can for each short piece.
  const TemplateHead1 := "# Enter co" + "mmit body " + "(lines sta" + "rting with" + " # will be" + " removed)"
  const TemplateHead2 := "# Explain " + "WHAT and W" + "HY, not HO" + "W"

  /** The template runExternalEditor writes before the current text. */
  function EditorTemplate(current: string): string {
    TemplateHead1 + "\n" + TemplateHead2 + "\n" + "\n" + current
  }

  /** The template's two header lines are comments and single lines. */
  lemma TemplateHeads()
    ensures TemplateHead1[0] == '#' && !Contains(TemplateHead1, "\n")
    ensures TemplateHead2[0] == '#' && !Contains(TemplateHead2, "\n")
  {
    NotContainsMissingChar(TemplateHead1, "\n", 0);
    NotContainsMissingChar(TemplateHead2, "\n", 0);
  }

  /** Saving the template unchanged gives back the current text, cleaned. */
  lemma EditorTemplateRoundTrip(current: string)
    ensures EditorText(EditorTemplate(current)) == EditorText(current)
  {
    TemplateHeads();
    TemplateRoundTrip(TemplateHead1, TemplateHead2, current);
  }

  /** The editor runExternalEditor starts: EDITOR, else VISUAL, else the
      first of vim, vi and nano found on the path; none is an error. */
  function ChooseEditor(editorEnv: string, visualEnv: string, onPath: string -> bool): (r: Option<string>)
    ensures editorEnv != "" ==> r == Some(editorEnv)
    ensures editorEnv == "" && visualEnv != "" ==> r == Some(visualEnv)
    ensures r.None? <==> editorEnv == "" && visualEnv == "" && !onPath("vim") && !onPath("vi") && !onPath("nano")
  {
    if editorEnv != "" then Some(editorEnv)
    else if visualEnv != "" then Some(visualEnv)
    else if onPath("vim") then Some("vim")
    else if onPath("vi") then Some("vi")
    else if onPath("nano") then Some("nano")
    else None
  }

  // ---------------------------------------------------------------------
  // The body preview and the restart loop of runInputs.
  // ---------------------------------------------------------------------

  const PreviewLen := 50

  /** The longest prefix of whole characters that fits in n bytes. */
  function PrefixBytes(s: string, n: int): (p: string)
    ensures |p| <= |s| && p == s[..|p|] && ByteLen(p) <= (if n < 0 then 0 else n)
  {
    if s == [] || Utf8Len(s[0]) > n then []
    else
      var rest := PrefixBytes(s[1..], n - Utf8Len(s[0]));
      assert ([s[0]] + rest)[1..] == rest;
      [s[0]] + rest
  }

  lemma {:induction false} PrefixBytesAscii(s: string, n: nat)
    requires IsAscii(s) && n <= |s|
    ensures PrefixBytes(s, n) == s[..n]
  {
    if n > 0 {
      assert IsAscii(s[1..]) by {
        forall i | 0 <= i < |s| - 1 ensures s[1..][i] < '\U{80}' {
          assert s[1..][i] == s[i + 1];
        }
      }
      PrefixBytesAscii(s[1..], n - 1);
      assert [s[0]] + s[1..][..n - 1] == s[..n];
    }
  }

  /** The single-line preview put into the body field after editing. */
  function Preview(content: string): (p: string)
    ensures '\n' !in p
  {
    var flat := ReplaceChar(content, '\n', ' ');
    if ByteLen(flat) > PreviewLen then PrefixBytes(flat, PreviewLen) + "..." else flat
  }

  /** An ASCII preview is the flattened text when it fits in fifty
      characters, and otherwise its first fifty followed by "...". */
  lemma PreviewAscii(content: string)
    requires IsAscii(content)
    ensures var flat := ReplaceChar(content, '\n', ' ');
      && (|flat| <= PreviewLen ==> Preview(content) == flat)
      && (|flat| > PreviewLen ==> Preview(content) == flat[..PreviewLen] + "...")
  {
    var flat := ReplaceChar(content, '\n', ' ');
    assert IsAscii(flat);
    ByteLenAscii(flat);
    if |flat| > PreviewLen {
      PrefixBytesAscii(flat, PreviewLen);
    }
  }

  datatype RunOutcome = Aborted | Submitted(result: InputsResult) | Restart(next: InputsState)

  /** One pass of runInputs' loop after the form program ends: quitting
      aborts, a submit returns the result, and a request for the editor
      runs it and restarts the form. edited is the editor's outcome. */
  function RunPass(s: InputsState, edited: Option<string>): (r: RunOutcome)
    requires |s.values| == FieldCount
    ensures s.quitting ==> r == Aborted
    ensures !s.quitting && s.submitted ==> r == Submitted(Result(s))
    ensures r.Restart? ==> !r.next.wantEditor && |r.next.values| == FieldCount
  {
    if s.quitting then Aborted
    else if s.submitted then Submitted(Result(s))
    else if s.wantEditor then
      var t := if edited.Some? then
        s.(bodyText := edited.value, values := s.values[BodyField := Preview(edited.value)])
      else s;
      Restart(t.(wantEditor := false))
    else Restart(s)
  }

  /** The text the editor opens with: the earlier editor text, else the body field. */
  function EditorInitial(s: InputsState): string
    requires |s.values| == FieldCount
  {
    if s.bodyText == "" then s.values[BodyField] else s.bodyText
  }

  /** After a successful edit the body field shows the preview, the result
      takes the full edited text, and the other fields are kept. */
  lemma EditKeepsText(s: InputsState, text: string)
    requires |s.values| == FieldCount && !s.quitting && !s.submitted && s.wantEditor
    ensures RunPass(s, Some(text)).Restart?
    ensures var t := RunPass(s, Some(text)).next;
      && t.bodyText == text && t.values[BodyField] == Preview(text)
      && Result(t).body == TrimSpace(text)
      && forall i :: 0 <= i < FieldCount && i != BodyField ==> t.values[i] == s.values[i]
  {
    var p := Preview(text);
    var t := s.(bodyText := text, values := s.values[BodyField := p], wantEditor := false);
    assert RunPass(s, Some(text)) == Restart(t);
    if text == "" {
      assert ReplaceChar(text, '\n', ' ') == "";
      assert p == "";
    }
    assert t.values[BodyField] == p;
  }
}
