/** internal/ui/commit/model.go: the commit preview that asks for confirmation,
    and the three-step commit flow that ends in it. */
module CommitConfirm {
  import opened Wrappers
  import opened Commit

  /** confirmModel; `selected` is 0 for the Commit button, 1 for Cancel. */
  datatype ConfirmState = ConfirmState(msg: CommitMessage, confirmed: bool, cancelled: bool, selected: int)

  datatype Cmd = NoCmd | Quit

  datatype Msg = KeyMsg(key: string) | OtherMsg

  function NewConfirm(msg: CommitMessage): (s: ConfirmState)
    ensures s.msg == msg && !s.confirmed && !s.cancelled && s.selected == 0
  {
    ConfirmState(msg, false, false, 0)
  }

  /** Go's `%` truncates toward zero; for the non-negative selections
      it agrees with Dafny's. */
  function GoRem2(a: int): (r: int)
    ensures a >= 0 ==> r == a % 2
  {
    if a >= 0 then a % 2 else -((-a) % 2)
  }

  /** confirmModel.Update on one message. */
  function Step(s: ConfirmState, m: Msg): (ConfirmState, Cmd) {
    match m
    case OtherMsg => (s, NoCmd)
    case KeyMsg(key) =>
      if key == "ctrl+c" || key == "esc" || key == "n" then
        (s.(cancelled := true), Quit)
      else if key == "enter" then
        (if s.selected == 0 then s.(confirmed := true) else s.(cancelled := true), Quit)
      else if key == "y" then
        (s.(confirmed := true), Quit)
      else if key == "left" || key == "h" then
        (s.(selected := 0), NoCmd)
      else if key == "right" || key == "l" then
        (s.(selected := 1), NoCmd)
      else if key == "tab" then
        (s.(selected := GoRem2(s.selected + 1)), NoCmd)
      else
        (s, NoCmd)
  }

  predicate IsCancelKey(key: string) {
    key == "ctrl+c" || key == "esc" || key == "n"
  }

  /** The cancelling keys and the confirming keys, each with the command it returns;
      the message itself is never changed. */
  lemma KeyOutcomes(s: ConfirmState, key: string)
    ensures Step(s, KeyMsg(key)).0.msg == s.msg
    ensures IsCancelKey(key) ==> Step(s, KeyMsg(key)).0.cancelled && Step(s, KeyMsg(key)).1 == Quit
    ensures key == "y" ==> Step(s, KeyMsg(key)).0.confirmed && Step(s, KeyMsg(key)).1 == Quit
    ensures key == "enter" && s.selected == 0 ==>
      Step(s, KeyMsg(key)).0 == s.(confirmed := true) && Step(s, KeyMsg(key)).1 == Quit
    ensures key == "enter" && s.selected != 0 ==>
      Step(s, KeyMsg(key)).0 == s.(cancelled := true) && Step(s, KeyMsg(key)).1 == Quit
    ensures Step(s, KeyMsg(key)).1 == Quit <==> IsCancelKey(key) || key == "enter" || key == "y"
  {
  }

  /** Only the selection keys move the selection, and it stays a button index. */
  lemma SelectionStaysInRange(s: ConfirmState, m: Msg)
    requires s.selected == 0 || s.selected == 1
    ensures var t := Step(s, m).0; t.selected == 0 || t.selected == 1
    ensures m == KeyMsg("left") || m == KeyMsg("h") ==> Step(s, m).0.selected == 0
    ensures m == KeyMsg("right") || m == KeyMsg("l") ==> Step(s, m).0.selected == 1
    ensures m == KeyMsg("tab") ==> Step(s, m).0.selected == 1 - s.selected
    ensures Step(s, m).0.selected != s.selected ==>
      m in {KeyMsg("left"), KeyMsg("h"), KeyMsg("right"), KeyMsg("l"), KeyMsg("tab")}
  {
  }

  /** Keys applied one after another until one of them quits the program. */
  function Run(s: ConfirmState, keys: seq<string>): ConfirmState
    decreases |keys|
  {
    if keys == [] then s
    else
      var (t, cmd) := Step(s, KeyMsg(keys[0]));
      if cmd == Quit then t else Run(t, keys[1..])
  }

  /** Any sequence of keys keeps `selected` in {0, 1}. */
  lemma {:induction false} RunSelectionInRange(s: ConfirmState, keys: seq<string>)
    requires s.selected == 0 || s.selected == 1
    ensures Run(s, keys).selected == 0 || Run(s, keys).selected == 1
    decreases |keys|
  {
    if keys != [] {
      SelectionStaysInRange(s, KeyMsg(keys[0]));
      RunSelectionInRange(Step(s, KeyMsg(keys[0])).0, keys[1..]);
    }
  }

  /** From a state with neither flag set, one key never sets both. */
  lemma NeverBoth(s: ConfirmState, m: Msg)
    requires !s.confirmed && !s.cancelled
    ensures !(Step(s, m).0.confirmed && Step(s, m).0.cancelled)
    ensures Step(s, m).1 == Quit <==> Step(s, m).0.confirmed || Step(s, m).0.cancelled
  {
  }

  /** The preview is drawn only while undecided; `preview` stands for the
      rendered commit message and buttons. */
  function View(s: ConfirmState, preview: string): (v: string)
    ensures v == "" <==> s.confirmed || s.cancelled
    ensures !s.confirmed && !s.cancelled ==> v == preview + "\n"
  {
    if s.confirmed || s.cancelled then "" else preview + "\n"
  }

  /** confirmModel, with its Update applied in place. */
  class ConfirmModel {
    const msg: CommitMessage
    var confirmed: bool
    var cancelled: bool
    var selected: int

    function Snapshot(): ConfirmState
      reads this
    {
      ConfirmState(msg, confirmed, cancelled, selected)
    }

    constructor(msg: CommitMessage)
      ensures Snapshot() == NewConfirm(msg)
    {
      this.msg := msg;
      confirmed := false;
      cancelled := false;
      selected := 0;
    }

    method Update(m: Msg) returns (cmd: Cmd)
      modifies this
      ensures (Snapshot(), cmd) == Step(old(Snapshot()), m)
    {
      cmd := NoCmd;
      if m.KeyMsg? {
        var key := m.key;
        if key == "ctrl+c" || key == "esc" || key == "n" {
          cancelled := true;
          cmd := Quit;
        } else if key == "enter" {
          if selected == 0 {
            confirmed := true;
          } else {
            cancelled := true;
          }
          cmd := Quit;
        } else if key == "y" {
          confirmed := true;
          cmd := Quit;
        } else if key == "left" || key == "h" {
          selected := 0;
        } else if key == "right" || key == "l" {
          selected := 1;
        } else if key == "tab" {
          selected := GoRem2(selected + 1);
        }
      }
    }
  }

  /** The error kinds the flow distinguishes: the user aborting, or any other failure. */
  datatype FlowError = UserAborted | Failed(text: string)

  /** confirmCommit: a program error passes through, a cancelled model becomes
      UserAborted, otherwise the confirmation flag is the answer. */
  function ConfirmCommit(programErr: Option<string>, final: ConfirmState): (r: Result<bool, FlowError>)
    ensures programErr.Some? ==> r == Failure(Failed(programErr.value))
    ensures programErr.None? && final.cancelled ==> r == Failure(UserAborted)
    ensures r == Success(true) <==> programErr.None? && !final.cancelled && final.confirmed
  {
    if programErr.Some? then Failure(Failed(programErr.value))
    else if final.cancelled then Failure(UserAborted)
    else Success(final.confirmed)
  }

  /** Result of the commit flow. */
  datatype FlowResult = FlowResult(cancelled: bool, err: Option<string>, message: CommitMessage)

  const NoMessage := CommitMessage("", "", "", "", "", "")

  /** The message Run builds: an empty body is replaced by the subject. */
  function BuildMessage(typ: string, scope: string, subject: string, body: string, footer: string, sob: string): (m: CommitMessage)
    ensures m.typ == typ && m.scope == scope && m.subject == subject && m.footer == footer && m.sob == sob
    ensures body == "" ==> m.body == subject
    ensures body != "" ==> m.body == body
  {
    CommitMessage(typ, scope, subject, if body == "" then subject else body, footer, sob)
  }

  /** The selector, the input form, the confirmation and the commit are the four
      effects of Run; their outcomes are parameters. `inputs` carries
      (scope, subject, body, footer). */
  function RunFlow(selector: Result<string, FlowError>,
                   inputs: Result<(string, string, string, string), FlowError>,
                   sob: string,
                   confirm: Result<bool, FlowError>,
                   commitErr: Option<string>): FlowResult
  {
    if selector.Failure? then
      (if selector.error == UserAborted then FlowResult(true, None, NoMessage)
       else FlowResult(false, Some(selector.error.text), NoMessage))
    else if inputs.Failure? then
      (if inputs.error == UserAborted then FlowResult(true, None, NoMessage)
       else FlowResult(false, Some(inputs.error.text), NoMessage))
    else
      var (scope, subject, body, footer) := inputs.value;
      var msg := BuildMessage(selector.value, scope, subject, body, footer, sob);
      if confirm.Failure? then
        (if confirm.error == UserAborted then FlowResult(true, None, msg)
         else FlowResult(false, Some(confirm.error.text), msg))
      else if !confirm.value then FlowResult(true, None, msg)
      else if commitErr.Some? then FlowResult(false, commitErr, msg)
      else FlowResult(false, None, msg)
  }

  /** A flow is never both cancelled and failed; it is cancelled exactly when some
      step was aborted by the user or the preview was not confirmed, and the
      commit is reached only after a confirmation. */
  lemma RunFlowOutcome(selector: Result<string, FlowError>,
                       inputs: Result<(string, string, string, string), FlowError>,
                       sob: string, confirm: Result<bool, FlowError>, commitErr: Option<string>)
    ensures var r := RunFlow(selector, inputs, sob, confirm, commitErr); !(r.cancelled && r.err.Some?)
    ensures RunFlow(selector, inputs, sob, confirm, commitErr).cancelled <==>
      selector == Failure(UserAborted)
      || (selector.Success? && inputs == Failure(UserAborted))
      || (selector.Success? && inputs.Success? && (confirm == Failure(UserAborted) || confirm == Success(false)))
    ensures var r := RunFlow(selector, inputs, sob, confirm, commitErr);
      !r.cancelled && r.err == None <==>
        selector.Success? && inputs.Success? && confirm == Success(true) && commitErr.None?
  {
  }

  /** Once the input form succeeds, the message carries its fields, with an empty
      body replaced by the subject, whatever happens afterwards. */
  lemma RunFlowMessage(typ: string, scope: string, subject: string, body: string, footer: string,
                       sob: string, confirm: Result<bool, FlowError>, commitErr: Option<string>)
    ensures var m := RunFlow(Success(typ), Success((scope, subject, body, footer)), sob, confirm, commitErr).message;
      m.typ == typ && m.scope == scope && m.subject == subject && m.footer == footer && m.sob == sob
      && m.body == (if body == "" then subject else body)
  {
  }

  /** A whole session on the confirmation screen never ends both confirmed and
      cancelled, and confirmCommit reports it accordingly. */
  lemma {:induction false} SessionDecides(s: ConfirmState, keys: seq<string>)
    requires !s.confirmed && !s.cancelled
    ensures var f := Run(s, keys); !(f.confirmed && f.cancelled)
    ensures var f := Run(s, keys); f.msg == s.msg
    ensures var f := Run(s, keys);
      ConfirmCommit(None, f) == (if f.cancelled then Failure(UserAborted) else Success(f.confirmed))
    decreases |keys|
  {
    if keys != [] {
      NeverBoth(s, KeyMsg(keys[0]));
      KeyOutcomes(s, keys[0]);
      var (t, cmd) := Step(s, KeyMsg(keys[0]));
      if cmd != Quit {
        SessionDecides(t, keys[1..]);
      }
    }
  }
}
