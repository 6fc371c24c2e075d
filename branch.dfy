/** internal/ui/branch/model.go: the progress screen shown while a typed branch
    is created. */
module BranchUi {
  import opened Wrappers

  /** State, whose constants are numbered from zero by iota. */
  datatype State = StateCreating | StateSuccess | StateFailed

  function StateCode(st: State): (c: int)
    ensures 0 <= c <= 2
    ensures c == 0 <==> st == StateCreating
    ensures c == 1 <==> st == StateSuccess
    ensures c == 2 <==> st == StateFailed
  {
    match st
    case StateCreating => 0
    case StateSuccess => 1
    case StateFailed => 2
  }

  /** Model; the spinner is represented by its frame counter. */
  datatype Model = Model(branchType: string, branchName: string, fullName: string,
                         state: State, spinnerFrame: nat, err: Option<string>, result: string)

  /** NewModel: the full branch name joins type and name with a slash. */
  function NewModel(branchType: string, branchName: string): (m: Model)
    ensures m.fullName == branchType + "/" + branchName
    ensures m.branchType == branchType && m.branchName == branchName
    ensures m.state == StateCreating && m.err == None && m.result == "" && m.spinnerFrame == 0
  {
    Model(branchType, branchName, branchType + "/" + branchName, StateCreating, 0, None, "")
  }

  /** branchDoneMsg carries the outcome of git.CreateTypedBranch. */
  datatype Msg = KeyMsg(key: string) | SpinnerTick | BranchDone(result: string, doneErr: Option<string>) | OtherMsg

  /** The commands Update returns; QuitAfter is the delayed quit, in milliseconds. */
  datatype Cmd = NoCmd | Quit | SpinnerCmd | QuitAfter(millis: int)

  const AutoQuitMillis := 800

  predicate IsQuitKey(key: string) {
    key == "ctrl+c" || key == "q" || key == "esc" || key == "enter"
  }

  /** Model.Update on one message. */
  function Step(m: Model, msg: Msg): (Model, Cmd) {
    match msg
    case KeyMsg(key) =>
      if IsQuitKey(key) then (m, Quit) else (m, NoCmd)
    case SpinnerTick =>
      if m.state == StateCreating then (m.(spinnerFrame := m.spinnerFrame + 1), SpinnerCmd) else (m, NoCmd)
    case BranchDone(result, doneErr) =>
      if doneErr.Some? then (m.(state := StateFailed, err := doneErr), QuitAfter(AutoQuitMillis))
      else (m.(state := StateSuccess, result := result), QuitAfter(AutoQuitMillis))
    case OtherMsg => (m, NoCmd)
  }

  function Error(m: Model): (e: Option<string>)
    ensures e == m.err
  {
    m.err
  }

  function IsSuccess(m: Model): (b: bool)
    ensures b <==> m.state == StateSuccess
  {
    m.state == StateSuccess
  }

  /** A failed creation stores the error and keeps the result; a successful one
      stores the result; either way the program quits after the delay. */
  lemma DoneOutcome(m: Model, result: string, doneErr: Option<string>)
    ensures var (t, cmd) := Step(m, BranchDone(result, doneErr));
      cmd == QuitAfter(AutoQuitMillis) && t.fullName == m.fullName
    ensures doneErr.Some? ==> var t := Step(m, BranchDone(result, doneErr)).0;
      t.state == StateFailed && !IsSuccess(t) && Error(t) == doneErr && t.result == m.result
    ensures doneErr.None? ==> var t := Step(m, BranchDone(result, doneErr)).0;
      t.state == StateSuccess && IsSuccess(t) && t.result == result && t.err == m.err
  {
  }

  /** Keys never change the model, and they quit exactly for the four quit keys. */
  lemma KeyOutcome(m: Model, key: string)
    ensures Step(m, KeyMsg(key)).0 == m
    ensures Step(m, KeyMsg(key)).1 == Quit <==> IsQuitKey(key)
    ensures !IsQuitKey(key) ==> Step(m, KeyMsg(key)).1 == NoCmd
  {
  }

  /** The spinner advances, and asks for another tick, only while creating. */
  lemma SpinnerOnlyWhileCreating(m: Model)
    ensures Step(m, SpinnerTick).1 == SpinnerCmd <==> m.state == StateCreating
    ensures m.state != StateCreating ==> Step(m, SpinnerTick).0 == m
    ensures Step(m, SpinnerTick).0.state == m.state
  {
  }

  /** Messages applied in order. */
  function Run(m: Model, msgs: seq<Msg>): Model
    decreases |msgs|
  {
    if msgs == [] then m else Run(Step(m, msgs[0]).0, msgs[1..])
  }

  predicate NoDone(msgs: seq<Msg>) {
    forall i :: 0 <= i < |msgs| ==> !msgs[i].BranchDone?
  }

  /** Without a done message the state, the error and the result stay as they are;
      only the done message decides success. */
  lemma {:induction false} CreatingUntilDone(m: Model, msgs: seq<Msg>)
    requires NoDone(msgs)
    ensures var t := Run(m, msgs);
      t.state == m.state && t.err == m.err && t.result == m.result && t.fullName == m.fullName
    decreases |msgs|
  {
    if msgs != [] {
      assert !msgs[0].BranchDone?;
      assert NoDone(msgs[1..]) by {
        forall i | 0 <= i < |msgs[1..]| ensures !msgs[1..][i].BranchDone? {
          assert msgs[1..][i] == msgs[i + 1];
        }
      }
      CreatingUntilDone(Step(m, msgs[0]).0, msgs[1..]);
    }
  }

  /** A session that ends with its done message reports exactly that outcome. */
  lemma SessionOutcome(name: string, typ: string, msgs: seq<Msg>, result: string, doneErr: Option<string>)
    requires NoDone(msgs)
    ensures var t := Run(NewModel(typ, name), msgs + [BranchDone(result, doneErr)]);
      IsSuccess(t) <==> doneErr.None?
    ensures var t := Run(NewModel(typ, name), msgs + [BranchDone(result, doneErr)]);
      Error(t) == doneErr && (doneErr.None? ==> t.result == result) && (doneErr.Some? ==> t.result == "")
  {
    RunAppend(NewModel(typ, name), msgs, [BranchDone(result, doneErr)]);
    CreatingUntilDone(NewModel(typ, name), msgs);
  }

  lemma {:induction false} RunAppend(m: Model, a: seq<Msg>, b: seq<Msg>)
    ensures Run(m, a + b) == Run(Run(m, a), b)
    decreases |a|
  {
    if a == [] {
      assert a + b == b;
    } else {
      assert (a + b)[1..] == a[1..] + b;
      RunAppend(Step(m, a[0]).0, a[1..], b);
    }
  }

  /** Model, with its Update applied in place. */
  class BranchModel {
    const branchType: string
    const branchName: string
    const fullName: string
    var state: State
    var spinnerFrame: nat
    var err: Option<string>
    var result: string

    function Snapshot(): Model
      reads this
    {
      Model(branchType, branchName, fullName, state, spinnerFrame, err, result)
    }

    constructor(branchType: string, branchName: string)
      ensures Snapshot() == NewModel(branchType, branchName)
    {
      this.branchType := branchType;
      this.branchName := branchName;
      fullName := branchType + "/" + branchName;
      state := StateCreating;
      spinnerFrame := 0;
      err := None;
      result := "";
    }

    method Update(msg: Msg) returns (cmd: Cmd)
      modifies this
      ensures (Snapshot(), cmd) == Step(old(Snapshot()), msg)
    {
      match msg {
        case KeyMsg(key) =>
          cmd := if IsQuitKey(key) then Quit else NoCmd;
        case SpinnerTick =>
          cmd := NoCmd;
          if state == StateCreating {
            spinnerFrame := spinnerFrame + 1;
            cmd := SpinnerCmd;
          }
        case BranchDone(r, doneErr) =>
          if doneErr.Some? {
            state := StateFailed;
            err := doneErr;
          } else {
            state := StateSuccess;
            result := r;
          }
          cmd := QuitAfter(AutoQuitMillis);
        case OtherMsg =>
          cmd := NoCmd;
      }
    }
  }
}
