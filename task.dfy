/** The runners of internal/ui/common/task.go. A multi-task model runs
    its tasks one after another: a failure stops the run, a warning does not.
    A single-task model tracks one task. Running a task is a command the
    model hands out; each completion comes back as a message. */
module Task {
  import opened Wrappers

  datatype TaskState = TaskPending | TaskRunning | TaskSuccess | TaskWarning | TaskFailed

  /** The iota values of the task states. */
  function StateValue(s: TaskState): (n: nat)
    ensures n <= 4
  {
    match s
    case TaskPending => 0
    case TaskRunning => 1
    case TaskSuccess => 2
    case TaskWarning => 3
    case TaskFailed => 4
  }

  lemma StateValues()
    ensures StateValue(TaskPending) == 0 && StateValue(TaskRunning) == 1 && StateValue(TaskSuccess) == 2
    ensures StateValue(TaskWarning) == 3 && StateValue(TaskFailed) == 4
    ensures forall s, t :: StateValue(s) == StateValue(t) ==> s == t
  {
  }

  /** The errors a task can return: a warning, a plain error, or an error
      that wraps another one. */
  datatype TaskError =
    | WarnErr(msg: string)
    | Plain(text: string)
    | Wrapped(text: string, cause: TaskError)

  /** The error's message. */
  function Message(e: TaskError): string {
    match e
    case WarnErr(msg) => msg
    case Plain(text) => text
    case Wrapped(text, _) => text
  }

  /** errors.As into WarnErr: the error or one it wraps is a warning. */
  predicate IsWarnErr(e: TaskError) {
    match e
    case WarnErr(_) => true
    case Plain(_) => false
    case Wrapped(_, cause) => IsWarnErr(cause)
  }

  lemma WarnErrVectors()
    ensures Message(WarnErr("test warning")) == "test warning"
    ensures IsWarnErr(WarnErr("test warning")) && !IsWarnErr(Plain("normal error"))
    ensures IsWarnErr(Wrapped("hooks: warning", WarnErr("warning")))
  {
  }

  /** An error that stops the run. */
  predicate Fatal(err: Option<TaskError>) {
    err.Some? && !IsWarnErr(err.value)
  }

  /** The state a finished task takes for its error. */
  function Outcome(err: Option<TaskError>): (s: TaskState)
    ensures s == TaskSuccess <==> err == None
    ensures s == TaskWarning <==> err.Some? && IsWarnErr(err.value)
    ensures s == TaskFailed <==> Fatal(err)
  {
    if err == None then TaskSuccess
    else if IsWarnErr(err.value) then TaskWarning
    else TaskFailed
  }

  datatype Msg =
    | KeyMsg(key: string)
    | SpinnerTick
    | TaskDone(index: int, err: Option<TaskError>)
    | OtherMsg

  datatype Cmd = NoCmd | Quit | SpinnerCmd | RunTask(index: int) | DelayedQuit

  /** The keys that quit a task model. */
  predicate IsQuitKey(key: string) {
    key == "ctrl+c" || key == "q"
  }

  /** The mutable part of a multi-task model. */
  datatype RunState = RunState(states: seq<TaskState>, errors: seq<Option<TaskError>>, currentTask: int, done: bool)

  /** NewMultiTaskModel for `n` tasks. */
  function NewRunner(n: nat): (r: RunState)
    ensures |r.states| == n && |r.errors| == n
    ensures n > 0 ==> r.states[0] == TaskRunning
    ensures forall i :: 0 < i < n ==> r.states[i] == TaskPending
    ensures forall i :: 0 <= i < n ==> r.errors[i] == None
    ensures r.currentTask == 0 && !r.done
  {
    var states := seq(n, i => TaskPending);
    RunState(if n > 0 then states[0 := TaskRunning] else states, seq(n, i => None), 0, false)
  }

  /** The fields a task-done message may touch are there. */
  predicate Indexable(r: RunState, i: int) {
    |r.errors| == |r.states| && 0 <= i < |r.states| && 0 <= r.currentTask
  }

  /** The task-done branch of MultiTaskModel.Update for task `i`. */
  function Finish(r: RunState, i: int, err: Option<TaskError>): (RunState, Cmd)
    requires Indexable(r, i)
  {
    var states := r.states[i := Outcome(err)];
    var errors := if err.Some? then r.errors[i := err] else r.errors;
    if Fatal(err) then (RunState(states, errors, r.currentTask, true), Quit)
    else
      var next := r.currentTask + 1;
      if next >= |r.states| then (RunState(states, errors, next, true), Quit)
      else (RunState(states[next := TaskRunning], errors, next, r.done), RunTask(next))
  }

  /** MultiTaskModel.Update on the runner's fields. */
  function Step(r: RunState, msg: Msg): (RunState, Cmd)
    requires msg.TaskDone? ==> Indexable(r, msg.index)
  {
    match msg
    case KeyMsg(key) => (r, if IsQuitKey(key) then Quit else NoCmd)
    case SpinnerTick => (r, SpinnerCmd)
    case TaskDone(i, err) => Finish(r, i, err)
    case OtherMsg => (r, NoCmd)
  }

  /** States and errors agree: only warnings and failures keep an error. */
  predicate ErrorMatches(s: TaskState, e: Option<TaskError>) {
    match s
    case TaskWarning => e.Some? && IsWarnErr(e.value)
    case TaskFailed => Fatal(e)
    case _ => e == None
  }

  predicate Completed(s: TaskState) {
    s == TaskSuccess || s == TaskWarning
  }

  /** The run so far: tasks before the current one completed, the current
      one running (or failed once done), the rest pending. */
  predicate RunInvariant(r: RunState) {
    var n := |r.states|;
    |r.errors| == n && 0 <= r.currentTask <= n
    && (forall i :: 0 <= i < r.currentTask ==> Completed(r.states[i]))
    && (forall i :: r.currentTask < i < n ==> r.states[i] == TaskPending)
    && (r.currentTask < n ==> r.states[r.currentTask] == if r.done then TaskFailed else TaskRunning)
    && (r.currentTask == n && n > 0 ==> r.done)
    && (forall i :: 0 <= i < n ==> ErrorMatches(r.states[i], r.errors[i]))
  }

  lemma InitInvariant(n: nat)
    ensures RunInvariant(NewRunner(n))
  {
  }

  /** The messages the runner receives keep the invariant, provided a
      task-done message reports the task it started. */
  lemma StepInvariant(r: RunState, msg: Msg)
    requires RunInvariant(r)
    requires msg.TaskDone? ==> msg.index == r.currentTask < |r.states| && !r.done
    ensures RunInvariant(Step(r, msg).0)
  {
    if msg.TaskDone? {
      var (r', _) := Step(r, msg);
      assert r'.states[..r.currentTask] == r.states[..r.currentTask];
      forall i | 0 <= i < |r'.states| ensures ErrorMatches(r'.states[i], r'.errors[i]) {
        if i != r.currentTask && i != r.currentTask + 1 {
          assert r'.states[i] == r.states[i] && r'.errors[i] == r.errors[i];
        }
      }
    }
  }

  /** At most one task runs at a time. */
  lemma OneRunning(r: RunState, i: int, j: int)
    requires RunInvariant(r)
    requires 0 <= i < |r.states| && 0 <= j < |r.states|
    requires r.states[i] == TaskRunning && r.states[j] == TaskRunning
    ensures i == j == r.currentTask
  {
  }

  /** A failure records its error, stops the run and leaves the current task. */
  lemma FatalStops(r: RunState, err: Option<TaskError>)
    requires Indexable(r, r.currentTask) && Fatal(err)
    ensures var (r', cmd) := Finish(r, r.currentTask, err);
      r'.done && cmd == Quit && r'.currentTask == r.currentTask
      && r'.states == r.states[r.currentTask := TaskFailed]
      && r'.errors == r.errors[r.currentTask := err]
  {
  }

  /** Success or a warning moves on: the next task runs, or the run is done
      after the last one. */
  lemma ContinueAdvances(r: RunState, err: Option<TaskError>)
    requires Indexable(r, r.currentTask) && !Fatal(err)
    ensures var (r', cmd) := Finish(r, r.currentTask, err);
      var next := r.currentTask + 1;
      r'.currentTask == next
      && r'.states[r.currentTask] == Outcome(err)
      && (next < |r.states| ==> r'.states[next] == TaskRunning && cmd == RunTask(next) && r'.done == r.done)
      && (next >= |r.states| ==> r'.done && cmd == Quit)
  {
  }

  /** ctrl+c and q quit; no key touches the states or errors. */
  lemma KeysKeepState(r: RunState, key: string)
    ensures Step(r, KeyMsg(key)).0 == r
    ensures Step(r, KeyMsg(key)).1 == Quit <==> key in ["ctrl+c", "q"]
  {
  }

  /** HasError's condition: some task failed with an error. */
  predicate SomeFailure(states: seq<TaskState>, errors: seq<Option<TaskError>>)
    requires |errors| == |states|
  {
    exists i :: 0 <= i < |errors| && errors[i].Some? && states[i] == TaskFailed
  }

  /** Under the invariant a failure is exactly a failed state: warnings alone
      never count. */
  lemma FailureIsFailedState(r: RunState)
    requires RunInvariant(r)
    ensures SomeFailure(r.states, r.errors) <==> exists i :: 0 <= i < |r.states| && r.states[i] == TaskFailed
  {
    if exists i :: 0 <= i < |r.states| && r.states[i] == TaskFailed {
      var i :| 0 <= i < |r.states| && r.states[i] == TaskFailed;
      assert ErrorMatches(r.states[i], r.errors[i]);
    }
  }

  lemma WarningsDoNotCount(states: seq<TaskState>, errors: seq<Option<TaskError>>)
    requires |errors| == |states|
    requires forall i :: 0 <= i < |states| ==> states[i] != TaskFailed
    ensures !SomeFailure(states, errors)
  {
  }

  /** The two-task cases of task_test.go, started as NewMultiTaskModel sets up. */
  lemma RunnerVectors(err: Option<TaskError>)
    ensures var (r, _) := Finish(NewRunner(2), 0, None);
      r.states[0] == TaskSuccess && r.currentTask == 1 && !r.done
    ensures var (r, _) := Finish(NewRunner(2), 0, Some(Plain("failed")));
      r.states[0] == TaskFailed && r.done
    ensures var (r, _) := Finish(NewRunner(2), 0, Some(WarnErr("warning")));
      r.states[0] == TaskWarning && !r.done
  {
  }

  /** The HasError case of task_test.go: false at first, false with a
      warning only, true once a task failed. */
  lemma HasErrorVectors()
    ensures !SomeFailure([TaskRunning, TaskPending], [None, None])
    ensures !SomeFailure([TaskWarning, TaskPending], [Some(WarnErr("warning")), None])
    ensures SomeFailure([TaskWarning, TaskFailed], [Some(WarnErr("warning")), Some(Plain("error"))])
  {
    var states := [TaskWarning, TaskFailed];
    var errors := [Some(WarnErr("warning")), Some(Plain("error"))];
    assert errors[1].Some? && states[1] == TaskFailed;
  }

  class MultiTaskModel {
    const names: seq<string>
    const title: string
    var states: seq<TaskState>
    var errors: seq<Option<TaskError>>
    var currentTask: int
    var done: bool

    function Snapshot(): RunState
      reads this
    {
      RunState(states, errors, currentTask, done)
    }

    ghost predicate Valid()
      reads this
    {
      |states| == |names| && RunInvariant(Snapshot())
    }

    /** NewMultiTaskModel. */
    constructor(title: string, names: seq<string>)
      ensures this.title == title && this.names == names
      ensures Snapshot() == NewRunner(|names|)
      ensures Valid()
    {
      this.title := title;
      this.names := names;
      var s := seq(|names|, i => TaskPending);
      if |names| > 0 {
        s := s[0 := TaskRunning];
      }
      states := s;
      errors := seq(|names|, i => None);
      currentTask := 0;
      done := false;
      InitInvariant(|names|);
    }

    /** Update: writes the done task's state and error, then stops or starts
        the next task. */
    method Update(msg: Msg) returns (cmd: Cmd)
      requires msg.TaskDone? ==> Indexable(Snapshot(), msg.index)
      modifies this
      ensures (Snapshot(), cmd) == Step(old(Snapshot()), msg)
      ensures old(Valid()) && (msg.TaskDone? ==> msg.index == old(currentTask) && !old(done)) ==> Valid()
    {
      if Valid() && (msg.TaskDone? ==> msg.index == currentTask && !done) {
        StepInvariant(Snapshot(), msg);
      }
      match msg {
        case KeyMsg(key) =>
          if key == "ctrl+c" || key == "q" {
            return Quit;
          }
          return NoCmd;
        case SpinnerTick =>
          return SpinnerCmd;
        case TaskDone(i, err) =>
          if err.Some? {
            if IsWarnErr(err.value) {
              states := states[i := TaskWarning];
            } else {
              states := states[i := TaskFailed];
            }
            errors := errors[i := err];
          } else {
            states := states[i := TaskSuccess];
          }
          if err.Some? && !IsWarnErr(err.value) {
            done := true;
            return Quit;
          }
          currentTask := currentTask + 1;
          if currentTask >= |states| {
            done := true;
            return Quit;
          }
          states := states[currentTask := TaskRunning];
          return RunTask(currentTask);
        case OtherMsg =>
          return NoCmd;
      }
    }

    /** HasError: scans the errors for a failed task. */
    method HasError() returns (b: bool)
      requires |errors| == |states|
      ensures b == SomeFailure(states, errors)
    {
      for i := 0 to |errors|
        invariant forall k :: 0 <= k < i ==> !(errors[k].Some? && states[k] == TaskFailed)
      {
        if errors[i].Some? && states[i] == TaskFailed {
          return true;
        }
      }
      return false;
    }
  }

  /** SingleTaskModel.Update on its state and error: a done message settles
      the state; a quit key or a spinner tick while active returns early;
      anything else starts a pending task. */
  function SingleStep(state: TaskState, err: Option<TaskError>, msg: Msg): (TaskState, Option<TaskError>, Cmd) {
    match msg
    case KeyMsg(key) =>
      if IsQuitKey(key) then (state, err, Quit)
      else (if state == TaskPending then TaskRunning else state, err, NoCmd)
    case SpinnerTick =>
      if state == TaskRunning || state == TaskPending then (state, err, SpinnerCmd)
      else (state, err, NoCmd)
    case TaskDone(_, e) =>
      (Outcome(e), if e.Some? then e else err, DelayedQuit)
    case OtherMsg =>
      (if state == TaskPending then TaskRunning else state, err, NoCmd)
  }

  /** A done message maps its error to the final state and keeps the error. */
  lemma SingleDone(state: TaskState, err: Option<TaskError>, index: int, e: Option<TaskError>)
    ensures var (s, e', cmd) := SingleStep(state, err, TaskDone(index, e));
      s == Outcome(e) && (e.Some? ==> e' == e) && cmd == DelayedQuit
  {
  }

  /** A message that is not a quit key, a tick or a done message moves a
      pending task to running and changes nothing else. */
  lemma SingleFallThrough(state: TaskState, err: Option<TaskError>, msg: Msg)
    requires msg.OtherMsg? || (msg.KeyMsg? && !IsQuitKey(msg.key))
    ensures var (s, e, cmd) := SingleStep(state, err, msg);
      s == (if state == TaskPending then TaskRunning else state) && e == err && cmd == NoCmd
  {
  }

  /** The cases of task_test.go: success, and failure keeping "failed". */
  lemma SingleVectors()
    ensures SingleStep(TaskRunning, None, TaskDone(0, None)).0 == TaskSuccess
    ensures var (s, e, _) := SingleStep(TaskRunning, None, TaskDone(0, Some(Plain("failed"))));
      s == TaskFailed && e.Some? && Message(e.value) == "failed"
  {
  }

  class SingleTaskModel {
    const message: string
    var state: TaskState
    var err: Option<TaskError>

    /** NewSingleTaskModel. */
    constructor(message: string)
      ensures this.message == message && state == TaskPending && err == None
    {
      this.message := message;
      state := TaskPending;
      err := None;
    }

    method Update(msg: Msg) returns (cmd: Cmd)
      modifies this
      ensures (state, err, cmd) == SingleStep(old(state), old(err), msg)
    {
      match msg {
        case KeyMsg(key) =>
          if key == "ctrl+c" || key == "q" {
            return Quit;
          }
        case SpinnerTick =>
          if state == TaskRunning || state == TaskPending {
            return SpinnerCmd;
          }
        case TaskDone(_, e) =>
          if e.Some? {
            if IsWarnErr(e.value) {
              state := TaskWarning;
            } else {
              state := TaskFailed;
            }
            err := e;
          } else {
            state := TaskSuccess;
          }
          return DelayedQuit;
        case OtherMsg =>
      }
      if state == TaskPending {
        state := TaskRunning;
      }
      return NoCmd;
    }
  }
}
