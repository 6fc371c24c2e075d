/** internal/ui/install/model.go: the installation layout and the install and
    uninstall task lists. The file-system calls each task makes are parameters:
    the caller supplies their outcome. */
module Install {
  import opened Wrappers
  import opened GoStrings
  import Config
  import Task

  /** filepath.Join of two elements, without the lexical clean-up of "." and
      ".."; one trailing separator of the directory is not doubled. */
  function PathJoin(dir: string, name: string): (p: string)
    ensures dir == "" ==> p == name
    ensures dir != "" && name == "" ==> p == dir
    ensures dir != "" && name != "" ==> p == TrimSuffix(dir, "/") + "/" + name
  {
    if dir == "" then name
    else if name == "" then dir
    else TrimSuffix(dir, "/") + "/" + name
  }

  /** filepath.Base for a path without trailing separators: what follows the last '/'. */
  function Base(path: string): (b: string)
    ensures '/' !in b
  {
    var i := LastIndexChar(path, '/');
    NoSlashAfter(path, i);
    path[i + 1..]
  }

  lemma NoSlashAfter(path: string, i: int)
    requires -1 <= i < |path| && forall k :: i < k < |path| ==> path[k] != '/'
    ensures '/' !in path[i + 1..]
  {
    var b := path[i + 1..];
    forall k | 0 <= k < |b| ensures b[k] != '/' {
      assert b[k] == path[i + 1 + k];
    }
  }

  /** A name without separators is the base of any path it is joined to. */
  lemma BaseOfJoin(dir: string, name: string)
    requires dir != "" && name != "" && '/' !in name
    ensures Base(PathJoin(dir, name)) == name
  {
    var p := PathJoin(dir, name);
    var pre := TrimSuffix(dir, "/");
    assert p == pre + "/" + name;
    var i := |pre|;
    assert p[i] == '/';
    forall k | i < k < |p| ensures p[k] != '/' {
      assert p[k] == name[k - i - 1];
    }
    LastIndexCharAt(p, '/', i);
    assert p[i + 1..] == name;
  }

  /** The user whose home holds the toolkit directory. */
  datatype User = User(username: string, homeDir: string, uid: string, gid: string)

  /** getRealUser: under sudo, the user SUDO_USER names; otherwise the current one.
      `lookup` and `current` stand for the operating system's answers. */
  function GetRealUser(sudoUser: string, lookup: string -> Result<User, string>,
                       current: Result<User, string>): (r: Result<User, string>)
    ensures sudoUser != "" ==> r == lookup(sudoUser)
    ensures sudoUser == "" ==> r == current
  {
    if sudoUser != "" then lookup(sudoUser) else current
  }

  datatype Paths = Paths(home: string, binary: string, hooksDir: string, installDir: string, realUser: User)

  /** NewPaths: the toolkit home under the real user's home, the hooks directory
      under it, and the binary in the install directory. */
  function NewPaths(installDir: string, realUser: Result<User, string>): (r: Result<Paths, string>)
    ensures realUser.Failure? ==> r == Failure("failed to get user info: " + realUser.error)
    ensures realUser.Success? ==>
      r.Success?
      && r.value.home == PathJoin(realUser.value.homeDir, Config.ToolkitHomeDir)
      && r.value.binary == PathJoin(installDir, Config.BinaryName)
      && r.value.hooksDir == PathJoin(r.value.home, Config.HooksDir)
      && r.value.installDir == installDir && r.value.realUser == realUser.value
  {
    if realUser.Failure? then Failure("failed to get user info: " + realUser.error)
    else
      var home := PathJoin(realUser.value.homeDir, Config.ToolkitHomeDir);
      Success(Paths(home, PathJoin(installDir, Config.BinaryName), PathJoin(home, Config.HooksDir),
                    installDir, realUser.value))
  }

  /** NewPaths with the real user resolved as getRealUser does: under sudo the
      layout lives in the home of the user SUDO_USER names, whatever the
      current (root) user is; a failed lookup fails NewPaths with the wrapped
      error; without sudo the current user decides. With a non-empty home,
      the toolkit directory, the hooks directory and the binary are the last
      elements of their paths. */
  lemma RealUserPaths(installDir: string, sudoUser: string, lookup: string -> Result<User, string>,
                      current: Result<User, string>, otherCurrent: Result<User, string>)
    ensures sudoUser != "" ==>
      NewPaths(installDir, GetRealUser(sudoUser, lookup, current))
      == NewPaths(installDir, GetRealUser(sudoUser, lookup, otherCurrent))
    ensures sudoUser != "" && lookup(sudoUser).Failure? ==>
      NewPaths(installDir, GetRealUser(sudoUser, lookup, current))
      == Failure("failed to get user info: " + lookup(sudoUser).error)
    ensures sudoUser != "" && lookup(sudoUser).Success? ==>
      var r := NewPaths(installDir, GetRealUser(sudoUser, lookup, current));
      r.Success? && r.value.realUser == lookup(sudoUser).value
      && r.value.home == PathJoin(lookup(sudoUser).value.homeDir, Config.ToolkitHomeDir)
    ensures sudoUser == "" ==>
      (NewPaths(installDir, GetRealUser(sudoUser, lookup, current)).Success? <==> current.Success?)
    ensures sudoUser == "" && current.Success? ==>
      NewPaths(installDir, GetRealUser(sudoUser, lookup, current)).value.realUser == current.value
    ensures var r := NewPaths(installDir, GetRealUser(sudoUser, lookup, current));
      r.Success? && r.value.realUser.homeDir != "" && installDir != "" ==>
        Base(r.value.home) == Config.ToolkitHomeDir && Base(r.value.hooksDir) == Config.HooksDir
        && Base(r.value.binary) == Config.BinaryName
  {
    var r := NewPaths(installDir, GetRealUser(sudoUser, lookup, current));
    if r.Success? && r.value.realUser.homeDir != "" && installDir != "" {
      assert '/' !in Config.ToolkitHomeDir;
      assert '/' !in Config.HooksDir;
      assert '/' !in Config.BinaryName;
      BaseOfJoin(r.value.realUser.homeDir, Config.ToolkitHomeDir);
      assert r.value.home != "";
      BaseOfJoin(r.value.home, Config.HooksDir);
      BaseOfJoin(installDir, Config.BinaryName);
    }
  }

  /** Paths for a home directory such as the one model_test.go uses. */
  lemma NewPathsLayout(installDir: string, u: User)
    requires u.homeDir != "" && !HasSuffix(u.homeDir, "/") && installDir != "" && !HasSuffix(installDir, "/")
    ensures var p := NewPaths(installDir, Success(u)).value;
      p.home == u.homeDir + "/.gitflow-toolkit"
      && p.hooksDir == u.homeDir + "/.gitflow-toolkit/hooks"
      && p.binary == installDir + "/gitflow-toolkit"
  {
    var home := u.homeDir + "/.gitflow-toolkit";
    assert PathJoin(u.homeDir, Config.ToolkitHomeDir) == home;
    assert HasSuffix(home, "/") == false by {
      assert home[|home| - 1] == 't';
    }
    assert PathJoin(home, Config.HooksDir) == home + "/hooks";
  }

  /** The link of one command: `git-<name>` in the install directory. */
  function LinkPath(installDir: string, cmd: string): string {
    PathJoin(installDir, Config.GitCommandPrefix + cmd)
  }

  /** Paths.SymlinkPaths: one link per command of SymlinkCommands, in order. */
  method SymlinkPaths(p: Paths) returns (links: seq<string>)
    ensures |links| == |Config.SymlinkCommands()|
    ensures forall i :: 0 <= i < |links| ==> links[i] == LinkPath(p.installDir, Config.SymlinkCommands()[i])
  {
    var cmds := Config.SymlinkCommands();
    links := [];
    for i := 0 to |cmds|
      invariant |links| == i
      invariant forall k :: 0 <= k < i ==> links[k] == LinkPath(p.installDir, cmds[k])
    {
      links := links + [LinkPath(p.installDir, cmds[i])];
    }
  }

  /** The links of an install directory, as a value. */
  function Links(installDir: string): (links: seq<string>)
    ensures |links| == |Config.SymlinkCommands()|
    ensures forall i :: 0 <= i < |links| ==> links[i] == LinkPath(installDir, Config.SymlinkCommands()[i])
  {
    LinksOf(installDir, Config.SymlinkCommands())
  }

  function LinksOf(installDir: string, cmds: seq<string>): (links: seq<string>)
    ensures |links| == |cmds|
    ensures forall i :: 0 <= i < |links| ==> links[i] == LinkPath(installDir, cmds[i])
  {
    seq(|cmds|, i requires 0 <= i < |cmds| => LinkPath(installDir, cmds[i]))
  }

  /** Different commands give different links. */
  lemma LinkPathInjective(installDir: string, a: string, b: string)
    requires installDir != ""
    ensures LinkPath(installDir, a) == LinkPath(installDir, b) ==> a == b
  {
    var pre := TrimSuffix(installDir, "/") + "/" + Config.GitCommandPrefix;
    assert LinkPath(installDir, a) == pre + a;
    assert LinkPath(installDir, b) == pre + b;
    assert (pre + a)[|pre|..] == a;
    assert (pre + b)[|pre|..] == b;
  }

  /** A link is named `git-<command>`, the name its task's errors report. */
  lemma LinkBase(installDir: string, cmd: string)
    requires installDir != "" && '/' !in cmd
    ensures Base(LinkPath(installDir, cmd)) == Config.GitCommandPrefix + cmd
  {
    BaseOfJoin(installDir, Config.GitCommandPrefix + cmd);
  }

  /** No two links coincide, and each is named after its command. */
  lemma LinksAreDistinct(installDir: string)
    requires installDir != ""
    ensures Distinct(Links(installDir))
    ensures forall i :: 0 <= i < |Links(installDir)| ==>
      Base(Links(installDir)[i]) == Config.GitCommandPrefix + Config.SymlinkCommands()[i]
  {
    var cmds := Config.SymlinkCommands();
    NoSlashInCommands();
    DistinctLinksOf(installDir, cmds);
  }

  lemma DistinctLinksOf(installDir: string, cmds: seq<string>)
    requires installDir != "" && Distinct(cmds)
    requires forall i :: 0 <= i < |cmds| ==> '/' !in cmds[i]
    ensures Distinct(LinksOf(installDir, cmds))
    ensures forall i :: 0 <= i < |cmds| ==>
      Base(LinksOf(installDir, cmds)[i]) == Config.GitCommandPrefix + cmds[i]
  {
    var links := LinksOf(installDir, cmds);
    forall i, j | 0 <= i < j < |links| ensures links[i] != links[j] {
      LinkPathInjective(installDir, cmds[i], cmds[j]);
    }
    forall i | 0 <= i < |cmds| ensures Base(links[i]) == Config.GitCommandPrefix + cmds[i] {
      LinkBase(installDir, cmds[i]);
    }
  }

  lemma NoSlashInCommands()
    ensures Distinct(Config.SymlinkCommands())
    ensures forall i :: 0 <= i < |Config.SymlinkCommands()| ==> '/' !in Config.SymlinkCommands()[i]
  {
  }

  const InstallTaskNames: seq<string> := [
    "Clean existing installation",
    "Remove existing symlinks",
    "Unset global git hooks",
    "Create toolkit directory",
    "Install binary",
    "Create command symlinks",
    "Configure git hooks"
  ]

  const UninstallTaskNames: seq<string> := [
    "Remove toolkit directory",
    "Remove symlinks",
    "Remove binary",
    "Unset global git hooks"
  ]

  /** What each task's Run does. */
  datatype Job =
    | CleanHome | RemoveOldLinks | UnsetHooksPath | CreateHome | CopyBinary | CreateLinks
    | ConfigureHooks(withHook: bool)
    | RemoveHome | RemoveLinks | RemoveBinary

  datatype InstallTask = InstallTask(name: string, job: Job)

  /** InstallTasks: seven tasks in a fixed order; only the last depends on `withHook`. */
  function InstallTasks(withHook: bool): (tasks: seq<InstallTask>)
    ensures |tasks| == |InstallTaskNames| == 7
    ensures forall i :: 0 <= i < |tasks| ==> tasks[i].name == InstallTaskNames[i]
    ensures tasks[6].job == ConfigureHooks(withHook)
    ensures forall i :: 0 <= i < 6 ==> !tasks[i].job.ConfigureHooks?
  {
    [InstallTask(InstallTaskNames[0], CleanHome), InstallTask(InstallTaskNames[1], RemoveOldLinks),
     InstallTask(InstallTaskNames[2], UnsetHooksPath), InstallTask(InstallTaskNames[3], CreateHome),
     InstallTask(InstallTaskNames[4], CopyBinary), InstallTask(InstallTaskNames[5], CreateLinks),
     InstallTask(InstallTaskNames[6], ConfigureHooks(withHook))]
  }

  /** UninstallTasks: four tasks in a fixed order. */
  function UninstallTasks(): (tasks: seq<InstallTask>)
    ensures |tasks| == |UninstallTaskNames| == 4
    ensures forall i :: 0 <= i < |tasks| ==> tasks[i].name == UninstallTaskNames[i]
  {
    [InstallTask(UninstallTaskNames[0], RemoveHome), InstallTask(UninstallTaskNames[1], RemoveLinks),
     InstallTask(UninstallTaskNames[2], RemoveBinary), InstallTask(UninstallTaskNames[3], UnsetHooksPath)]
  }

  /** Install undoes any earlier installation before building a new one, and
      uninstall removes what install creates. */
  lemma TaskOrder(withHook: bool)
    ensures InstallTasks(withHook)[0].job == CleanHome && InstallTasks(withHook)[3].job == CreateHome
    ensures InstallTasks(withHook)[1].job == RemoveOldLinks && InstallTasks(withHook)[5].job == CreateLinks
    ensures InstallTasks(withHook)[2].name == UninstallTasks()[3].name
    ensures Distinct(InstallTaskNames) && Distinct(UninstallTaskNames)
  {
  }

  /** The outcome of a file-system call. */
  datatype IoResult = Ok | NotExist | IoErr(msg: string)

  /** An error wrapped with fmt.Errorf and %w. */
  function Wrap(context: string, cause: TaskError): (e: TaskError)
    ensures Task.Message(e) == context + ": " + Task.Message(cause)
    ensures Task.IsWarnErr(e) == Task.IsWarnErr(cause)
  {
    Task.Wrapped(context + ": " + Task.Message(cause), cause)
  }

  type TaskError = Task.TaskError

  function Fail(context: string, msg: string): TaskError {
    Wrap(context, Task.Plain(msg))
  }

  /** RemoveAll of a directory: a missing directory is no failure. */
  function RemoveDir(context: string, r: IoResult): (e: Option<TaskError>)
    ensures e.None? <==> !r.IoErr?
  {
    if r.IoErr? then Some(Fail(context, r.msg)) else None
  }

  /** The effects of creating the toolkit directory: MkdirAll, then the change of owner. */
  function CreateHomeRun(mkdir: Option<string>, chown: Option<string>): (e: Option<TaskError>)
    ensures mkdir.Some? ==> e == Some(Fail("failed to create directory", mkdir.value))
    ensures mkdir.None? && chown.Some? ==> e == Some(Task.Plain(chown.value))
    ensures e.None? <==> mkdir.None? && chown.None?
  {
    if mkdir.Some? then Some(Fail("failed to create directory", mkdir.value))
    else if chown.Some? then Some(Task.Plain(chown.value))
    else None
  }

  /** The effects of copying the running binary: locate it, open it, create the
      target, copy; the first failure is reported. */
  datatype CopyEffects = CopyEffects(lookPath: Option<string>, open: Option<string>,
                                     create: Option<string>, copy: Option<string>)

  function CopyBinaryRun(fx: CopyEffects): (e: Option<TaskError>)
    ensures e.None? <==> fx.lookPath.None? && fx.open.None? && fx.create.None? && fx.copy.None?
    ensures fx.lookPath.Some? ==> e == Some(Fail("failed to locate current binary", fx.lookPath.value))
  {
    if fx.lookPath.Some? then Some(Fail("failed to locate current binary", fx.lookPath.value))
    else if fx.open.Some? then Some(Fail("failed to open source binary", fx.open.value))
    else if fx.create.Some? then Some(Fail("failed to create target binary", fx.create.value))
    else if fx.copy.Some? then Some(Fail("failed to copy binary", fx.copy.value))
    else None
  }

  const HookWarning := "hook not installed (use --hook to enable)"

  /** The effects of configuring hooks: create the hooks directory, set its owner,
      link the commit-msg hook to the binary, point core.hooksPath at the directory. */
  datatype HookEffects = HookEffects(mkdir: Option<string>, chown: Option<string>,
                                     symlink: Option<string>, gitConfig: Option<string>)

  /** The hook task: a warning when hooks are not wanted, else the first failing step. */
  function ConfigureHooksRun(withHook: bool, fx: HookEffects): (e: Option<TaskError>)
    ensures !withHook ==> e == Some(Task.WarnErr(HookWarning))
    ensures withHook ==> (e.None? <==> fx.mkdir.None? && fx.chown.None? && fx.symlink.None? && fx.gitConfig.None?)
    ensures withHook && e.Some? ==> !Task.IsWarnErr(e.value)
  {
    if !withHook then Some(Task.WarnErr(HookWarning))
    else if fx.mkdir.Some? then Some(Fail("failed to create hooks directory", fx.mkdir.value))
    else if fx.chown.Some? then Some(Fail("failed to set hooks directory ownership", fx.chown.value))
    else if fx.symlink.Some? then Some(Fail("failed to create hook symlink", fx.symlink.value))
    else if fx.gitConfig.Some? then Some(Fail("failed to configure git hooks", fx.gitConfig.value))
    else None
  }

  /** Without --hook "Configure git hooks" ends as a warning, which the runner
      records without failing the installation; with it, a failure is fatal. */
  lemma HookTaskOutcome(withHook: bool, fx: HookEffects)
    ensures !withHook ==>
      Task.Outcome(ConfigureHooksRun(withHook, fx)) == Task.TaskWarning
      && !Task.Fatal(ConfigureHooksRun(withHook, fx))
    ensures withHook ==> Task.Outcome(ConfigureHooksRun(withHook, fx)) != Task.TaskWarning
  {
  }

  /** The loop over the links that removes earlier ones. With `strict`, a failed
      Lstat other than a missing link stops the loop (install); without it, the
      link is skipped (uninstall). */
  function RemoveLinksFrom(links: seq<string>, i: nat, strict: bool,
                           lstat: string -> IoResult, remove: string -> Option<string>): Option<TaskError>
    requires i <= |links|
    decreases |links| - i
  {
    if i == |links| then None
    else
      var link := links[i];
      var st := lstat(link);
      if st.Ok? then
        (if remove(link).Some? then Some(Fail("failed to remove " + Base(link), remove(link).value))
         else RemoveLinksFrom(links, i + 1, strict, lstat, remove))
      else if st.IoErr? && strict then Some(Fail("failed to check " + Base(link), st.msg))
      else RemoveLinksFrom(links, i + 1, strict, lstat, remove)
  }

  /** One link the removal loop gets past. */
  predicate LinkCleared(link: string, strict: bool, lstat: string -> IoResult, remove: string -> Option<string>) {
    (lstat(link).Ok? && remove(link).None?) || lstat(link).NotExist? || (lstat(link).IoErr? && !strict)
  }

  /** The removal loop succeeds exactly when it gets past every link. */
  lemma {:induction false} RemoveLinksSucceeds(links: seq<string>, i: nat, strict: bool,
                                                lstat: string -> IoResult, remove: string -> Option<string>)
    requires i <= |links|
    ensures RemoveLinksFrom(links, i, strict, lstat, remove).None? <==>
      forall k :: i <= k < |links| ==> LinkCleared(links[k], strict, lstat, remove)
    ensures RemoveLinksFrom(links, i, strict, lstat, remove).Some? ==>
      !Task.IsWarnErr(RemoveLinksFrom(links, i, strict, lstat, remove).value)
    decreases |links| - i
  {
    if i < |links| {
      RemoveLinksSucceeds(links, i + 1, strict, lstat, remove);
    }
  }

  /** The removal loops of "Remove existing symlinks" and "Remove symlinks". */
  method RemoveLinksRun(links: seq<string>, strict: bool,
                        lstat: string -> IoResult, remove: string -> Option<string>)
    returns (e: Option<TaskError>)
    ensures e == RemoveLinksFrom(links, 0, strict, lstat, remove)
  {
    var i := 0;
    while i < |links|
      invariant 0 <= i <= |links|
      invariant RemoveLinksFrom(links, 0, strict, lstat, remove) == RemoveLinksFrom(links, i, strict, lstat, remove)
    {
      var link := links[i];
      var st := lstat(link);
      if st.Ok? {
        var r := remove(link);
        if r.Some? {
          return Some(Fail("failed to remove " + Base(link), r.value));
        }
      } else if st.IoErr? && strict {
        return Some(Fail("failed to check " + Base(link), st.msg));
      }
      i := i + 1;
    }
    return None;
  }

  /** The loop of "Create command symlinks": every link points at the binary. */
  function CreateLinksFrom(links: seq<string>, i: nat, binary: string,
                           symlink: (string, string) -> Option<string>): Option<TaskError>
    requires i <= |links|
    decreases |links| - i
  {
    if i == |links| then None
    else if symlink(binary, links[i]).Some? then
      Some(Fail("failed to create " + Base(links[i]), symlink(binary, links[i]).value))
    else CreateLinksFrom(links, i + 1, binary, symlink)
  }

  /** The creation loop succeeds exactly when every link is created, and its
      failures are never warnings. */
  lemma {:induction false} CreateLinksSucceeds(links: seq<string>, i: nat, binary: string,
                                               symlink: (string, string) -> Option<string>)
    requires i <= |links|
    ensures CreateLinksFrom(links, i, binary, symlink).None? <==>
      forall k :: i <= k < |links| ==> symlink(binary, links[k]).None?
    ensures CreateLinksFrom(links, i, binary, symlink).Some? ==>
      !Task.IsWarnErr(CreateLinksFrom(links, i, binary, symlink).value)
    decreases |links| - i
  {
    if i < |links| {
      CreateLinksSucceeds(links, i + 1, binary, symlink);
    }
  }

  /** A failure names the first link that could not be made: every earlier
      link was created. */
  lemma {:induction false} CreateLinksFirstFailure(links: seq<string>, i: nat, k: nat, binary: string,
                                                   symlink: (string, string) -> Option<string>)
    requires i <= k < |links|
    requires forall j :: i <= j < k ==> symlink(binary, links[j]).None?
    requires symlink(binary, links[k]).Some?
    ensures CreateLinksFrom(links, i, binary, symlink) ==
      Some(Fail("failed to create " + Base(links[k]), symlink(binary, links[k]).value))
    decreases k - i
  {
    if i < k {
      CreateLinksFirstFailure(links, i + 1, k, binary, symlink);
    }
  }

  method CreateLinksRun(links: seq<string>, binary: string, symlink: (string, string) -> Option<string>)
    returns (e: Option<TaskError>)
    ensures e == CreateLinksFrom(links, 0, binary, symlink)
  {
    var i := 0;
    while i < |links|
      invariant 0 <= i <= |links|
      invariant CreateLinksFrom(links, 0, binary, symlink) == CreateLinksFrom(links, i, binary, symlink)
    {
      var r := symlink(binary, links[i]);
      if r.Some? {
        return Some(Fail("failed to create " + Base(links[i]), r.value));
      }
      i := i + 1;
    }
    return None;
  }

  /** Every outcome the tasks meet, one field per file-system call. */
  datatype Effects = Effects(
    removeHome: IoResult, lstat: string -> IoResult, remove: string -> Option<string>,
    mkdirHome: Option<string>, chownHome: Option<string>, copy: CopyEffects,
    symlink: (string, string) -> Option<string>, hooks: HookEffects, removeBinary: IoResult)

  /** A task's Run against the given outcomes. */
  function RunJob(p: Paths, job: Job, fx: Effects): Option<TaskError> {
    match job
    case CleanHome => RemoveDir("failed to remove " + p.home, fx.removeHome)
    case RemoveOldLinks => RemoveLinksFrom(Links(p.installDir), 0, true, fx.lstat, fx.remove)
    case UnsetHooksPath => None
    case CreateHome => CreateHomeRun(fx.mkdirHome, fx.chownHome)
    case CopyBinary => CopyBinaryRun(fx.copy)
    case CreateLinks => CreateLinksFrom(Links(p.installDir), 0, p.binary, fx.symlink)
    case ConfigureHooks(withHook) => ConfigureHooksRun(withHook, fx.hooks)
    case RemoveHome => RemoveDir("failed to remove toolkit directory", fx.removeHome)
    case RemoveLinks => RemoveLinksFrom(Links(p.installDir), 0, false, fx.lstat, fx.remove)
    case RemoveBinary => RemoveDir("failed to remove binary", fx.removeBinary)
  }

  /** Unsetting core.hooksPath ignores the git command's failure, so it never fails. */
  lemma UnsetNeverFails(p: Paths, fx: Effects)
    ensures RunJob(p, InstallTasks(true)[2].job, fx) == None
    ensures RunJob(p, UninstallTasks()[3].job, fx) == None
  {
  }

  /** Only the hook task can warn: every other task either succeeds or fails. */
  lemma OnlyHookTaskWarns(p: Paths, job: Job, fx: Effects)
    requires !job.ConfigureHooks?
    ensures var e := RunJob(p, job, fx); e.Some? ==> !Task.IsWarnErr(e.value)
  {
    if job == RemoveOldLinks || job == RemoveLinks {
      RemoveLinksSucceeds(Links(p.installDir), 0, job == RemoveOldLinks, fx.lstat, fx.remove);
    } else if job == CreateLinks {
      CreateLinksSucceeds(Links(p.installDir), 0, p.binary, fx.symlink);
    }
  }

  /** An installation whose every call succeeds, without --hook, ends with six
      successes and one warning, so the runner reports no failure. */
  lemma CleanInstallWithoutHook(p: Paths, fx: Effects, i: int)
    requires 0 <= i < 7
    requires !fx.removeHome.IoErr? && fx.mkdirHome.None? && fx.chownHome.None?
    requires fx.copy == CopyEffects(None, None, None, None)
    requires forall k :: 0 <= k < |Links(p.installDir)| ==> LinkCleared(Links(p.installDir)[k], true, fx.lstat, fx.remove)
    requires forall k :: 0 <= k < |Links(p.installDir)| ==> fx.symlink(p.binary, Links(p.installDir)[k]).None?
    ensures var e := RunJob(p, InstallTasks(false)[i].job, fx);
      Task.Outcome(e) == if i == 6 then Task.TaskWarning else Task.TaskSuccess
  {
    var job := InstallTasks(false)[i].job;
    RemoveLinksSucceeds(Links(p.installDir), 0, true, fx.lstat, fx.remove);
    CreateLinksSucceeds(Links(p.installDir), 0, p.binary, fx.symlink);
  }
}
