/**
 * The interpreter's global state: g_state (search path, current and
 * previous directory, last exit status, process id) together with the
 * alias list of builtins.c and the process environment, in one object.
 */
module State {
  import opened Options
  import opened Aliases
  import opened Text
  import opened Expander

  /** A snapshot of the state, as a value. */
  datatype World = World(
    pathList: seq<string>,
    pwd: string,
    oldpwd: string,
    exitStatus: int,
    shellPid: int,
    aliases: seq<Alias>,
    env: map<string, string>)

  /** What variable expansion reads from the state. */
  function Context(w: World): ExpandContext {
    ExpandContext(w.exitStatus, w.shellPid, w.pathList, w.env)
  }

  /** The state right after init_shell_state, given getcwd's answer, getpid's and the inherited environment. */
  function InitialWorld(cwd: Option<string>, pid: int, env: map<string, string>): (w: World)
    ensures w.pathList == ["/bin"] && |w.pathList| == 1
    ensures w.pwd == w.oldpwd
    ensures cwd.Some? ==> w.pwd == cwd.value
    ensures cwd.None? ==> w.pwd == "/"
    ensures w.exitStatus == 0 && w.shellPid == pid
    ensures w.aliases == [] && w.env == env
  {
    var dir := if cwd.Some? then cwd.value else "/";
    World(["/bin"], dir, dir, 0, pid, [], env)
  }

  /** In the initial state `$PATH` expands to "/bin" and `$?` to "0". */
  lemma InitialExpansions(cwd: Option<string>, pid: int, env: map<string, string>)
    ensures Expand("$PATH", Context(InitialWorld(cwd, pid, env))) == "/bin"
    ensures Expand("$?", Context(InitialWorld(cwd, pid, env))) == "0"
  {
    var ctx := Context(InitialWorld(cwd, pid, env));
    ExpandName("PATH", "", ctx);
    assert "$" + "PATH" + "" == "$PATH";
    ExpandStatus("", ctx);
    assert "$?" + "" == "$?";
    assert Decimal(0) == "0";
  }

  class Shell {
    var pathList: seq<string>
    var pathCount: int
    var pwd: string
    var oldpwd: string
    var exitStatus: int
    var shellPid: int
    var aliases: seq<Alias>
    var env: map<string, string>

    /** path_count counts path_list, and alias names are unique. */
    predicate Valid()
      reads this
    {
      pathCount == |pathList| && UniqueNames(aliases)
    }

    function Value(): World
      reads this
    {
      World(pathList, pwd, oldpwd, exitStatus, shellPid, aliases, env)
    }

    /** init_shell_state. */
    constructor Init(cwd: Option<string>, pid: int, environment: map<string, string>)
      ensures Valid()
      ensures Value() == InitialWorld(cwd, pid, environment)
    {
      pathCount := 1;
      pathList := ["/bin"];
      if cwd.Some? {
        pwd := cwd.value;
        oldpwd := cwd.value;
      } else {
        pwd := "/";
        oldpwd := "/";
      }
      exitStatus := 0;
      shellPid := pid;
      aliases := [];
      env := environment;
    }
  }
}
