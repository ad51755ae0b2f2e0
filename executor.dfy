/**
 * The executor of executor.c: running a parsed sequence under the
 * `&&`/`||` skip rule, background commands, the dispatch of one command to
 * an alias, a builtin or an external program, the line re-parsed for an
 * alias, and the search path lookup. The operating system is the oracle Os.
 *
 * The functions SeqFrom, ExecSingle and ExecAlias are the specification;
 * ExecuteSequence, ExecuteSingleCommand and ExecuteAlias are the C routines
 * on the Shell object, proved equal to them. Alias re-execution can recurse
 * without end in C; here it is bounded by fuel, and running out of fuel is
 * the outcome OutOfFuel.
 */
module Executor {
  import opened Options
  import opened Text
  import opened ShellTypes
  import opened Expander
  import opened Parser
  import opened ParserProperties
  import opened Aliases
  import opened State
  import opened Oracle
  import opened Builtins

  /** How running something ends: with a status, by exit() of the interpreter, or out of fuel. */
  datatype Flow = Normal(status: int) | ShellExit(code: int) | OutOfFuel

  datatype Run = Run(flow: Flow, world: World)

  /** bg_pids holds this many pids. */
  const MaxBackground: nat := 64

  // ---------------------------------------------------------------------
  // find_in_path

  function FirstExecutable(dirs: seq<string>, name: string, os: Os, i: nat): (r: Option<string>)
    requires i <= |dirs|
    ensures r.Some? ==> exists k :: i <= k < |dirs| && r.value == dirs[k] + "/" + name
                                  && os.executable(r.value)
                                  && forall m :: i <= m < k ==> !os.executable(dirs[m] + "/" + name)
    ensures r.None? ==> forall k :: i <= k < |dirs| ==> !os.executable(dirs[k] + "/" + name)
    decreases |dirs| - i
  {
    if i == |dirs| then None
    else if os.executable(dirs[i] + "/" + name) then Some(dirs[i] + "/" + name)
    else FirstExecutable(dirs, name, os, i + 1)
  }

  /**
   * find_in_path: a name with a '/' stands for itself and resolves only if it
   * is executable; any other name resolves to the first dir/name, in search
   * path order, that is executable.
   */
  function FindInPath(name: string, dirs: seq<string>, os: Os): (r: Option<string>)
    ensures r.Some? ==> os.executable(r.value)
    ensures '/' in name ==> r == if os.executable(name) then Some(name) else None
    ensures '/' !in name && r.Some? ==>
      exists k :: 0 <= k < |dirs| && r.value == dirs[k] + "/" + name
                && forall m :: 0 <= m < k ==> !os.executable(dirs[m] + "/" + name)
    ensures '/' !in name && r.None? ==> forall k :: 0 <= k < |dirs| ==> !os.executable(dirs[k] + "/" + name)
  {
    if '/' in name then (if os.executable(name) then Some(name) else None)
    else FirstExecutable(dirs, name, os, 0)
  }

  method FindInPathLoop(sh: Shell, name: string, os: Os) returns (r: Option<string>)
    requires sh.Valid()
    ensures r == FindInPath(name, sh.pathList, os)
  {
    if '/' in name {
      if os.executable(name) {
        return Some(name);
      }
      return None;
    }
    var i := 0;
    while i < sh.pathCount
      invariant 0 <= i <= sh.pathCount
      invariant FirstExecutable(sh.pathList, name, os, i) == FirstExecutable(sh.pathList, name, os, 0)
    {
      var full := sh.pathList[i] + "/" + name;
      if os.executable(full) {
        return Some(full);
      }
      i := i + 1;
    }
    return None;
  }

  // ---------------------------------------------------------------------
  // The line of an alias

  /**
   * The line execute_alias parses: the alias value, then the extra
   * arguments separated by single spaces, with a space before the first
   * one only when the value is non-empty and does not end in a space.
   */
  function AliasLine(v: string, extra: seq<string>): string {
    v + (if extra != [] && v != [] && v[|v| - 1] != ' ' then " " else "") + Join(extra, ' ')
  }

  /** The strcat loop of execute_alias with its has_space flag. */
  method BuildAliasLine(v: string, args: seq<string>) returns (line: string)
    requires args != []
    ensures line == AliasLine(v, args[1..])
  {
    line := v;
    var hasSpace := v != [] && v[|v| - 1] != ' ';
    var i := 1;
    while i < |args|
      invariant 1 <= i <= |args|
      invariant hasSpace == (if i == 1 then v != [] && v[|v| - 1] != ' ' else true)
      invariant line == AliasLine(v, args[1..i])
    {
      assert args[1..i + 1][..i - 1] == args[1..i];
      if hasSpace {
        line := line + " ";
        hasSpace := false;
      }
      line := line + args[i];
      hasSpace := true;
      i := i + 1;
    }
    assert args[1..i] == args[1..];
  }

  // ---------------------------------------------------------------------
  // The specification

  /** The status of an external command: the fork, the child's redirection, lookup and execv, then waitpid. */
  function External(c: Command, w: World, os: Os): int
    requires c.args != []
  {
    match os.fork(c)
    case ForkFailed => 1
    case Forked(_) =>
      if c.redir.RedirOut? && !os.opens(c.redir.file) then 1
      else
        match FindInPath(c.args[0], w.pathList, os)
        case None => 127
        case Some(path) =>
          if !os.execs(path) then 126
          else
            match os.wait(path, c.args)
            case Exited(code) => code % 256
            case Signaled => 1
  }

  /** Command i is skipped: it follows `&&` after a failure, or `||` after a success. */
  predicate Skipped(cs: seq<Command>, i: nat, last: int)
    requires i < |cs|
  {
    i > 0 && ((cs[i - 1].nextOp == OpAnd && last != 0) || (cs[i - 1].nextOp == OpOr && last == 0))
  }

  /** The status a background command leaves: 0 when the fork succeeds, 1 when it fails. */
  function BackgroundStatus(c: Command, os: Os): int {
    if os.fork(c).Forked? then 0 else 1
  }

  /**
   * execute_sequence from command i on, with last the status so far: skip by
   * the `&&`/`||` rule, start background commands without waiting, run the
   * others, and stop after a command that ran in the foreground and is
   * followed by NONE; the final status is stored in exit_status.
   */
  function SeqFrom(cs: seq<Command>, i: nat, last: int, w: World, os: Os, fuel: nat): Run
    requires i <= |cs|
    decreases fuel, 2, |cs| - i
  {
    if i == |cs| then Run(Normal(last), w.(exitStatus := last))
    else if Skipped(cs, i, last) then SeqFrom(cs, i + 1, last, w, os, fuel)
    else if cs[i].nextOp == OpBg then SeqFrom(cs, i + 1, BackgroundStatus(cs[i], os), w, os, fuel)
    else
      var r := ExecSingle(cs[i], w, os, fuel);
      match r.flow
      case Normal(st) =>
        if cs[i].nextOp == OpNone then Run(Normal(st), r.world.(exitStatus := st))
        else SeqFrom(cs, i + 1, st, r.world, os, fuel)
      case _ => r
  }

  /** execute_single_command: no arguments is 0; then an alias, then a builtin, then an external program. */
  function ExecSingle(c: Command, w: World, os: Os, fuel: nat): Run
    decreases fuel, 1, 0
  {
    if c.args == [] then Run(Normal(0), w)
    else
      match Lookup(w.aliases, c.args[0])
      case Some(v) =>
        var r := ExecAlias(v, c.args, w, os, fuel);
        if r.flow.Normal? then Run(r.flow, r.world.(exitStatus := r.flow.status)) else r
      case None =>
        var b := Dispatch(c.args, w, os);
        match b.outcome
        case Terminate(code) => Run(ShellExit(code), b.world)
        case Status(n) =>
          if n != NotBuiltin then Run(Normal(n), b.world.(exitStatus := n))
          else
            var st := External(c, w, os);
            Run(Normal(st), w.(exitStatus := st))
  }

  /** execute_alias: parse the alias line and run it as a sequence; a line that does not parse gives 1. */
  function ExecAlias(v: string, args: seq<string>, w: World, os: Os, fuel: nat): Run
    requires args != []
    decreases fuel, 0, 0
  {
    if fuel == 0 then Run(OutOfFuel, w)
    else
      match Parse(AliasLine(v, args[1..]), Context(w))
      case Commands(cs) => SeqFrom(cs, 0, 0, w, os, fuel - 1)
      case _ => Run(Normal(1), w)
  }

  // ---------------------------------------------------------------------
  // The routines

  /** The parent's view of an external command. */
  method RunExternal(sh: Shell, c: Command, os: Os) returns (st: int)
    requires c.args != [] && sh.Valid()
    ensures st == External(c, sh.Value(), os)
  {
    var pid := os.fork(c);
    if pid.ForkFailed? {
      return 1;
    }
    if c.redir.RedirOut? && !os.opens(c.redir.file) {
      return 1;
    }
    var path := FindInPathLoop(sh, c.args[0], os);
    if path.None? {
      return 127;
    }
    if !os.execs(path.value) {
      return 126;
    }
    var status := os.wait(path.value, c.args);
    if status.Exited? {
      return status.code % 256;
    }
    return 1;
  }

  method ExecuteSingleCommand(sh: Shell, c: Command, os: Os, fuel: nat) returns (f: Flow)
    requires sh.Valid()
    modifies sh
    ensures sh.Valid()
    ensures Run(f, sh.Value()) == ExecSingle(c, old(sh.Value()), os, fuel)
    decreases fuel, 1
  {
    if c.args == [] {
      return Normal(0);
    }
    var aliasValue := ExpandAlias(sh, c.args[0]);
    if aliasValue.Some? {
      f := ExecuteAlias(sh, aliasValue.value, c.args, os, fuel);
      if f.Normal? {
        sh.exitStatus := f.status;
      }
      return;
    }
    ghost var w0 := sh.Value();
    var b := ExecuteBuiltin(sh, c.args, os);
    if b.Terminate? {
      return ShellExit(b.code);
    }
    if b.code != NotBuiltin {
      sh.exitStatus := b.code;
      return Normal(b.code);
    }
    DispatchNotBuiltinWorld(c.args, w0, os);
    var st := RunExternal(sh, c, os);
    sh.exitStatus := st;
    return Normal(st);
  }

  lemma DispatchNotBuiltinWorld(args: seq<string>, w: World, os: Os)
    requires args != [] && Dispatch(args, w, os).outcome == Status(NotBuiltin)
    ensures Dispatch(args, w, os).world == w
  {
    DispatchNotBuiltin(args, w, os);
  }

  method ExecuteAlias(sh: Shell, v: string, args: seq<string>, os: Os, fuel: nat) returns (f: Flow)
    requires args != [] && sh.Valid()
    modifies sh
    ensures sh.Valid()
    ensures Run(f, sh.Value()) == ExecAlias(v, args, old(sh.Value()), os, fuel)
    decreases fuel, 0
  {
    if fuel == 0 {
      return OutOfFuel;
    }
    var line := BuildAliasLine(v, args);
    var ctx := Context(sh.Value());
    var parsed := ParseLine(line, ctx);
    if !parsed.Commands? {
      return Normal(1);
    }
    AcceptedWellFormed(line, ctx);
    f := ExecuteSequence(sh, parsed.cmds, os, fuel - 1);
  }

  /**
   * pids[k] is the pid of the child forked for command from[k], a background
   * command; the commands are recorded in the order they started.
   */
  ghost predicate BackgroundRecorded(cs: seq<Command>, os: Os, pids: seq<int>, from: seq<nat>) {
    |from| == |pids| &&
    (forall k :: 0 <= k < |from| ==>
      from[k] < |cs| && cs[from[k]].nextOp == OpBg && os.fork(cs[from[k]]) == Forked(pids[k])) &&
    (forall k, l :: 0 <= k < l < |from| ==> from[k] < from[l])
  }

  /** Every recorded command lies before i. */
  ghost predicate RecordedBefore(from: seq<nat>, i: nat) {
    from == [] || from[|from| - 1] < i
  }

  /** The background branch of execute_sequence: fork, and record the child's pid in bg_pids. */
  method StartBackground(cs: seq<Command>, i: nat, os: Os, bgPids: array<int>, bgCount: nat, ghost from: seq<nat>)
    returns (st: int, bgCount': nat, ghost from': seq<nat>)
    requires i < |cs| && cs[i].nextOp == OpBg && bgCount <= i < bgPids.Length
    requires BackgroundRecorded(cs, os, bgPids[..bgCount], from) && RecordedBefore(from, i)
    modifies bgPids
    ensures st == BackgroundStatus(cs[i], os)
    ensures bgCount' <= i + 1 && BackgroundRecorded(cs, os, bgPids[..bgCount'], from') && RecordedBefore(from', i + 1)
    ensures os.fork(cs[i]).Forked? ==> bgCount' == bgCount + 1 && bgPids[bgCount] == os.fork(cs[i]).pid
    ensures os.fork(cs[i]).ForkFailed? ==> bgCount' == bgCount
    ensures bgPids[..bgCount] == old(bgPids[..bgCount])
  {
    var pid := os.fork(cs[i]);
    if pid.Forked? {
      bgPids[bgCount] := pid.pid;
      bgCount' := bgCount + 1;
      from' := from + [i];
      assert bgPids[..bgCount'] == old(bgPids[..bgCount]) + [pid.pid];
      st := 0;
    } else {
      bgCount', from' := bgCount, from;
      st := 1;
    }
  }

  /** execute_sequence; a sequence from parse_line has at most 63 commands, so bg_pids never overflows. */
  method ExecuteSequence(sh: Shell, cs: seq<Command>, os: Os, fuel: nat) returns (f: Flow)
    requires |cs| < MaxBackground && sh.Valid()
    modifies sh
    ensures sh.Valid()
    ensures Run(f, sh.Value()) == SeqFrom(cs, 0, 0, old(sh.Value()), os, fuel)
    decreases fuel, 2
  {
    var last := 0;
    var bgPids := new int[MaxBackground];
    var bgCount := 0;
    // bgFrom[k] is the command whose child has pid bgPids[k]
    ghost var bgFrom: seq<nat> := [];
    var i := 0;
    while i < |cs|
      invariant 0 <= bgCount <= i <= |cs| && sh.Valid()
      invariant bgPids.Length == MaxBackground && BackgroundRecorded(cs, os, bgPids[..bgCount], bgFrom)
      invariant RecordedBefore(bgFrom, i)
      invariant SeqFrom(cs, i, last, sh.Value(), os, fuel) == SeqFrom(cs, 0, 0, old(sh.Value()), os, fuel)
      decreases |cs| - i
    {
      ghost var w := sh.Value();
      if i > 0 && cs[i - 1].nextOp == OpAnd && last != 0 {
        assert SeqFrom(cs, i, last, w, os, fuel) == SeqFrom(cs, i + 1, last, w, os, fuel);
        i := i + 1;
        continue;
      }
      if i > 0 && cs[i - 1].nextOp == OpOr && last == 0 {
        assert SeqFrom(cs, i, last, w, os, fuel) == SeqFrom(cs, i + 1, last, w, os, fuel);
        i := i + 1;
        continue;
      }
      assert !Skipped(cs, i, last);
      if cs[i].nextOp == OpBg {
        assert SeqFrom(cs, i, last, w, os, fuel) == SeqFrom(cs, i + 1, BackgroundStatus(cs[i], os), w, os, fuel);
        last, bgCount, bgFrom := StartBackground(cs, i, os, bgPids, bgCount, bgFrom);
        i := i + 1;
        continue;
      }
      ghost var pids := bgPids[..bgCount];
      var g := ExecuteSingleCommand(sh, cs[i], os, fuel);
      assert bgPids[..bgCount] == pids;
      if !g.Normal? {
        return g;
      }
      last := g.status;
      if cs[i].nextOp == OpNone {
        break;
      }
      i := i + 1;
    }
    sh.exitStatus := last;
    return Normal(last);
  }
}
