/**
 * What execute_sequence, execute_single_command, execute_alias and
 * find_in_path promise, proved about the specification functions.
 */
module ExecutorProperties {
  import opened Options
  import opened Text
  import opened ShellTypes
  import opened Parser
  import opened Aliases
  import opened State
  import opened Oracle
  import opened Builtins
  import opened Executor

  // ---------------------------------------------------------------------
  // The control loop.

  /**
   * After a failure every command of a `&&` chain is skipped, and after a
   * success every command of a `||` chain: the status carries over unchanged.
   */
  lemma {:induction false} SkipChain(cs: seq<Command>, i: nat, j: nat, last: int, w: World, os: Os, fuel: nat)
    requires 0 < i <= j <= |cs|
    requires (last != 0 && forall k :: i - 1 <= k < j - 1 ==> cs[k].nextOp == OpAnd)
          || (last == 0 && forall k :: i - 1 <= k < j - 1 ==> cs[k].nextOp == OpOr)
    requires i < j
    ensures SeqFrom(cs, i, last, w, os, fuel) == SeqFrom(cs, j, last, w, os, fuel)
    decreases j - i
  {
    assert Skipped(cs, i, last);
    if i + 1 < j {
      SkipChain(cs, i + 1, j, last, w, os, fuel);
    }
  }

  /**
   * A background command is started without waiting for it (its child is
   * reaped only after the whole sequence): the shell state is unchanged and
   * the status is 0, or 1 when the fork fails.
   */
  lemma Background(cs: seq<Command>, i: nat, last: int, w: World, os: Os, fuel: nat)
    requires i < |cs| && !Skipped(cs, i, last) && cs[i].nextOp == OpBg
    ensures SeqFrom(cs, i, last, w, os, fuel) == SeqFrom(cs, i + 1, BackgroundStatus(cs[i], os), w, os, fuel)
    ensures BackgroundStatus(cs[i], os) == 0 <==> os.fork(cs[i]).Forked?
    ensures BackgroundStatus(cs[i], os) == 0 || BackgroundStatus(cs[i], os) == 1
  {
  }

  /** Whatever status a background command leaves, the command after it runs. */
  lemma BackgroundNeverSkips(cs: seq<Command>, i: nat, st: int)
    requires i + 1 < |cs| && cs[i].nextOp == OpBg
    ensures !Skipped(cs, i + 1, st)
  {
  }

  /**
   * The first command that runs in the foreground and is followed by NONE
   * ends the sequence: the commands after it never run.
   */
  lemma StopAtNone(cs: seq<Command>, i: nat, last: int, w: World, os: Os, fuel: nat)
    requires i < |cs| && !Skipped(cs, i, last) && cs[i].nextOp == OpNone
    requires ExecSingle(cs[i], w, os, fuel).flow.Normal?
    ensures SeqFrom(cs, i, last, w, os, fuel) == SeqFrom(cs[..i + 1], i, last, w, os, fuel)
    ensures SeqFrom(cs, i, last, w, os, fuel).flow == ExecSingle(cs[i], w, os, fuel).flow
  {
    var cs' := cs[..i + 1];
    assert cs'[i] == cs[i];
    assert i > 0 ==> cs'[i - 1] == cs[i - 1];
    assert Skipped(cs', i, last) == Skipped(cs, i, last);
  }

  /**
   * `a | b`: the parser records the lone '|' as NONE, so after a runs in
   * the foreground the sequence stops and b never runs.
   */
  lemma PipeRunsOnlyLeft(a: Command, b: Command, w: World, os: Os, fuel: nat)
    requires a.nextOp == OpNone && ExecSingle(a, w, os, fuel).flow.Normal?
    ensures SeqFrom([a, b], 0, 0, w, os, fuel) == SeqFrom([a], 0, 0, w, os, fuel)
  {
    StopAtNone([a, b], 0, 0, w, os, fuel);
    assert [a, b][..1] == [a];
  }

  /** Whenever a sequence ends normally its final status is also the stored exit_status. */
  lemma {:induction false} FinalStatusStored(cs: seq<Command>, i: nat, last: int, w: World, os: Os, fuel: nat)
    requires i <= |cs|
    ensures var r := SeqFrom(cs, i, last, w, os, fuel);
      r.flow.Normal? ==> r.world.exitStatus == r.flow.status
    decreases |cs| - i
  {
    if i < |cs| {
      if Skipped(cs, i, last) {
        FinalStatusStored(cs, i + 1, last, w, os, fuel);
      } else if cs[i].nextOp == OpBg {
        FinalStatusStored(cs, i + 1, BackgroundStatus(cs[i], os), w, os, fuel);
      } else {
        var r := ExecSingle(cs[i], w, os, fuel);
        if r.flow.Normal? && cs[i].nextOp != OpNone {
          FinalStatusStored(cs, i + 1, r.flow.status, r.world, os, fuel);
        }
      }
    }
  }

  /** A command with arguments that ends normally has stored its status, whichever path ran it; one without arguments gives 0. */
  lemma SingleStatusStored(c: Command, w: World, os: Os, fuel: nat)
    ensures var r := ExecSingle(c, w, os, fuel);
      (c.args == [] ==> r == Run(Normal(0), w)) &&
      (c.args != [] && r.flow.Normal? ==> r.world.exitStatus == r.flow.status)
  {
  }

  // ---------------------------------------------------------------------
  // Statuses stay in 0..255.

  lemma ExternalRange(c: Command, w: World, os: Os)
    requires c.args != []
    ensures 0 <= External(c, w, os) < 256
  {
  }

  /** Every status a sequence produces is in 0..255. */
  lemma {:induction false} SeqStatusRange(cs: seq<Command>, i: nat, last: int, w: World, os: Os, fuel: nat)
    requires i <= |cs| && 0 <= last < 256
    ensures var r := SeqFrom(cs, i, last, w, os, fuel);
      r.flow.Normal? ==> 0 <= r.flow.status < 256
    decreases fuel, 2, |cs| - i
  {
    if i < |cs| {
      if Skipped(cs, i, last) {
        SeqStatusRange(cs, i + 1, last, w, os, fuel);
      } else if cs[i].nextOp == OpBg {
        SeqStatusRange(cs, i + 1, BackgroundStatus(cs[i], os), w, os, fuel);
      } else {
        SingleStatusRange(cs[i], w, os, fuel);
        var r := ExecSingle(cs[i], w, os, fuel);
        if r.flow.Normal? && cs[i].nextOp != OpNone {
          SeqStatusRange(cs, i + 1, r.flow.status, r.world, os, fuel);
        }
      }
    }
  }

  lemma {:induction false} SingleStatusRange(c: Command, w: World, os: Os, fuel: nat)
    ensures var r := ExecSingle(c, w, os, fuel);
      r.flow.Normal? ==> 0 <= r.flow.status < 256
    decreases fuel, 1, 0
  {
    if c.args != [] {
      match Lookup(w.aliases, c.args[0])
      case Some(v) =>
        AliasStatusRange(v, c.args, w, os, fuel);
      case None =>
        DispatchNotBuiltin(c.args, w, os);
        if Dispatch(c.args, w, os).outcome == Status(NotBuiltin) {
          ExternalRange(c, w, os);
        }
    }
  }

  lemma {:induction false} AliasStatusRange(v: string, args: seq<string>, w: World, os: Os, fuel: nat)
    requires args != []
    ensures var r := ExecAlias(v, args, w, os, fuel);
      r.flow.Normal? ==> 0 <= r.flow.status < 256
    decreases fuel, 0, 0
  {
    if fuel > 0 {
      var p := Parse(AliasLine(v, args[1..]), Context(w));
      if p.Commands? {
        SeqStatusRange(p.cmds, 0, 0, w, os, fuel - 1);
      }
    }
  }

  // ---------------------------------------------------------------------
  // Alias names stay unique.

  lemma {:induction false} SeqKeepsUnique(cs: seq<Command>, i: nat, last: int, w: World, os: Os, fuel: nat)
    requires i <= |cs| && UniqueNames(w.aliases)
    ensures UniqueNames(SeqFrom(cs, i, last, w, os, fuel).world.aliases)
    decreases fuel, 2, |cs| - i
  {
    if i < |cs| {
      if Skipped(cs, i, last) {
        SeqKeepsUnique(cs, i + 1, last, w, os, fuel);
      } else if cs[i].nextOp == OpBg {
        SeqKeepsUnique(cs, i + 1, BackgroundStatus(cs[i], os), w, os, fuel);
      } else {
        SingleKeepsUnique(cs[i], w, os, fuel);
        var r := ExecSingle(cs[i], w, os, fuel);
        if r.flow.Normal? && cs[i].nextOp != OpNone {
          SeqKeepsUnique(cs, i + 1, r.flow.status, r.world, os, fuel);
        }
      }
    }
  }

  lemma {:induction false} SingleKeepsUnique(c: Command, w: World, os: Os, fuel: nat)
    requires UniqueNames(w.aliases)
    ensures UniqueNames(ExecSingle(c, w, os, fuel).world.aliases)
    decreases fuel, 1, 0
  {
    if c.args != [] {
      match Lookup(w.aliases, c.args[0])
      case Some(v) =>
        AliasKeepsUnique(v, c.args, w, os, fuel);
      case None =>
        DispatchUnique(c.args, w, os);
    }
  }

  lemma {:induction false} AliasKeepsUnique(v: string, args: seq<string>, w: World, os: Os, fuel: nat)
    requires args != [] && UniqueNames(w.aliases)
    ensures UniqueNames(ExecAlias(v, args, w, os, fuel).world.aliases)
    decreases fuel, 0, 0
  {
    if fuel > 0 {
      var p := Parse(AliasLine(v, args[1..]), Context(w));
      if p.Commands? {
        SeqKeepsUnique(p.cmds, 0, 0, w, os, fuel - 1);
      }
    }
  }

  // ---------------------------------------------------------------------
  // Dispatch order and status mapping.

  /** An alias is tried first: it hides a builtin or a program of the same name. */
  lemma AliasFirst(c: Command, w: World, os: Os, fuel: nat)
    requires c.args != [] && Lookup(w.aliases, c.args[0]).Some?
    ensures var r := ExecAlias(Lookup(w.aliases, c.args[0]).value, c.args, w, os, fuel);
      ExecSingle(c, w, os, fuel) == if r.flow.Normal? then Run(r.flow, r.world.(exitStatus := r.flow.status)) else r
  {
  }

  /**
   * Without an alias, a builtin name runs the builtin: nothing is forked, so
   * the outcome does not depend on the answers about processes and programs.
   */
  lemma BuiltinBeforeExternal(c: Command, w: World, os1: Os, os2: Os, fuel: nat)
    requires c.args != [] && Lookup(w.aliases, c.args[0]).None? && c.args[0] in BuiltinNames
    requires forall a, b :: os1.changeDir(a, b) == os2.changeDir(a, b)
    requires forall t :: os1.hasManPage(t) == os2.hasManPage(t)
    ensures ExecSingle(c, w, os1, fuel) == ExecSingle(c, w, os2, fuel)
  {
    assert Dispatch(c.args, w, os1) == Dispatch(c.args, w, os2);
    DispatchNotBuiltin(c.args, w, os1);
  }

  /** A name that is neither an alias nor a builtin runs a program, which changes nothing but the status. */
  lemma ExternalOnlyStatus(c: Command, w: World, os: Os, fuel: nat)
    requires c.args != [] && Lookup(w.aliases, c.args[0]).None? && c.args[0] !in BuiltinNames
    ensures ExecSingle(c, w, os, fuel) == Run(Normal(External(c, w, os)), w.(exitStatus := External(c, w, os)))
  {
    DispatchNotBuiltin(c.args, w, os);
  }

  /**
   * The status of a program: 1 when the fork or the redirection fails, 127
   * when no executable is found, 126 when execv fails, otherwise its exit
   * code, or 1 when it was killed.
   */
  lemma ExternalMapping(c: Command, w: World, os: Os)
    requires c.args != []
    ensures os.fork(c).ForkFailed? ==> External(c, w, os) == 1
    ensures os.fork(c).Forked? && c.redir.RedirOut? && !os.opens(c.redir.file) ==> External(c, w, os) == 1
    ensures os.fork(c).Forked? && (c.redir.RedirOut? ==> os.opens(c.redir.file)) ==>
      var name := c.args[0];
      && ('/' in name && !os.executable(name) ==> External(c, w, os) == 127)
      && (('/' !in name && forall k :: 0 <= k < |w.pathList| ==> !os.executable(w.pathList[k] + "/" + name))
            ==> External(c, w, os) == 127)
      && ('/' !in name && w.pathList == [] ==> External(c, w, os) == 127)
      && (FindInPath(name, w.pathList, os).Some? ==>
            var path := FindInPath(name, w.pathList, os).value;
            && (!os.execs(path) ==> External(c, w, os) == 126)
            && (os.execs(path) && os.wait(path, c.args).Exited? ==>
                  External(c, w, os) == os.wait(path, c.args).code % 256)
            && (os.execs(path) && os.wait(path, c.args).Signaled? ==> External(c, w, os) == 1))
  {
  }

  /** With an empty search path only names containing '/' resolve. */
  lemma EmptyPathResolvesNothing(name: string, os: Os)
    requires '/' !in name
    ensures FindInPath(name, [], os) == None
  {
  }

  /** The search stops at the first executable candidate, whatever the later directories hold. */
  lemma FirstMatchWins(dirs: seq<string>, k: nat, name: string, os: Os)
    requires '/' !in name && k < |dirs| && os.executable(dirs[k] + "/" + name)
    requires forall m :: 0 <= m < k ==> !os.executable(dirs[m] + "/" + name)
    ensures FindInPath(name, dirs, os) == Some(dirs[k] + "/" + name)
    ensures FindInPath(name, dirs, os) == FindInPath(name, dirs[..k + 1], os)
  {
    FirstAt(dirs, 0, k, name, os);
    FirstAt(dirs[..k + 1], 0, k, name, os);
    assert dirs[..k + 1][k] == dirs[k];
  }

  lemma {:induction false} FirstAt(dirs: seq<string>, i: nat, k: nat, name: string, os: Os)
    requires i <= k < |dirs| && os.executable(dirs[k] + "/" + name)
    requires forall m :: i <= m < k ==> !os.executable(dirs[m] + "/" + name)
    ensures FirstExecutable(dirs, name, os, i) == Some(dirs[k] + "/" + name)
    decreases k - i
  {
    if i < k {
      FirstAt(dirs, i + 1, k, name, os);
    }
  }

  // ---------------------------------------------------------------------
  // The alias line.

  lemma {:induction false} SplitPrefixJoin(a: string, xs: seq<string>, sep: char)
    requires |xs| > 0
    requires forall k :: 0 <= k < |xs| ==> sep !in xs[k]
    ensures Split(a + [sep] + Join(xs, sep), sep) == Split(a, sep) + xs
    decreases |xs|
  {
    if |xs| == 1 {
      SplitAppend(a, xs[0], sep);
    } else {
      var init := xs[..|xs| - 1];
      assert forall k :: 0 <= k < |init| ==> init[k] == xs[k];
      SplitPrefixJoin(a, init, sep);
      SplitJoinStep(a, xs, sep);
    }
  }

  /** One step of SplitPrefixJoin: the last piece comes off the end. */
  lemma SplitJoinStep(a: string, xs: seq<string>, sep: char)
    requires |xs| > 1 && sep !in xs[|xs| - 1]
    requires Split(a + [sep] + Join(xs[..|xs| - 1], sep), sep) == Split(a, sep) + xs[..|xs| - 1]
    ensures Split(a + [sep] + Join(xs, sep), sep) == Split(a, sep) + xs
  {
    var init := xs[..|xs| - 1];
    var last := xs[|xs| - 1];
    var prefix := a + [sep] + Join(init, sep);
    calc {
      Split(a + [sep] + Join(xs, sep), sep);
      { JoinLast(xs, sep); }
      Split(a + [sep] + (Join(init, sep) + [sep] + last), sep);
      { Regroup(a, Join(init, sep), last, sep); }
      Split(prefix + [sep] + last, sep);
      { SplitAppend(prefix, last, sep); }
      Split(prefix, sep) + [last];
      (Split(a, sep) + init) + [last];
      { InitLast(xs); }
      Split(a, sep) + xs;
    }
  }

  lemma JoinLast(xs: seq<string>, sep: char)
    requires |xs| > 1
    ensures Join(xs, sep) == Join(xs[..|xs| - 1], sep) + [sep] + xs[|xs| - 1]
  {
  }

  lemma Regroup(a: string, b: string, c: string, sep: char)
    ensures a + [sep] + (b + [sep] + c) == (a + [sep] + b) + [sep] + c
  {
  }

  lemma InitLast<T>(xs: seq<T>)
    requires |xs| > 0
    ensures forall p: seq<T> :: (p + xs[..|xs| - 1]) + [xs[|xs| - 1]] == p + xs
  {
    forall p: seq<T>
      ensures (p + xs[..|xs| - 1]) + [xs[|xs| - 1]] == p + xs
    {
      assert xs[..|xs| - 1] + [xs[|xs| - 1]] == xs;
    }
  }

  /**
   * The alias line splits at single spaces into the pieces of the value
   * followed by the extra arguments: the value and the first argument are
   * separated by exactly one space, whether or not the value ended in one,
   * and the arguments by one space each.
   */
  lemma AliasLineSplits(v: string, extra: seq<string>)
    requires extra != []
    requires forall k :: 0 <= k < |extra| ==> ' ' !in extra[k]
    ensures v == [] ==> Split(AliasLine(v, extra), ' ') == extra
    ensures v != [] && v[|v| - 1] != ' ' ==> Split(AliasLine(v, extra), ' ') == Split(v, ' ') + extra
    ensures v != [] && v[|v| - 1] == ' ' ==>
      Split(AliasLine(v, extra), ' ') == Split(v[..|v| - 1], ' ') + extra
  {
    if v == [] {
      AliasLineEmptyValue(extra);
    } else if v[|v| - 1] != ' ' {
      AliasLineAddsSpace(v, extra);
    } else {
      AliasLineKeepsSpace(v, extra);
    }
  }

  lemma AliasLineEmptyValue(extra: seq<string>)
    requires extra != []
    requires forall k :: 0 <= k < |extra| ==> ' ' !in extra[k]
    ensures Split(AliasLine([], extra), ' ') == extra
  {
    SplitJoin(extra, ' ');
    assert AliasLine([], extra) == Join(extra, ' ');
  }

  lemma AliasLineAddsSpace(v: string, extra: seq<string>)
    requires extra != [] && v != [] && v[|v| - 1] != ' '
    requires forall k :: 0 <= k < |extra| ==> ' ' !in extra[k]
    ensures Split(AliasLine(v, extra), ' ') == Split(v, ' ') + extra
  {
    SplitPrefixJoin(v, extra, ' ');
    assert AliasLine(v, extra) == v + [' '] + Join(extra, ' ');
  }

  lemma AliasLineKeepsSpace(v: string, extra: seq<string>)
    requires extra != [] && v != [] && v[|v| - 1] == ' '
    requires forall k :: 0 <= k < |extra| ==> ' ' !in extra[k]
    ensures Split(AliasLine(v, extra), ' ') == Split(v[..|v| - 1], ' ') + extra
  {
    var v' := v[..|v| - 1];
    SplitPrefixJoin(v', extra, ' ');
    assert v' + [' '] == v;
    assert AliasLine(v, extra) == v + Join(extra, ' ');
    assert AliasLine(v, extra) == v' + [' '] + Join(extra, ' ');
  }

  /** With no extra arguments the alias line is the value itself. */
  lemma AliasLineAlone(v: string)
    ensures AliasLine(v, []) == v
  {
  }

  /** An alias whose line does not parse gives status 1 and changes nothing. */
  lemma AliasParseFailure(v: string, args: seq<string>, w: World, os: Os, fuel: nat)
    requires args != [] && fuel > 0 && !Parse(AliasLine(v, args[1..]), Context(w)).Commands?
    ensures ExecAlias(v, args, w, os, fuel) == Run(Normal(1), w)
  {
  }
}
