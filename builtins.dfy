/**
 * The builtin commands of builtins.c and their dispatcher. Each builtin is
 * specified by a function from the arguments and the state (and, for cd and
 * man, the operating system's answers) to an outcome and a new state; the
 * methods are the C routines, working on the Shell object, proved against
 * those functions.
 */
module Builtins {
  import opened Options
  import opened Text
  import opened Aliases
  import opened Expander
  import opened State
  import opened Oracle

  /** What a builtin does: return a status, or end the interpreter through exit(). */
  datatype BuiltinOutcome = Status(code: int) | Terminate(code: int)

  datatype BuiltinResult = BuiltinResult(outcome: BuiltinOutcome, world: World)

  /** The dispatcher's answer for a name that is not a builtin. */
  const NotBuiltin: int := -1

  const BuiltinNames: seq<string> := ["exit", "cd", "env", "setenv", "unsetenv", "alias", "path", "man"]

  /** The topics builtin_man accepts. */
  const ManTopics: seq<string> := ["exit", "cd", "env", "setenv", "unsetenv", "alias", "path", "oshell", "builtins"]

  // ---------------------------------------------------------------------
  // exit

  /** builtin_exit: no argument exits with 0; a number exits with its low 8 bits; anything else is status 1. */
  function ExitOutcome(args: seq<string>): (r: BuiltinOutcome)
    requires args != []
    ensures r.Terminate? ==> 0 <= r.code < 256
    ensures r.Status? <==> |args| > 1 && StrToLong(args[1]).None?
    ensures r.Status? ==> r.code == 1
    ensures |args| == 1 ==> r == Terminate(0)
    ensures |args| > 1 && StrToLong(args[1]).Some? ==> r == Terminate(StrToLong(args[1]).value % 256)
  {
    if |args| == 1 then Terminate(0)
    else
      match StrToLong(args[1])
      case None => Status(1)
      case Some(v) => Terminate(v % 256)
  }

  /** exit n ends the interpreter with n & 0xFF; in particular exit -1 gives 255 and exit 256 gives 0. */
  lemma ExitMasks(n: int)
    ensures ExitOutcome(["exit", Decimal(n)]) == Terminate(n % 256)
    ensures n == -1 ==> ExitOutcome(["exit", Decimal(n)]) == Terminate(255)
    ensures n == 256 ==> ExitOutcome(["exit", Decimal(n)]) == Terminate(0)
  {
    StrToLongDecimal(n);
  }

  /**
   * Every spelling strtol accepts exits: leading white space, a sign and
   * leading zeros are allowed, and the code is the low 8 bits of the value.
   */
  lemma ExitAccepts(ws: string, sign: string, d: string)
    requires forall k :: 0 <= k < |ws| ==> IsSpace(ws[k])
    requires sign == "" || sign == "+" || sign == "-"
    requires d != [] && AllDigits(d)
    ensures ExitOutcome(["exit", ws + sign + d])
         == Terminate(Signed(sign == "-", DigitsValue(d)) % 256)
    ensures ExitOutcome(["exit", ws + sign + "0" + d]) == ExitOutcome(["exit", ws + sign + d])
  {
    StrToLongAccepts(ws, sign, d);
    LeadingZero(d);
    assert ws + sign + "0" + d == ws + sign + ("0" + d);
    StrToLongAccepts(ws, sign, "0" + d);
  }

  /** An argument with junk after the number, or an empty one, does not exit. */
  lemma ExitRejectsJunk(s: string)
    ensures ExitOutcome(["exit", s + "x"]) == Status(1)
    ensures ExitOutcome(["exit", ""]) == Status(1)
  {
    var t := s + "x";
    var i := RunEnd(t, 0, IsSpace);
    var j := if i < |t| && (t[i] == '+' || t[i] == '-') then i + 1 else i;
    var k := RunEnd(t, j, IsDigit);
    assert k < |t| by {
      assert !IsDigit(t[|t| - 1]);
    }
  }

  // ---------------------------------------------------------------------
  // cd

  /** The directory cd goes to and whether it echoes the new directory; CdNoHome when HOME is unset. */
  datatype CdChoice = CdTo(target: string, echo: bool) | CdNoHome

  function CdTarget(args: seq<string>, w: World): (c: CdChoice)
    requires args != []
    ensures |args| == 1 ==> (c.CdNoHome? <==> "HOME" !in w.env)
    ensures |args| == 1 && c.CdTo? ==> c == CdTo(w.env["HOME"], false)
    ensures |args| > 1 ==> c.CdTo?
    ensures |args| > 1 && (args[1] == "-" || args[1] == "--") ==> c.target == w.oldpwd
    ensures |args| > 1 && args[1] != "-" && args[1] != "--" ==> c.target == args[1]
    ensures c.CdTo? && c.echo <==> |args| > 1 && args[1] == "-"
  {
    if |args| == 1 then
      if "HOME" in w.env then CdTo(w.env["HOME"], false) else CdNoHome
    else if args[1] == "-" then CdTo(w.oldpwd, true)
    else if args[1] == "--" then CdTo(w.oldpwd, false)
    else CdTo(args[1], false)
  }

  /** builtin_cd: on success the previous directory is the old current one and the current one is getcwd's answer. */
  function Cd(args: seq<string>, w: World, os: Os): (r: BuiltinResult)
    requires args != []
  {
    match CdTarget(args, w)
    case CdNoHome => BuiltinResult(Status(1), w)
    case CdTo(target, _) =>
      match os.changeDir(w.pwd, target)
      case None => BuiltinResult(Status(1), w)
      case Some(cwd) => BuiltinResult(Status(0), w.(oldpwd := w.pwd, pwd := cwd))
  }

  /**
   * cd returns 0 or 1; on 1 nothing changes; on 0 only the two directories
   * change: oldpwd becomes the former pwd and pwd the directory chdir reached.
   */
  lemma CdOutcome(args: seq<string>, w: World, os: Os)
    requires args != []
    ensures Cd(args, w, os).outcome == Status(0) || Cd(args, w, os).outcome == Status(1)
    ensures Cd(args, w, os).outcome == Status(1) ==> Cd(args, w, os).world == w
    ensures Cd(args, w, os).outcome == Status(0) <==>
      CdTarget(args, w).CdTo? && os.changeDir(w.pwd, CdTarget(args, w).target).Some?
    ensures Cd(args, w, os).outcome == Status(0) ==>
      Cd(args, w, os).world == w.(oldpwd := w.pwd, pwd := os.changeDir(w.pwd, CdTarget(args, w).target).value)
  {
  }

  /** `cd -` that reaches the previous directory swaps the two directories. */
  lemma CdDashSwaps(w: World, os: Os)
    requires os.changeDir(w.pwd, w.oldpwd) == Some(w.oldpwd)
    ensures Cd(["cd", "-"], w, os).world.pwd == w.oldpwd
    ensures Cd(["cd", "-"], w, os).world.oldpwd == w.pwd
  {
  }

  // ---------------------------------------------------------------------
  // setenv, unsetenv, env

  /** A name setenv accepts: non-empty and free of '='. */
  predicate EnvName(n: string) {
    n != "" && '=' !in n
  }

  /** builtin_setenv: two operands are needed, and a name setenv(3) accepts. */
  function Setenv(args: seq<string>, w: World): (r: BuiltinResult)
    requires args != []
  {
    if |args| < 3 || !EnvName(args[1]) then BuiltinResult(Status(1), w)
    else BuiltinResult(Status(0), w.(env := w.env[args[1] := args[2]]))
  }

  /** builtin_unsetenv: one operand is needed; a name unsetenv(3) rejects changes nothing but still gives 0. */
  function Unsetenv(args: seq<string>, w: World): (r: BuiltinResult)
    requires args != []
  {
    if |args| < 2 then BuiltinResult(Status(1), w)
    else BuiltinResult(Status(0), if EnvName(args[1]) then w.(env := w.env - {args[1]}) else w)
  }

  /**
   * setenv fails exactly when an operand is missing or the name is not
   * acceptable, and then changes nothing; otherwise the variable has the
   * value and every other variable is as it was.
   */
  lemma SetenvOutcome(args: seq<string>, w: World)
    requires args != []
    ensures Setenv(args, w).outcome == Status(1) <==> |args| < 3 || !EnvName(args[1])
    ensures Setenv(args, w).outcome == Status(1) ==> Setenv(args, w).world == w
    ensures Setenv(args, w).outcome == Status(0) ==>
      var e := Setenv(args, w).world.env;
      args[1] in e && e[args[1]] == args[2] &&
      (forall n :: n != args[1] ==> (n in e <==> n in w.env) && (n in e ==> e[n] == w.env[n])) &&
      Setenv(args, w).world.(env := w.env) == w
  {
  }

  /** unsetenv fails exactly when the operand is missing; otherwise the variable is gone and nothing else changes. */
  lemma UnsetenvOutcome(args: seq<string>, w: World)
    requires args != []
    ensures Unsetenv(args, w).outcome == Status(1) <==> |args| < 2
    ensures Unsetenv(args, w).outcome == Status(1) ==> Unsetenv(args, w).world == w
    ensures |args| >= 2 && EnvName(args[1]) ==> args[1] !in Unsetenv(args, w).world.env
    ensures |args| >= 2 ==>
      var e := Unsetenv(args, w).world.env;
      (forall n :: n != args[1] ==> (n in e <==> n in w.env) && (n in e ==> e[n] == w.env[n])) &&
      Unsetenv(args, w).world.(env := w.env) == w
  {
  }

  // ---------------------------------------------------------------------
  // alias

  predicate NotEquals(c: char) {
    c != '='
  }

  /** The value of an alias definition: one pair of single quotes around it is removed. */
  function Unquote(v: string): (u: string)
    ensures |v| >= 2 && v[0] == '\'' && v[|v| - 1] == '\'' ==> u == v[1..|v| - 1]
    ensures !(|v| >= 2 && v[0] == '\'' && v[|v| - 1] == '\'') ==> u == v
  {
    if |v| >= 2 && v[0] == '\'' && v[|v| - 1] == '\'' then v[1..|v| - 1] else v
  }

  /** One argument of builtin_alias: NAME=VALUE (split at the first '=') defines, a bare name only prints. */
  function AliasDefine(table: seq<Alias>, arg: string): seq<Alias> {
    var k := RunEnd(arg, 0, NotEquals);
    if k == |arg| then table else AddEntry(table, arg[..k], Unquote(arg[k + 1..]))
  }

  /** builtin_alias over the arguments from i on, left to right. */
  function AliasFrom(table: seq<Alias>, args: seq<string>, i: nat): seq<Alias>
    requires i <= |args|
    decreases |args| - i
  {
    if i == |args| then table else AliasFrom(AliasDefine(table, args[i]), args, i + 1)
  }

  function AliasBuiltin(args: seq<string>, w: World): BuiltinResult
    requires args != []
  {
    BuiltinResult(Status(0), w.(aliases := AliasFrom(w.aliases, args, 1)))
  }

  lemma SplitDefinition(table: seq<Alias>, n: string, v: string)
    requires '=' !in n
    ensures AliasDefine(table, n + "=" + v) == AddEntry(table, n, Unquote(v))
  {
    var arg := n + "=" + v;
    assert forall k :: 0 <= k < |n| ==> arg[k] == n[k];
    assert RunEnd(arg, 0, NotEquals) == |n| by {
      assert !NotEquals(arg[|n|]);
    }
    assert arg[..|n|] == n && arg[|n| + 1..] == v;
  }

  /** `alias n=v` with n free of '=' defines n as v, without one pair of surrounding single quotes. */
  lemma AliasDefinition(table: seq<Alias>, n: string, v: string)
    requires '=' !in n
    ensures Lookup(AliasDefine(table, n + "=" + v), n) == Some(Unquote(v))
    ensures Lookup(AliasDefine(table, n + "='" + v + "'"), n) == Some(v)
  {
    SplitDefinition(table, n, v);
    LookupAfterAdd(table, n, Unquote(v));
    var q := "'" + v + "'";
    assert n + "='" + v + "'" == n + "=" + q;
    SplitDefinition(table, n, q);
    assert Unquote(q) == v;
    LookupAfterAdd(table, n, v);
  }

  /** A bare name only prints: the table is unchanged. */
  lemma AliasBareName(table: seq<Alias>, n: string)
    requires '=' !in n
    ensures AliasDefine(table, n) == table
  {
    assert RunEnd(n, 0, NotEquals) == |n|;
  }

  /** builtin_alias keeps alias names unique. */
  lemma {:induction false} AliasFromUnique(table: seq<Alias>, args: seq<string>, i: nat)
    requires i <= |args| && UniqueNames(table)
    ensures UniqueNames(AliasFrom(table, args, i))
    decreases |args| - i
  {
    if i < |args| {
      var t := AliasDefine(table, args[i]);
      DefineKeepsUnique(table, args[i]);
      assert AliasFrom(table, args, i) == AliasFrom(t, args, i + 1);
      AliasFromUnique(t, args, i + 1);
    }
  }

  /** One definition keeps alias names unique. */
  lemma DefineKeepsUnique(table: seq<Alias>, arg: string)
    requires UniqueNames(table)
    ensures UniqueNames(AliasDefine(table, arg))
  {
    var k := RunEnd(arg, 0, NotEquals);
    if k < |arg| {
      AddKeepsUnique(table, arg[..k], Unquote(arg[k + 1..]));
    }
  }

  // ---------------------------------------------------------------------
  // path, man

  /** builtin_path: the search path becomes the operands, in order. */
  function PathBuiltin(args: seq<string>, w: World): BuiltinResult
    requires args != []
  {
    BuiltinResult(Status(0), w.(pathList := args[1..]))
  }

  /**
   * After `path d1 … dn`, $PATH expands to the operands joined by ':' (and
   * splits back into them when none holds a ':'); `path` alone empties it.
   */
  lemma PathThenExpand(args: seq<string>, w: World)
    requires args != []
    ensures PathBuiltin(args, w).outcome == Status(0)
    ensures Expand("$PATH", Context(PathBuiltin(args, w).world)) == Join(args[1..], ':')
    ensures |args| == 1 ==> Expand("$PATH", Context(PathBuiltin(args, w).world)) == ""
    ensures |args| > 1 && (forall k :: 1 <= k < |args| ==> ':' !in args[k]) ==>
      Split(Expand("$PATH", Context(PathBuiltin(args, w).world)), ':') == args[1..]
  {
    var ctx := Context(PathBuiltin(args, w).world);
    ExpandName("PATH", "", ctx);
    assert "$" + "PATH" + "" == "$PATH";
    PathValue(ctx, ctx.env);
    assert ctx.pathList == args[1..];
    assert forall k :: 0 <= k < |args[1..]| ==> args[1..][k] == args[k + 1];
  }

  /** builtin_man: 0 without a topic, 1 for a topic outside the list or without a page, 0 when the page is shown. */
  function Man(args: seq<string>, os: Os): (r: BuiltinOutcome)
    requires args != []
    ensures r.Status?
    ensures |args| < 2 ==> r == Status(0)
    ensures |args| >= 2 && args[1] !in ManTopics ==> r == Status(1)
    ensures r == Status(0) <==> |args| < 2 || (args[1] in ManTopics && os.hasManPage(args[1]))
  {
    if |args| < 2 then Status(0)
    else if args[1] !in ManTopics then Status(1)
    else if os.hasManPage(args[1]) then Status(0)
    else Status(1)
  }

  // ---------------------------------------------------------------------
  // The dispatcher.

  /** execute_builtin: the builtin named by args[0], or -1 for any other name. */
  function Dispatch(args: seq<string>, w: World, os: Os): BuiltinResult
    requires args != []
  {
    var name := args[0];
    if name == "exit" then BuiltinResult(ExitOutcome(args), w)
    else if name == "cd" then Cd(args, w, os)
    else if name == "env" then BuiltinResult(Status(0), w)
    else if name == "setenv" then Setenv(args, w)
    else if name == "unsetenv" then Unsetenv(args, w)
    else if name == "alias" then AliasBuiltin(args, w)
    else if name == "path" then PathBuiltin(args, w)
    else if name == "man" then BuiltinResult(Man(args, os), w)
    else BuiltinResult(Status(NotBuiltin), w)
  }

  /**
   * The dispatcher answers -1 exactly for names that are not builtins, and
   * then changes nothing; a builtin returns 0 or 1 or ends the interpreter
   * with a code in 0..255.
   */
  lemma DispatchNotBuiltin(args: seq<string>, w: World, os: Os)
    requires args != []
    ensures Dispatch(args, w, os).outcome == Status(NotBuiltin) <==> args[0] !in BuiltinNames
    ensures args[0] !in BuiltinNames ==> Dispatch(args, w, os).world == w
    ensures args[0] in BuiltinNames ==>
      match Dispatch(args, w, os).outcome
      case Status(n) => n == 0 || n == 1
      case Terminate(c) => args[0] == "exit" && 0 <= c < 256
  {
    CdOutcome(args, w, os);
  }

  /** Only cd, setenv, unsetenv, alias and path change the state, and each only its own part of it. */
  lemma DispatchFrame(args: seq<string>, w: World, os: Os)
    requires args != []
    ensures var w' := Dispatch(args, w, os).world;
      w'.exitStatus == w.exitStatus && w'.shellPid == w.shellPid &&
      (args[0] != "cd" ==> w'.pwd == w.pwd && w'.oldpwd == w.oldpwd) &&
      (args[0] != "alias" ==> w'.aliases == w.aliases) &&
      (args[0] != "path" ==> w'.pathList == w.pathList) &&
      (args[0] != "setenv" && args[0] != "unsetenv" ==> w'.env == w.env)
  {
  }

  /** Every builtin keeps alias names unique. */
  lemma DispatchUnique(args: seq<string>, w: World, os: Os)
    requires args != [] && UniqueNames(w.aliases)
    ensures UniqueNames(Dispatch(args, w, os).world.aliases)
  {
    AliasFromUnique(w.aliases, args, 1);
  }

  // ---------------------------------------------------------------------
  // The routines on the Shell object.

  /** alias_add: scan the list; overwrite the value of a match, otherwise link a new entry at the head. */
  method AliasAdd(sh: Shell, name: string, value: string)
    requires sh.Valid()
    modifies sh
    ensures sh.Valid()
    ensures sh.Value() == old(sh.Value()).(aliases := AddEntry(old(sh.aliases), name, value))
  {
    AddKeepsUnique(sh.aliases, name, value);
    var k := 0;
    while k < |sh.aliases|
      invariant 0 <= k <= |sh.aliases|
      invariant forall m :: 0 <= m < k ==> sh.aliases[m].name != name
    {
      if sh.aliases[k].name == name {
        IndexOfFirst(sh.aliases, name, k);
        sh.aliases := sh.aliases[k := Alias(name, value)];
        return;
      }
      k := k + 1;
    }
    IndexOfNone(sh.aliases, name);
    sh.aliases := [Alias(name, value)] + sh.aliases;
  }

  /** expand_alias: the value of the first entry with the name, None when there is none. */
  method ExpandAlias(sh: Shell, name: string) returns (r: Option<string>)
    ensures r == Lookup(sh.aliases, name)
  {
    var k := 0;
    while k < |sh.aliases|
      invariant 0 <= k <= |sh.aliases|
      invariant forall m :: 0 <= m < k ==> sh.aliases[m].name != name
    {
      if sh.aliases[k].name == name {
        IndexOfFirst(sh.aliases, name, k);
        return Some(sh.aliases[k].value);
      }
      k := k + 1;
    }
    IndexOfNone(sh.aliases, name);
    return None;
  }

  method BuiltinCd(sh: Shell, args: seq<string>, os: Os) returns (r: BuiltinOutcome)
    requires args != [] && sh.Valid()
    modifies sh
    ensures sh.Valid()
    ensures BuiltinResult(r, sh.Value()) == Cd(args, old(sh.Value()), os)
  {
    var target: string;
    if |args| == 1 {
      if "HOME" !in sh.env {
        return Status(1);
      }
      target := sh.env["HOME"];
    } else if args[1] == "-" || args[1] == "--" {
      target := sh.oldpwd;
    } else {
      target := args[1];
    }
    var old_ := sh.pwd;
    var reached := os.changeDir(sh.pwd, target);
    if reached.None? {
      return Status(1);
    }
    sh.oldpwd := old_;
    sh.pwd := reached.value;
    return Status(0);
  }

  method BuiltinSetenv(sh: Shell, args: seq<string>) returns (r: BuiltinOutcome)
    requires args != [] && sh.Valid()
    modifies sh
    ensures sh.Valid()
    ensures BuiltinResult(r, sh.Value()) == Setenv(args, old(sh.Value()))
  {
    if |args| < 3 {
      return Status(1);
    }
    if !EnvName(args[1]) {
      return Status(1);
    }
    sh.env := sh.env[args[1] := args[2]];
    return Status(0);
  }

  method BuiltinUnsetenv(sh: Shell, args: seq<string>) returns (r: BuiltinOutcome)
    requires args != [] && sh.Valid()
    modifies sh
    ensures sh.Valid()
    ensures BuiltinResult(r, sh.Value()) == Unsetenv(args, old(sh.Value()))
  {
    if |args| < 2 {
      return Status(1);
    }
    if EnvName(args[1]) {
      sh.env := sh.env - {args[1]};
    }
    return Status(0);
  }

  /** builtin_alias: define or print each argument in turn. */
  method BuiltinAlias(sh: Shell, args: seq<string>) returns (r: BuiltinOutcome)
    requires args != [] && sh.Valid()
    modifies sh
    ensures sh.Valid()
    ensures BuiltinResult(r, sh.Value()) == AliasBuiltin(args, old(sh.Value()))
  {
    var i := 1;
    while i < |args|
      invariant 1 <= i <= |args| && sh.Valid()
      invariant AliasFrom(sh.aliases, args, i) == AliasFrom(old(sh.aliases), args, 1)
      invariant sh.Value() == old(sh.Value()).(aliases := sh.aliases)
    {
      AliasArgument(sh, args[i]);
      i := i + 1;
    }
    return Status(0);
  }

  /** One argument of builtin_alias: find the first '=' and define, or leave the table alone. */
  method AliasArgument(sh: Shell, arg: string)
    requires sh.Valid()
    modifies sh
    ensures sh.Valid()
    ensures sh.Value() == old(sh.Value()).(aliases := AliasDefine(old(sh.aliases), arg))
  {
    var eq := 0;
    while eq < |arg| && arg[eq] != '='
      invariant 0 <= eq <= |arg|
      invariant RunEnd(arg, 0, NotEquals) == RunEnd(arg, eq, NotEquals)
    {
      eq := eq + 1;
    }
    assert eq == RunEnd(arg, 0, NotEquals);
    if eq < |arg| {
      var name := arg[..eq];
      var value := arg[eq + 1..];
      assert AliasDefine(sh.aliases, arg) == AddEntry(sh.aliases, name, Unquote(value));
      if |value| >= 2 && value[0] == '\'' && value[|value| - 1] == '\'' {
        AliasAdd(sh, name, value[1..|value| - 1]);
      } else {
        AliasAdd(sh, name, value);
      }
    } else {
      assert AliasDefine(sh.aliases, arg) == sh.aliases;
    }
  }

  /** builtin_path: count the operands, then copy them into a new search path. */
  method BuiltinPath(sh: Shell, args: seq<string>) returns (r: BuiltinOutcome)
    requires args != [] && sh.Valid()
    modifies sh
    ensures sh.Valid()
    ensures BuiltinResult(r, sh.Value()) == PathBuiltin(args, old(sh.Value()))
  {
    var newCount := 0;
    while newCount + 1 < |args|
      invariant 0 <= newCount < |args|
    {
      newCount := newCount + 1;
    }
    var list: seq<string> := [];
    var i := 0;
    while i < newCount
      invariant 0 <= i <= newCount
      invariant list == args[1..i + 1]
    {
      list := list + [args[i + 1]];
      i := i + 1;
    }
    sh.pathCount := newCount;
    sh.pathList := list;
    return Status(0);
  }

  /** builtin_man: look the topic up in the list of pages. */
  method BuiltinMan(args: seq<string>, os: Os) returns (r: BuiltinOutcome)
    requires args != []
    ensures r == Man(args, os)
  {
    if |args| < 2 {
      return Status(0);
    }
    var valid := false;
    var i := 0;
    while i < |ManTopics|
      invariant 0 <= i <= |ManTopics|
      invariant valid <==> args[1] in ManTopics[..i]
    {
      if args[1] == ManTopics[i] {
        valid := true;
        break;
      }
      i := i + 1;
    }
    if !valid {
      return Status(1);
    }
    if !os.hasManPage(args[1]) {
      return Status(1);
    }
    return Status(0);
  }

  /** execute_builtin. */
  method ExecuteBuiltin(sh: Shell, args: seq<string>, os: Os) returns (r: BuiltinOutcome)
    requires args != [] && sh.Valid()
    modifies sh
    ensures sh.Valid()
    ensures BuiltinResult(r, sh.Value()) == Dispatch(args, old(sh.Value()), os)
  {
    if args[0] == "exit" {
      r := ExitOutcome(args);
    } else if args[0] == "cd" {
      r := BuiltinCd(sh, args, os);
    } else if args[0] == "env" {
      r := Status(0);
    } else if args[0] == "setenv" {
      r := BuiltinSetenv(sh, args);
    } else if args[0] == "unsetenv" {
      r := BuiltinUnsetenv(sh, args);
    } else if args[0] == "alias" {
      r := BuiltinAlias(sh, args);
    } else if args[0] == "path" {
      r := BuiltinPath(sh, args);
    } else if args[0] == "man" {
      r := BuiltinMan(args, os);
    } else {
      r := Status(NotBuiltin);
    }
  }
}
