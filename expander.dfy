/**
 * The variable expander: one left-to-right pass over a token that replaces
 * `$?` by the last exit status, `$$` by the interpreter's process id and
 * `$NAME` by the variable's value, where `$PATH` is the interpreter's own
 * search path joined with ':' and every other name comes from the process
 * environment (empty when unset).
 */
module Expander {
  import opened Text

  /** What expansion reads: g_state's exit status, pid and search path, and the process environment. */
  datatype ExpandContext = ExpandContext(
    exitStatus: int,
    shellPid: int,
    pathList: seq<string>,
    env: map<string, string>)

  /** Size of the var_name buffer: a name must be shorter than this to be looked up. */
  const VarNameBuffer: nat := 256

  predicate IsNameChar(c: char) {
    IsAlnum(c) || c == '_'
  }

  /** End of the maximal run of name characters that starts at i. */
  function NameEnd(s: string, i: nat): (j: nat)
    requires i <= |s|
    ensures i <= j <= |s|
    ensures forall k :: i <= k < j ==> IsNameChar(s[k])
    ensures j == |s| || !IsNameChar(s[j])
    decreases |s| - i
  {
    if i == |s| || !IsNameChar(s[i]) then i else NameEnd(s, i + 1)
  }

  /** get_env_var: the internal search path for PATH, the environment otherwise, "" when unset. */
  function EnvValue(name: string, ctx: ExpandContext): string {
    if name == "PATH" then Join(ctx.pathList, ':')
    else if name in ctx.env then ctx.env[name]
    else ""
  }

  /**
   * The form at the start of s: the text that replaces it and how many
   * characters it consumes. A '$' followed by nothing is literal; a '$'
   * followed by no valid form is dropped on its own.
   */
  function Scan(s: string, ctx: ExpandContext): (r: (string, nat))
    requires s != []
    ensures 0 < r.1 <= |s|
  {
    if s[0] == '$' && |s| > 1 then
      if s[1] == '?' then (Decimal(ctx.exitStatus), 2)
      else if s[1] == '$' then (Decimal(ctx.shellPid), 2)
      else
        var e := NameEnd(s, 1);
        if e == 1 then ("", 1)
        else (if e - 1 < VarNameBuffer then EnvValue(s[1..e], ctx) else "", e)
    else ([s[0]], 1)
  }

  /** The expansion of a token: its forms, left to right, each replaced once. */
  function Expand(s: string, ctx: ExpandContext): string
    decreases |s|
  {
    if s == [] then "" else Scan(s, ctx).0 + Expand(s[Scan(s, ctx).1..], ctx)
  }

  /** get_env_var, building the PATH string with a strcat loop. */
  method GetEnvVar(name: string, ctx: ExpandContext) returns (v: string)
    ensures v == EnvValue(name, ctx)
  {
    if name == "PATH" {
      if |ctx.pathList| == 0 {
        return "";
      }
      v := "";
      var i := 0;
      while i < |ctx.pathList|
        invariant 0 <= i <= |ctx.pathList|
        invariant v == Join(ctx.pathList[..i], ':')
      {
        if i > 0 {
          v := v + ":";
        }
        v := v + ctx.pathList[i];
        assert ctx.pathList[..i + 1][..i] == ctx.pathList[..i];
        i := i + 1;
      }
      assert ctx.pathList[..i] == ctx.pathList;
      return;
    }
    if name in ctx.env {
      return ctx.env[name];
    }
    return "";
  }

  /**
   * The realloc-then-strcpy step of expand_variables: when v and the
   * terminating NUL would not fit, the buffer grows to twice what is needed.
   */
  method AppendGrowing(result: string, bufSize: nat, v: string) returns (result': string, bufSize': nat)
    requires |result| < bufSize
    ensures result' == result + v
    ensures |result'| < bufSize'
  {
    bufSize' := bufSize;
    if |result| + |v| + 1 >= bufSize {
      bufSize' := (|result| + |v| + 1) * 2;
    }
    result' := result + v;
  }

  /** Copying one character: the buffer doubles when fewer than two free places are left. */
  method AppendChar(result: string, bufSize: nat, c: char) returns (result': string, bufSize': nat)
    requires |result| < bufSize
    ensures result' == result + [c]
    ensures |result'| < bufSize'
  {
    bufSize' := bufSize;
    if |result| + 2 >= bufSize {
      bufSize' := bufSize * 2;
    }
    result' := result + [c];
  }

  /** The scan over the name characters that follow a '$'. */
  method ScanName(s: string, start: nat) returns (i: nat)
    requires start <= |s|
    ensures i == NameEnd(s, start)
  {
    i := start;
    while i < |s| && IsNameChar(s[i])
      invariant start <= i <= |s|
      invariant NameEnd(s, i) == NameEnd(s, start)
    {
      i := i + 1;
    }
  }

  /**
   * Expansion with an accumulator, from index i: the shape of the pass of
   * expand_variables, which appends each form's replacement to the result.
   */
  function ExpandFrom(s: string, i: nat, acc: string, ctx: ExpandContext): string
    requires i <= |s|
    decreases |s| - i
  {
    if i == |s| then acc
    else
      var r := Scan(s[i..], ctx);
      ExpandFrom(s, i + r.1, acc + r.0, ctx)
  }

  /** The accumulating pass computes the expansion of what is left, after what it has. */
  lemma {:induction false} ExpandFromIsExpand(s: string, i: nat, acc: string, ctx: ExpandContext)
    requires i <= |s|
    ensures ExpandFrom(s, i, acc, ctx) == acc + Expand(s[i..], ctx)
    decreases |s| - i
  {
    if i < |s| {
      var r := Scan(s[i..], ctx);
      assert s[i..][r.1..] == s[i + r.1..];
      ExpandFromIsExpand(s, i + r.1, acc + r.0, ctx);
    } else {
      assert s[i..] == [];
    }
  }

  /**
   * expand_variables: a string without '$' is copied; otherwise one pass
   * appends literal characters and substituted values to a result buffer
   * that is grown before every write, so it always has room for the
   * terminating NUL (|result| < bufSize).
   */
  method ExpandVariables(s: string, ctx: ExpandContext) returns (r: string)
    ensures r == Expand(s, ctx)
  {
    if '$' !in s {
      NoDollarUnchanged(s, ctx);
      return s;
    }
    var bufSize: nat := |s| * 2 + 1;
    var result: string := "";
    var i: nat := 0;
    ghost var full := ExpandFrom(s, 0, "", ctx);
    while i < |s|
      invariant i <= |s|
      invariant |result| < bufSize
      invariant ExpandFrom(s, i, result, ctx) == full
      decreases |s| - i
    {
      i, result, bufSize := ExpandOne(s, i, result, bufSize, ctx);
    }
    ExpandFromIsExpand(s, 0, "", ctx);
    assert s[0..] == s;
    return result;
  }

  /**
   * One iteration of the loop of expand_variables: the form at index i is
   * replaced and the index moves past it (the C leaves i on the last
   * character of a name and the loop's increment steps over it).
   */
  method ExpandOne(s: string, i: nat, result: string, bufSize: nat, ctx: ExpandContext)
    returns (next: nat, result': string, bufSize': nat)
    requires i < |s| && |result| < bufSize
    ensures i < next <= |s| && |result'| < bufSize'
    ensures ExpandFrom(s, next, result', ctx) == ExpandFrom(s, i, result, ctx)
  {
    if s[i] == '$' && i + 1 < |s| {
      next, result', bufSize' := ExpandDollar(s, i, result, bufSize, ctx);
    } else {
      StepLiteral(s, i, result, ctx);
      result', bufSize' := AppendChar(result, bufSize, s[i]);
      next := i + 1;
    }
  }

  /** The '$' branch: `$?`, `$$`, `$NAME`, or a '$' that is dropped. */
  method ExpandDollar(s: string, i: nat, result: string, bufSize: nat, ctx: ExpandContext)
    returns (next: nat, result': string, bufSize': nat)
    requires i + 1 < |s| && s[i] == '$' && |result| < bufSize
    ensures i < next <= |s| && |result'| < bufSize'
    ensures ExpandFrom(s, next, result', ctx) == ExpandFrom(s, i, result, ctx)
  {
    var j := i + 1;
    if s[j] == '?' || s[j] == '$' {
      var v := if s[j] == '?' then Decimal(ctx.exitStatus) else Decimal(ctx.shellPid);
      StepSpecial(s, i, result, ctx);
      result', bufSize' := AppendGrowing(result, bufSize, v);
      next := j + 1;
    } else {
      next, result', bufSize' := ExpandNameRef(s, i, result, bufSize, ctx);
    }
  }

  /** `$NAME`: the value of NAME, nothing for a name of 256 or more characters, and a lone '$' is dropped. */
  method ExpandNameRef(s: string, i: nat, result: string, bufSize: nat, ctx: ExpandContext)
    returns (next: nat, result': string, bufSize': nat)
    requires i + 1 < |s| && s[i] == '$' && s[i + 1] != '?' && s[i + 1] != '$' && |result| < bufSize
    ensures i < next <= |s| && |result'| < bufSize'
    ensures ExpandFrom(s, next, result', ctx) == ExpandFrom(s, i, result, ctx)
  {
    var start := i + 1;
    var j := ScanName(s, start);
    StepName(s, i, j, result, ctx);
    var varLen := j - start;
    result', bufSize' := result, bufSize;
    if varLen > 0 && varLen < VarNameBuffer {
      assert start + varLen == j;
      var v := GetEnvVar(s[start..start + varLen], ctx);
      assert v == EnvValue(s[i + 1..j], ctx);
      result', bufSize' := AppendGrowing(result, bufSize, v);
    }
    // expand_variables steps back one and lets its loop advance: the scan resumes right after the name
    next := j;
  }

  lemma StepLiteral(s: string, i: nat, acc: string, ctx: ExpandContext)
    requires i < |s| && !(s[i] == '$' && i + 1 < |s|)
    ensures ExpandFrom(s, i, acc, ctx) == ExpandFrom(s, i + 1, acc + [s[i]], ctx)
  {
  }

  lemma StepSpecial(s: string, i: nat, acc: string, ctx: ExpandContext)
    requires i + 1 < |s| && s[i] == '$' && (s[i + 1] == '?' || s[i + 1] == '$')
    ensures ExpandFrom(s, i, acc, ctx)
         == ExpandFrom(s, i + 2, acc + (if s[i + 1] == '?' then Decimal(ctx.exitStatus) else Decimal(ctx.shellPid)), ctx)
  {
  }

  lemma StepName(s: string, i: nat, e: nat, acc: string, ctx: ExpandContext)
    requires i + 1 < |s| && s[i] == '$' && s[i + 1] != '?' && s[i + 1] != '$'
    requires e == NameEnd(s, i + 1)
    ensures e == i + 1 ==> ExpandFrom(s, i, acc, ctx) == ExpandFrom(s, i + 1, acc, ctx)
    ensures e - (i + 1) >= VarNameBuffer ==> ExpandFrom(s, i, acc, ctx) == ExpandFrom(s, e, acc, ctx)
    ensures 0 < e - (i + 1) < VarNameBuffer ==>
      ExpandFrom(s, i, acc, ctx) == ExpandFrom(s, e, acc + EnvValue(s[i + 1..e], ctx), ctx)
  {
    var t := s[i..];
    NameEndShift(s, i + 1, t, 1);
    assert t[1..NameEnd(t, 1)] == s[i + 1..e];
    if e - (i + 1) >= VarNameBuffer {
      assert acc + "" == acc;
    }
    if e == i + 1 {
      assert acc + "" == acc;
    }
  }

  /** A token without '$' expands to itself: the fast path of expand_variables agrees with the scan. */
  lemma {:induction false} NoDollarUnchanged(s: string, ctx: ExpandContext)
    requires '$' !in s
    ensures Expand(s, ctx) == s
    decreases |s|
  {
    if s != [] {
      assert s[0] in s;
      assert forall c :: c in s[1..] ==> c in s;
      NoDollarUnchanged(s[1..], ctx);
    }
  }

  lemma {:induction false} NameEndShift(s: string, i: nat, t: string, j: nat)
    requires i <= |s| && j <= |t| && s[i..] == t[j..]
    ensures NameEnd(s, i) - i == NameEnd(t, j) - j
    decreases |s| - i
  {
    if i < |s| {
      assert s[i] == s[i..][0] == t[j];
      assert s[i + 1..] == s[i..][1..];
      assert t[j + 1..] == t[j..][1..];
      NameEndShift(s, i + 1, t, j + 1);
    }
  }

  /** `$?` is replaced by the decimal exit status. */
  lemma ExpandStatus(t: string, ctx: ExpandContext)
    ensures Expand("$?" + t, ctx) == Decimal(ctx.exitStatus) + Expand(t, ctx)
  {
    assert ("$?" + t)[2..] == t;
  }

  /** `$$` is replaced by the decimal process id of the interpreter. */
  lemma ExpandPid(t: string, ctx: ExpandContext)
    ensures Expand("$$" + t, ctx) == Decimal(ctx.shellPid) + Expand(t, ctx)
  {
    assert ("$$" + t)[2..] == t;
  }

  lemma {:induction false} NameRunEnd(s: string, i: nat, e: nat)
    requires i <= e <= |s|
    requires forall k :: i <= k < e ==> IsNameChar(s[k])
    requires e == |s| || !IsNameChar(s[e])
    ensures NameEnd(s, i) == e
    decreases e - i
  {
    if i < e {
      NameRunEnd(s, i + 1, e);
    }
  }

  /**
   * `$NAME`, NAME a maximal run of name characters, becomes the variable's
   * value (nothing when NAME has 256 or more characters); the value is
   * appended as it is and never rescanned.
   */
  lemma ExpandName(name: string, t: string, ctx: ExpandContext)
    requires |name| > 0
    requires forall k :: 0 <= k < |name| ==> IsNameChar(name[k])
    requires t == [] || !IsNameChar(t[0])
    ensures Expand("$" + name + t, ctx)
         == (if |name| < VarNameBuffer then EnvValue(name, ctx) else "") + Expand(t, ctx)
  {
    var s := "$" + name + t;
    NameRunEnd(s, 1, |name| + 1);
    assert s[1..|name| + 1] == name;
    assert s[|name| + 1..] == t;
  }

  /** A '$' followed by no valid form is dropped, and the next character is processed normally. */
  lemma ExpandStrayDollar(c: char, t: string, ctx: ExpandContext)
    requires c != '?' && c != '$' && !IsNameChar(c)
    ensures Expand("$" + [c] + t, ctx) == Expand([c] + t, ctx)
  {
    var s := "$" + [c] + t;
    assert NameEnd(s, 1) == 1;
    assert s[1..] == [c] + t;
  }

  /**
   * Expansion of a concatenation is the concatenation of the expansions when
   * the cut neither follows a '$' nor splits a name.
   */
  lemma {:induction false} ExpandAppend(a: string, b: string, ctx: ExpandContext)
    requires a == [] || a[|a| - 1] != '$'
    requires b == [] || !IsNameChar(b[0])
    ensures Expand(a + b, ctx) == Expand(a, ctx) + Expand(b, ctx)
    decreases |a|
  {
    if a == [] {
      assert a + b == b;
    } else {
      ScanAppend(a, b, ctx);
      var n := Scan(a, ctx).1;
      assert (a + b)[n..] == a[n..] + b;
      ExpandAppend(a[n..], b, ctx);
      assert Expand(a + b, ctx) == Scan(a, ctx).0 + Expand(a[n..] + b, ctx);
    }
  }

  /** The first form of a is found the same way when more text follows that cannot extend it. */
  lemma ScanAppend(a: string, b: string, ctx: ExpandContext)
    requires a != [] && a[|a| - 1] != '$'
    requires b == [] || !IsNameChar(b[0])
    ensures Scan(a + b, ctx) == Scan(a, ctx)
    ensures Scan(a, ctx).1 < |a| ==> a[Scan(a, ctx).1..][|a[Scan(a, ctx).1..]| - 1] != '$'
  {
    var s := a + b;
    if a[0] == '$' && |s| > 1 {
      assert |a| > 1;
      if a[1] != '?' && a[1] != '$' {
        var e := NameEnd(a, 1);
        NameRunEnd(s, 1, e);
        assert s[1..e] == a[1..e];
      }
    }
  }

  /** A '$' as the last character of a token is copied literally. */
  lemma ExpandTrailingDollar(a: string, ctx: ExpandContext)
    requires a == [] || a[|a| - 1] != '$'
    ensures Expand(a + "$", ctx) == Expand(a, ctx) + "$"
  {
    ExpandAppend(a, "$", ctx);
  }

  /**
   * `$PATH` is the internal search path joined with ':', "" for an empty
   * path, whatever the environment holds; for a non-empty path of entries
   * without ':' it splits back into the path.
   */
  lemma PathValue(ctx: ExpandContext, env: map<string, string>)
    ensures EnvValue("PATH", ctx) == Join(ctx.pathList, ':')
    ensures EnvValue("PATH", ctx) == EnvValue("PATH", ctx.(env := env))
    ensures ctx.pathList == [] ==> EnvValue("PATH", ctx) == ""
    ensures |ctx.pathList| > 0 && (forall k :: 0 <= k < |ctx.pathList| ==> ':' !in ctx.pathList[k])
            ==> Split(EnvValue("PATH", ctx), ':') == ctx.pathList
  {
    if |ctx.pathList| > 0 && (forall k :: 0 <= k < |ctx.pathList| ==> ':' !in ctx.pathList[k]) {
      SplitJoin(ctx.pathList, ':');
    }
  }
}
