/**
 * The line parser. A line is cut at its first '#', trimmed, split into
 * lexemes (words with quote tracking, the operators `;`, `&`, `&&`, `||`,
 * `|`, `<`, and `>` redirections) and folded into a sequence of commands
 * under the grammar rules: no leading, doubled or trailing operator, one
 * redirection per command, at most 63 commands and 63 arguments each.
 *
 * The specification is the function Parse; the method ParseLine is the
 * character-index state machine of parse_line, proved equal to it.
 */
module Parser {
  import opened Options
  import opened Text
  import opened ShellTypes
  import opened Expander

  /** Size of the command array, sentinel included. */
  const MaxCommands: nat := 64
  /** Size of the argument buffer of one command, NULL terminator included. */
  const MaxArgsPerCmd: nat := 64

  /** What parse_line hands to the executor: nothing (blank line), NULL after an error, or the commands. */
  datatype ParseOutcome = NoCommand | SyntaxError | Commands(cmds: seq<Command>)

  predicate IsOperatorChar(c: char) {
    c == '>' || c == '<' || c == '|' || c == '&' || c == ';'
  }

  predicate IsDoubleOp(a: char, b: char) {
    (a == '&' && b == '&') || (a == '|' && b == '|')
  }

  /** token_to_op: the four control operators; anything else (a lone `|` or `<`) is NONE. */
  function TokenToOp(tok: string): (op: OpType)
    ensures op == OpSeq <==> tok == ";"
    ensures op == OpAnd <==> tok == "&&"
    ensures op == OpOr <==> tok == "||"
    ensures op == OpBg <==> tok == "&"
  {
    if tok == ";" then OpSeq
    else if tok == "&&" then OpAnd
    else if tok == "||" then OpOr
    else if tok == "&" then OpBg
    else OpNone
  }

  predicate IsQuote(c: char) {
    c == '\'' || c == '"'
  }

  /** strip_quotes: the outer pair goes only when the first and last characters are the same quote. */
  function StripQuotes(s: string): (r: string)
    ensures |r| == |s| || |r| == |s| - 2
  {
    if |s| >= 2 && IsQuote(s[0]) && s[|s| - 1] == s[0] then s[1..|s| - 1] else s
  }

  /** process_token: quotes stripped, then variables expanded when '$' is left. */
  function ProcessedToken(tok: string, ctx: ExpandContext): string {
    var u := StripQuotes(tok);
    if '$' in u then Expand(u, ctx) else u
  }

  method ProcessToken(tok: string, ctx: ExpandContext) returns (r: string)
    ensures r == ProcessedToken(tok, ctx)
  {
    var copy := StripQuotes(tok);
    if '$' in copy {
      r := ExpandVariables(copy, ctx);
    } else {
      r := copy;
    }
  }

  // ---------------------------------------------------------------------
  // Preprocessing: comment and surrounding whitespace.

  /** The first index at or after i holding c, or |s|. */
  function FindChar(s: string, c: char, i: nat): (j: nat)
    requires i <= |s|
    ensures i <= j <= |s|
    ensures forall k :: i <= k < j ==> s[k] != c
    ensures j == |s| || s[j] == c
    decreases |s| - i
  {
    if i == |s| || s[i] == c then i else FindChar(s, c, i + 1)
  }

  /** Everything from the first '#' on is dropped, whatever quotes surround it. */
  function StripComment(s: string): string {
    s[..FindChar(s, '#', 0)]
  }

  function TrimLeft(s: string): string {
    if s != [] && IsSpace(s[0]) then TrimLeft(s[1..]) else s
  }

  function TrimRight(s: string): string {
    if s != [] && IsSpace(s[|s| - 1]) then TrimRight(s[..|s| - 1]) else s
  }

  function Trim(s: string): string {
    TrimLeft(TrimRight(s))
  }

  // ---------------------------------------------------------------------
  // Lexemes.

  datatype Lexeme = Word(text: string) | Oper(text: string) | Redirect(file: string)

  function SkipSpaces(t: string, i: nat): (j: nat)
    requires i <= |t|
    ensures i <= j <= |t|
    ensures forall k :: i <= k < j ==> IsSpace(t[k])
    ensures j == |t| || !IsSpace(t[j])
    decreases |t| - i
  {
    if i < |t| && IsSpace(t[i]) then SkipSpaces(t, i + 1) else i
  }

  predicate InFileName(c: char) {
    !IsSpace(c) && !IsOperatorChar(c)
  }

  /** End of the redirection target: the maximal run of characters that are neither space nor operator. */
  function FileEnd(t: string, i: nat): (j: nat)
    requires i <= |t|
    ensures i <= j <= |t|
    ensures forall k :: i <= k < j ==> InFileName(t[k])
    ensures j == |t| || !InFileName(t[j])
    decreases |t| - i
  {
    if i < |t| && InFileName(t[i]) then FileEnd(t, i + 1) else i
  }

  /** The quote variable of parse_line when no quote is open. */
  const NoQuote: char := '\0'

  /**
   * End of a word scanned from i with quote open (or NoQuote): outside
   * quotes a space or operator character ends it, a quote opens; inside, only
   * the same quote closes. None when the text ends inside a quote.
   */
  function WordEnd(t: string, i: nat, quote: char): (r: Option<nat>)
    requires i <= |t|
    ensures r.Some? ==> i <= r.value <= |t|
    ensures quote == NoQuote && i < |t| && InFileName(t[i]) && r.Some? ==> r.value > i
    decreases |t| - i
  {
    if i == |t| then (if quote == NoQuote then Some(i) else None)
    else if quote == NoQuote then
      if IsSpace(t[i]) || IsOperatorChar(t[i]) then Some(i)
      else WordEnd(t, i + 1, if IsQuote(t[i]) then t[i] else NoQuote)
    else WordEnd(t, i + 1, if t[i] == quote then NoQuote else quote)
  }

  /** A lexeme in front of the lexemes that follow it; an error after it stays an error. */
  function Prepend(x: Lexeme, rest: Option<seq<Lexeme>>): (r: Option<seq<Lexeme>>)
    ensures r.Some? <==> rest.Some?
    ensures r.Some? ==> |r.value| == |rest.value| + 1 && r.value[0] == x && r.value[1..] == rest.value
  {
    match rest
    case None => None
    case Some(ls) => Some([x] + ls)
  }

  /** The lexemes of t from index i on; None on a lexical error. */
  function LexFrom(t: string, i: nat): Option<seq<Lexeme>>
    requires i <= |t|
    decreases |t| - i, 2
  {
    var j := SkipSpaces(t, i);
    if j == |t| then Some([]) else LexAt(t, j)
  }

  /** The lexemes from a character that is not a space. */
  function LexAt(t: string, j: nat): Option<seq<Lexeme>>
    requires j < |t|
    decreases |t| - j, 1
  {
    if t[j] == '>' then LexRedirectAt(t, j)
    else if IsOperatorChar(t[j]) then LexOperatorAt(t, j)
    else LexWordAt(t, j)
  }

  /** '>', optional spaces, then a target that must not be empty. */
  function LexRedirectAt(t: string, j: nat): Option<seq<Lexeme>>
    requires j < |t|
    decreases |t| - j, 0
  {
    var k := SkipSpaces(t, j + 1);
    var e := FileEnd(t, k);
    if e == k then None
    else Prepend(Redirect(t[k..e]), LexFrom(t, e))
  }

  /** `&&` and `||` take two characters, every other operator character one. */
  function LexOperatorAt(t: string, j: nat): Option<seq<Lexeme>>
    requires j < |t|
    decreases |t| - j, 0
  {
    var n := if j + 1 < |t| && IsDoubleOp(t[j], t[j + 1]) then 2 else 1;
    Prepend(Oper(t[j..j + n]), LexFrom(t, j + n))
  }

  function LexWordAt(t: string, j: nat): Option<seq<Lexeme>>
    requires j < |t|
    decreases |t| - j, 0
  {
    if !InFileName(t[j]) then None
    else
      match WordEnd(t, j, NoQuote)
      case None => None
      case Some(e) => Prepend(Word(t[j..e]), LexFrom(t, e))
  }

  // ---------------------------------------------------------------------
  // Grammar.

  /** The committed commands, the raw arguments and the redirection of the command being built. */
  datatype Pending = Pending(done: seq<Command>, args: seq<string>, redir: Redir)

  const Start: Pending := Pending([], [], NoRedir)

  predicate IsEmpty(p: Pending) {
    p.args == [] && p.redir == NoRedir
  }

  function ProcessAll(raw: seq<string>, ctx: ExpandContext): (r: seq<string>)
    ensures |r| == |raw|
  {
    if raw == [] then [] else ProcessAll(raw[..|raw| - 1], ctx) + [ProcessedToken(raw[|raw| - 1], ctx)]
  }

  function Commit(p: Pending, op: OpType, ctx: ExpandContext): Command {
    Command(ProcessAll(p.args, ctx), p.redir, op)
  }

  /**
   * The fold of parse_line over the lexemes: a word joins the pending
   * command (dropped past the 63rd); a redirection is recorded unless one is
   * already set; an operator commits a non-empty pending command, and the
   * 63rd committed by an operator ends the parse in an error; at the end a
   * non-empty pending command is committed with NONE, an empty one after
   * an operator is an error.
   */
  function BuildFrom(ls: seq<Lexeme>, p: Pending, ctx: ExpandContext): ParseOutcome
    decreases |ls|
  {
    if ls == [] then
      if !IsEmpty(p) then Commands(p.done + [Commit(p, OpNone, ctx)])
      else if p.done != [] then SyntaxError
      else Commands([])
    else
      match ls[0]
      case Redirect(f) =>
        if p.redir != NoRedir then SyntaxError
        else BuildFrom(ls[1..], p.(redir := RedirOut(f)), ctx)
      case Oper(o) =>
        if IsEmpty(p) then SyntaxError
        else
          var done := p.done + [Commit(p, TokenToOp(o), ctx)];
          if |done| == MaxCommands - 1 then SyntaxError
          else BuildFrom(ls[1..], Pending(done, [], NoRedir), ctx)
      case Word(w) =>
        BuildFrom(ls[1..], if |p.args| < MaxArgsPerCmd - 1 then p.(args := p.args + [w]) else p, ctx)
  }

  function Finish(lexed: Option<seq<Lexeme>>, p: Pending, ctx: ExpandContext): ParseOutcome {
    match lexed
    case None => SyntaxError
    case Some(ls) => BuildFrom(ls, p, ctx)
  }

  /** The meaning of parse_line: every error gives SyntaxError, a blank line NoCommand. */
  function Parse(line: string, ctx: ExpandContext): ParseOutcome {
    var t := Trim(StripComment(line));
    if t == [] then NoCommand else Finish(LexFrom(t, 0), Start, ctx)
  }

  // ---------------------------------------------------------------------
  // The state machine.

  /** The comment cut and the two trimming loops of parse_line. */
  method TrimLine(line: string) returns (t: string)
    ensures t == Trim(StripComment(line))
  {
    var n := 0;
    while n < |line| && line[n] != '#'
      invariant n <= |line|
      invariant FindChar(line, '#', n) == FindChar(line, '#', 0)
    {
      n := n + 1;
    }
    var s := line[..n];
    var end: int := n - 1;
    assert s[..end + 1] == s;
    while end > 0 && IsSpace(s[end])
      invariant -1 <= end < n
      invariant TrimRight(s) == TrimRight(s[..end + 1])
    {
      assert s[..end + 1][..end] == s[..end];
      end := end - 1;
    }
    var u := s[..end + 1];
    var start := 0;
    while start < |u| && IsSpace(u[start])
      invariant start <= |u|
      invariant TrimLeft(u) == TrimLeft(u[start..])
    {
      assert u[start..][1..] == u[start + 1..];
      start := start + 1;
    }
    t := u[start..];
    TrimRightLast(s, u);
  }

  lemma TrimRightLast(s: string, u: string)
    requires TrimRight(s) == TrimRight(u)
    requires u == [] || !IsSpace(u[|u| - 1]) || |u| == 1
    ensures Trim(s) == TrimLeft(u)
  {
    if u != [] && IsSpace(u[|u| - 1]) {
      assert TrimRight(u) == TrimRight(u[..0]);
      assert TrimLeft(u) == TrimLeft(u[1..]);
      assert u[1..] == [];
    }
  }

  method SkipBlanks(t: string, i: nat) returns (j: nat)
    requires i <= |t|
    ensures j == SkipSpaces(t, i)
  {
    j := i;
    while j < |t| && IsSpace(t[j])
      invariant i <= j <= |t|
      invariant SkipSpaces(t, j) == SkipSpaces(t, i)
    {
      j := j + 1;
    }
  }

  /** The redirection branch: skip '>' and spaces, scan the target; an absent target is an error. */
  method LexRedirect(t: string, j: nat) returns (ok: bool, file: string, next: nat)
    requires j < |t| && t[j] == '>'
    ensures ok ==> j < next <= |t| && LexRedirectAt(t, j) == Prepend(Redirect(file), LexFrom(t, next))
    ensures !ok ==> LexRedirectAt(t, j) == None
  {
    var i := SkipBlanks(t, j + 1);
    if i >= |t| {
      return false, "", i;
    }
    var fileStart := i;
    while i < |t| && InFileName(t[i])
      invariant fileStart <= i <= |t|
      invariant FileEnd(t, i) == FileEnd(t, fileStart)
    {
      i := i + 1;
    }
    if i == fileStart {
      return false, "", i;
    }
    return true, t[fileStart..i], i;
  }

  /** The operator branch: `&&` and `||` take two characters, every other operator one. */
  method LexOperator(t: string, j: nat) returns (op: string, next: nat)
    requires j < |t| && IsOperatorChar(t[j]) && t[j] != '>'
    ensures j < next <= |t|
    ensures LexOperatorAt(t, j) == Prepend(Oper(op), LexFrom(t, next))
  {
    if j + 1 < |t| && IsDoubleOp(t[j], t[j + 1]) {
      op, next := [t[j], t[j + 1]], j + 2;
    } else {
      op, next := [t[j]], j + 1;
    }
    assert op == t[j..next];
  }

  /** The word branch with its quote variable; an unterminated quote is an error. */
  method LexWord(t: string, j: nat) returns (ok: bool, next: nat)
    requires j < |t| && InFileName(t[j])
    ensures ok ==> j < next <= |t| && LexWordAt(t, j) == Prepend(Word(t[j..next]), LexFrom(t, next))
    ensures !ok ==> LexWordAt(t, j) == None
  {
    var i := j;
    var quote := NoQuote;
    while i < |t|
      invariant j <= i <= |t|
      invariant WordEnd(t, i, quote) == WordEnd(t, j, NoQuote)
    {
      if quote == NoQuote {
        if IsSpace(t[i]) || IsOperatorChar(t[i]) {
          break;
        }
        if IsQuote(t[i]) {
          quote := t[i];
        }
      } else if t[i] == quote {
        quote := NoQuote;
      }
      i := i + 1;
    }
    if quote != NoQuote {
      return false, i;
    }
    return true, i;
  }

  /** The loop that runs process_token over the collected arguments. */
  method ProcessArgs(args: array<string>, n: nat, ctx: ExpandContext) returns (out: seq<string>)
    requires n <= args.Length
    ensures out == ProcessAll(args[..n], ctx)
  {
    out := [];
    var k := 0;
    while k < n
      invariant k <= n
      invariant out == ProcessAll(args[..k], ctx)
    {
      var tok := ProcessToken(args[k], ctx);
      assert args[..k + 1][..k] == args[..k];
      out := out + [tok];
      k := k + 1;
    }
  }

  /** The state of parse_line as a pending fold state: committed commands, raw arguments, redirection. */
  function PendingOf(cmds: seq<Command>, cmdIdx: nat, args: seq<string>, argIdx: nat): Pending
    requires cmdIdx < |cmds| && argIdx <= |args|
  {
    Pending(cmds[..cmdIdx], args[..argIdx], cmds[cmdIdx].redir)
  }

  /**
   * parse_line. The command array holds the committed commands below
   * cmdIdx and the redirection of the command being built at cmdIdx; the
   * argument buffer holds its raw tokens below argIdx.
   */
  method ParseLine(line: string, ctx: ExpandContext) returns (r: ParseOutcome)
    ensures r == Parse(line, ctx)
  {
    var t := TrimLine(line);
    if t == [] {
      return NoCommand;
    }
    var cmds := new Command[MaxCommands](_ => Command([], NoRedir, OpNone));
    var args := new string[MaxArgsPerCmd](_ => "");
    var cmdIdx: nat := 0;
    var argIdx: nat := 0;
    var i: nat := 0;
    assert cmds[..0] == [] && args[..0] == [];
    while i < |t| && cmdIdx < MaxCommands - 1
      invariant i <= |t| && cmdIdx < MaxCommands && argIdx < MaxArgsPerCmd
      invariant cmds[cmdIdx].nextOp == OpNone
      invariant cmdIdx < MaxCommands - 1 ==>
        Parse(line, ctx) == Finish(LexFrom(t, i), PendingOf(cmds[..], cmdIdx, args[..], argIdx), ctx)
      invariant cmdIdx == MaxCommands - 1 ==>
        Parse(line, ctx) == SyntaxError && argIdx == 0 && cmds[cmdIdx].redir == NoRedir
      decreases |t| - i
    {
      var err;
      err, i, cmdIdx, argIdx := ParseStep(t, i, cmds, cmdIdx, args, argIdx, ctx);
      if err {
        return SyntaxError;
      }
    }
    // After the loop: the lexemes are used up, or the 63rd operator was reached.
    if argIdx > 0 || cmds[cmdIdx].redir != NoRedir {
      CommitCommand(cmds, cmdIdx, args, argIdx, cmds[cmdIdx].nextOp, ctx);
      cmdIdx := cmdIdx + 1;
    } else if cmdIdx > 0 {
      return SyntaxError;
    } else {
      cmds[cmdIdx] := Command([], NoRedir, OpNone);
    }
    return Commands(cmds[..cmdIdx]);
  }

  /**
   * One turn of the loop of parse_line: spaces are skipped and the lexeme
   * found there is folded into the state of the arrays. err is the early
   * return of NULL; otherwise the fold from i agrees with the fold from i'.
   */
  method ParseStep(t: string, i: nat, cmds: array<Command>, cmdIdx: nat, args: array<string>, argIdx: nat,
                   ctx: ExpandContext)
    returns (err: bool, i': nat, cmdIdx': nat, argIdx': nat)
    requires i < |t| && cmds.Length == MaxCommands && args.Length == MaxArgsPerCmd
    requires cmdIdx < MaxCommands - 1 && argIdx < MaxArgsPerCmd && cmds[cmdIdx].nextOp == OpNone
    modifies cmds, args
    ensures err ==> Finish(LexFrom(t, i), PendingOf(old(cmds[..]), cmdIdx, old(args[..]), argIdx), ctx) == SyntaxError
    ensures !err ==> i < i' <= |t| && cmdIdx' < MaxCommands && argIdx' < MaxArgsPerCmd
    ensures !err ==> cmds[cmdIdx'].nextOp == OpNone
    ensures !err && cmdIdx' < MaxCommands - 1 ==>
      Finish(LexFrom(t, i), PendingOf(old(cmds[..]), cmdIdx, old(args[..]), argIdx), ctx)
      == Finish(LexFrom(t, i'), PendingOf(cmds[..], cmdIdx', args[..], argIdx'), ctx)
    ensures !err && cmdIdx' == MaxCommands - 1 ==>
      Finish(LexFrom(t, i), PendingOf(old(cmds[..]), cmdIdx, old(args[..]), argIdx), ctx) == SyntaxError
      && argIdx' == 0 && cmds[cmdIdx'].redir == NoRedir
  {
    var j := SkipBlanks(t, i);
    if j == |t| {
      return false, j, cmdIdx, argIdx;
    }
    assert LexFrom(t, i) == LexAt(t, j);
    if t[j] == '>' {
      cmdIdx', argIdx' := cmdIdx, argIdx;
      err, i' := RedirectStep(t, j, cmds, cmdIdx, args[..], argIdx, ctx);
    } else if IsOperatorChar(t[j]) {
      err, i', cmdIdx', argIdx' := OperatorStep(t, j, cmds, cmdIdx, args, argIdx, ctx);
    } else {
      cmdIdx' := cmdIdx;
      err, i', argIdx' := WordStep(t, j, cmds[..], cmdIdx, args, argIdx, ctx);
    }
  }

  /** The '>' branch of parse_line: the target becomes the redirection of the command being built. */
  method RedirectStep(t: string, j: nat, cmds: array<Command>, cmdIdx: nat, ghost args: seq<string>, argIdx: nat,
                      ctx: ExpandContext)
    returns (err: bool, i': nat)
    requires j < |t| && t[j] == '>' && cmdIdx < cmds.Length && argIdx <= |args|
    modifies cmds
    ensures err ==> Finish(LexRedirectAt(t, j), PendingOf(old(cmds[..]), cmdIdx, args, argIdx), ctx) == SyntaxError
    ensures !err ==> j < i' <= |t| && cmds[cmdIdx].nextOp == old(cmds[cmdIdx].nextOp)
    ensures !err ==>
      Finish(LexRedirectAt(t, j), PendingOf(old(cmds[..]), cmdIdx, args, argIdx), ctx)
      == Finish(LexFrom(t, i'), PendingOf(cmds[..], cmdIdx, args, argIdx), ctx)
  {
    ghost var p := PendingOf(cmds[..], cmdIdx, args, argIdx);
    if cmds[cmdIdx].redir != NoRedir {
      RedirectTwice(t, j, p, ctx);
      return true, j;
    }
    var ok, file, next := LexRedirect(t, j);
    if !ok {
      return true, j;
    }
    FinishRedirect(file, LexFrom(t, next), p, ctx);
    cmds[cmdIdx] := cmds[cmdIdx].(redir := RedirOut(file));
    assert cmds[..cmdIdx] == p.done;
    err, i' := false, next;
  }

  /** The operator branch of parse_line: commit the command being built and start the next one. */
  method OperatorStep(t: string, j: nat, cmds: array<Command>, cmdIdx: nat, args: array<string>, argIdx: nat,
                      ctx: ExpandContext)
    returns (err: bool, i': nat, cmdIdx': nat, argIdx': nat)
    requires j < |t| && IsOperatorChar(t[j]) && t[j] != '>'
    requires cmds.Length == MaxCommands && cmdIdx < MaxCommands - 1 && argIdx <= args.Length
    modifies cmds
    ensures err ==> Finish(LexOperatorAt(t, j), PendingOf(old(cmds[..]), cmdIdx, args[..], argIdx), ctx) == SyntaxError
    ensures !err ==> j < i' <= |t| && cmdIdx' == cmdIdx + 1 && argIdx' == 0
    ensures !err ==> cmds[cmdIdx'] == Command([], NoRedir, OpNone)
    ensures !err && cmdIdx' < MaxCommands - 1 ==>
      Finish(LexOperatorAt(t, j), PendingOf(old(cmds[..]), cmdIdx, args[..], argIdx), ctx)
      == Finish(LexFrom(t, i'), PendingOf(cmds[..], cmdIdx', args[..], argIdx'), ctx)
    ensures !err && cmdIdx' == MaxCommands - 1 ==>
      Finish(LexOperatorAt(t, j), PendingOf(old(cmds[..]), cmdIdx, args[..], argIdx), ctx) == SyntaxError
  {
    ghost var p := PendingOf(cmds[..], cmdIdx, args[..], argIdx);
    if argIdx == 0 && cmds[cmdIdx].redir == NoRedir {
      assert args[..argIdx] == [];
      OperatorFirst(t, j, p, ctx);
      return true, j, cmdIdx, argIdx;
    }
    var op, next := LexOperator(t, j);
    FinishOper(op, LexFrom(t, next), p, ctx);
    CommitCommand(cmds, cmdIdx, args, argIdx, TokenToOp(op), ctx);
    assert args[..0] == [];
    err, i', cmdIdx', argIdx' := false, next, cmdIdx + 1, 0;
  }

  /** The commit of parse_line: the processed arguments and the operator go into cmds[cmdIdx], the next entry is reset. */
  method CommitCommand(cmds: array<Command>, cmdIdx: nat, args: array<string>, argIdx: nat, op: OpType,
                       ctx: ExpandContext)
    requires cmdIdx + 1 < cmds.Length && argIdx <= args.Length
    modifies cmds
    ensures cmds[..cmdIdx + 1]
         == old(cmds[..cmdIdx]) + [Commit(PendingOf(old(cmds[..]), cmdIdx, args[..], argIdx), op, ctx)]
    ensures cmds[cmdIdx + 1] == Command([], NoRedir, OpNone)
  {
    var processed := ProcessArgs(args, argIdx, ctx);
    cmds[cmdIdx] := Command(processed, cmds[cmdIdx].redir, op);
    cmds[cmdIdx + 1] := Command([], NoRedir, OpNone);
  }

  /** The word branch of parse_line: the token joins the argument buffer while it has room. */
  method WordStep(t: string, j: nat, ghost cmds: seq<Command>, cmdIdx: nat, args: array<string>, argIdx: nat,
                  ctx: ExpandContext)
    returns (err: bool, i': nat, argIdx': nat)
    requires j < |t| && InFileName(t[j])
    requires cmdIdx < |cmds| && args.Length == MaxArgsPerCmd && argIdx < MaxArgsPerCmd
    modifies args
    ensures err ==> Finish(LexWordAt(t, j), PendingOf(cmds, cmdIdx, old(args[..]), argIdx), ctx) == SyntaxError
    ensures !err ==> j < i' <= |t| && argIdx' < MaxArgsPerCmd
    ensures !err ==>
      Finish(LexWordAt(t, j), PendingOf(cmds, cmdIdx, old(args[..]), argIdx), ctx)
      == Finish(LexFrom(t, i'), PendingOf(cmds, cmdIdx, args[..], argIdx'), ctx)
  {
    ghost var p := PendingOf(cmds, cmdIdx, args[..], argIdx);
    var ok, next := LexWord(t, j);
    if !ok {
      return true, j, argIdx;
    }
    FinishWord(t[j..next], LexFrom(t, next), p, ctx);
    argIdx' := argIdx;
    if argIdx < MaxArgsPerCmd - 1 {
      args[argIdx] := t[j..next];
      assert args[..argIdx + 1] == p.args + [t[j..next]];
      argIdx' := argIdx + 1;
    } else {
      assert args[..argIdx] == p.args;
    }
    err, i' := false, next;
  }

  // ---------------------------------------------------------------------
  // One step of the fold, for each kind of lexeme.

  lemma FinishRedirect(f: string, rest: Option<seq<Lexeme>>, p: Pending, ctx: ExpandContext)
    requires p.redir == NoRedir
    ensures Finish(Prepend(Redirect(f), rest), p, ctx) == Finish(rest, p.(redir := RedirOut(f)), ctx)
  {
    if rest.Some? {
      assert ([Redirect(f)] + rest.value)[1..] == rest.value;
    }
  }

  lemma FinishOper(o: string, rest: Option<seq<Lexeme>>, p: Pending, ctx: ExpandContext)
    requires !IsEmpty(p)
    ensures var done := p.done + [Commit(p, TokenToOp(o), ctx)];
      Finish(Prepend(Oper(o), rest), p, ctx)
      == if |done| == MaxCommands - 1 then SyntaxError else Finish(rest, Pending(done, [], NoRedir), ctx)
  {
    if rest.Some? {
      assert ([Oper(o)] + rest.value)[1..] == rest.value;
    }
  }

  lemma FinishWord(w: string, rest: Option<seq<Lexeme>>, p: Pending, ctx: ExpandContext)
    ensures Finish(Prepend(Word(w), rest), p, ctx)
         == Finish(rest, if |p.args| < MaxArgsPerCmd - 1 then p.(args := p.args + [w]) else p, ctx)
  {
    if rest.Some? {
      assert ([Word(w)] + rest.value)[1..] == rest.value;
    }
  }

  /** A second '>' in one command is an error, whether or not a target follows. */
  lemma RedirectTwice(t: string, j: nat, p: Pending, ctx: ExpandContext)
    requires j < |t| && t[j] == '>' && p.redir != NoRedir
    ensures Finish(LexRedirectAt(t, j), p, ctx) == SyntaxError
  {
    var k := SkipSpaces(t, j + 1);
    var e := FileEnd(t, k);
    if e != k && LexFrom(t, e).Some? {
      assert ([Redirect(t[k..e])] + LexFrom(t, e).value)[0] == Redirect(t[k..e]);
    }
  }

  /** An operator that finds no argument and no redirection before it is an error. */
  lemma OperatorFirst(t: string, j: nat, p: Pending, ctx: ExpandContext)
    requires j < |t| && IsOperatorChar(t[j]) && t[j] != '>' && IsEmpty(p)
    ensures Finish(LexOperatorAt(t, j), p, ctx) == SyntaxError
  {
    var n := if j + 1 < |t| && IsDoubleOp(t[j], t[j + 1]) then 2 else 1;
    if LexFrom(t, j + n).Some? {
      assert ([Oper(t[j..j + n])] + LexFrom(t, j + n).value)[0] == Oper(t[j..j + n]);
    }
  }
}
