/**
 * What parse_line promises about the lines it accepts and rejects, proved
 * about the specification Parse.
 */
module ParserProperties {
  import opened Options
  import opened Text
  import opened ShellTypes
  import opened Expander
  import opened Parser

  // ---------------------------------------------------------------------
  // Preprocessing.

  lemma {:induction false} FindCharIs(s: string, c: char, i: nat, j: nat)
    requires i <= j <= |s|
    requires forall k :: i <= k < j ==> s[k] != c
    requires j == |s| || s[j] == c
    ensures FindChar(s, c, i) == j
    decreases j - i
  {
    if i < j {
      FindCharIs(s, c, i + 1, j);
    }
  }

  /** Everything from the first '#' on is ignored, even when it sits inside quotes. */
  lemma CommentIgnored(a: string, b: string, ctx: ExpandContext)
    requires '#' !in a
    ensures StripComment(a + "#" + b) == a
    ensures Parse(a + "#" + b, ctx) == Parse(a, ctx)
  {
    var s := a + "#" + b;
    assert forall k :: 0 <= k < |a| ==> s[k] == a[k];
    FindCharIs(s, '#', 0, |a|);
    assert s[..|a|] == a;
    FindCharIs(a, '#', 0, |a|);
    assert a[..|a|] == a;
  }

  lemma {:induction false} TrimLeftSlice(s: string) returns (a: nat)
    ensures a <= |s| && TrimLeft(s) == s[a..]
    ensures forall k :: 0 <= k < a ==> IsSpace(s[k])
    ensures a == |s| || !IsSpace(s[a])
    decreases |s|
  {
    if s != [] && IsSpace(s[0]) {
      var a' := TrimLeftSlice(s[1..]);
      a := a' + 1;
      assert s[1..][a'..] == s[a..];
    } else {
      a := 0;
    }
  }

  lemma {:induction false} TrimRightSlice(s: string) returns (b: nat)
    ensures b <= |s| && TrimRight(s) == s[..b]
    ensures forall k :: b <= k < |s| ==> IsSpace(s[k])
    ensures b == 0 || !IsSpace(s[b - 1])
    decreases |s|
  {
    if s != [] && IsSpace(s[|s| - 1]) {
      b := TrimRightSlice(s[..|s| - 1]);
      assert s[..|s| - 1][..b] == s[..b];
    } else {
      b := |s|;
    }
  }

  /**
   * Trimming cuts s to the slice between its first and last non-space
   * characters: only spaces lie outside it, and it neither starts nor ends
   * with one.
   */
  lemma TrimSlice(s: string) returns (a: nat, b: nat)
    ensures a <= b <= |s| && Trim(s) == s[a..b]
    ensures forall k :: 0 <= k < a ==> IsSpace(s[k])
    ensures forall k :: b <= k < |s| ==> IsSpace(s[k])
    ensures a < b ==> !IsSpace(s[a]) && !IsSpace(s[b - 1])
  {
    b := TrimRightSlice(s);
    a := TrimLeftSlice(s[..b]);
    PrefixSpaces(s, a, b);
  }

  lemma PrefixSpaces(s: string, a: nat, b: nat)
    requires a <= b <= |s|
    requires forall k :: 0 <= k < a ==> IsSpace(s[..b][k])
    requires a == b || !IsSpace(s[..b][a])
    ensures forall k :: 0 <= k < a ==> IsSpace(s[k])
    ensures a < b ==> !IsSpace(s[a])
    ensures s[..b][a..] == s[a..b]
  {
    assert forall k :: 0 <= k < b ==> s[..b][k] == s[k];
  }

  /** A line parses to nothing exactly when everything before its first '#' is white space. */
  lemma BlankLine(line: string, ctx: ExpandContext)
    ensures Parse(line, ctx) == NoCommand <==>
            forall k :: 0 <= k < |StripComment(line)| ==> IsSpace(StripComment(line)[k])
  {
    var s := StripComment(line);
    var a, b := TrimSlice(s);
    if a < b {
      assert !IsSpace(s[a]);
      FinishNeverEmpty(LexFrom(Trim(s), 0), Start, ctx);
    }
  }

  lemma {:induction false} BuildNeverEmpty(ls: seq<Lexeme>, p: Pending, ctx: ExpandContext)
    ensures BuildFrom(ls, p, ctx) != NoCommand
    decreases |ls|
  {
    if ls != [] {
      match ls[0]
      case Redirect(f) =>
        if p.redir == NoRedir {
          BuildNeverEmpty(ls[1..], p.(redir := RedirOut(f)), ctx);
        }
      case Oper(o) =>
        if !IsEmpty(p) {
          var done := p.done + [Commit(p, TokenToOp(o), ctx)];
          if |done| != MaxCommands - 1 {
            BuildNeverEmpty(ls[1..], Pending(done, [], NoRedir), ctx);
          }
        }
      case Word(w) =>
        BuildNeverEmpty(ls[1..], if |p.args| < MaxArgsPerCmd - 1 then p.(args := p.args + [w]) else p, ctx);
    }
  }

  lemma FinishNeverEmpty(lexed: Option<seq<Lexeme>>, p: Pending, ctx: ExpandContext)
    ensures Finish(lexed, p, ctx) != NoCommand
  {
    if lexed.Some? {
      BuildNeverEmpty(lexed.value, p, ctx);
    }
  }

  // ---------------------------------------------------------------------
  // Operators.

  /** A line whose first character is an operator other than '>' is rejected. */
  lemma LeadingOperatorRejected(line: string, ctx: ExpandContext)
    requires var t := Trim(StripComment(line)); t != [] && IsOperatorChar(t[0]) && t[0] != '>'
    ensures Parse(line, ctx) == SyntaxError
  {
    var t := Trim(StripComment(line));
    assert LexFrom(t, 0) == LexAt(t, 0) == LexOperatorAt(t, 0);
    OperatorFirst(t, 0, Start, ctx);
  }

  /** An operator first in the lexemes, or right after another, is an error. */
  lemma {:induction false} AdjacentOperatorsRejected(ls: seq<Lexeme>, k: nat, p: Pending, ctx: ExpandContext)
    requires k + 1 < |ls| && ls[k].Oper? && ls[k + 1].Oper?
    ensures BuildFrom(ls, p, ctx) == SyntaxError
    decreases k
  {
    if k == 0 {
      if !IsEmpty(p) {
        var done := p.done + [Commit(p, TokenToOp(ls[0].text), ctx)];
        if |done| != MaxCommands - 1 {
          assert ls[1..][0] == ls[1];
        }
      }
    } else {
      assert ls[1..][k - 1] == ls[k] && ls[1..][k] == ls[k + 1];
      match ls[0]
      case Redirect(f) =>
        if p.redir == NoRedir {
          AdjacentOperatorsRejected(ls[1..], k - 1, p.(redir := RedirOut(f)), ctx);
        }
      case Oper(o) =>
        if !IsEmpty(p) {
          var done := p.done + [Commit(p, TokenToOp(o), ctx)];
          if |done| != MaxCommands - 1 {
            AdjacentOperatorsRejected(ls[1..], k - 1, Pending(done, [], NoRedir), ctx);
          }
        }
      case Word(w) =>
        AdjacentOperatorsRejected(ls[1..], k - 1, if |p.args| < MaxArgsPerCmd - 1 then p.(args := p.args + [w]) else p, ctx);
    }
  }

  /** A line whose lexemes hold two operators in a row is rejected. */
  lemma AdjacentOperatorsInLine(line: string, ls: seq<Lexeme>, k: nat, ctx: ExpandContext)
    requires LexFrom(Trim(StripComment(line)), 0) == Some(ls)
    requires k + 1 < |ls| && ls[k].Oper? && ls[k + 1].Oper?
    ensures Parse(line, ctx) == SyntaxError
  {
    assert Trim(StripComment(line)) != [];
    AdjacentOperatorsRejected(ls, k, Start, ctx);
  }

  /** Lexemes that end with an operator are rejected. */
  lemma {:induction false} TrailingOperatorLexemeRejected(ls: seq<Lexeme>, p: Pending, ctx: ExpandContext)
    requires ls != [] && ls[|ls| - 1].Oper?
    ensures BuildFrom(ls, p, ctx) == SyntaxError
    decreases |ls|
  {
    if |ls| == 1 {
      assert ls[1..] == [];
    } else {
      assert ls[1..][|ls[1..]| - 1] == ls[|ls| - 1];
      match ls[0]
      case Redirect(f) =>
        if p.redir == NoRedir {
          TrailingOperatorLexemeRejected(ls[1..], p.(redir := RedirOut(f)), ctx);
        }
      case Oper(o) =>
        if !IsEmpty(p) {
          var done := p.done + [Commit(p, TokenToOp(o), ctx)];
          if |done| != MaxCommands - 1 {
            TrailingOperatorLexemeRejected(ls[1..], Pending(done, [], NoRedir), ctx);
          }
        }
      case Word(w) =>
        TrailingOperatorLexemeRejected(ls[1..], if |p.args| < MaxArgsPerCmd - 1 then p.(args := p.args + [w]) else p, ctx);
    }
  }

  /** A word cannot run to the end of a text whose last character is an operator. */
  lemma {:induction false} WordEndBeforeOperator(t: string, i: nat, q: char)
    requires i < |t| && IsOperatorChar(t[|t| - 1]) && (q == NoQuote || IsQuote(q))
    requires WordEnd(t, i, q).Some?
    ensures WordEnd(t, i, q).value < |t|
    decreases |t| - i
  {
    if i < |t| - 1 {
      if q == NoQuote {
        if !(IsSpace(t[i]) || IsOperatorChar(t[i])) {
          WordEndBeforeOperator(t, i + 1, if IsQuote(t[i]) then t[i] else NoQuote);
        }
      } else {
        WordEndBeforeOperator(t, i + 1, if t[i] == q then NoQuote else q);
      }
    }
  }

  predicate EndsWithOper(lexed: Option<seq<Lexeme>>) {
    lexed.Some? ==> lexed.value != [] && lexed.value[|lexed.value| - 1].Oper?
  }

  lemma PrependEndsWithOper(x: Lexeme, rest: Option<seq<Lexeme>>)
    requires rest.Some? ==> rest.value != []
    requires EndsWithOper(rest)
    ensures EndsWithOper(Prepend(x, rest))
  {
    if rest.Some? {
      assert ([x] + rest.value)[|rest.value|] == rest.value[|rest.value| - 1];
    }
  }

  /** When the text ends with an operator character, so do its lexemes (a final '>' has no target). */
  lemma {:induction false} LexEndsWithOperator(t: string, i: nat)
    requires i < |t| && IsOperatorChar(t[|t| - 1])
    ensures EndsWithOper(LexFrom(t, i))
    decreases |t| - i, 1
  {
    var j := SkipSpaces(t, i);
    assert !IsSpace(t[|t| - 1]);
    assert j < |t|;
    assert LexFrom(t, i) == LexAt(t, j);
    if t[j] == '>' {
      RedirectEndsWithOperator(t, j);
    } else if IsOperatorChar(t[j]) {
      OperatorEndsWithOperator(t, j);
    } else {
      WordEndsWithOperator(t, j);
    }
  }

  lemma {:induction false} RedirectEndsWithOperator(t: string, j: nat)
    requires j < |t| && IsOperatorChar(t[|t| - 1]) && t[j] == '>'
    ensures EndsWithOper(LexRedirectAt(t, j))
    decreases |t| - j, 0
  {
    var k := SkipSpaces(t, j + 1);
    var e := FileEnd(t, k);
    if e != k {
      assert !InFileName(t[|t| - 1]);
      assert e < |t|;
      LexEndsWithOperator(t, e);
      LexNonEmpty(t, e);
      PrependEndsWithOper(Redirect(t[k..e]), LexFrom(t, e));
    }
  }

  lemma {:induction false} OperatorEndsWithOperator(t: string, j: nat)
    requires j < |t| && IsOperatorChar(t[|t| - 1]) && IsOperatorChar(t[j]) && t[j] != '>'
    ensures EndsWithOper(LexOperatorAt(t, j))
    decreases |t| - j, 0
  {
    var n := if j + 1 < |t| && IsDoubleOp(t[j], t[j + 1]) then 2 else 1;
    if j + n < |t| {
      LexEndsWithOperator(t, j + n);
      LexNonEmpty(t, j + n);
      PrependEndsWithOper(Oper(t[j..j + n]), LexFrom(t, j + n));
    }
  }

  lemma {:induction false} WordEndsWithOperator(t: string, j: nat)
    requires j < |t| && IsOperatorChar(t[|t| - 1]) && InFileName(t[j])
    ensures EndsWithOper(LexWordAt(t, j))
    decreases |t| - j, 0
  {
    var w := WordEnd(t, j, NoQuote);
    if w.Some? {
      WordEndBeforeOperator(t, j, NoQuote);
      LexEndsWithOperator(t, w.value);
      LexNonEmpty(t, w.value);
      PrependEndsWithOper(Word(t[j..w.value]), LexFrom(t, w.value));
    }
  }

  /** Text with a character that is not a space lexes to something or fails. */
  lemma LexNonEmpty(t: string, i: nat)
    requires i < |t| && !IsSpace(t[|t| - 1])
    ensures LexFrom(t, i).Some? ==> LexFrom(t, i).value != []
  {
    var j := SkipSpaces(t, i);
    assert !IsSpace(t[|t| - 1]);
    assert j < |t|;
    assert LexFrom(t, i) == LexAt(t, j);
    if t[j] == '>' {
      assert LexAt(t, j) == LexRedirectAt(t, j);
    } else if IsOperatorChar(t[j]) {
      assert LexAt(t, j) == LexOperatorAt(t, j);
    } else {
      assert LexAt(t, j) == LexWordAt(t, j);
    }
  }

  /**
   * A line whose last character (before any comment, after trimming) is an
   * operator, '>' included, is rejected.
   */
  lemma TrailingOperatorRejected(line: string, ctx: ExpandContext)
    requires var t := Trim(StripComment(line)); t != [] && IsOperatorChar(t[|t| - 1])
    ensures Parse(line, ctx) == SyntaxError
  {
    var t := Trim(StripComment(line));
    LexEndsWithOperator(t, 0);
    if LexFrom(t, 0).Some? {
      TrailingOperatorLexemeRejected(LexFrom(t, 0).value, Start, ctx);
    }
  }

  // ---------------------------------------------------------------------
  // Redirections.

  lemma {:induction false} RedirectAlreadySet(ls: seq<Lexeme>, b: nat, p: Pending, ctx: ExpandContext)
    requires b < |ls| && ls[b].Redirect? && p.redir != NoRedir
    requires forall c :: 0 <= c < b ==> !ls[c].Oper?
    ensures BuildFrom(ls, p, ctx) == SyntaxError
    decreases b
  {
    if b > 0 {
      assert ls[1..][b - 1] == ls[b];
      match ls[0]
      case Redirect(f) =>
      case Word(w) =>
        RedirectAlreadySet(ls[1..], b - 1, if |p.args| < MaxArgsPerCmd - 1 then p.(args := p.args + [w]) else p, ctx);
    }
  }

  /** Two redirections with no operator between them, that is in one command, are an error. */
  lemma {:induction false} SecondRedirectRejected(ls: seq<Lexeme>, a: nat, b: nat, p: Pending, ctx: ExpandContext)
    requires a < b < |ls| && ls[a].Redirect? && ls[b].Redirect?
    requires forall c :: a < c < b ==> !ls[c].Oper?
    ensures BuildFrom(ls, p, ctx) == SyntaxError
    decreases a
  {
    assert ls[1..][b - 1] == ls[b];
    if a == 0 {
      if p.redir == NoRedir {
        RedirectAlreadySet(ls[1..], b - 1, p.(redir := RedirOut(ls[0].file)), ctx);
      }
    } else {
      assert ls[1..][a - 1] == ls[a];
      match ls[0]
      case Redirect(f) =>
        if p.redir == NoRedir {
          SecondRedirectRejected(ls[1..], a - 1, b - 1, p.(redir := RedirOut(f)), ctx);
        }
      case Oper(o) =>
        if !IsEmpty(p) {
          var done := p.done + [Commit(p, TokenToOp(o), ctx)];
          if |done| != MaxCommands - 1 {
            SecondRedirectRejected(ls[1..], a - 1, b - 1, Pending(done, [], NoRedir), ctx);
          }
        }
      case Word(w) =>
        SecondRedirectRejected(ls[1..], a - 1, b - 1, if |p.args| < MaxArgsPerCmd - 1 then p.(args := p.args + [w]) else p, ctx);
    }
  }

  /** A line with two redirections in one command is rejected. */
  lemma SecondRedirectInLine(line: string, ls: seq<Lexeme>, a: nat, b: nat, ctx: ExpandContext)
    requires LexFrom(Trim(StripComment(line)), 0) == Some(ls)
    requires a < b < |ls| && ls[a].Redirect? && ls[b].Redirect?
    requires forall c :: a < c < b ==> !ls[c].Oper?
    ensures Parse(line, ctx) == SyntaxError
  {
    assert Trim(StripComment(line)) != [];
    SecondRedirectRejected(ls, a, b, Start, ctx);
  }

  /**
   * The target of '>' is the maximal run of non-space, non-operator
   * characters after the spaces that follow it, kept verbatim; an empty run
   * rejects the line.
   */
  lemma RedirectTarget(t: string, j: nat, k: nat, e: nat, p: Pending, ctx: ExpandContext)
    requires j < |t| && t[j] == '>' && p.redir == NoRedir
    requires j + 1 <= k <= e <= |t|
    requires forall m :: j + 1 <= m < k ==> IsSpace(t[m])
    requires k == |t| || !IsSpace(t[k])
    requires forall m :: k <= m < e ==> InFileName(t[m])
    requires e == |t| || !InFileName(t[e])
    ensures k == e ==> Finish(LexRedirectAt(t, j), p, ctx) == SyntaxError
    ensures k < e ==> Finish(LexRedirectAt(t, j), p, ctx) == Finish(LexFrom(t, e), p.(redir := RedirOut(t[k..e])), ctx)
  {
    assert SkipSpaces(t, j + 1) == k;
    assert FileEnd(t, k) == e;
    if k < e {
      FinishRedirect(t[k..e], LexFrom(t, e), p, ctx);
    }
  }

  // ---------------------------------------------------------------------
  // The shape of an accepted line.

  /** A redirection target as the lexer cuts it: non-empty, no space and no operator character. */
  predicate ValidFileName(f: string) {
    f != [] && forall k :: 0 <= k < |f| ==> InFileName(f[k])
  }

  predicate FilesValid(ls: seq<Lexeme>) {
    forall k :: 0 <= k < |ls| && ls[k].Redirect? ==> ValidFileName(ls[k].file)
  }

  /** A command as parse_line builds it: something to run or a redirection, at most 63 arguments. */
  predicate WellFormedCommand(c: Command) {
    && (c.args != [] || c.redir != NoRedir)
    && |c.args| < MaxArgsPerCmd
    && (c.redir.RedirOut? ==> ValidFileName(c.redir.file))
  }

  /** An accepted sequence: 1 to 63 well-formed commands, the last followed by NONE. */
  predicate WellFormed(cs: seq<Command>) {
    && 0 < |cs| < MaxCommands
    && (forall k :: 0 <= k < |cs| ==> WellFormedCommand(cs[k]))
    && cs[|cs| - 1].nextOp == OpNone
  }

  lemma PrependFilesValid(x: Lexeme, rest: Option<seq<Lexeme>>)
    requires x.Redirect? ==> ValidFileName(x.file)
    requires rest.Some? ==> FilesValid(rest.value)
    ensures Prepend(x, rest).Some? ==> FilesValid(Prepend(x, rest).value)
  {
    if rest.Some? {
      var ls := [x] + rest.value;
      forall k | 0 <= k < |ls| && ls[k].Redirect?
        ensures ValidFileName(ls[k].file)
      {
        if k > 0 {
          assert ls[k] == rest.value[k - 1];
        }
      }
    }
  }

  /** Every redirection target the lexer produces is a valid file name. */
  lemma {:induction false} LexFilesValid(t: string, i: nat)
    requires i <= |t|
    ensures LexFrom(t, i).Some? ==> FilesValid(LexFrom(t, i).value)
    decreases |t| - i, 1
  {
    var j := SkipSpaces(t, i);
    if j < |t| {
      assert LexFrom(t, i) == LexAt(t, j);
      if t[j] == '>' {
        RedirectFilesValid(t, j);
      } else if IsOperatorChar(t[j]) {
        OperatorFilesValid(t, j);
      } else {
        WordFilesValid(t, j);
      }
    }
  }

  lemma {:induction false} OperatorFilesValid(t: string, j: nat)
    requires j < |t| && IsOperatorChar(t[j]) && t[j] != '>'
    ensures LexOperatorAt(t, j).Some? ==> FilesValid(LexOperatorAt(t, j).value)
    decreases |t| - j, 0
  {
    var n := if j + 1 < |t| && IsDoubleOp(t[j], t[j + 1]) then 2 else 1;
    LexFilesValid(t, j + n);
    PrependFilesValid(Oper(t[j..j + n]), LexFrom(t, j + n));
  }

  lemma {:induction false} WordFilesValid(t: string, j: nat)
    requires j < |t| && InFileName(t[j])
    ensures LexWordAt(t, j).Some? ==> FilesValid(LexWordAt(t, j).value)
    decreases |t| - j, 0
  {
    var w := WordEnd(t, j, NoQuote);
    if w.Some? {
      LexFilesValid(t, w.value);
      PrependFilesValid(Word(t[j..w.value]), LexFrom(t, w.value));
    }
  }

  lemma {:induction false} RedirectFilesValid(t: string, j: nat)
    requires j < |t| && t[j] == '>'
    ensures LexRedirectAt(t, j).Some? ==> FilesValid(LexRedirectAt(t, j).value)
    decreases |t| - j, 0
  {
    var k := SkipSpaces(t, j + 1);
    var e := FileEnd(t, k);
    if e != k {
      assert ValidFileName(t[k..e]) by {
        assert forall m :: 0 <= m < e - k ==> t[k..e][m] == t[k + m];
      }
      LexFilesValid(t, e);
      PrependFilesValid(Redirect(t[k..e]), LexFrom(t, e));
    }
  }

  predicate PendingOk(p: Pending) {
    && (forall k :: 0 <= k < |p.done| ==> WellFormedCommand(p.done[k]))
    && |p.done| < MaxCommands - 1
    && |p.args| < MaxArgsPerCmd
    && (p.redir.RedirOut? ==> ValidFileName(p.redir.file))
  }

  /** An accepted outcome is well-formed, or empty when nothing was read. */
  predicate OutcomeOk(r: ParseOutcome, nonEmpty: bool) {
    r.Commands? ==> (WellFormed(r.cmds) || (r.cmds == [] && !nonEmpty))
  }

  lemma {:induction false} BuildWellFormed(ls: seq<Lexeme>, p: Pending, ctx: ExpandContext)
    requires FilesValid(ls) && PendingOk(p)
    ensures OutcomeOk(BuildFrom(ls, p, ctx), ls != [] || p.done != [] || !IsEmpty(p))
    decreases |ls|
  {
    if ls == [] {
      if !IsEmpty(p) {
        var cs := p.done + [Commit(p, OpNone, ctx)];
        assert forall k :: 0 <= k < |p.done| ==> cs[k] == p.done[k];
      }
    } else {
      assert FilesValid(ls[1..]) by {
        assert forall k :: 0 <= k < |ls| - 1 ==> ls[1..][k] == ls[k + 1];
      }
      match ls[0]
      case Redirect(f) =>
        if p.redir == NoRedir {
          BuildWellFormed(ls[1..], p.(redir := RedirOut(f)), ctx);
        }
      case Oper(o) =>
        if !IsEmpty(p) {
          var done := p.done + [Commit(p, TokenToOp(o), ctx)];
          if |done| != MaxCommands - 1 {
            assert forall k :: 0 <= k < |p.done| ==> done[k] == p.done[k];
            BuildWellFormed(ls[1..], Pending(done, [], NoRedir), ctx);
          }
        }
      case Word(w) =>
        BuildWellFormed(ls[1..], if |p.args| < MaxArgsPerCmd - 1 then p.(args := p.args + [w]) else p, ctx);
    }
  }

  /**
   * Every accepted line is a well-formed sequence: no empty command (so no
   * leading, doubled or trailing operator got through), at most 63
   * commands of at most 63 arguments, the last followed by NONE, and every
   * redirection target a maximal run without spaces or operators.
   */
  lemma AcceptedWellFormed(line: string, ctx: ExpandContext)
    requires Parse(line, ctx).Commands?
    ensures WellFormed(Parse(line, ctx).cmds)
  {
    var t := Trim(StripComment(line));
    var a, b := TrimSlice(StripComment(line));
    assert t != [] && !IsSpace(t[|t| - 1]);
    LexFilesValid(t, 0);
    LexNonEmpty(t, 0);
    BuildWellFormed(LexFrom(t, 0).value, Start, ctx);
    assert LexFrom(t, 0).value != [];
  }

  // ---------------------------------------------------------------------
  // Quotes.

  /**
   * Inside a quote, spaces and operator characters are part of the word:
   * the scan resumes unquoted right after the matching quote.
   */
  lemma {:induction false} QuoteClosed(t: string, i: nat, q: char, k: nat)
    requires IsQuote(q) && i <= k < |t| && t[k] == q
    requires forall m :: i <= m < k ==> t[m] != q
    ensures WordEnd(t, i, q) == WordEnd(t, k + 1, NoQuote)
    decreases k - i
  {
    if i < k {
      QuoteClosed(t, i + 1, q, k);
    }
  }

  /** A quote that is never closed makes the word, and so the line, an error. */
  lemma {:induction false} QuoteUnterminated(t: string, i: nat, q: char)
    requires IsQuote(q) && i <= |t|
    requires forall m :: i <= m < |t| ==> t[m] != q
    ensures WordEnd(t, i, q) == None
    decreases |t| - i
  {
    if i < |t| {
      QuoteUnterminated(t, i + 1, q);
    }
  }

  /**
   * A line is rejected when a quote that nothing closes follows text without
   * quotes or operator characters: `"abc`, `echo "abc` and `echo ab'c` alike.
   */
  lemma UnterminatedQuoteRejected(line: string, n: nat, ctx: ExpandContext)
    requires var t := Trim(StripComment(line));
      n < |t| && (forall k :: 0 <= k < n ==> Unquoted(t[k])) && IsQuote(t[n]) && t[n] !in t[n + 1..]
    ensures Parse(line, ctx) == SyntaxError
  {
    var t := Trim(StripComment(line));
    assert forall m :: n + 1 <= m < |t| ==> t[m] == t[n + 1..][m - n - 1];
    QuoteUnterminated(t, n + 1, t[n]);
    LexOpenQuote(t, n, 0);
  }

  /** `echo "abc` is rejected. */
  lemma EchoOpenQuote(ctx: ExpandContext)
    ensures Parse("echo \"abc", ctx) == SyntaxError
  {
    var line := "echo \"abc";
    FindCharIs(line, '#', 0, |line|);
    assert StripComment(line) == line;
    assert Trim(line) == line;
    assert line[6..] == "abc";
    UnterminatedQuoteRejected(line, 5, ctx);
  }

  /** A character the lexer treats as part of a plain word or as a separator. */
  predicate Unquoted(c: char) {
    !IsQuote(c) && !IsOperatorChar(c)
  }

  /**
   * Lexing from i, before an open quote at n with only unquoted text
   * between, fails: the words up to n are scanned, and the word holding the
   * quote never ends.
   */
  lemma {:induction false} LexOpenQuote(t: string, n: nat, i: nat)
    requires i <= n < |t| && IsQuote(t[n]) && WordEnd(t, n + 1, t[n]) == None
    requires forall k :: i <= k < n ==> Unquoted(t[k])
    ensures LexFrom(t, i) == None
    decreases n - i
  {
    var j := SkipSpaces(t, i);
    assert j <= n by {
      assert !IsSpace(t[n]);
    }
    assert LexFrom(t, i) == LexAt(t, j) == LexWordAt(t, j);
    WordEndOpenQuote(t, n, j);
    if WordEnd(t, j, NoQuote).Some? {
      var e := WordEnd(t, j, NoQuote).value;
      assert j < e;
      LexOpenQuote(t, n, e);
    }
  }

  /** The word scan from j before the open quote ends at a space before n, or fails. */
  lemma {:induction false} WordEndOpenQuote(t: string, n: nat, j: nat)
    requires j <= n < |t| && IsQuote(t[n]) && WordEnd(t, n + 1, t[n]) == None
    requires forall k :: j <= k < n ==> Unquoted(t[k])
    ensures WordEnd(t, j, NoQuote).Some? ==> j <= WordEnd(t, j, NoQuote).value < n && IsSpace(t[WordEnd(t, j, NoQuote).value])
    decreases n - j
  {
    if j < n && !IsSpace(t[j]) {
      assert Unquoted(t[j]);
      WordEndOpenQuote(t, n, j + 1);
    }
  }

  // ---------------------------------------------------------------------
  // Token post-processing.

  /** The outer pair of a quoted token is removed, whatever it holds. */
  lemma StripQuotesPair(x: string, q: char)
    requires IsQuote(q)
    ensures StripQuotes([q] + x + [q]) == x
  {
    var s := [q] + x + [q];
    assert s[1..|s| - 1] == x;
  }

  /** Unmatched or mixed quotes are left alone. */
  lemma StripQuotesMismatch(s: string)
    requires |s| < 2 || s[0] != s[|s| - 1] || !IsQuote(s[0])
    ensures StripQuotes(s) == s
  {
  }

  /**
   * A token is the expansion of its unquoted text: variables are expanded
   * in single-quoted tokens too.
   */
  lemma ProcessedIsExpansion(tok: string, ctx: ExpandContext)
    ensures ProcessedToken(tok, ctx) == Expand(StripQuotes(tok), ctx)
  {
    if '$' !in StripQuotes(tok) {
      NoDollarUnchanged(StripQuotes(tok), ctx);
    }
  }

  /** `'$?'` becomes the exit status, as `$?` does. */
  lemma SingleQuotedStatus(ctx: ExpandContext)
    ensures ProcessedToken("'$?'", ctx) == Decimal(ctx.exitStatus)
  {
    assert StripQuotes("'$?'") == "$?";
    ExpandStatus("", ctx);
    assert "$?" + "" == "$?";
  }

  // ---------------------------------------------------------------------
  // A line of plain words.

  /** A character with no meaning to the parser or the expander. */
  predicate PlainChar(c: char) {
    !IsOperatorChar(c) && !IsQuote(c) && c != '#' && c != '$'
  }

  predicate PlainText(s: string) {
    forall k :: 0 <= k < |s| ==> PlainChar(s[k])
  }

  function NonSpaceEnd(s: string, i: nat): (j: nat)
    requires i <= |s|
    ensures i <= j <= |s|
    ensures forall k :: i <= k < j ==> !IsSpace(s[k])
    ensures j == |s| || IsSpace(s[j])
    decreases |s| - i
  {
    if i < |s| && !IsSpace(s[i]) then NonSpaceEnd(s, i + 1) else i
  }

  /** The whitespace-separated words of s from index i on. */
  function WordsFrom(s: string, i: nat): seq<string>
    requires i <= |s|
    decreases |s| - i
  {
    if i == |s| then []
    else if IsSpace(s[i]) then WordsFrom(s, i + 1)
    else [s[i..NonSpaceEnd(s, i)]] + WordsFrom(s, NonSpaceEnd(s, i))
  }

  function Words(s: string): seq<string> {
    WordsFrom(s, 0)
  }

  /** The first n elements, or all of them when there are fewer. */
  function Take<T>(xs: seq<T>, n: nat): (r: seq<T>)
    ensures |r| <= n && r <= xs
    ensures |xs| <= n ==> r == xs
  {
    if |xs| <= n then xs else xs[..n]
  }

  function WordLexemes(ws: seq<string>): (ls: seq<Lexeme>)
    ensures |ls| == |ws|
  {
    if ws == [] then [] else [Word(ws[0])] + WordLexemes(ws[1..])
  }

  lemma {:induction false} WordsSkipSpaces(s: string, i: nat, j: nat)
    requires i <= j <= |s|
    requires forall k :: i <= k < j ==> IsSpace(s[k])
    ensures WordsFrom(s, i) == WordsFrom(s, j)
    decreases j - i
  {
    if i < j {
      WordsSkipSpaces(s, i + 1, j);
    }
  }

  lemma SliceOfSlice(s: string, a: nat, b: nat, i: nat, e: nat)
    requires a <= b <= |s| && i <= e <= b - a
    ensures s[a..b][i..e] == s[a + i..a + e]
  {
    assert forall k :: 0 <= k < e - i ==> s[a..b][i..e][k] == s[a + i..a + e][k];
  }

  lemma {:induction false} NonSpaceEndShift(line: string, a: nat, b: nat, i: nat)
    requires a <= b <= |line| && a + i <= b
    requires b == |line| || IsSpace(line[b])
    ensures NonSpaceEnd(line[a..b], i) + a == NonSpaceEnd(line, a + i)
    decreases b - (a + i)
  {
    if a + i < b && !IsSpace(line[a + i]) {
      NonSpaceEndShift(line, a, b, i + 1);
    }
  }

  /** The words of a slice that ends at a space (or the end) are the words of the line from there. */
  lemma {:induction false} WordsShift(line: string, a: nat, b: nat, i: nat)
    requires a <= b <= |line| && a + i <= b
    requires forall k :: b <= k < |line| ==> IsSpace(line[k])
    ensures WordsFrom(line[a..b], i) == WordsFrom(line, a + i)
    decreases b - (a + i)
  {
    if a + i == b {
      WordsSkipSpaces(line, b, |line|);
    } else if IsSpace(line[a + i]) {
      WordsShift(line, a, b, i + 1);
      WordsShiftSpace(line, a, b, i);
    } else {
      var e := NonSpaceEnd(line[a..b], i);
      NonSpaceEndShift(line, a, b, i);
      WordsShift(line, a, b, e);
      WordsShiftWord(line, a, b, i);
    }
  }

  lemma WordsShiftSpace(line: string, a: nat, b: nat, i: nat)
    requires a <= b <= |line| && a + i < b && IsSpace(line[a + i])
    requires WordsFrom(line[a..b], i + 1) == WordsFrom(line, a + i + 1)
    ensures WordsFrom(line[a..b], i) == WordsFrom(line, a + i)
  {
    var t := line[a..b];
    assert t[i] == line[a + i];
  }

  lemma WordsShiftWord(line: string, a: nat, b: nat, i: nat)
    requires a <= b <= |line| && a + i < b && !IsSpace(line[a + i])
    requires NonSpaceEnd(line[a..b], i) + a == NonSpaceEnd(line, a + i)
    requires WordsFrom(line[a..b], NonSpaceEnd(line[a..b], i)) == WordsFrom(line, a + NonSpaceEnd(line[a..b], i))
    ensures WordsFrom(line[a..b], i) == WordsFrom(line, a + i)
  {
    var t := line[a..b];
    var e := NonSpaceEnd(t, i);
    assert t[i] == line[a + i];
    calc {
      WordsFrom(t, i);
      [t[i..e]] + WordsFrom(t, e);
      { SliceOfSlice(line, a, b, i, e); }
      [line[a + i..a + e]] + WordsFrom(line, a + e);
      [line[a + i..NonSpaceEnd(line, a + i)]] + WordsFrom(line, NonSpaceEnd(line, a + i));
      WordsFrom(line, a + i);
    }
  }

  lemma {:induction false} WordEndPlain(t: string, i: nat)
    requires i <= |t| && PlainText(t)
    ensures WordEnd(t, i, NoQuote) == Some(NonSpaceEnd(t, i))
    decreases |t| - i
  {
    if i < |t| && !IsSpace(t[i]) {
      assert PlainChar(t[i]);
      WordEndPlain(t, i + 1);
    }
  }

  /** Plain text lexes to its words. */
  lemma {:induction false} LexPlain(t: string, i: nat)
    requires i <= |t| && PlainText(t)
    ensures LexFrom(t, i) == Some(WordLexemes(WordsFrom(t, i)))
    decreases |t| - i
  {
    var j := SkipSpaces(t, i);
    WordsSkipSpaces(t, i, j);
    if j < |t| {
      assert PlainChar(t[j]);
      assert LexFrom(t, i) == LexAt(t, j) == LexWordAt(t, j);
      WordEndPlain(t, j);
      var e := NonSpaceEnd(t, j);
      LexPlain(t, e);
      var ws := WordsFrom(t, j);
      assert ws == [t[j..e]] + WordsFrom(t, e);
      assert ws[1..] == WordsFrom(t, e);
    }
  }

  lemma {:induction false} PlainWords(s: string, i: nat)
    requires i <= |s| && PlainText(s)
    ensures forall k :: 0 <= k < |WordsFrom(s, i)| ==> PlainText(WordsFrom(s, i)[k]) && WordsFrom(s, i)[k] != []
    decreases |s| - i
  {
    if i < |s| {
      if IsSpace(s[i]) {
        PlainWords(s, i + 1);
      } else {
        var e := NonSpaceEnd(s, i);
        PlainWords(s, e);
        assert PlainText(s[i..e]) by {
          assert forall k :: 0 <= k < e - i ==> s[i..e][k] == s[i + k];
        }
      }
    }
  }

  lemma {:induction false} ProcessAllPlain(ws: seq<string>, ctx: ExpandContext)
    requires forall k :: 0 <= k < |ws| ==> PlainText(ws[k])
    ensures ProcessAll(ws, ctx) == ws
    decreases |ws|
  {
    if ws != [] {
      var w := ws[|ws| - 1];
      assert PlainText(w);
      if |w| > 0 {
        assert PlainChar(w[0]);
      }
      assert '$' !in w;
      ProcessAllPlain(ws[..|ws| - 1], ctx);
    }
  }

  /** The outcome of a line whose lexemes are the words args. */
  function OneCommand(args: seq<string>, ctx: ExpandContext): ParseOutcome {
    if args == [] then Commands([])
    else Commands([Command(ProcessAll(Take(args, MaxArgsPerCmd - 1), ctx), NoRedir, OpNone)])
  }

  lemma BuildWordStep(ws: seq<string>, a: seq<string>, ctx: ExpandContext)
    requires ws != []
    ensures BuildFrom(WordLexemes(ws), Pending([], a, NoRedir), ctx)
         == BuildFrom(WordLexemes(ws[1..]),
                      if |a| < MaxArgsPerCmd - 1 then Pending([], a + [ws[0]], NoRedir) else Pending([], a, NoRedir), ctx)
  {
    var ls := WordLexemes(ws);
    assert ls[0] == Word(ws[0]) && ls[1..] == WordLexemes(ws[1..]);
  }

  lemma BuildWordsEnd(a: seq<string>, ctx: ExpandContext)
    requires |a| < MaxArgsPerCmd
    ensures BuildFrom(WordLexemes([]), Pending([], a, NoRedir), ctx) == OneCommand(a + [], ctx)
  {
    assert a + [] == a;
  }

  lemma BuildWordsCapped(ws: seq<string>, a: seq<string>, ctx: ExpandContext)
    requires ws != [] && |a| == MaxArgsPerCmd - 1
    ensures OneCommand(a + ws[1..], ctx) == OneCommand(a + ws, ctx)
  {
    assert (a + ws[1..])[..MaxArgsPerCmd - 1] == a;
    assert (a + ws)[..MaxArgsPerCmd - 1] == a;
    assert Take(a + ws[1..], MaxArgsPerCmd - 1) == a == Take(a + ws, MaxArgsPerCmd - 1);
    assert a + ws[1..] != [] && a + ws != [];
  }

  /** Words fold into one command that keeps the first 63 of its arguments. */
  lemma {:induction false} BuildWords(ws: seq<string>, a: seq<string>, ctx: ExpandContext)
    requires |a| < MaxArgsPerCmd
    ensures BuildFrom(WordLexemes(ws), Pending([], a, NoRedir), ctx) == OneCommand(a + ws, ctx)
    decreases |ws|
  {
    if ws == [] {
      BuildWordsEnd(a, ctx);
    } else if |a| < MaxArgsPerCmd - 1 {
      BuildWords(ws[1..], a + [ws[0]], ctx);
      BuildWordsGrow(ws, a, ctx);
    } else {
      BuildWords(ws[1..], a, ctx);
      BuildWordsFull(ws, a, ctx);
    }
  }

  /** The step of BuildWords that still has room for an argument. */
  lemma BuildWordsGrow(ws: seq<string>, a: seq<string>, ctx: ExpandContext)
    requires ws != [] && |a| < MaxArgsPerCmd - 1
    requires BuildFrom(WordLexemes(ws[1..]), Pending([], a + [ws[0]], NoRedir), ctx) == OneCommand(a + [ws[0]] + ws[1..], ctx)
    ensures BuildFrom(WordLexemes(ws), Pending([], a, NoRedir), ctx) == OneCommand(a + ws, ctx)
  {
    calc {
      BuildFrom(WordLexemes(ws), Pending([], a, NoRedir), ctx);
      { BuildWordStep(ws, a, ctx); }
      BuildFrom(WordLexemes(ws[1..]), Pending([], a + [ws[0]], NoRedir), ctx);
      OneCommand(a + [ws[0]] + ws[1..], ctx);
      { ConsTail(a, ws); }
      OneCommand(a + ws, ctx);
    }
  }

  lemma ConsTail<T>(a: seq<T>, ws: seq<T>)
    requires ws != []
    ensures a + [ws[0]] + ws[1..] == a + ws
  {
  }

  /** The step of BuildWords once the argument array is full: the word is dropped. */
  lemma BuildWordsFull(ws: seq<string>, a: seq<string>, ctx: ExpandContext)
    requires ws != [] && |a| == MaxArgsPerCmd - 1
    requires BuildFrom(WordLexemes(ws[1..]), Pending([], a, NoRedir), ctx) == OneCommand(a + ws[1..], ctx)
    ensures BuildFrom(WordLexemes(ws), Pending([], a, NoRedir), ctx) == OneCommand(a + ws, ctx)
  {
    BuildWordStep(ws, a, ctx);
    BuildWordsCapped(ws, a, ctx);
  }

  /**
   * A line of words without operator, quote, '#', '$' or '>' characters is
   * one command: its whitespace-separated words (the first 63 of them),
   * no redirection, followed by NONE.
   */
  lemma SimpleLine(line: string, ctx: ExpandContext)
    requires PlainText(line) && Words(line) != []
    ensures Parse(line, ctx) == Commands([Command(Take(Words(line), MaxArgsPerCmd - 1), NoRedir, OpNone)])
  {
    var t := Trim(StripComment(line));
    PlainTrim(line);
    assert t != [];
    LexPlain(t, 0);
    BuildWords(Words(line), [], ctx);
    assert [] + Words(line) == Words(line);
    assert Parse(line, ctx) == OneCommand(Words(line), ctx);
    PlainWords(t, 0);
    ProcessAllPlain(Take(Words(line), MaxArgsPerCmd - 1), ctx);
  }

  /** Cutting a comment and trimming leave plain text and its words as they were. */
  lemma PlainTrim(line: string)
    requires PlainText(line)
    ensures PlainText(Trim(StripComment(line)))
    ensures WordsFrom(Trim(StripComment(line)), 0) == Words(line)
  {
    FindCharIs(line, '#', 0, |line|);
    assert StripComment(line) == line;
    var a, b := TrimSlice(line);
    var t := Trim(line);
    WordsSkipSpaces(line, 0, a);
    WordsShift(line, a, b, 0);
    assert forall k :: 0 <= k < |t| ==> t[k] == line[a + k];
  }

  // ---------------------------------------------------------------------
  // Operator meaning by character.

  /** The operator the characters at j denote, and how many characters it takes. */
  function OperatorTable(c: char, pair: bool): (OpType, nat) {
    if c == ';' then (OpSeq, 1)
    else if c == '&' && pair then (OpAnd, 2)
    else if c == '|' && pair then (OpOr, 2)
    else if c == '&' then (OpBg, 1)
    else (OpNone, 1)
  }

  /**
   * An operator after a non-empty command commits it with the operator's
   * type: "&&" and "||" take two characters, ';' and '&' one, and a lone
   * '|' or '<' is recorded as NONE.
   */
  lemma OperatorMeaning(t: string, j: nat, p: Pending, ctx: ExpandContext)
    requires j < |t| && IsOperatorChar(t[j]) && t[j] != '>' && !IsEmpty(p)
    requires |p.done| < MaxCommands - 2
    ensures var (op, n) := OperatorTable(t[j], j + 1 < |t| && t[j + 1] == t[j]);
      j + n <= |t| &&
      Finish(LexOperatorAt(t, j), p, ctx) == Finish(LexFrom(t, j + n), Pending(p.done + [Commit(p, op, ctx)], [], NoRedir), ctx)
  {
    var n := if j + 1 < |t| && IsDoubleOp(t[j], t[j + 1]) then 2 else 1;
    FinishOper(t[j..j + n], LexFrom(t, j + n), p, ctx);
    if n == 2 {
      assert t[j..j + n] == [t[j], t[j + 1]];
    } else {
      assert t[j..j + n] == [t[j]];
    }
  }
}
