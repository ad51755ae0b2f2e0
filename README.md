# oshell in Dafny

A model of the core of oshell, a small Unix command interpreter, together with proofs about it. The model covers five parts:

- **parse_line**: comment removal, trimming, lexing of words, quotes, redirections and `;` `&&` `||` `&` operators, the 63-command and 63-argument limits, and token post-processing.
- **expand_variables**: `$?`, `$$`, `$NAME`, `$PATH` from the shell's own search path, the 256-character name buffer, and the growing output buffer.
- **The executor**:
  - the `&&`/`||` skipping rule;
  - background commands;
  - stopping after a NONE operator;
  - alias expansion as a re-parsed line;
  - dispatch in the order alias, builtin, program;
  - the status of a program;
  - `find_in_path`.
- **The builtins**: `exit`, `cd`, `env`, `setenv`, `unsetenv`, `alias`, `path` and `man`, with the alias table.
- **Start-up**: shell start-up state and run-mode selection.

The design has four parts:

- **One module per source file.** `Parser`, `Expander`, `Executor`, `Builtins` with `Aliases`, `State` and `Modes`. Shared pieces live in `Text` (character classes, decimal rendering, `strtol`, join/split), `ShellTypes` (the types of `shell.h`), `Options`, and `Oracle`.
- **Operating system as an oracle.** Every answer the operating system gives is a field of the `Oracle.Os` value, a record of total functions:
  - fork success;
  - `access(X_OK)`;
  - opening the redirection target;
  - `execv` success;
  - how the child terminates;
  - `chdir` followed by `getcwd`;
  - whether a manual page exists.
- **Specification functions.** A pure function specifies each routine: `Parse`, `Expand`, `FindInPath`, `SeqFrom`/`ExecSingle`/`ExecAlias`, `Dispatch` and the per-builtin functions, `InitialWorld`, `DetermineMode`.
- **Imperative methods proved against them.** The C routines are imperative Dafny methods with the same loops. Their `ensures` ties the result, and the new shell state, to the specification function:
  - `ParseLine` works on arrays sized like the C buffers;
  - `ExpandVariables` keeps its buffer size;
  - `ExecuteSequence` has its `bg_pids` array;
  - the builtins update the `State.Shell` object, which stands for `g_state`, the alias list and the environment.
- **Property modules.** `ParserProperties` and `ExecutorProperties` hold the properties proved about the specification functions.

## Model

| member | source | states |
|---|---|---|
| Parser.TokenToOp | src/core/parser.c:21-27 | `;`, `&&`, `\|\|`, `&` map to SEQ, AND, OR, BG, each in both directions; every other token (a lone `\|` or `<`) is NONE |
| Parser.StripQuotes | src/core/parser.c:29-40 | the result is the token or the token less two characters |
| ParserProperties.StripQuotesPair | src/core/parser.c:29-40 | a token wrapped in a matching pair of `'` or `"` loses exactly that pair |
| ParserProperties.StripQuotesMismatch | src/core/parser.c:29-40 | a token shorter than 2, or whose ends are not the same quote, is unchanged |
| Parser.ProcessToken | src/core/parser.c:42-55 | process_token computes the processed token: quotes stripped, then expanded when a `$` is left |
| ParserProperties.ProcessedIsExpansion | src/core/parser.c:42-55 | the processed token equals the expansion of the quote-stripped token (the no-`$` fast path agrees) |
| ParserProperties.SingleQuotedStatus | src/core/parser.c:42-55 | single quotes do not stop expansion: `'$?'` becomes the decimal exit status |
| Parser.ParseLine | src/core/parser.c:57-232 | the array-based parse_line returns exactly `Parse(line)` (blank line, syntax error or the commands) |
| Parser.Parse | src/core/parser.c:57-232 | the meaning of parse_line: a blank line is no command, otherwise the lexemes of the trimmed line folded into commands, any error giving a syntax error (properties: BlankLine, AcceptedWellFormed, SimpleLine and the *Rejected lemmas) |
| Parser.StripComment | src/core/parser.c:60-61 | the line up to its first `#` (CommentIgnored) |
| Parser.Trim | src/core/parser.c:63-69 | the line without leading and trailing white space (TrimSlice) |
| Parser.WordEnd | src/core/parser.c:172-193 | the quote-tracking scan of a word: where it stops, or failure on an open quote (QuoteClosed, QuoteUnterminated) |
| Parser.LexFrom | src/core/parser.c:87-89 | the lexemes from i on after skipping white space (LexPlain, LexFilesValid) |
| Parser.LexAt | src/core/parser.c:91-206 | a `>` starts a redirection, another operator character an operator, anything else a word |
| Parser.LexRedirectAt | src/core/parser.c:97-124 | `>`, white space, then a target that must not be empty (RedirectTarget) |
| Parser.LexOperatorAt | src/core/parser.c:150-160 | `&&` and `\|\|` as two characters, every other operator character as one (OperatorMeaning) |
| Parser.LexWordAt | src/core/parser.c:172-206 | the word up to where WordEnd stops, or a lexical error |
| Parser.BuildFrom | src/core/parser.c:87-231 | the fold of the lexemes into commands with the limits and errors of the loop (BuildWellFormed, BuildWords, FinishRedirect, FinishOper, FinishWord) |
| Parser.Finish | src/core/parser.c:87-231 | a lexical error is a syntax error, otherwise the fold (FinishNeverEmpty) |
| Parser.ProcessedToken | src/core/parser.c:42-55 | quotes stripped, then expanded when a `$` is left (ProcessedIsExpansion) |
| Parser.TrimLine | src/core/parser.c:58-70 | the comment cut and the two trimming loops give `Trim(StripComment(line))` |
| Parser.FindChar | src/core/parser.c:60-61 | the first index holding the character, or the length when there is none |
| ParserProperties.CommentIgnored | src/core/parser.c:60-61 | everything from the first `#` on is ignored, even inside quotes: `a#b` parses as `a` |
| ParserProperties.TrimSlice | src/core/parser.c:63-69 | trimming keeps the slice between the first and last non-space characters and only spaces lie outside it |
| ParserProperties.BlankLine | src/core/parser.c:58-70 | a line parses to no command exactly when everything before its first `#` is white space |
| ParserProperties.FinishNeverEmpty | src/core/parser.c:209-231 | a non-blank line never yields "no command": it is an error or a sequence |
| Parser.SkipBlanks | src/core/parser.c:88 | the index of the first non-space at or after i |
| Parser.LexRedirect | src/core/parser.c:97-117 | the scan after `>` either yields the target lexeme and resumes past it, or reports the lexical error the lexer reports |
| Parser.LexOperator | src/core/parser.c:150-160 | the operator scan consumes at least one character and yields the operator lexeme the lexer yields, resuming where it resumes |
| Parser.LexWord | src/core/parser.c:172-193 | the quote loop yields the word `t[j..next]` the lexer yields and resumes after it, or fails exactly as the lexer does on an open quote |
| Parser.ProcessArgs | src/core/parser.c:209-218 | the process_token loop yields the processed arguments in order |
| Parser.ParseStep | src/core/parser.c:87-207 | a turn of the main loop that fails means the fold over the lexemes fails; any other turn advances over the text and preserves the fold's outcome, and filling the last of the 64 command slots means the line is rejected |
| Parser.RedirectStep | src/core/parser.c:91-126 | the `>` branch fails only when the fold fails; otherwise it records the target, keeps the command's operator and preserves the fold's outcome |
| Parser.OperatorStep | src/core/parser.c:128-170 | the operator branch fails only when the fold fails; otherwise it moves to the next, emptied command slot with no arguments and preserves the fold's outcome (a full array means rejection) |
| Parser.CommitCommand | src/core/parser.c:135-168 | the earlier commands stay as they were, the current slot receives the processed arguments, the redirection and the operator, and the next slot is emptied |
| Parser.WordStep | src/core/parser.c:172-206 | the word branch fails only on an unterminated quote; otherwise it advances over the word, keeps the argument count below 64 and preserves the fold's outcome |
| Parser.FinishRedirect | src/core/parser.c:123-125 | a redirection lexeme sets the command's redirection |
| Parser.FinishOper | src/core/parser.c:135-168 | an operator after a non-empty command commits it; the 63rd commit is an error |
| Parser.FinishWord | src/core/parser.c:201-205 | a word is appended while fewer than 63 arguments are held |
| Parser.RedirectTwice | src/core/parser.c:91-96 | a second `>` in one command is an error |
| Parser.OperatorFirst | src/core/parser.c:128-148 | an operator with no argument and no redirection before it is an error |
| ParserProperties.LeadingOperatorRejected | src/core/parser.c:128-133 | a line starting with `;`, `&`, `\|` or `<` is rejected |
| ParserProperties.AdjacentOperatorsRejected | src/core/parser.c:135-148 | two consecutive operator lexemes make the fold fail, from any state of the command being built |
| ParserProperties.AdjacentOperatorsInLine | src/core/parser.c:128-148 | a line whose lexemes hold two operators in a row is rejected |
| ParserProperties.TrailingOperatorRejected | src/core/parser.c:209-224 | a line ending in an operator character is rejected |
| ParserProperties.SecondRedirectRejected | src/core/parser.c:91-96 | two redirection lexemes with no operator between them make the fold fail |
| ParserProperties.SecondRedirectInLine | src/core/parser.c:91-96 | a line whose lexemes hold two redirections in one command is rejected |
| ParserProperties.RedirectTarget | src/core/parser.c:97-124 | `>` with no following non-space, non-operator run is rejected; otherwise the target is exactly that maximal run, unexpanded |
| ParserProperties.OperatorMeaning | src/core/parser.c:150-162 | after a non-empty command `&&`/`\|\|` consume two characters and give AND/OR; `;` gives SEQ and `&` BG; a lone `\|` or `<` is NONE |
| ParserProperties.LexFilesValid | src/core/parser.c:107-117 | every redirection target the lexer produces is non-empty and free of spaces and operator characters |
| ParserProperties.BuildWellFormed | src/core/parser.c:87-231 | the fold yields well-formed commands, each with arguments or a redirection and at most 63 arguments |
| ParserProperties.AcceptedWellFormed | src/core/parser.c:87-231 | an accepted line has 1 to 63 well-formed commands and the last is followed by NONE |
| ParserProperties.QuoteClosed | src/core/parser.c:174-187 | inside a quote only the same quote ends quoting; scanning resumes after it |
| ParserProperties.QuoteUnterminated | src/core/parser.c:174-193 | a quote never closed makes the word a lexical error |
| ParserProperties.UnterminatedQuoteRejected | src/core/parser.c:172-193 | a line is rejected when a quote that never closes follows text free of quotes and operator characters, whichever word it opens: `"abc`, `echo "abc`, `echo ab'c` |
| ParserProperties.LexOpenQuote | src/core/parser.c:172-193 | the lexer scans the plain words before such a quote and then fails on the word that holds it |
| ParserProperties.EchoOpenQuote | src/core/parser.c:189-193 | `echo "abc` is rejected |
| ParserProperties.LexPlain | src/core/parser.c:172-206 | text without operators, quotes, `#` or `$` lexes to its whitespace-separated words |
| ParserProperties.BuildWords | src/core/parser.c:195-219 | words fold into one command that keeps its first 63 arguments |
| ParserProperties.SimpleLine | src/core/parser.c:172-219 | a line without operator, quote, `#`, `$` or `>` characters is one command: its first 63 words, no redirection, NONE |
| Expander.NameEnd | src/core/expander.c:116-120 | the end of the maximal run of alphanumeric or `_` characters |
| Expander.GetEnvVar | src/core/expander.c:25-59 | get_env_var returns the variable's value as the expansion defines it (see PathValue for PATH) |
| Expander.PathValue | src/core/expander.c:27-51 | `$PATH` is the internal path list joined by `:` (and splits back into it); the OS PATH is never read; an empty list gives `""` |
| Expander.AppendGrowing | src/core/expander.c:80-91 | the value is appended and the buffer grows so that the write position stays below its size |
| Expander.AppendChar | src/core/expander.c:150-159 | a character is appended and the position stays below the doubled size |
| Expander.ExpandVariables | src/core/expander.c:61-168 | expand_variables returns exactly `Expand(s)` |
| Expander.Expand | src/core/expander.c:61-168 | the meaning of expand_variables: each `$` form replaced once, left to right (ExpandStatus, ExpandPid, ExpandName, ExpandStrayDollar, ExpandTrailingDollar, NoDollarUnchanged, ExpandAppend) |
| Expander.Scan | src/core/expander.c:73-159 | the replacement of the form at the front of the text and how many characters it consumes, always at least one |
| Expander.EnvValue | src/core/expander.c:25-59 | the internal path joined by `:` for PATH, the environment's value otherwise, `""` when unset (PathValue) |
| Expander.ExpandOne | src/core/expander.c:72-161 | one turn of the loop preserves the outcome and keeps the position below the buffer size |
| Expander.ExpandDollar | src/core/expander.c:73-148 | the `$` branch (`$?`, `$$`, a name) preserves the outcome |
| Expander.ExpandNameRef | src/core/expander.c:116-148 | the name branch advances past the name, keeps the write position below the buffer size and preserves the outcome of the expansion |
| Expander.NoDollarUnchanged | src/core/expander.c:62-64 | a string without `$` expands to itself |
| Expander.ExpandStatus | src/core/expander.c:76-94 | `$?` becomes the decimal exit status and the rest is expanded on its own |
| Expander.ExpandPid | src/core/expander.c:95-113 | `$$` becomes the decimal shell pid |
| Expander.ExpandName | src/core/expander.c:116-148 | `$NAME` followed by a non-name character gives the variable's value (empty when unset), or nothing for a name of 256 or more characters |
| Expander.ExpandStrayDollar | src/core/expander.c:116-124 | a `$` before a character that is not `?`, `$` or a name character is dropped, and that character is processed normally |
| Expander.ExpandTrailingDollar | src/core/expander.c:73 | a `$` at the end is copied literally |
| Expander.ExpandAppend | src/core/expander.c:72-161 | expansion is one pass: substituted text is never rescanned, so it splits over a concatenation at a non-name boundary |
| Expander.ExpandFromIsExpand | src/core/expander.c:72-161 | the loop's accumulated view agrees with the expansion of the remaining text |
| Executor.FindInPath | src/core/executor.c:54-69 | a name with `/` resolves only to itself and only when executable; otherwise to the first executable `dir/name` in path order; none when no candidate is executable |
| Executor.FindInPathLoop | src/core/executor.c:54-69 | the loop of find_in_path returns exactly `FindInPath` over the shell's path list |
| Executor.FirstExecutable | src/core/executor.c:60-67 | the first `dir/name` from index i on that is executable, or none when none is |
| ExecutorProperties.FirstMatchWins | src/core/executor.c:60-67 | the search stops at the first executable directory, whatever later directories hold |
| ExecutorProperties.EmptyPathResolvesNothing | src/core/executor.c:60-68 | with an empty path list a bare name never resolves |
| Executor.BuildAliasLine | src/core/executor.c:81-92 | the has_space loop builds exactly `AliasLine(value, args[1..])` |
| Executor.AliasLine | src/core/executor.c:81-92 | the alias value, a space unless the value is empty or ends in a space, then the extra arguments joined by spaces (AliasLineSplits, AliasLineAlone) |
| ExecutorProperties.AliasLineSplits | src/core/executor.c:81-92 | split at spaces, the alias line is the value's words followed by the extra arguments, each one a word of its own; a value ending in a space gets no second space |
| ExecutorProperties.AliasLineAlone | src/core/executor.c:81-92 | without extra arguments the alias line is the value itself |
| ExecutorProperties.AliasParseFailure | src/core/executor.c:95-101 | an alias line that does not parse gives status 1 and changes nothing |
| Executor.RunExternal | src/core/executor.c:128-182 | the fork/exec/wait path returns exactly `External` |
| Executor.External | src/core/executor.c:128-182 | the status of a program from the fork, redirection, lookup, execv and waitpid outcomes (ExternalMapping, ExternalRange) |
| ExecutorProperties.ExternalMapping | src/core/executor.c:133-181 | fork or redirection failure gives 1, not found 127 (also with an empty path), exec failure 126, a normal exit its code, abnormal termination 1 |
| ExecutorProperties.ExternalRange | src/core/executor.c:175-181 | a program's status is in 0..255 |
| Executor.ExecuteSingleCommand | src/core/executor.c:108-183 | execute_single_command returns, and leaves the shell in, exactly what `ExecSingle` says |
| Executor.ExecSingle | src/core/executor.c:108-183 | no arguments gives 0; an alias first, then a builtin, then a program, the status stored (SingleStatusStored, AliasFirst, BuiltinBeforeExternal, ExternalOnlyStatus) |
| Executor.ExecAlias | src/core/executor.c:72-106 | the alias line parsed in the current state and run as a sequence, 1 when it does not parse (AliasParseFailure) |
| Executor.SeqFrom | src/core/executor.c:185-310 | the meaning of execute_sequence from command i on (SkipChain, Background, StopAtNone, FinalStatusStored, SeqStatusRange, SeqKeepsUnique) |
| Executor.Skipped | src/core/executor.c:195-199 | the rule that skips a command after `&&` and a failure or after `\|\|` and a success (SkipChain, BackgroundNeverSkips) |
| Executor.BackgroundStatus | src/core/executor.c:268-278 | 0 when the fork succeeds, 1 when it fails (Background) |
| Executor.ExecuteAlias | src/core/executor.c:72-106 | execute_alias builds the line, parses it and runs the sequence, as `ExecAlias` says |
| Executor.ExecuteSequence | src/core/executor.c:185-310 | the loop with skipping, background forks and the break on NONE computes exactly `SeqFrom` and stores the final status; its invariant keeps in `bg_pids` the pid of every background child started so far, in start order |
| Executor.StartBackground | src/core/executor.c:201-278 | the background branch: status 0 and the child's pid appended to `bg_pids` when the fork succeeds, status 1 and nothing recorded when it fails; earlier pids kept |
| ExecutorProperties.SingleStatusStored | src/core/executor.c:109-126 | no arguments gives 0; whichever path runs a command (alias, builtin, program) its status is stored in exit_status |
| ExecutorProperties.AliasFirst | src/core/executor.c:113-120 | an alias is tried before builtins and programs and its status is stored |
| ExecutorProperties.BuiltinBeforeExternal | src/core/executor.c:122-126 | a builtin name without an alias never reaches fork or exec: two operating systems that agree on chdir and manual pages give the same result |
| ExecutorProperties.ExternalOnlyStatus | src/core/executor.c:128-182 | a program changes nothing in the shell but the exit status |
| ExecutorProperties.SkipChain | src/core/executor.c:195-199 | after a failure every `&&` command is skipped, after a success every `\|\|` command, and the status carries over |
| ExecutorProperties.Background | src/core/executor.c:201-278 | a BG command is not waited for: state unchanged, status 0 when the fork succeeds and 1 when it fails |
| ExecutorProperties.BackgroundNeverSkips | src/core/executor.c:195-201 | the command after a BG command is never skipped |
| ExecutorProperties.StopAtNone | src/core/executor.c:280-283 | after a foreground command followed by NONE the sequence ends: later commands never run |
| ExecutorProperties.PipeRunsOnlyLeft | src/core/executor.c:280-283 | in `a \| b` (the `\|` recorded as NONE) only a runs |
| ExecutorProperties.FinalStatusStored | src/core/executor.c:308-309 | the status a sequence returns is the one stored in exit_status |
| ExecutorProperties.SeqStatusRange | src/core/executor.c:185-310 | every status a sequence, a command or an alias produces is in 0..255 |
| ExecutorProperties.SeqKeepsUnique | src/core/executor.c:185-310 | running a sequence keeps alias names unique |
| Aliases.IndexOf | src/core/builtins.c:23-31 | the first position holding the name, or the length |
| Aliases.Lookup | src/core/builtins.c:40-49 | expand_alias finds a value exactly when some entry has the name, and that entry is in the table |
| Aliases.AddEntry | src/core/builtins.c:22-38 | alias_add keeps the length for a known name and prepends a new entry otherwise |
| Aliases.LookupAfterAdd | src/core/builtins.c:22-49 | right after alias_add(n, v), expand_alias(n) returns v |
| Aliases.LookupOtherAfterAdd | src/core/builtins.c:22-49 | alias_add(n, v) leaves every other name's value as it was |
| Aliases.AddInPlace | src/core/builtins.c:24-29 | overwriting changes only the entry with the name, in place |
| Aliases.AddKeepsUnique | src/core/builtins.c:22-38 | alias names stay unique |
| Aliases.AddIsMapUpdate | src/core/builtins.c:22-38 | read as a map, alias_add is a map update |
| Aliases.LookupIsMap | src/core/builtins.c:40-49 | expand_alias agrees with the map view |
| Builtins.AliasAdd | src/core/builtins.c:22-38 | the list walk of alias_add updates the table as `AddEntry` |
| Builtins.ExpandAlias | src/core/builtins.c:40-49 | the list walk of expand_alias returns `Lookup` |
| Builtins.ExitOutcome | src/core/builtins.c:79-97 | no argument leaves with 0; an argument strtol reads in full leaves with its value's low 8 bits; any other argument gives status 1 and does not leave |
| Builtins.ExitAccepts | src/core/builtins.c:85-96 | every spelling strtol accepts leaves the shell: white space, a sign and leading zeros allowed, code the value's low 8 bits |
| Builtins.ExitMasks | src/core/builtins.c:93 | exit n leaves with n & 0xFF: -1 gives 255, 256 gives 0 |
| Builtins.ExitRejectsJunk | src/core/builtins.c:85-91 | an empty argument or one with trailing junk returns 1 |
| Builtins.CdTarget | src/core/builtins.c:104-125 | no argument means HOME (an error when unset), `-` the old pwd with echo, `--` the old pwd silently, anything else itself |
| Builtins.CdOutcome | src/core/builtins.c:127-147 | failure gives 1 with pwd and oldpwd unchanged; success gives 0, oldpwd the old pwd and pwd the new working directory |
| Builtins.CdDashSwaps | src/core/builtins.c:110-141 | `cd -` swaps pwd and oldpwd |
| Builtins.BuiltinCd | src/core/builtins.c:99-148 | builtin_cd computes `Cd` on the shell |
| Builtins.Cd | src/core/builtins.c:99-148 | the meaning of builtin_cd (CdTarget, CdOutcome, CdDashSwaps) |
| Builtins.SetenvOutcome | src/core/builtins.c:159-169 | fewer than two operands or a name setenv refuses give 1 and no change; otherwise the name is set and all else unchanged |
| Builtins.UnsetenvOutcome | src/core/builtins.c:171-178 | no operand gives 1; otherwise 0 and the name is removed, everything else unchanged |
| Builtins.BuiltinSetenv | src/core/builtins.c:159-169 | builtin_setenv computes `Setenv` on the shell |
| Builtins.BuiltinUnsetenv | src/core/builtins.c:171-178 | builtin_unsetenv computes `Unsetenv` on the shell |
| Builtins.EnvName | src/core/builtins.c:159-169 | a name setenv(3) accepts: non-empty and free of `=` |
| Builtins.Setenv | src/core/builtins.c:159-169 | the meaning of builtin_setenv (SetenvOutcome) |
| Builtins.Unsetenv | src/core/builtins.c:171-178 | the meaning of builtin_unsetenv (UnsetenvOutcome) |
| Builtins.Unquote | src/core/builtins.c:193-202 | a value of length at least 2 wrapped in `'` loses that pair, any other value is kept |
| Builtins.SplitDefinition | src/core/builtins.c:187-202 | `n=v` splits at the first `=` and defines n as the unquoted v |
| Builtins.AliasDefinition | src/core/builtins.c:187-202 | after `alias n=v`, n's value is v (without one pair of single quotes) |
| Builtins.AliasBareName | src/core/builtins.c:203-205 | a bare name only prints: the table is unchanged |
| Builtins.AliasFromUnique | src/core/builtins.c:186-206 | builtin_alias keeps alias names unique |
| Builtins.BuiltinAlias | src/core/builtins.c:180-208 | the argument loop defines each argument left to right and returns 0 |
| Builtins.AliasArgument | src/core/builtins.c:187-205 | one argument: the strchr scan for `=` and the definition or nothing |
| Builtins.AliasDefine | src/core/builtins.c:187-205 | one argument: `n=v` split at the first `=` defines n as v with its quotes removed, a bare name leaves the table (SplitDefinition, AliasDefinition, AliasBareName) |
| Builtins.AliasFrom | src/core/builtins.c:186-206 | the arguments from i on defined left to right (AliasFromUnique) |
| Builtins.AliasBuiltin | src/core/builtins.c:180-208 | status 0 with every argument defined in order |
| Builtins.BuiltinPath | src/core/builtins.c:210-233 | builtin_path counts the operands and copies them: the path list becomes args[1..] in order, its count the length, status 0 |
| Builtins.PathBuiltin | src/core/builtins.c:210-233 | status 0 with the path list replaced by the operands (PathThenExpand) |
| Builtins.PathThenExpand | src/core/builtins.c:210-233 | after `path d1 … dn`, `$PATH` is the operands joined by `:`; `path` alone clears it |
| Builtins.Man | src/core/builtins.c:236-262 | no topic gives 0, a topic outside the nine listed gives 1, a listed topic gives 0 exactly when its page exists |
| Builtins.BuiltinMan | src/core/builtins.c:236-262 | the topic loop with its break computes `Man` |
| Builtins.DispatchNotBuiltin | src/core/builtins.c:317-336 | -1 exactly when the name is not one of the eight builtins; builtin statuses are 0 or 1, exit leaves with 0..255 |
| Builtins.DispatchFrame | src/core/builtins.c:317-336 | each builtin changes only its own part of the state |
| Builtins.DispatchUnique | src/core/builtins.c:317-336 | no builtin creates a duplicate alias name |
| Builtins.ExecuteBuiltin | src/core/builtins.c:317-336 | execute_builtin computes `Dispatch` on the shell |
| Builtins.Dispatch | src/core/builtins.c:317-336 | the builtin named by the first argument, -1 for any other name (DispatchNotBuiltin, DispatchFrame, DispatchUnique) |
| State.InitialWorld | src/core/state.c:9-28 | path list exactly `["/bin"]`, pwd and oldpwd both the working directory or both `/`, exit status 0, shell pid the process id |
| State.InitialExpansions | src/core/state.c:11-26 | in the initial state `$PATH` is `/bin` and `$?` is `0` |
| State.Shell.Init | src/core/state.c:9-28 | init_shell_state builds the initial state with path_count counting the list |
| Modes.DetermineMode | src/modes/determine.c:5-18 | more than two arguments is INVALID, two BATCH, fewer with a non-terminal PIPE, otherwise INTERACTIVE, each in both directions |
| Modes.TerminalIgnoredWithArguments | src/modes/determine.c:8-12 | with a script or too many arguments the terminal does not matter |
| Text.StrToLongDecimal | src/core/builtins.c:85-88 | strtol reads back every decimal rendering fully |
| Text.StrToLongAccepts | src/core/builtins.c:85-88 | strtol with the end check accepts white space, an optional sign and one or more digits, giving the digits' value with the sign applied |
| Text.LeadingZero | src/core/builtins.c:85-88 | a leading zero does not change a digit run's value |
| Text.StrToLong | src/core/builtins.c:85-91 | strtol followed by the `*endptr`/`endptr == args[1]` check (its meaning is StrToLongAccepts, StrToLongDecimal and ExitRejectsJunk) |
| Text.Decimal | src/core/expander.c:9-23 | `snprintf("%d")`: a minus sign for negatives, then the digits without leading zeros (read back by StrToLongDecimal) |
| Text.Join | src/core/expander.c:43-48 | the strcat loop: the pieces with the separator before every one but the first (undone by SplitJoin) |
| Text.SplitJoin | src/core/expander.c:43-48 | splitting the `:`-joined list gives the list back when no element holds `:` |
| ExecutorProperties.SplitPrefixJoin | src/core/executor.c:81-92 | splitting a text, a separator and a joined list gives the text's pieces followed by the list |
| ParserProperties.FindCharIs | src/core/parser.c:60-61 | strchr's answer is the first position of the character, or the end |
| ParserProperties.BuildNeverEmpty | src/core/parser.c:209-231 | folding lexemes never reports "no command" |
| ExecutorProperties.SingleStatusRange | src/core/executor.c:108-183 | a single command's status is in 0..255 |
| ExecutorProperties.AliasStatusRange | src/core/executor.c:72-106 | an alias's status is in 0..255 |
| ExecutorProperties.SingleKeepsUnique | src/core/executor.c:108-183 | a single command keeps alias names unique |
| ExecutorProperties.AliasKeepsUnique | src/core/executor.c:72-106 | running an alias keeps alias names unique |
| Modes.ModesCovered | src/modes/determine.c:5-18 | one argument gives INTERACTIVE on a terminal and PIPE otherwise, two BATCH, three INVALID |

## Left out

- Signals: the blocking and unblocking of SIGINT around fork and wait, `sigtimedwait`, and resetting SIGINT in the child are not modelled.
- Processes: fork, execv, waitpid and access are answers of the `Oracle.Os` value. The same request always gets the same answer, so the model does not capture a file system that changes between commands.
- Redirection: only the outcome of opening the target is modelled (`os.opens`); file descriptors, `dup2` and the open flags are not.
- The background child's own alias path (src/core/executor.c:220-253), which always joins with one space and runs only the first command of the alias line, is invisible to the parent and is not modelled. Only the fork outcome sets the status.
- The final waiting for background children (src/core/executor.c:286-306) does not change the status and is not modelled. The pids are recorded in `bg_pids`.
- Executor.ExecuteSequence: requires fewer than 64 commands, the size of `bg_pids`. Every sequence parse_line accepts has at most 63 (ParserProperties.AcceptedWellFormed).
- Unbounded alias recursion: a self-referential alias never ends in the C program. The model bounds alias re-entry with a `fuel` parameter, and running out gives `Flow.OutOfFuel`.
- The 1024 extra bytes of the alias-line buffer: the line is an unbounded string, so overflowing that buffer is not modelled.
- Text.StrToLong: does not clamp out-of-range values to LONG_MIN/LONG_MAX, because integers are unbounded here.
- Memory: freeing memory and allocation failure (malloc/realloc returning NULL) are not modelled.
- Output:
  - the `env` listing, the alias listings (`alias` and `alias name`) and the manual page rendering (src/core/builtins.c:264-313) are not modelled;
  - the echo of `cd -` is a flag in `CdChoice`;
  - `print_error` is not modelled.
- Read loops and the entry point (main.c, interactive.c, batch.c, pipe.c, utils.c) are not part of this model.
- The oracle's `changeDir` combines `chdir` with the `getcwd` after it. The C case of `getcwd` failing after a successful `chdir` is therefore not modelled; in that case the C code returns 1 with `pwd` freed.
- `chdir` works relative to the process's working directory; the model passes the recorded `pwd` to the oracle as that base.
- NUL characters inside strings are not modelled: strings are `seq<char>`.
- strip_quotes works in place with memmove; the model computes it as a function on strings.
- The realloc'd expansion buffer is a string plus a size counter.
- The `*eq = '\0'` cut inside the arguments of builtin_alias is not modelled.
- These C checks cannot fail, so they are not separate branches: the `oldpwd == NULL` checks of builtin_cd, and the `args == NULL && redir_file == NULL` `continue` of execute_sequence.
- The NULL sentinel that ends the command array is the length of a sequence.
- parse_line returns NULL both for a blank line and for a syntax error. The model tells the two apart as `NoCommand` and `SyntaxError`.
- The alias list and `environ` are folded into the `State.Shell` object together with `g_state`.
