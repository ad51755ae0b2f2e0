/**
 * determine_mode: the run mode chosen from the argument count and whether
 * standard input is a terminal.
 */
module Modes {
  import opened ShellTypes

  /** The mode for argc arguments; isTty is whether standard input is a terminal. */
  function DetermineMode(argc: int, isTty: bool): (m: ShellMode)
    ensures m == ModeInvalid <==> argc > 2
    ensures m == ModeBatch <==> argc == 2
    ensures m == ModePipe <==> argc < 2 && !isTty
    ensures m == ModeInteractive <==> argc < 2 && isTty
  {
    if argc > 2 then ModeInvalid
    else if argc == 2 then ModeBatch
    else if !isTty then ModePipe
    else ModeInteractive
  }

  /** The terminal only matters when no script is named: with a script or too many arguments it is ignored. */
  lemma TerminalIgnoredWithArguments(argc: int)
    requires argc >= 2
    ensures DetermineMode(argc, true) == DetermineMode(argc, false)
  {
  }

  /** Every mode except the invalid one is reachable, and each (argc, tty) pair selects a single mode. */
  lemma ModesCovered()
    ensures DetermineMode(1, true) == ModeInteractive
    ensures DetermineMode(1, false) == ModePipe
    ensures DetermineMode(2, true) == ModeBatch
    ensures DetermineMode(3, false) == ModeInvalid
  {
  }
}
