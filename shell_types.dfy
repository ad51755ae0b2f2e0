/** The value types of the interpreter's header: operators, redirections, commands and run modes. */
module ShellTypes {

  /** The control operator that follows a command (op_type). */
  datatype OpType = OpNone | OpSeq | OpAnd | OpOr | OpBg

  /**
   * redir_type together with redir_file: either no redirection, or output
   * redirection (create, truncate, write) to the named file.
   */
  datatype Redir = NoRedir | RedirOut(file: string)

  /**
   * One parsed command: its argument vector (the first is the command name),
   * its redirection and the operator that follows it. A parsed sequence is a
   * seq<Command>; the C array's terminating sentinel is its length.
   */
  datatype Command = Command(args: seq<string>, redir: Redir, nextOp: OpType)

  /** shell_mode: how the interpreter reads its input. */
  datatype ShellMode = ModeInteractive | ModePipe | ModeBatch | ModeInvalid
}
