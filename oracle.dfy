/**
 * The operating system as the interpreter sees it: answers to fork, to
 * access(X_OK), to opening a redirection target, to execv and waitpid, to
 * chdir followed by getcwd, and to the presence of a manual page. Each
 * answer is a function of the request.
 */
module Oracle {
  import opened Options
  import opened ShellTypes

  datatype ForkResult = Forked(pid: int) | ForkFailed

  /** How a waited-for child ended: exit with a code, or killed by a signal. */
  datatype Termination = Exited(code: int) | Signaled

  datatype Os = Os(
    /** fork() for a command: the child's pid, or failure. */
    fork: Command -> ForkResult,
    /** access(path, X_OK) == 0 */
    executable: string -> bool,
    /** open(path, O_WRONLY | O_CREAT | O_TRUNC) succeeds */
    opens: string -> bool,
    /** execv(path, args) replaces the child (does not return) */
    execs: string -> bool,
    /** How the program at path with the given args ends. */
    wait: (string, seq<string>) -> Termination,
    /** chdir(target) from the directory cwd, then getcwd(): the new directory, or None when chdir fails. */
    changeDir: (string, string) -> Option<string>,
    /** man/<topic>.1 or ../man/<topic>.1 can be opened */
    hasManPage: string -> bool)
}
