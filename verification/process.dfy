/** The outcome of running an external command (`Command::output`), as the
    collectors that shell out see it. Running the command is I/O; the
    outcome arrives as a parameter. */
module Process {
  import opened Wrappers

  /** A command that ran: whether it exited successfully, and its standard
      output and standard error decoded as text. */
  datatype CommandOutput = CommandOutput(success: bool, stdout: string, stderr: string)

  /** Running a command either yields its output or fails to start it, in
      which case the error's display text is all that remains. */
  type CommandOutcome = Result<CommandOutput, string>

  /** The command ran and exited successfully. */
  predicate Succeeded(outcome: CommandOutcome) {
    outcome.Ok? && outcome.value.success
  }
}
