/**
 * What the shell asks of the operating system, kept abstract: which program
 * to start with which arguments, and which of those requests fail.
 */
module System {

  /** A program name and its argument list, as given to `Command::new(..).args(..)`. */
  datatype Invocation = Invocation(program: string, args: seq<string>)

  /**
   * The operating system's answers for one command line: the indices of the
   * spawns that fail (`spawn`, `status` or `output` returning `Err`) and of
   * the waits that fail (`wait` returning `Err`). Index `k` is the `k`-th
   * stage of a pipeline, or `0` for a single command.
   */
  datatype Env = Env(failedSpawns: set<nat>, failedWaits: set<nat>)

  /** An operating system on which nothing fails. */
  const Reliable: Env := Env({}, {})
}
