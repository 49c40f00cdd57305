/**
 * The non-pipeline path of `main` (src/main.rs:51-73) and `execute_command`
 * (src/main.rs:107-129): an exact match on the first token selects a
 * built-in, anything else starts an external program.
 */
module Dispatch {
  import opened Wrappers
  import opened Text
  import opened Decimal
  import opened System

  /** What a single command line makes the shell do. */
  datatype Command =
    | ChangeDir(target: string)        // `env::set_current_dir(target)`
    | PrintDir                         // print `env::current_dir()`
    | Echo(text: string)               // print `text` and a newline
    | Kill(request: Option<Invocation>)// run `kill <pid>`, or do nothing
    | ListProcesses                    // `list_processes()`
    | DirListing(run: Invocation)      // `cmd /C dir`, output captured and printed
    | Run(run: Invocation)             // run a program with inherited streams and wait

  /** The ways a single command line makes the shell panic. */
  datatype Fault =
    | NoCommand       // `args[0]` on an empty token list (src/main.rs:52)
    | NoKillTarget    // `args[1]` after a lone `kill` (src/main.rs:67)
    | LaunchFailed    // an `expect` on starting the program (src/main.rs:114, 122)

  /** The names `main` handles itself. */
  predicate IsBuiltin(name: string) {
    name in {"cd", "pwd", "echo", "kill", "ps"}
  }

  /**
   * `execute_command`: `dir` becomes `cmd /C dir`, any other name is run as
   * given, with the remaining tokens as its arguments.
   */
  function ExecuteCommand(args: seq<string>): (c: Command)
    requires |args| > 0
    ensures c.DirListing? <==> args[0] == "dir"
    ensures c.DirListing? ==> c.run == Invocation("cmd", ["/C", "dir"])
    ensures c.Run? ==> c.run == Invocation(args[0], args[1..])
    ensures c.DirListing? || c.Run?
  {
    if args[0] == "dir" then DirListing(Invocation("cmd", ["/C", "dir"]))
    else Run(Invocation(args[0], args[1..]))
  }

  /** The argument `kill` is given: the pid re-rendered, if `arg` is an `i32`. */
  function KillRequest(arg: string): (r: Option<Invocation>)
    ensures r.Some? <==> ParseI32(arg).Some?
  {
    match ParseI32(arg)
    case Some(pid) => Some(Invocation("kill", [Render(pid)]))
    case None => None
  }

  /** The `match args[0]` of `main`. */
  function Dispatch(args: seq<string>): (r: Result<Command, Fault>)
    ensures r.Err? <==> args == [] || (args[0] == "kill" && |args| < 2)
    ensures args == [] ==> r == Err(NoCommand)
    ensures args != [] && args[0] == "kill" && |args| < 2 ==> r == Err(NoKillTarget)
    ensures args != [] && args[0] == "pwd" ==> r == Ok(PrintDir)
    ensures args != [] && args[0] == "ps" ==> r == Ok(ListProcesses)
    ensures args != [] && !IsBuiltin(args[0]) ==> r == Ok(ExecuteCommand(args))
    ensures r.Ok? && IsBuiltin(args[0]) ==> !r.value.Run? && !r.value.DirListing?
  {
    if args == [] then Err(NoCommand)
    else
      match args[0]
      case "cd" => Ok(ChangeDir(if |args| > 1 then args[1] else "~"))
      case "pwd" => Ok(PrintDir)
      case "echo" => Ok(Echo(Join(args[1..], " ")))
      case "kill" => if |args| < 2 then Err(NoKillTarget) else Ok(Kill(KillRequest(args[1])))
      case "ps" => Ok(ListProcesses)
      case _ => Ok(ExecuteCommand(args))
  }

  /**
   * A single command line carried out: the dispatch, then the `expect` on
   * starting an external program. The result of `kill` is ignored
   * (`let _ =`), so a failing `kill` does not panic.
   */
  function RunSingle(args: seq<string>, env: Env): (r: Result<Command, Fault>)
    ensures Dispatch(args).Err? ==> r == Dispatch(args)
    ensures r == Err(LaunchFailed) <==>
      (Dispatch(args).Ok? && (Dispatch(args).value.Run? || Dispatch(args).value.DirListing?)
       && (0 in env.failedSpawns || 0 in env.failedWaits))
    ensures r.Ok? ==> r == Dispatch(args)
    ensures Dispatch(args).Ok? && r != Err(LaunchFailed) ==> r == Dispatch(args)
  {
    match Dispatch(args)
    case Err(f) => Err(f)
    case Ok(c) =>
      if (c.Run? || c.DirListing?) && (0 in env.failedSpawns || 0 in env.failedWaits) then Err(LaunchFailed)
      else Ok(c)
  }

  /** `cd` goes to the second token, or to `~` when there is none. */
  lemma CdTarget(args: seq<string>)
    requires AllTokens(args) && |args| > 0 && args[0] == "cd"
    ensures Dispatch(args).Ok? && Dispatch(args).value.ChangeDir?
    ensures var t := Dispatch(args).value.target;
      (|args| > 1 ==> t == args[1] && IsToken(t)) && (|args| == 1 ==> t == "~")
  {
  }

  /**
   * `echo` prints the tokens after the first joined by single spaces: the
   * text is single-spaced, and splitting it again gives those tokens back.
   */
  lemma EchoText(line: string)
    requires var args := Tokens(line); |args| > 0 && args[0] == "echo"
    ensures var args := Tokens(line);
      Dispatch(args).Ok? && Dispatch(args).value.Echo? &&
      var text := Dispatch(args).value.text;
      Tokens(text) == args[1..] && SingleSpaced(text) &&
      (text == [] || (!IsWhitespace(text[0]) && !IsWhitespace(text[|text| - 1])))
  {
    var args := Tokens(line);
    var text := Join(args[1..], " ");
    TokensJoin(args[1..]);
    JoinSingleSpaced(args[1..]);
  }

  /**
   * `kill` starts `kill` with one argument exactly when its argument parses
   * as an `i32`, and that argument is the pid rendered again by
   * `to_string`: canonical decimal, which parses to the same pid.
   */
  lemma KillArgument(args: seq<string>)
    requires |args| > 1 && args[0] == "kill"
    ensures Dispatch(args).Ok? && Dispatch(args).value.Kill?
    ensures var run := Dispatch(args).value.request;
      (run.Some? <==> ParseI32(args[1]).Some?) &&
      (run.Some? ==> run.value.program == "kill" && |run.value.args| == 1
                     && ParseI32(run.value.args[0]) == ParseI32(args[1])
                     && run.value.args == [Render(ParseI32(args[1]).value)])
  {
    match ParseI32(args[1])
    case Some(pid) => ParseRender(pid);
    case None =>
  }
}
