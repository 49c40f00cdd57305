/**
 * The read-evaluate loop of `main` (src/main.rs:28-76): read a line, trim
 * it, stop on `quit`, split it on `|`, and run it as a pipeline when it has
 * more than one stage, as a single command otherwise.
 */
module Session {
  import opened Wrappers
  import opened Text
  import opened System
  import opened Dispatch
  import opened Pipeline

  /** What `read_line` yields: a line (empty at end of input) or an error. */
  datatype Read = Line(text: string) | ReadError

  /** What the shell did with one line. */
  datatype Effect =
    | Single(command: Command)
    | PipelineRun(stages: seq<string>, processes: seq<Child>, trace: seq<Event>)

  /** Why a panic ended the session. */
  datatype Panic =
    | CommandPanic(fault: Fault)
    | PipelinePanic(stages: seq<string>, processes: seq<Child>, trace: seq<Event>, outcome: Outcome)

  /** How the session ends. */
  datatype End = Quit | InputFailed | Panicked(panic: Panic)

  /** The stage strings of a trimmed line: its `|`-separated pieces, each trimmed (src/main.rs:47). */
  function Stages(input: string): (r: seq<string>)
    ensures |r| == |Split(input, '|')|
    ensures forall k :: 0 <= k < |r| ==> r[k] == Trim(Split(input, '|')[k])
  {
    var pieces := Split(input, '|');
    seq(|pieces|, k requires 0 <= k < |pieces| => Trim(pieces[k]))
  }

  /** There is one stage more than there are `|` characters, none of which is left in a stage. */
  lemma StagesCount(input: string)
    ensures |Stages(input)| == multiset(input)['|'] + 1
    ensures forall k :: 0 <= k < |Stages(input)| ==> '|' !in Stages(input)[k]
  {
    SplitCount(input, '|');
    forall k | 0 <= k < |Stages(input)|
      ensures '|' !in Stages(input)[k]
    {
      TrimKeeps(Split(input, '|')[k], '|');
    }
  }

  /** A line goes to `execute_pipeline` exactly when it contains `|`. */
  lemma PipelineIffBar(line: string)
    ensures |Stages(Trim(line))| > 1 <==> '|' in line
  {
    StagesCount(Trim(line));
    TrimKeeps(line, '|');
  }

  /** The line read at position `i`; past the last line, end of input, which reads as empty. */
  function ReadAt(lines: seq<Read>, i: nat): Read {
    if i < |lines| then lines[i] else Line("")
  }

  /** The operating system's answers for line `i`; nothing fails past the given ones. */
  function EnvAt(envs: seq<Env>, i: nat): Env {
    if i < |envs| then envs[i] else Reliable
  }

  /** Line `line` ran to completion with answers `env` and did `e`. */
  predicate Handled(line: Read, env: Env, e: Effect) {
    line.Line? && Trim(line.text) != "quit" &&
    var input := Trim(line.text);
    match e
    case Single(command) =>
      |Stages(input)| == 1 && RunSingle(Tokens(input), env) == Ok(command)
    case PipelineRun(stages, processes, trace) =>
      stages == Stages(input) && |stages| > 1 && Ran(stages, env, processes, trace, Completed)
  }

  /** Line `line`, read with answers `env`, ends the session with `end`. */
  predicate Ends(line: Read, env: Env, end: End) {
    match end
    case InputFailed => line.ReadError?
    case Quit => line.Line? && Trim(line.text) == "quit"
    case Panicked(CommandPanic(fault)) =>
      line.Line? && Trim(line.text) != "quit" &&
      var input := Trim(line.text);
      |Stages(input)| == 1 && RunSingle(Tokens(input), env) == Err(fault)
    case Panicked(PipelinePanic(stages, processes, trace, outcome)) =>
      line.Line? && Trim(line.text) != "quit" &&
      var input := Trim(line.text);
      stages == Stages(input) && |stages| > 1 &&
      Ran(stages, env, processes, trace, outcome) && outcome != Completed
  }

  /** A line that ran to completion took the pipeline path exactly when it contains `|`. */
  lemma RoutedByBar(line: string, env: Env, e: Effect)
    ensures Handled(Line(line), env, e) ==> (e.PipelineRun? <==> '|' in line)
  {
    PipelineIffBar(line);
  }

  /**
   * A line that ran to completion as a pipeline of `n` stages left `n`
   * records, the last holding stage 0's stdout pipe, after all `n` spawns
   * with their handoffs and then all `n` waits.
   */
  lemma PipelineLineRan(line: string, env: Env, e: Effect)
    ensures Handled(Line(line), env, e) && e.PipelineRun? ==>
      var n := |e.stages|;
      n == |Stages(Trim(line))| && |e.processes| == n &&
      e.processes[n - 1].stdout == Some(StdoutPipe(0)) &&
      e.trace == SpawnEvents(n, n) + WaitEvents(n)
  {
    if Handled(Line(line), env, e) && e.PipelineRun? {
      CompletedRun(e.stages, env, e.processes, e.trace);
    }
  }

  /** The first `|effects|` lines all ran to completion, doing `effects`. */
  predicate HandledAll(lines: seq<Read>, envs: seq<Env>, effects: seq<Effect>) {
    |effects| <= |lines| &&
    (effects == [] ||
     (HandledAll(lines, envs, effects[..|effects| - 1]) &&
      Handled(lines[|effects| - 1], EnvAt(envs, |effects| - 1), effects[|effects| - 1])))
  }

  /** Line `k` of a record of completed lines ran to completion doing `effects[k]`. */
  lemma {:induction false} HandledAt(lines: seq<Read>, envs: seq<Env>, effects: seq<Effect>, k: nat)
    requires k < |effects|
    ensures HandledAll(lines, envs, effects) ==> Handled(lines[k], EnvAt(envs, k), effects[k])
  {
    if k < |effects| - 1 {
      var shorter := effects[..|effects| - 1];
      HandledAt(lines, envs, shorter, k);
      assert shorter[k] == effects[k];
    }
  }

  /** One more completed line extends the record. */
  lemma HandledAllExtend(lines: seq<Read>, envs: seq<Env>, effects: seq<Effect>, effect: Effect)
    requires |effects| < |lines|
    ensures HandledAll(lines, envs, effects) && Handled(lines[|effects|], EnvAt(envs, |effects|), effect)
            ==> HandledAll(lines, envs, effects + [effect])
  {
    assert (effects + [effect])[..|effects|] == effects;
  }

  /** An empty line, which is what end of input reads as, is one stage with no tokens. */
  lemma EmptyLineShape(env: Env)
    ensures Trim("") == "" && |Stages("")| == 1 && Tokens("") == []
    ensures RunSingle([], env) == Err(NoCommand)
  {
    assert Split("", '|') == [""];
  }

  /** An empty line has no command name and so cannot run to completion. */
  lemma EmptyLineNeverHandled(env: Env, e: Effect)
    ensures !Handled(Line(""), env, e)
  {
    EmptyLineShape(env);
  }

  /** An empty line ends the session by panicking at `args[0]`, and in no other way. */
  lemma EmptyLinePanics(env: Env, end: End)
    ensures Ends(Line(""), env, end) <==> end == Panicked(CommandPanic(NoCommand))
  {
    EmptyLineShape(env);
  }

  /** What one iteration of the loop leads to: the next line, or the end of the session. */
  datatype Step = Continue(effect: Effect) | Stop(end: End)

  /**
   * One iteration of `main`'s loop (src/main.rs:37-74) on the result of
   * `read_line`, with the operating system answering as `env`.
   */
  method RunLine(read: Read, env: Env) returns (step: Step)
    ensures step.Continue? ==> Handled(read, env, step.effect)
    ensures step.Stop? ==> Ends(read, env, step.end)
  {
    if read.ReadError? {
      return Stop(InputFailed);
    }
    var input := Trim(read.text);
    if input == "quit" {
      return Stop(Quit);
    }
    var commands := Stages(input);
    if |commands| > 1 {
      var processes, trace, outcome := ExecutePipeline(commands, env);
      if outcome != Completed {
        return Stop(Panicked(PipelinePanic(commands, processes, trace, outcome)));
      }
      return Continue(PipelineRun(commands, processes, trace));
    }
    var args := Tokens(input);
    var result := RunSingle(args, env);
    if result.Err? {
      return Stop(Panicked(CommandPanic(result.error)));
    }
    return Continue(Single(result.value));
  }

  /**
   * `main`. `lines` are the results of successive `read_line` calls and
   * `envs[i]` the operating system's answers while line `i` runs. Returns
   * what each line did, in order, and how the line after the last effect
   * ended the session: a read error, `quit`, or a panic.
   */
  method RunSession(lines: seq<Read>, envs: seq<Env>) returns (effects: seq<Effect>, end: End)
    ensures HandledAll(lines, envs, effects)
    ensures Ends(ReadAt(lines, |effects|), EnvAt(envs, |effects|), end)
    ensures |effects| == |lines| ==> end == Panicked(CommandPanic(NoCommand))
  {
    effects := [];
    var i := 0;
    while true
      invariant i == |effects| && HandledAll(lines, envs, effects)
      decreases |lines| - i
    {
      var step := RunLine(ReadAt(lines, i), EnvAt(envs, i));
      if step.Stop? {
        if i == |lines| {
          EmptyLinePanics(EnvAt(envs, i), step.end);
        }
        return effects, step.end;
      }
      if i == |lines| {
        EmptyLineNeverHandled(EnvAt(envs, i), step.effect);
        assert false;
      }
      HandledAllExtend(lines, envs, effects, step.effect);
      effects := effects + [step.effect];
      i := i + 1;
    }
  }
}
