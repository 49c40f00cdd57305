# A model of `myshell`

`myshell` is a small interactive shell written in Rust. It has one source file,
`src/main.rs`. Its loop works like this:

1. It reads a line and trims it.
2. It stops on a read error or on the line `quit`.
3. It splits the line on `|` and trims each piece.
4. With more than one piece, it runs the pieces as a pipeline (`execute_pipeline`).
5. Otherwise it splits the line on whitespace and matches the first token:
   - `cd`, `pwd`, `echo`, `kill` and `ps` are built-ins;
   - any other name goes to `execute_command`, which runs `dir` as `cmd /C dir` and runs everything else as given.

This project models that loop in Dafny and proves what each step does.

- `wrappers.dfy` (`Wrappers`): `Option` and `Result`.
- `text.dfy` (`Text`) holds the string operations the shell uses:
  - `str::trim`, `str::split(char)`, `str::split_whitespace` and `[&str]::join`;
  - whitespace is the Unicode `White_Space` set, which is what Rust uses.
- `decimal.dfy` (`Decimal`): `str::parse::<i32>` and `i32::to_string`.
- `system.dfy` (`System`) holds:
  - the invocation of an external program (program name and arguments);
  - `Env`, the operating system's answers for one line: which spawns fail and which waits fail, numbered by stage.
- `dispatch.dfy` (`Dispatch`): the single-command routing of `main` and `execute_command`.
- `pipeline.dfy` (`Pipeline`) models `execute_pipeline` as imperative code:
  - a sequence of child records updated by a spawn loop, then consumed by a wait loop;
  - each record's `stdout` is an `Option` of an abstract pipe handle, moved just as the code moves it;
  - a trace of spawn, handoff and wait events records the order of the operating-system calls.
- `session.dfy` (`Session`): the read-evaluate loop of `main`, as a method over the sequence of `read_line` results.

A panic of the Rust program (an `expect`, or an index out of bounds) ends the session.
The model makes each one an explicit error value:

| panic | where | model |
|---|---|---|
| `args[0]` on an empty line | src/main.rs:52 | `Fault.NoCommand` |
| `args[1]` after a lone `kill` | src/main.rs:67 | `Fault.NoKillTarget` |
| a failed start of an external program | src/main.rs:114, 122 | `Fault.LaunchFailed` |
| `parts[0]` on an empty pipeline stage | src/main.rs:85 | `Outcome.EmptyStage` |
| a failed spawn | src/main.rs:90 | `Outcome.SpawnFailed` |
| a failed wait | src/main.rs:103 | `Outcome.WaitFailed` |

At end of input `read_line` returns `Ok` with an empty string. The empty line then panics at `args[0]`.
The model reads any position past the given lines as an empty line, so a session that uses up its input ends in `NoCommand`.

Two behaviours follow the code as written:

- `echo` on its own prints an empty line. `args[1..]` on a one-element vector is empty and does not panic.
- The spawn loop never connects a child's stdin to the previous stage.
  - Every stage after the first gets a piped stdin (line 87), whose write end the parent keeps in that record's `stdin` field.
  - At line 95, the previous child's stdout handle is stored in the *current* child's `stdout` field, not in its stdin.
  - For every stage but the last, that overwrites, and so closes, the stage's own stdout pipe. The last stage inherits stdout and has no pipe to lose.
  - After the loop, only the last record's `stdout` holds a handle: the stdout pipe of stage 0. Records 1 to N-1 still hold their stdin write ends.
  - The model proves exactly this (`Pipeline.SpawnAll`, `Pipeline.HandoffShape`).

## Model

| member | source | states |
|---|---|---|
| Text.TrimStart | src/main.rs:40 | the result is a suffix of the input, everything removed is whitespace, and the result does not start with whitespace |
| Text.TrimEnd | src/main.rs:40 | the result is a prefix of the input, everything removed is whitespace, and the result does not end with whitespace |
| Text.Trim | src/main.rs:40 | the trimmed line is the input with its leading and trailing whitespace cut off: a slice of the input with only whitespace on either side, which neither starts nor ends with whitespace |
| Text.TrimKeeps | src/main.rs:40 | trimming keeps every non-whitespace character: `c` is in the line before trimming exactly when it is in it after |
| Text.TrimIdempotent | src/main.rs:40 | trimming a trimmed line changes nothing (the stage pieces of line 47 are trims of substrings of a trimmed line) |
| Text.Spaces | src/main.rs:40 | the longest all-whitespace prefix of a string, which is what `trim` drops at the front |
| Text.Split | src/main.rs:47 | splitting on the bar character yields at least one piece and no piece contains the separator |
| Text.SplitCount | src/main.rs:47-48 | there is one piece more than there are separators in the line |
| Text.SplitJoin | src/main.rs:47 | joining the pieces with the separator gives back the line |
| Text.Word | src/main.rs:51 | a token is the longest whitespace-free prefix of the remaining text |
| Text.Tokens | src/main.rs:51 | every token of `split_whitespace` is non-empty and contains no whitespace |
| Text.Gaps | src/main.rs:51 | the whitespace runs around the tokens, at least one; that there is exactly one run more than there are tokens is proved by TokensWeave |
| Text.GapsShape | src/main.rs:51 | every run is whitespace, every run between two tokens is non-empty, and a line that starts with whitespace starts with a non-empty run |
| Text.TokensAfterSpaces | src/main.rs:51 | leading whitespace does not change the tokens |
| Text.FirstToken | src/main.rs:51 | a line with a token is its leading whitespace, its first token and the rest, and its runs and tokens continue with those of the rest |
| Text.TokensWeave | src/main.rs:51 | a line is its tokens woven with its whitespace runs, so with GapsShape the tokens are exactly the maximal whitespace-free runs of the line, in order |
| Text.TokensEmpty | src/main.rs:51-52 | the token list is empty exactly when the line is all whitespace, which is when `args[0]` panics |
| Text.Join | src/main.rs:64 | `join(" ")` puts the separator between neighbouring parts; its partners TokensJoin and JoinSingleSpaced state what joining tokens gives, and SplitJoin states that joining split pieces restores the line |
| Text.TokensJoin | src/main.rs:64 | joining tokens with single spaces and splitting on whitespace again gives the same tokens |
| Text.JoinSingleSpaced | src/main.rs:64 | tokens joined with `" "` contain no run of two whitespace characters and start and end with a non-space |
| Decimal.ParseI32 | src/main.rs:67 | `parse::<i32>` succeeds only on an optional sign followed by at least one digit and a value in the `i32` range; a negative value needs a `-` |
| Decimal.ParseSigned | src/main.rs:67 | every sign-and-digits string parses, leading zeros and `-0` included: to its signed value when that is an `i32`, and fails otherwise |
| Decimal.Render | src/main.rs:68 | `to_string` yields `-` exactly for negative values, then the decimal digits of the magnitude with no `+` and no leading zero (only zero itself renders as `0`) |
| Decimal.ParseRender | src/main.rs:67-68 | rendering an `i32` and parsing it back gives the same value |
| Dispatch.ExecuteCommand | src/main.rs:107-122 | `dir` becomes exactly `cmd /C dir`; any other name runs as itself, with the remaining tokens as its arguments |
| Dispatch.KillRequest | src/main.rs:67-68 | `kill` is started exactly when its argument parses as an `i32` |
| Dispatch.Dispatch | src/main.rs:52-73 | a panic happens exactly for an empty line or a lone `kill`; an empty line is `NoCommand` and a lone `kill` is `NoKillTarget`; `pwd` prints the directory and `ps` lists processes; a name outside the five built-ins goes to `execute_command`; a built-in never starts a program directly (the `cd`, `echo` and `kill` cases are CdTarget, EchoText and KillArgument) |
| Dispatch.RunSingle | src/main.rs:52-73 | only a dispatch fault or a failed start of `execute_command`'s program panics; a failed `kill` does not; every dispatched command that does not fail to start is the result |
| Dispatch.CdTarget | src/main.rs:53-54 | `cd` targets the second token when there is one and `~` otherwise |
| Dispatch.EchoText | src/main.rs:51-64 | `echo` prints text whose tokens are exactly the arguments, single-spaced and with no surrounding whitespace, so whitespace runs in the input collapse |
| Dispatch.KillArgument | src/main.rs:66-69 | `kill` with an argument starts `kill` with one argument exactly when that argument parses as an `i32`; that argument is the pid's `to_string` rendering (so `kill 007` passes `7`) and parses to the same pid |
| Pipeline.Wire | src/main.rs:87-88 | the `if`-expressions that choose `piped` or `inherit` for a stage; WiringCounts states the wiring they give |
| Pipeline.WiringCounts | src/main.rs:87-88 | stage `i` inherits stdin exactly when it is first and inherits stdout exactly when it is last; `n - 1` stages pipe their input and `n - 1` their output |
| Pipeline.StageInvocation | src/main.rs:82-86 | the program is the first token of the stage and the arguments are the rest |
| Pipeline.Spawned | src/main.rs:85-90 | a spawned child has its stage's wiring and holds a pipe end for exactly each piped stream |
| Pipeline.Started | src/main.rs:81-90 | the number of spawned stages, before the first stage with no program name or with a failed spawn |
| Pipeline.Waited | src/main.rs:102-103 | the number of successful waits, before the first failing wait |
| Pipeline.StopsAt | src/main.rs:82-90 | when the spawn loop stops at stage `i`, `i` stages started and the panic is the empty-stage one or the failed-spawn one, as the stage's tokens say |
| Pipeline.SpawnStepKeeps | src/main.rs:93-98 | one spawn-loop iteration, take and reassignment included, keeps the record invariant |
| Pipeline.SpawnStage | src/main.rs:82-98 | one iteration for a stage that starts: the `take()` at line 94 finds a handle, the record invariant is kept, and the events are the spawn and, after the first stage, the handoff |
| Pipeline.SpawnAll | src/main.rs:79-99 | the `take()` at line 94 always finds a handle; afterwards there is one record per spawned stage, in stage order, every `stdout` taken except the last, which holds stage 0's stdout pipe; the events are the spawns and handoffs in order; it stops exactly at the first stage that cannot start |
| Pipeline.WaitAll | src/main.rs:102-104 | the wait loop consumes the records and waits for stage 0, 1, … in order until the first failing wait |
| Pipeline.OutcomeOf | src/main.rs:85-103 | how `execute_pipeline` ends: an empty-stage panic names a stage without tokens, a failed spawn a stage with tokens in the failed spawns, a failed wait a stage in the failed waits after every stage started, each the first such stage; OutcomeCompleted gives the completing case |
| Pipeline.ExecutePipeline | src/main.rs:78-105 | the records and trace of the whole call: one record per started stage in stage order, the handles left as SpawnAll states, every spawn and handoff event and then every wait event, and the outcome OutcomeOf names |
| Pipeline.CompletedRun | src/main.rs:78-105 | a completed pipeline of `n` stages left `n` records, and its trace is all `n` spawns with their handoffs, then all `n` waits |
| Pipeline.SpawnOrder | src/main.rs:81-90 | stage `k` is the `k`-th spawn |
| Pipeline.SpawnLoopNeverWaits | src/main.rs:81-99 | the spawn loop issues no wait |
| Pipeline.HandoffShape | src/main.rs:93-96 | each handoff directly follows the spawn of its stage; it moves stage 0's stdout pipe from the previous record into this one and drops this stage's own stdout pipe, if it has one |
| Pipeline.WaitEventsShape | src/main.rs:102-104 | the `j`-th wait is for stage `j`, and each stage is waited for once |
| Pipeline.SpawnsBeforeWaits | src/main.rs:79-104 | in the trace of `execute_pipeline`, nothing but waits follow the first wait |
| Pipeline.OutcomeCompleted | src/main.rs:85-103 | the pipeline completes exactly when every stage has a program name and all its spawns and waits succeed |
| Session.Stages | src/main.rs:47 | the stages are the pieces of the trimmed line between bar characters, each trimmed |
| Session.StagesCount | src/main.rs:47-48 | there is one stage more than there are bar characters, and no stage contains the bar character |
| Session.PipelineIffBar | src/main.rs:40-49 | a line goes to the pipeline exactly when it contains the bar character |
| Session.RoutedByBar | src/main.rs:47-51 | a completed line ran as a pipeline exactly when it contains the bar character |
| Session.PipelineLineRan | src/main.rs:47-49 | a line that ran to completion as a pipeline of `n` stages left `n` records, the last holding stage 0's stdout pipe, after all `n` spawns with their handoffs and then all `n` waits |
| Session.HandledAt | src/main.rs:32-75 | every line in the record of completed lines ran to completion doing its recorded effect |
| Session.HandledAllExtend | src/main.rs:32-75 | one more completed line extends the record of completed lines |
| Session.EmptyLineShape | src/main.rs:40-52 | an empty line, which is what end of input reads as, trims to itself, is one stage, has no tokens and panics at `args[0]` |
| Session.EmptyLineNeverHandled | src/main.rs:37-52 | an empty line never runs to completion |
| Session.EmptyLinePanics | src/main.rs:37-52 | an empty line ends the session with the `args[0]` panic and in no other way |
| Session.RunLine | src/main.rs:37-74 | one loop iteration: a read error, `quit` (checked before any splitting or dispatch) or a panic ends the session; any other line runs to completion, as a pipeline when it has more than one stage, with the records, trace and outcome `execute_pipeline` gives, and as the dispatched command otherwise |
| Session.RunSession | src/main.rs:28-76 | every line before the last one ran is not `quit` and ran to completion: a pipeline when it has more than one stage, with the records, trace and outcome `execute_pipeline` gives, otherwise the dispatched command; the final line ends the session with a read error, with `quit` (before splitting or dispatch), or with the panic it causes; running out of input ends with `NoCommand` |

## Left out

- No operating-system process, pipe or data flow between children is modelled, and neither are exit statuses.
  - Spawns and waits are events over abstract handles.
  - Whether they succeed comes from `Env`, a parameter that stands for the operating system.
  - The exit status of a program that ran is never examined except to print it (src/main.rs:124-126), so it is not modelled.
- `env::set_current_dir` and `env::current_dir` are left out, because they touch process-global operating-system state.
  - The model keeps only the target `cd` chooses and the fact that `pwd` prints the directory.
  - A failed `cd` only prints a message, so it is not a fault.
- Console I/O is left out: the prompt, `flush`, and the text of every `println!`/`eprintln!`.
  - `read_line` results are input to `Session.RunSession`.
  - The model keeps only the text `echo` prints.
- `list_processes` (src/main.rs:131-150) is left out. It depends on the target platform, has an empty body on Linux and calls the foreign `sysinfo` library with floating-point CPU figures. The model records only that `ps` calls it.
- The output of `kill` and of `cmd /C dir` is left out, because they are external programs.
  - `kill`: only the invocation is modelled, and its result is ignored as in the code.
  - `dir`: only a failed start panics in the model.
- Dispatch.RunSingle: a failed `.output()` or `.status()` is modelled as the `LaunchFailed` panic when stage 0 is among the failed spawns or the failed waits. It does not tell a failed start from a failed wait.
- Pipeline.ExecutePipeline: does not model what `Child::wait` does to a child's stdin (it closes it) or the dropping of the vector after the wait loop.
- A pipeline in which stdin is actually chained from stage to stage is not modelled, because the code does not implement it.
- Text.IsWhitespace: the character set is written out from the Unicode `White_Space` property, as Rust's `char::is_whitespace` defines it. It is not derived from a Unicode table.
