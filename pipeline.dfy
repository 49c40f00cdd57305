/**
 * `execute_pipeline` (src/main.rs:78-105): the wiring chosen for each stage
 * and the bookkeeping of the `Vec<Child>` and its `stdout` handles, as the
 * code does it. Processes, pipes and waits are abstract events.
 */
module Pipeline {
  import opened Wrappers
  import opened Text
  import opened System

  /** `Stdio::inherit()` or `Stdio::piped()`. */
  datatype Stdio = Inherit | Piped

  /** The standard-stream configuration a stage is spawned with. */
  datatype Wiring = Wiring(stdin: Stdio, stdout: Stdio)

  /**
   * A pipe end the parent holds, named by the spawn that created it: the
   * write end of the stdin pipe of stage `stage`, or the read end of its
   * stdout pipe.
   */
  datatype Handle = StdinPipe(stage: nat) | StdoutPipe(stage: nat)

  /**
   * One entry of `processes`: the stage it runs, how it was wired, and the
   * parent's `stdin` and `stdout` fields of the `Child`.
   */
  datatype Child = Child(stage: nat, run: Invocation, wiring: Wiring,
                         stdin: Option<Handle>, stdout: Option<Handle>)

  /**
   * What the parent does, in order: spawn a stage; move the `stdout` handle of
   * record `from` into the `stdout` field of record `to`, dropping what that
   * field held; wait for a stage.
   */
  datatype Event =
    | Spawn(stage: nat)
    | Handoff(from: nat, to: nat, handle: Handle, dropped: Option<Handle>)
    | Wait(stage: nat)

  /** How `execute_pipeline` ends: normally, or by one of its panics. */
  datatype Outcome =
    | Completed
    | EmptyStage(stage: nat)    // `parts[0]` on a stage with no tokens (src/main.rs:85)
    | SpawnFailed(stage: nat)   // `expect("Failed to start command")` (src/main.rs:90)
    | WaitFailed(stage: nat)    // `expect("Failed to wait for command")` (src/main.rs:103)

  /** The wiring of stage `i` of `n` (src/main.rs:87-88). */
  function Wire(i: nat, n: nat): Wiring
    requires i < n
  {
    Wiring(if i > 0 then Piped else Inherit, if i < n - 1 then Piped else Inherit)
  }

  /** The stages of `n` whose stdout is piped. */
  function PipedOutputs(n: nat): set<nat> {
    set i: nat | i < n && Wire(i, n).stdout == Piped
  }

  /** The stages of `n` whose stdin is piped. */
  function PipedInputs(n: nat): set<nat> {
    set i: nat | i < n && Wire(i, n).stdin == Piped
  }

  /** `i < m` under a name, so that the comprehension below has a trigger. */
  predicate IsBelow(i: nat, m: nat) {
    i < m
  }

  /** The indices below `m`. */
  function Below(m: nat): set<nat> {
    set i: nat | i < m && IsBelow(i, m)
  }

  lemma {:induction false} BelowSize(m: nat)
    ensures |Below(m)| == m
  {
    if m > 0 {
      BelowSize(m - 1);
      assert Below(m) == Below(m - 1) + {m - 1};
    }
  }

  /**
   * Exactly the first stage inherits stdin and exactly the last inherits
   * stdout, so `n - 1` stages pipe their output and `n - 1` their input.
   */
  lemma WiringCounts(n: nat)
    requires n > 0
    ensures forall i :: 0 <= i < n ==> (Wire(i, n).stdin == Inherit <==> i == 0)
    ensures forall i :: 0 <= i < n ==> (Wire(i, n).stdout == Inherit <==> i == n - 1)
    ensures |PipedOutputs(n)| == n - 1 && |PipedInputs(n)| == n - 1
  {
    forall i: nat ensures i in PipedOutputs(n) <==> i in Below(n - 1) {
      assert i in Below(n - 1) <==> IsBelow(i, n - 1);
    }
    assert PipedOutputs(n) == Below(n - 1);
    forall i: nat ensures i in PipedInputs(n) <==> i in Below(n) - {0} {
      assert i in Below(n) <==> IsBelow(i, n);
    }
    assert PipedInputs(n) == Below(n) - {0};
    BelowSize(n - 1);
    BelowSize(n);
    assert 0 in Below(n) by { assert IsBelow(0, n); }
  }

  /** A stage's program and arguments: its first token and the rest (src/main.rs:82-86). */
  function StageInvocation(command: string): (r: Invocation)
    requires Tokens(command) != []
    ensures [r.program] + r.args == Tokens(command)
  {
    var parts := Tokens(command);
    Invocation(parts[0], parts[1..])
  }

  /**
   * The record `spawn` returns for stage `i` of `n`: a fresh pipe end for
   * every stream that is piped, none for an inherited one.
   */
  function Spawned(i: nat, n: nat, run: Invocation): (c: Child)
    requires i < n
    ensures c.wiring == Wire(i, n)
    ensures c.stdin.Some? <==> c.wiring.stdin == Piped
    ensures c.stdout.Some? <==> c.wiring.stdout == Piped
    ensures c.stdin.Some? ==> c.stdin.value == StdinPipe(i)
    ensures c.stdout.Some? ==> c.stdout.value == StdoutPipe(i)
  {
    var w := Wire(i, n);
    Child(i, run, w,
          if w.stdin == Piped then Some(StdinPipe(i)) else None,
          if w.stdout == Piped then Some(StdoutPipe(i)) else None)
  }

  /** Stage `i` is started: it has a program name and its spawn succeeds. */
  predicate Starts(commands: seq<string>, env: Env, i: nat)
    requires i < |commands|
  {
    Tokens(commands[i]) != [] && i !in env.failedSpawns
  }

  /** How many stages, counted from `from`, start before the first one that does not. */
  function StartedFrom(commands: seq<string>, env: Env, from: nat): (k: nat)
    requires from <= |commands|
    ensures from <= k <= |commands|
    ensures forall j :: from <= j < k ==> Starts(commands, env, j)
    ensures k < |commands| ==> !Starts(commands, env, k)
    decreases |commands| - from
  {
    if from == |commands| || !Starts(commands, env, from) then from
    else StartedFrom(commands, env, from + 1)
  }

  /** The number of stages spawned before the loop stops. */
  function Started(commands: seq<string>, env: Env): (k: nat)
    ensures k <= |commands|
    ensures forall j :: 0 <= j < k ==> Starts(commands, env, j)
    ensures k < |commands| ==> !Starts(commands, env, k)
  {
    StartedFrom(commands, env, 0)
  }

  /** `Started` is the only count with its two properties. */
  lemma StartedIs(commands: seq<string>, env: Env, i: nat)
    requires i <= |commands|
    requires forall j :: 0 <= j < i ==> Starts(commands, env, j)
    requires i < |commands| ==> !Starts(commands, env, i)
    ensures Started(commands, env) == i
  {
  }

  /** How many of `n` waits, counted from `from`, succeed before the first failing one. */
  function WaitedFrom(n: nat, env: Env, from: nat): (k: nat)
    requires from <= n
    ensures from <= k <= n
    ensures forall j :: from <= j < k ==> j !in env.failedWaits
    ensures k < n ==> k in env.failedWaits
    decreases n - from
  {
    if from == n || from in env.failedWaits then from else WaitedFrom(n, env, from + 1)
  }

  /** The number of successful waits before the first failing one. */
  function Waited(n: nat, env: Env): (k: nat)
    ensures k <= n
    ensures forall j :: 0 <= j < k ==> j !in env.failedWaits
    ensures k < n ==> k in env.failedWaits
  {
    WaitedFrom(n, env, 0)
  }

  /**
   * The events of iteration `k` of the spawn loop: the spawn, then for every
   * stage but the first the move of the previous record's `stdout` into this
   * record's `stdout` (src/main.rs:93-96), which drops the stage's own
   * stdout pipe if it had one.
   */
  function SpawnStep(k: nat, n: nat): seq<Event>
    requires k < n
  {
    if k == 0 then [Spawn(0)]
    else [Spawn(k), Handoff(k - 1, k, StdoutPipe(0), if k < n - 1 then Some(StdoutPipe(k)) else None)]
  }

  /** The events of the first `s` iterations of the spawn loop. */
  function SpawnEvents(s: nat, n: nat): seq<Event>
    requires s <= n
  {
    if s == 0 then [] else SpawnEvents(s - 1, n) + SpawnStep(s - 1, n)
  }

  /** The spawn loop stopping at stage `i` is the panic `OutcomeOf` names. */
  lemma StopsAt(commands: seq<string>, env: Env, i: nat)
    requires i < |commands|
    requires forall j :: 0 <= j < i ==> Starts(commands, env, j)
    requires !Starts(commands, env, i)
    ensures Started(commands, env) == i
    ensures OutcomeOf(commands, env) == (if Tokens(commands[i]) == [] then EmptyStage(i) else SpawnFailed(i))
  {
    StartedIs(commands, env, i);
  }

  /** The events of the first `w` iterations of the wait loop. */
  function WaitEvents(w: nat): seq<Event> {
    if w == 0 then [] else WaitEvents(w - 1) + [Wait(w - 1)]
  }

  /** The outcome, given how many stages started and how many waits succeeded. */
  function OutcomeOf(commands: seq<string>, env: Env): (r: Outcome)
    ensures r.EmptyStage? ==> r.stage < |commands| && Tokens(commands[r.stage]) == []
    ensures r.SpawnFailed? ==>
      r.stage < |commands| && Tokens(commands[r.stage]) != [] && r.stage in env.failedSpawns
    ensures r.EmptyStage? || r.SpawnFailed? ==> forall j :: 0 <= j < r.stage ==> Starts(commands, env, j)
    ensures r.WaitFailed? ==>
      r.stage < |commands| && r.stage in env.failedWaits &&
      (forall j :: 0 <= j < |commands| ==> Starts(commands, env, j)) &&
      (forall j :: 0 <= j < r.stage ==> j !in env.failedWaits)
  {
    var s := Started(commands, env);
    if s < |commands| then
      (if Tokens(commands[s]) == [] then EmptyStage(s) else SpawnFailed(s))
    else if Waited(s, env) < s then WaitFailed(Waited(s, env))
    else Completed
  }

  /**
   * Record `c` is the one spawned for stage `k` of `commands`, apart from its
   * `stdout` field.
   */
  predicate Recorded(commands: seq<string>, env: Env, k: nat, c: Child)
    requires k < |commands|
  {
    Starts(commands, env, k) && c.stage == k && c.run == StageInvocation(commands[k]) &&
    c.wiring == Wire(k, |commands|) && c.stdin == (if k > 0 then Some(StdinPipe(k)) else None)
  }

  /**
   * What holds of `processes` after `i` iterations of the spawn loop: one
   * record per started stage, in stage order; every record's `stdout` taken
   * except the newest, which holds the stdout pipe of stage 0 (or nothing,
   * when a lone stage inherits stdout).
   */
  predicate SpawnedSoFar(commands: seq<string>, env: Env, processes: seq<Child>, i: nat)
    requires i <= |commands|
  {
    |processes| == i &&
    (forall k :: 0 <= k < i ==> Recorded(commands, env, k, processes[k])) &&
    (forall k :: 0 <= k < i - 1 ==> processes[k].stdout == None) &&
    (i > 0 ==> processes[i - 1].stdout == (if |commands| > 1 then Some(StdoutPipe(0)) else None))
  }

  /** One iteration of the spawn loop keeps `SpawnedSoFar`. */
  lemma SpawnStepKeeps(commands: seq<string>, env: Env, processes: seq<Child>, i: nat,
                       child: Child, next: seq<Child>)
    requires i < |commands| && SpawnedSoFar(commands, env, processes, i)
    requires Recorded(commands, env, i, child) && child.stdout == Spawned(i, |commands|, child.run).stdout
    requires i == 0 ==> next == processes + [child]
    requires i > 0 ==> next == processes[i - 1 := processes[i - 1].(stdout := None)]
                               + [child.(stdout := processes[i - 1].stdout)]
    ensures SpawnedSoFar(commands, env, next, i + 1)
  {
    var n := |commands|;
    if i == 0 {
      assert next[0] == child;
    } else {
      var last := child.(stdout := processes[i - 1].stdout);
      assert next[i] == last;
      assert Recorded(commands, env, i, last);
      forall k | 0 <= k < i
        ensures Recorded(commands, env, k, next[k])
      {
        assert next[k].stage == processes[k].stage;
      }
    }
  }

  /**
   * One iteration of the spawn loop (src/main.rs:82-98) for a stage that
   * starts: spawn it and, for every stage but the first, take the previous
   * record's `stdout` and store it in the new record's `stdout`. The
   * `expect` on `take()` (src/main.rs:94) is an assertion here: the
   * previous record always holds a handle.
   */
  method SpawnStage(commands: seq<string>, env: Env, processes: seq<Child>, i: nat)
    returns (next: seq<Child>, events: seq<Event>)
    requires i < |commands| && Starts(commands, env, i)
    requires SpawnedSoFar(commands, env, processes, i)
    ensures SpawnedSoFar(commands, env, next, i + 1)
    ensures events == SpawnStep(i, |commands|)
  {
    var n := |commands|;
    var parts := Tokens(commands[i]);
    var child := Spawned(i, n, Invocation(parts[0], parts[1..]));
    ghost var spawned := child;
    events := [Spawn(i)];
    next := processes;
    if i > 0 {
      assert processes[i - 1].stdout.Some?;
      var previous := processes[i - 1].stdout.value;
      next := next[i - 1 := next[i - 1].(stdout := None)];
      events := events + [Handoff(i - 1, i, previous, child.stdout)];
      child := child.(stdout := Some(previous));
    }
    next := next + [child];
    SpawnStepKeeps(commands, env, processes, i, spawned, next);
  }

  /**
   * The spawn loop of `execute_pipeline` (src/main.rs:81-99). It stops at the
   * first stage that has no program name or fails to spawn, with that panic
   * in `stopped`.
   */
  method SpawnAll(commands: seq<string>, env: Env)
    returns (processes: seq<Child>, trace: seq<Event>, stopped: Option<Outcome>)
    ensures SpawnedSoFar(commands, env, processes, Started(commands, env))
    ensures trace == SpawnEvents(Started(commands, env), |commands|)
    ensures stopped.None? <==> Started(commands, env) == |commands|
    ensures stopped.Some? ==> stopped.value == OutcomeOf(commands, env)
  {
    var n := |commands|;
    processes := [];
    trace := [];
    var i := 0;
    while i < n
      invariant 0 <= i <= n
      invariant forall j :: 0 <= j < i ==> Starts(commands, env, j)
      invariant SpawnedSoFar(commands, env, processes, i)
      invariant trace == SpawnEvents(i, n)
    {
      var parts := Tokens(commands[i]);
      if parts == [] || i in env.failedSpawns {
        StopsAt(commands, env, i);
        return processes, trace, Some(if parts == [] then EmptyStage(i) else SpawnFailed(i));
      }
      var events;
      processes, events := SpawnStage(commands, env, processes, i);
      trace := trace + events;
      i := i + 1;
    }
    StartedIs(commands, env, n);
    stopped := None;
  }

  /**
   * The wait loop of `execute_pipeline` (src/main.rs:102-104): it consumes
   * the vector and waits for each record in order, stopping at the first
   * wait that fails.
   */
  method WaitAll(processes: seq<Child>, env: Env) returns (trace: seq<Event>, outcome: Outcome)
    requires forall k :: 0 <= k < |processes| ==> processes[k].stage == k
    ensures var w := Waited(|processes|, env);
      trace == WaitEvents(w) && outcome == (if w < |processes| then WaitFailed(w) else Completed)
  {
    var remaining := processes;
    var w := 0;
    trace := [];
    while remaining != []
      invariant 0 <= w <= |processes| && remaining == processes[w..]
      invariant forall j :: 0 <= j < w ==> j !in env.failedWaits
      invariant trace == WaitEvents(w)
    {
      var process := remaining[0];
      remaining := remaining[1..];
      if process.stage in env.failedWaits {
        return trace, WaitFailed(process.stage);
      }
      trace := trace + [Wait(process.stage)];
      w := w + 1;
    }
    outcome := Completed;
  }

  /**
   * What `execute_pipeline(commands)` leaves behind when the operating system
   * answers as `env`: one record per started stage, in stage order, with
   * every `stdout` taken but the last one's, which holds the stdout pipe of
   * stage 0; every spawn and handoff event and then every wait event, in the
   * order they happen; and the way the call ends.
   */
  predicate Ran(commands: seq<string>, env: Env, processes: seq<Child>, trace: seq<Event>, outcome: Outcome) {
    var s := Started(commands, env);
    SpawnedSoFar(commands, env, processes, s) &&
    outcome == OutcomeOf(commands, env) &&
    trace == SpawnEvents(s, |commands|) + WaitEvents(if s < |commands| then 0 else Waited(s, env))
  }

  /** `execute_pipeline(commands)`: every spawn, then every wait. */
  method ExecutePipeline(commands: seq<string>, env: Env)
    returns (processes: seq<Child>, trace: seq<Event>, outcome: Outcome)
    ensures Ran(commands, env, processes, trace, outcome)
  {
    var spawnTrace, stopped;
    processes, spawnTrace, stopped := SpawnAll(commands, env);
    if stopped.Some? {
      return processes, spawnTrace, stopped.value;
    }
    var waitTrace;
    waitTrace, outcome := WaitAll(processes, env);
    trace := spawnTrace + waitTrace;
  }

  /**
   * A pipeline that completes has started every stage, and its trace is
   * all `n` spawns with their handoffs, then all `n` waits.
   */
  lemma CompletedRun(commands: seq<string>, env: Env, processes: seq<Child>, trace: seq<Event>)
    ensures Ran(commands, env, processes, trace, Completed) ==>
      |processes| == |commands| &&
      trace == SpawnEvents(|commands|, |commands|) + WaitEvents(|commands|)
  {
    if Ran(commands, env, processes, trace, Completed) {
      assert Started(commands, env) == |commands|;
      assert Waited(|commands|, env) == |commands|;
    }
  }

  /**
   * Event `j` of the spawn loop: the spawn of stage 0, then for each later
   * stage its spawn (odd `j`) and its handoff (even `j`).
   */
  function SpawnEventAt(j: nat, n: nat): Event {
    if j % 2 == 1 then Spawn((j + 1) / 2)
    else if j == 0 then Spawn(0)
    else Handoff(j / 2 - 1, j / 2, StdoutPipe(0), if j / 2 < n - 1 then Some(StdoutPipe(j / 2)) else None)
  }

  lemma {:induction false} SpawnEventsAt(s: nat, n: nat)
    requires 0 < s <= n
    ensures |SpawnEvents(s, n)| == 2 * s - 1
    ensures forall j :: 0 <= j < 2 * s - 1 ==> SpawnEvents(s, n)[j] == SpawnEventAt(j, n)
  {
    if s > 1 {
      SpawnEventsAt(s - 1, n);
      var u := SpawnEvents(s - 1, n);
      assert SpawnEvents(s, n) == u + SpawnStep(s - 1, n);
      assert SpawnEventAt(2 * s - 3, n) == Spawn(s - 1);
      assert SpawnEventAt(2 * s - 2, n) == SpawnStep(s - 1, n)[1];
    }
  }

  /** The spawn loop spawns stage `0`, then `1`, and so on, in that order. */
  lemma SpawnOrder(s: nat, n: nat)
    requires 0 < s <= n
    ensures |SpawnEvents(s, n)| == 2 * s - 1
    ensures forall k :: 0 <= k < s ==> SpawnEvents(s, n)[if k == 0 then 0 else 2 * k - 1] == Spawn(k)
  {
    SpawnEventsAt(s, n);
    forall k | 0 < k < s
      ensures SpawnEvents(s, n)[2 * k - 1] == Spawn(k)
    {
      assert SpawnEventAt(2 * k - 1, n) == Spawn(k);
    }
  }

  /** The spawn loop never waits. */
  lemma SpawnLoopNeverWaits(s: nat, n: nat)
    requires 0 < s <= n
    ensures forall j :: 0 <= j < |SpawnEvents(s, n)| ==> !SpawnEvents(s, n)[j].Wait?
  {
    SpawnEventsAt(s, n);
  }

  /**
   * Every handoff directly follows the spawn of the stage it hands to, moves
   * the record of the stage before it, and moves the stdout pipe of stage 0;
   * the handle it overwrites is the stage's own stdout pipe, if it has one.
   */
  lemma HandoffShape(s: nat, n: nat)
    requires 0 < s <= n
    ensures var t := SpawnEvents(s, n);
      forall j :: 0 <= j < |t| && t[j].Handoff? ==>
        j > 0 && t[j - 1] == Spawn(t[j].to) && t[j].from + 1 == t[j].to &&
        t[j].handle == StdoutPipe(0) &&
        t[j].dropped == (if t[j].to < n - 1 then Some(StdoutPipe(t[j].to)) else None)
  {
    SpawnEventsAt(s, n);
    var t := SpawnEvents(s, n);
    forall j | 0 <= j < |t| && t[j].Handoff?
      ensures j > 0 && t[j - 1] == Spawn(t[j].to)
    {
      assert SpawnEventAt(j - 1, n) == Spawn(j / 2);
    }
  }

  /** The wait loop waits for stage `0`, then `1`, and so on, each once. */
  lemma {:induction false} WaitEventsShape(w: nat)
    ensures |WaitEvents(w)| == w
    ensures forall j :: 0 <= j < w ==> WaitEvents(w)[j] == Wait(j)
  {
    if w > 0 {
      WaitEventsShape(w - 1);
    }
  }

  /**
   * Every spawn comes before every wait: once the trace of
   * `execute_pipeline` has waited, it only waits.
   */
  lemma SpawnsBeforeWaits(commands: seq<string>, env: Env)
    ensures var s := Started(commands, env);
      var t := SpawnEvents(s, |commands|) + WaitEvents(if s < |commands| then 0 else Waited(s, env));
      forall a, b :: 0 <= a < b < |t| && t[a].Wait? ==> t[b].Wait?
  {
    var s := Started(commands, env);
    var w := if s < |commands| then 0 else Waited(s, env);
    WaitEventsShape(w);
    if s > 0 {
      SpawnLoopNeverWaits(s, |commands|);
    }
  }

  /**
   * The pipeline completes exactly when every stage has a program name and
   * every spawn and every wait succeeds; otherwise it panics at the first
   * stage that lacks one of these.
   */
  lemma OutcomeCompleted(commands: seq<string>, env: Env)
    ensures OutcomeOf(commands, env) == Completed <==>
      forall i :: 0 <= i < |commands| ==>
        Tokens(commands[i]) != [] && i !in env.failedSpawns && i !in env.failedWaits
  {
    var n := |commands|;
    var s := Started(commands, env);
    if OutcomeOf(commands, env) == Completed {
      assert s == n;
      forall i | 0 <= i < n
        ensures Tokens(commands[i]) != [] && i !in env.failedSpawns && i !in env.failedWaits
      {
        assert Starts(commands, env, i);
      }
    } else if s == n {
      var w := Waited(n, env);
      assert w < n && w in env.failedWaits;
    } else {
      assert !Starts(commands, env, s);
    }
  }
}
