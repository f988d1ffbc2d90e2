/**
 Supervision of one run (worker/src/supervisor.rs): spawning, polling, killing, reaping,
 draining the two outputs and reporting. Everything the operating system decides is a
 parameter, so a lemma over all environments is a lemma over all runs.
 */
module Supervisor {
  import opened Prelude
  import opened WorkerModel
  import opened OutputCapture

  const SIGXCPU: int := 24
  const POLL_INTERVAL: Duration := 5_000_000

  datatype ExitStatus = Code(code: int) | Signal(signal: int)

  datatype TryWait = Running | Exited(status: ExitStatus) | WaitError(error: IoError)

  /** What one polling iteration reads: the cancellation flag, the clock, the child and the clock again. */
  datatype Poll = Poll(cancelled: bool, elapsed: Duration, child: TryWait, elapsedAfter: Duration)

  /** What killing and reaping the child answers, where None is success. */
  datatype Reaping = Reaping(groupKill: Option<IoError>, directKill: Option<IoError>, wait: Result<ExitStatus, IoError>)

  /** One output pipe: missing, without a reader thread, or read to its end by a thread that may panic. */
  datatype Pipe = Missing | Unread(error: IoError) | Reader(script: seq<ReadResult>, panics: bool)

  datatype Spawn = Denied(error: IoError) | Started(processId: U64, cpuLimitInstalled: bool)

  datatype Environment = Environment(spawn: Spawn, stdoutPipe: Pipe, stderrPipe: Pipe, reaping: Reaping,
                                     duration: Duration)

  function ExitCode(status: ExitStatus): Option<int> {
    if status.Code? then Some(status.code) else None
  }

  function FromLimit(limit: Option<Duration>, triggered: bool): Timeout {
    if limit.None? then NotConfigured else if triggered then Triggered(limit.value) else NotTriggered(limit.value)
  }

  // ----- pipes -----

  function SetupFailure(pipe: Pipe, stream: Stream): seq<Failure> {
    match pipe
    case Missing =>
      [OutputCaptureFailure(stream, None, if stream == Stdout then "spawned child had no stdout pipe"
                                          else "spawned child had no stderr pipe")]
    case Unread(error) => [OutputCaptureFailure(stream, Some(error.kind), error.message)]
    case Reader(_, _) => []
  }

  function Drained(pipe: Pipe, stream: Stream, limit: U64): CaptureOutcome {
    if !pipe.Reader? then CaptureOutcome(EmptyOutput(limit), None)
    else if pipe.panics
    then CaptureOutcome(EmptyOutput(limit), Some(OutputCaptureFailure(stream, None, "output reader thread panicked")))
    else Captured(pipe.script, stream, limit)
  }

  /** The pipe of a started child that a reader thread drains to its end. */
  predicate Reading(started: bool, pipe: Pipe) {
    started && pipe.Reader? && !pipe.panics
  }

  /** The output tells what arrived on this pipe: its first bytes up to the limit and how many there were. */
  ghost predicate Tells(output: BoundedOutput, started: bool, pipe: Pipe, limit: U64) {
    && output.limit == limit
    && (Reading(started, pipe) ==>
          && |output.captured| == Min(|Arrived(pipe.script)|, limit) && output.captured <= Arrived(pipe.script)
          && output.total == Min(|Arrived(pipe.script)|, U64_MAX)
          && (output.truncated <==> |Arrived(pipe.script)| > limit && limit != U64_MAX))
    && (!Reading(started, pipe) ==> output.captured == [] && output.total == 0 && !output.truncated)
  }

  lemma DrainedTells(pipe: Pipe, stream: Stream, limit: U64)
    ensures Tells(Drained(pipe, stream, limit).output, true, pipe, limit)
  {
    if Reading(true, pipe) { TruncatedExactly(pipe.script, stream, limit); }
  }

  lemma NothingTold(pipe: Pipe, limit: U64)
    ensures Tells(EmptyOutput(limit), false, pipe, limit)
  {
  }

  function OptionalFailure(failure: Option<Failure>): seq<Failure> {
    if failure.None? then [] else [failure.value]
  }

  /** Joins the reader thread and records its failure, if any. */
  method FinishReader(pipe: Pipe, stream: Stream, limit: U64, failures: seq<Failure>) returns (output: BoundedOutput,
        after: seq<Failure>)
    ensures output == Drained(pipe, stream, limit).output
    ensures after == failures + OptionalFailure(Drained(pipe, stream, limit).failure)
  {
    var outcome: CaptureOutcome;
    match pipe {
      case Reader(script, panics) =>
        if panics {
          outcome := CaptureOutcome(EmptyOutput(limit),
                                    Some(OutputCaptureFailure(stream, None, "output reader thread panicked")));
        } else {
          outcome := CaptureOutput(script, stream, limit);
        }
      case _ =>
        outcome := CaptureOutcome(EmptyOutput(limit), None);
    }
    after := failures;
    if outcome.failure.Some? { after := after + [outcome.failure.value]; }
    output := outcome.output;
  }

  // ----- the end of the process -----

  function CompletedFailures(status: ExitStatus): seq<Failure> {
    if status == Code(0) then [] else [NonZeroExit(ExitCode(status))]
  }

  function CompletedExit(status: ExitStatus): ProcessExit {
    if status.Code? then ExitedWithCode(status.code) else ExitedWithoutCode
  }

  function ReapingFailures(r: Reaping): seq<Failure> {
    (if r.groupKill.None? then []
     else [TerminationFailure(r.groupKill.value)] +
          (if r.directKill.None? then [] else [TerminationFailure(r.directKill.value)]))
    + (if r.wait.Ok? then [] else [WaitFailure(r.wait.error)])
  }

  function Reaped(r: Reaping, reason: Termination): ProcessExit {
    TerminatedBySupervisor(reason, if r.wait.Ok? then ExitCode(r.wait.value) else None)
  }

  /** Kills the process group, falls back to the child itself, and reaps; every failure is recorded in order. */
  method TerminateAndReap(r: Reaping, reason: Termination, failures: seq<Failure>) returns (exit: ProcessExit,
        after: seq<Failure>)
    ensures exit == Reaped(r, reason) && after == failures + ReapingFailures(r)
  {
    after := failures;
    if r.groupKill.Some? {
      after := after + [TerminationFailure(r.groupKill.value)];
      if r.directKill.Some? { after := after + [TerminationFailure(r.directKill.value)]; }
    }
    var code: Option<int> := None;
    match r.wait {
      case Ok(status) => code := ExitCode(status);
      case Err(error) => after := after + [WaitFailure(error)];
    }
    exit := TerminatedBySupervisor(reason, code);
  }

  datatype Supervised = Supervised(exit: ProcessExit, timeout: Timeout, cancellation: Cancellation, cpuLimited: bool,
                                   failures: seq<Failure>)

  // ----- polling -----

  predicate Expired(limit: Option<Duration>, elapsed: Duration) {
    limit.Some? && elapsed >= limit.value
  }

  /** The iteration that ends supervision. */
  predicate Decides(limit: Option<Duration>, p: Poll) {
    p.cancelled || Expired(limit, p.elapsed) || p.child != Running
  }

  /** The first iteration that ends supervision, given that one up to n does. */
  function FirstDecisive(limit: Option<Duration>, polls: nat -> Poll, i: nat, n: nat): (k: nat)
    requires i <= n && Decides(limit, polls(n))
    ensures i <= k <= n && Decides(limit, polls(k))
    ensures forall j :: i <= j < k ==> !Decides(limit, polls(j))
    decreases n - i
  {
    if Decides(limit, polls(i)) then i else FirstDecisive(limit, polls, i + 1, n)
  }

  /** Cancellation wins over an expired timeout, and both over the child's own end. */
  function Decision(limit: Option<Duration>, p: Poll, r: Reaping, cpuLimitInstalled: bool): Supervised
    requires Decides(limit, p)
  {
    if p.cancelled then
      Supervised(Reaped(r, ByCancellation), FromLimit(limit, false), Selected, false, [Cancelled] + ReapingFailures(r))
    else if Expired(limit, p.elapsed) then
      Supervised(Reaped(r, ByTimeout), FromLimit(limit, true), NotSelected, false, [TimedOut] + ReapingFailures(r))
    else match p.child
      case Exited(status) =>
        Supervised(CompletedExit(status), FromLimit(limit, false), NotSelected,
                   cpuLimitInstalled && status == Signal(SIGXCPU), CompletedFailures(status))
      case WaitError(error) =>
        Supervised(Reaped(r, ByWaitFailure), FromLimit(limit, false), NotSelected, false,
                   [WaitFailure(error)] + ReapingFailures(r))
  }

  function NextPollDelay(limit: Option<Duration>, elapsed: Duration): Duration {
    if limit.None?
    then POLL_INTERVAL
    else Min(POLL_INTERVAL, if elapsed <= limit.value then limit.value - elapsed else 0)
  }

  /**
   The polling loop. `n` bounds an iteration that ends it: without a timeout a child that never
   ends is polled for ever, so no bound exists in general.
   */
  method SuperviseChild(limit: Option<Duration>, polls: nat -> Poll, r: Reaping, cpuLimitInstalled: bool,
        failures: seq<Failure>, ghost n: nat)
    returns (s: Supervised)
    requires failures == [] && Decides(limit, polls(n))
    ensures s == Decision(limit, polls(FirstDecisive(limit, polls, 0, n)), r, cpuLimitInstalled)
  {
    var i := 0;
    while true
      invariant i <= n && FirstDecisive(limit, polls, 0, n) == FirstDecisive(limit, polls, i, n)
      decreases n - i
    {
      var p := polls(i);
      if p.cancelled {
        var exit, after := TerminateAndReap(r, ByCancellation, failures + [Cancelled]);
        return Supervised(exit, FromLimit(limit, false), Selected, false, after);
      }
      if limit.Some? && p.elapsed >= limit.value {
        var exit, after := TerminateAndReap(r, ByTimeout, failures + [TimedOut]);
        return Supervised(exit, FromLimit(limit, true), NotSelected, false, after);
      }
      match p.child {
        case Exited(status) =>
          return Supervised(CompletedExit(status), FromLimit(limit, false), NotSelected,
                            cpuLimitInstalled && status == Signal(SIGXCPU), failures + CompletedFailures(status));
        case WaitError(error) =>
          var exit, after := TerminateAndReap(r, ByWaitFailure, failures + [WaitFailure(error)]);
          return Supervised(exit, FromLimit(limit, false), NotSelected, false, after);
        case Running =>
      }
      i := i + 1;
    }
  }

  /** The clock never runs backwards and a sleep lasts at least as long as asked. */
  ghost predicate HonestClock(limit: Option<Duration>, polls: nat -> Poll) {
    forall i: nat :: polls(i).elapsed <= polls(i).elapsedAfter
      && polls(i).elapsedAfter + NextPollDelay(limit, polls(i).elapsedAfter) <= polls(i + 1).elapsed
  }

  lemma {:induction false} ElapsedGrows(limit: Duration, polls: nat -> Poll, i: nat)
    requires HonestClock(Some(limit), polls)
    ensures polls(i).elapsed >= Min(limit, i * POLL_INTERVAL)
  {
    if i > 0 {
      ElapsedGrows(limit, polls, i - 1);
      assert polls(i - 1).elapsedAfter + NextPollDelay(Some(limit), polls(i - 1).elapsedAfter) <=
             polls(i - 1 + 1).elapsed;
    }
  }

  /** With a timeout and an honest clock the loop ends by iteration ceil(limit / 5 ms), whatever the child does. */
  lemma TimeoutEndsTheLoop(limit: Duration, polls: nat -> Poll)
    requires HonestClock(Some(limit), polls)
    ensures Decides(Some(limit), polls((limit + POLL_INTERVAL - 1) / POLL_INTERVAL))
  {
    var n := (limit + POLL_INTERVAL - 1) / POLL_INTERVAL;
    assert n * POLL_INTERVAL >= limit;
    ElapsedGrows(limit, polls, n);
  }

  // ----- observations -----

  function Unenforced(kind: LimitKind, limit: LimitValue): Observation {
    Observation(kind, limit, None, NotEnforced, false, None)
  }

  function CaptureObservation(kind: LimitKind, limit: U64, output: BoundedOutput): Observation {
    Observation(kind, BytesValue(limit), Some(BytesValue(output.total)), CaptureBoundEnforced, false,
                Some(output.truncated))
  }

  function OtherObservations(other: seq<OtherLimitRequest>): (r: seq<Observation>)
    ensures |r| == |other| && forall i :: 0 <= i < |r| ==> r[i] == Unenforced(OtherLimit(other[i].name), other[i].limit)
  {
    if other == [] then [] else [Unenforced(OtherLimit(other[0].name), other[0].limit)] + OtherObservations(other[1..])
  }

  function CpuObservation(limit: Duration, enforced: Option<bool>): Observation {
    if enforced.Some? then Observation(CpuTime, DurationValue(limit), None, RuntimeLimitEnforced, enforced.value, None)
    else Unenforced(CpuTime, DurationValue(limit))
  }

  function TimeoutObservation(limit: Duration, duration: Duration, triggered: bool): Observation {
    Observation(TimeoutLimit, DurationValue(limit), Some(DurationValue(duration)), SupervisorTimeoutEnforced,
                triggered, None)
  }

  function FixedLimits(l: Limits): seq<Observation> {
    (if l.memoryBytes.Some? then [Unenforced(MemoryBytes, BytesValue(l.memoryBytes.value))] else [])
    + (if l.diskBytes.Some? then [Unenforced(DiskTempWorkspaceBytes, BytesValue(l.diskBytes.value))] else [])
    + (if l.processCount.Some? then [Unenforced(ProcessCount, CountValue(l.processCount.value))] else [])
    + (if l.fileCount.Some? then [Unenforced(FileCount, CountValue(l.fileCount.value))] else [])
  }

  function Observations(l: Limits, out: BoundedOutput, err: BoundedOutput, duration: Duration, triggered: bool,
        enforced: Option<bool>): seq<Observation> {
    (if l.cpuTime.Some? then [CpuObservation(l.cpuTime.value, enforced)] else [])
    + FixedLimits(l)
    + [CaptureObservation(StdoutBytes, l.stdoutBytes, out), CaptureObservation(StderrBytes, l.stderrBytes, err)]
    + (if l.timeout.Some? then [TimeoutObservation(l.timeout.value, duration, triggered)] else [])
    + OtherObservations(l.other)
  }

  /** One unenforced observation per other limit, in order. */
  method AppendOthers(others: seq<OtherLimitRequest>, before: seq<Observation>) returns (r: seq<Observation>)
    ensures r == before + OtherObservations(others)
  {
    hide OtherObservations;
    r := before;
    ghost var all := OtherObservations(others);
    var i := 0;
    while i < |others|
      invariant 0 <= i <= |others| && r == before + all[..i]
    {
      assert all[..i + 1] == all[..i] + [all[i]];
      r := r + [Unenforced(OtherLimit(others[i].name), others[i].limit)];
      i := i + 1;
    }
    assert all[..i] == all;
  }

  method ResourceObservations(l: Limits, out: BoundedOutput, err: BoundedOutput, duration: Duration, triggered: bool,
        enforced: Option<bool>)
    returns (r: seq<Observation>)
    ensures r == Observations(l, out, err, duration, triggered, enforced)
  {
    hide FixedLimits, OtherObservations, CpuObservation, CaptureObservation, TimeoutObservation;
    r := [];
    if l.cpuTime.Some? { r := r + [CpuObservation(l.cpuTime.value, enforced)]; }
    r := r + FixedLimits(l);
    r := r + [CaptureObservation(StdoutBytes, l.stdoutBytes, out), CaptureObservation(StderrBytes, l.stderrBytes, err)];
    if l.timeout.Some? { r := r + [TimeoutObservation(l.timeout.value, duration, triggered)]; }
    r := AppendOthers(l.other, r);
  }

  // ----- a whole run -----

  /** What supervision reports when an output pipe could not be set up. */
  function SetupAborted(limit: Option<Duration>, r: Reaping, failures: seq<Failure>): Supervised {
    Supervised(Reaped(r, ByOutputCaptureFailure), FromLimit(limit, false), NotSelected, false,
               failures + ReapingFailures(r))
  }

  function Supervision(request: Request, env: Environment, p: Poll): Supervised
    requires env.spawn.Started? && Decides(request.limits.timeout, p)
  {
    var setup := SetupFailure(env.stdoutPipe, Stdout) + SetupFailure(env.stderrPipe, Stderr);
    if setup == [] then Decision(request.limits.timeout, p, env.reaping, env.spawn.cpuLimitInstalled)
    else SetupAborted(request.limits.timeout, env.reaping, setup)
  }

  function NeverRan(request: Request, env: Environment): ExecutionResult
    requires env.spawn.Denied?
  {
    var out, err := EmptyOutput(request.limits.stdoutBytes), EmptyOutput(request.limits.stderrBytes);
    ExecutionResult(request.phase, None, NeverStarted, FromLimit(request.limits.timeout, false), NotSelected, out, err,
                    env.duration,
                    Observations(request.limits, out, err, env.duration, false, None), [SpawnFailure(env.spawn.error)])
  }

  function Ran(request: Request, env: Environment, p: Poll): ExecutionResult
    requires env.spawn.Started? && Decides(request.limits.timeout, p)
  {
    var s := Supervision(request, env, p);
    var out := Drained(env.stdoutPipe, Stdout, request.limits.stdoutBytes);
    var err := Drained(env.stderrPipe, Stderr, request.limits.stderrBytes);
    ExecutionResult(request.phase, Some(env.spawn.processId), s.exit, s.timeout, s.cancellation, out.output,
                    err.output, env.duration,
                    Observations(request.limits, out.output, err.output, env.duration, s.timeout.Triggered?,
                                 if env.spawn.cpuLimitInstalled then Some(s.cpuLimited) else None),
                    s.failures + OptionalFailure(out.failure) + OptionalFailure(err.failure))
  }

  /** Runs one request: denied before the start, or started, supervised, drained and reported. */
  method Execute(request: Request, env: Environment, polls: nat -> Poll, ghost n: nat) returns (result: ExecutionResult)
    requires Decides(request.limits.timeout, polls(n))
    ensures env.spawn.Denied? ==> result == NeverRan(request, env)
    ensures env.spawn.Started? ==>
              result == Ran(request, env, polls(FirstDecisive(request.limits.timeout, polls, 0, n)))
    ensures Tells(result.stdout, env.spawn.Started?, env.stdoutPipe, request.limits.stdoutBytes)
    ensures Tells(result.stderr, env.spawn.Started?, env.stderrPipe, request.limits.stderrBytes)
  {
    hide Observations, Decision, Drained, ReapingFailures, FirstDecisive, Decides, FromLimit, Tells;
    DrainedTells(env.stdoutPipe, Stdout, request.limits.stdoutBytes);
    DrainedTells(env.stderrPipe, Stderr, request.limits.stderrBytes);
    if env.spawn.Denied? {
      NothingTold(env.stdoutPipe, request.limits.stdoutBytes);
      NothingTold(env.stderrPipe, request.limits.stderrBytes);
    }
    var limit := request.limits.timeout;
    match env.spawn {
      case Denied(error) =>
        var out, err := EmptyOutput(request.limits.stdoutBytes), EmptyOutput(request.limits.stderrBytes);
        var observations := ResourceObservations(request.limits, out, err, env.duration, false, None);
        return ExecutionResult(request.phase, None, NeverStarted, FromLimit(limit, false), NotSelected, out, err,
                               env.duration,
                               observations, [SpawnFailure(error)]);
      case Started(processId, cpuLimitInstalled) =>
        var failures := SetupFailure(env.stdoutPipe, Stdout);
        failures := failures + SetupFailure(env.stderrPipe, Stderr);
        var s: Supervised;
        if failures == [] {
          s := SuperviseChild(limit, polls, env.reaping, cpuLimitInstalled, failures, n);
        } else {
          var exit, after := TerminateAndReap(env.reaping, ByOutputCaptureFailure, failures);
          s := Supervised(exit, FromLimit(limit, false), NotSelected, false, after);
        }
        var out, afterOut := FinishReader(env.stdoutPipe, Stdout, request.limits.stdoutBytes, s.failures);
        var err, afterErr := FinishReader(env.stderrPipe, Stderr, request.limits.stderrBytes, afterOut);
        var observations := ResourceObservations(request.limits, out, err, env.duration, s.timeout.Triggered?,
                                                 if cpuLimitInstalled then Some(s.cpuLimited) else None);
        return ExecutionResult(request.phase, Some(processId), s.exit, s.timeout, s.cancellation, out, err,
                               env.duration, observations, afterErr);
    }
  }
}
