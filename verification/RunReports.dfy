/**
 What a run reports, told from what happened: each output from its own pipe, how the process
 ended, every failure that occurred and no other, and one observation for each limit.
 */
module RunReports {
  import opened Prelude
  import opened WorkerModel
  import opened OutputCapture
  import opened Supervisor
  import opened ProducerResults
  import opened ResultAdapter
  import opened SupervisedResults

  // ----- outputs -----

  /** Each reported output is what arrived on its own pipe. */
  lemma OutputsReported(request: Request, env: Environment, p: Poll)
    requires Decides(request.limits.timeout, p)
    ensures var e := ResultOf(request, env, p);
            && Tells(e.stdout, env.spawn.Started?, env.stdoutPipe, request.limits.stdoutBytes)
            && Tells(e.stderr, env.spawn.Started?, env.stderrPipe, request.limits.stderrBytes)
  {
    hide Tells, Drained, Observations, Supervision;
    DrainedTells(env.stdoutPipe, Stdout, request.limits.stdoutBytes);
    DrainedTells(env.stderrPipe, Stderr, request.limits.stderrBytes);
    NothingTold(env.stdoutPipe, request.limits.stdoutBytes);
    NothingTold(env.stderrPipe, request.limits.stderrBytes);
  }

  /** The reference counts what arrived on this pipe. */
  ghost predicate CountsPipe(r: OutputReference, kind: OutputKind, reference: string, started: bool, pipe: Pipe,
        limit: U64) {
    && r.kind == kind && r.reference == reference && r.limit == limit
    && var n := if Reading(started, pipe) then |Arrived(pipe.script)| else 0;
       r.observed == Min(n, U64_MAX) && r.retained == Min(n, limit) && (r.truncated <==> n > limit && limit != U64_MAX)
  }

  /** A converted run's references count the bytes of the pipes they are named for. */
  lemma ReferencesCountPipes(request: Request, env: Environment, polls: nat -> Poll, n: nat, id: NonBlank,
        attempt: NonBlank, refs: References, host: Host)
    requires Decides(request.limits.timeout, polls(n)) && Reorders(host.sortObservations) && Reorders(host.sortOutputs)
    requires GoodReference(refs.stdoutReference) && GoodReference(refs.stderrReference)
    ensures var p := polls(FirstDecisive(request.limits.timeout, polls, 0, n));
            var r := Convert(ResultOf(request, env, p), id, attempt, refs, host);
            && r.Ok?
            && (refs.stdoutReference.Some? ==>
                  exists o :: o in r.value.facts.outputs &&
                    CountsPipe(o, StdoutOutput, refs.stdoutReference.value, env.spawn.Started?, env.stdoutPipe,
                               request.limits.stdoutBytes))
            && (refs.stderrReference.Some? ==>
                  exists o :: o in r.value.facts.outputs &&
                    CountsPipe(o, StderrOutput, refs.stderrReference.value, env.spawn.Started?, env.stderrPipe,
                               request.limits.stderrBytes))
  {
    hide Convert, ResultOf, Tells, CountsPipe, Reorders, GoodReference, Expected, Verdict, Decides, RefersTo;
    var p := polls(FirstDecisive(request.limits.timeout, polls, 0, n));
    var e := ResultOf(request, env, p);
    EveryRunConverts(request, env, polls, n, id, attempt, refs, host);
    OutputsReported(request, env, p);
    var outputs := Convert(e, id, attempt, refs, host).value.facts.outputs;
    if refs.stdoutReference.Some? {
      var i :| 0 <= i < |outputs| && RefersTo(outputs[i], StdoutOutput, refs.stdoutReference.value, e.stdout);
      CountedPipe(outputs[i], StdoutOutput, refs.stdoutReference.value, e.stdout, env.spawn.Started?, env.stdoutPipe,
                  request.limits.stdoutBytes);
    }
    if refs.stderrReference.Some? {
      var i :| 0 <= i < |outputs| && RefersTo(outputs[i], StderrOutput, refs.stderrReference.value, e.stderr);
      CountedPipe(outputs[i], StderrOutput, refs.stderrReference.value, e.stderr, env.spawn.Started?, env.stderrPipe,
                  request.limits.stderrBytes);
    }
  }

  lemma CountedPipe(r: OutputReference, kind: OutputKind, reference: string, output: BoundedOutput, started: bool,
        pipe: Pipe, limit: U64)
    requires RefersTo(r, kind, reference, output) && Tells(output, started, pipe, limit)
    ensures CountsPipe(r, kind, reference, started, pipe, limit)
  {
  }

  // ----- the end -----

  predicate Late(limit: Option<Duration>, p: Poll) {
    limit.Some? && p.elapsed >= limit.value
  }

  /** The iteration that ends supervision: cancelled, late or with a child that no longer runs. */
  predicate Ends(limit: Option<Duration>, p: Poll) {
    p.cancelled || Late(limit, p) || p.child != Running
  }

  /** Supervision acts on the first iteration that ends it and on no other. */
  lemma FirstEndActs(limit: Option<Duration>, polls: nat -> Poll, n: nat)
    ensures Decides(limit, polls(n)) <==> Ends(limit, polls(n))
    ensures Decides(limit, polls(n)) ==>
              var k := FirstDecisive(limit, polls, 0, n);
              k <= n && Ends(limit, polls(k)) && forall j :: 0 <= j < k ==> !Ends(limit, polls(j))
  {
    hide FirstDecisive;
    if Decides(limit, polls(n)) {
      var k := FirstDecisive(limit, polls, 0, n);
      forall j | 0 <= j < k ensures !Ends(limit, polls(j)) { assert !Decides(limit, polls(j)); }
    }
  }

  /** The supervisor ends the child: for want of a pipe, or when cancelled, late or unable to wait. */
  predicate Kills(request: Request, env: Environment, p: Poll) {
    && env.spawn.Started?
    && (!PipesUp(env) || p.cancelled || Late(request.limits.timeout, p) || p.child.WaitError?)
  }

  predicate KillsFor(request: Request, env: Environment, p: Poll, reason: Termination) {
    && Kills(request, env, p)
    && match reason
       case ByOutputCaptureFailure => !PipesUp(env)
       case ByCancellation => PipesUp(env) && p.cancelled
       case ByTimeout => PipesUp(env) && !p.cancelled && Late(request.limits.timeout, p)
       case ByWaitFailure => PipesUp(env) && !p.cancelled && !Late(request.limits.timeout, p)
  }

  /** The child ended by itself with this status. */
  predicate EndsWith(request: Request, env: Environment, p: Poll, status: ExitStatus) {
    env.spawn.Started? && !Kills(request, env, p) && p.child == Exited(status)
  }

  /** How the run ended: never started, killed for its reason, or by itself; with its own identity and duration. */
  lemma EndReported(request: Request, env: Environment, p: Poll)
    requires Decides(request.limits.timeout, p)
    ensures var e := ResultOf(request, env, p);
            && e.phase == request.phase && e.duration == env.duration
            && (env.spawn.Denied? ==> e.processId == None && e.processExit == NeverStarted)
            && (env.spawn.Started? ==> e.processId == Some(env.spawn.processId))
            && (forall reason, code :: e.processExit == TerminatedBySupervisor(reason, code) <==>
                  && KillsFor(request, env, p, reason)
                  && (code.Some? <==> env.reaping.wait.Ok? && env.reaping.wait.value.Code?)
                  && (code.Some? ==> env.reaping.wait.value.code == code.value))
            && (forall code :: e.processExit == ExitedWithCode(code) <==> EndsWith(request, env, p, Code(code)))
            && (e.processExit == ExitedWithoutCode <==> exists signal :: EndsWith(request, env, p, Signal(signal)))
            && (e.cancellation == Selected <==> KillsFor(request, env, p, ByCancellation))
            && (e.timeout.Triggered? <==> KillsFor(request, env, p, ByTimeout))
            && (e.timeout.NotConfigured? <==> request.limits.timeout.None?)
            && (request.limits.timeout.Some? ==> e.timeout.limit == request.limits.timeout.value)
  {
    hide Observations, Drained, SetupFailure, ReapingFailures, PipesUp;
    SetupFailures(env);
    if env.spawn.Started? && !Kills(request, env, p) {
      assert EndsWith(request, env, p, p.child.status);
    }
  }

  // ----- failures -----

  predicate PipeFails(pipe: Pipe, stream: Stream, kind: Option<ErrorKind>, message: string) {
    match pipe
    case Missing =>
      kind.None? && message == if stream == Stdout then "spawned child had no stdout pipe"
                               else "spawned child had no stderr pipe"
    case Unread(error) => kind == Some(error.kind) && message == error.message
    case Reader(script, panics) =>
      if panics then kind.None? && message == "output reader thread panicked"
      else kind.Some? && EndingError(script) == Some(IoError(kind.value, message))
  }

  predicate Happened(request: Request, env: Environment, p: Poll, f: Failure) {
    match f
    case SpawnFailure(error) => env.spawn == Denied(error)
    case NonZeroExit(None) => env.spawn.Started? && !Kills(request, env, p) && p.child.Exited? && p.child.status.Signal?
    case NonZeroExit(Some(code)) => code != 0 && EndsWith(request, env, p, Code(code))
    case TimedOut => KillsFor(request, env, p, ByTimeout)
    case Cancelled => KillsFor(request, env, p, ByCancellation)
    case WaitFailure(error) =>
      || (KillsFor(request, env, p, ByWaitFailure) && p.child == WaitError(error))
      || (Kills(request, env, p) && env.reaping.wait == Err(error))
    case OutputCaptureFailure(stream, kind, message) =>
      && env.spawn.Started?
      && PipeFails(if stream == Stdout then env.stdoutPipe else env.stderrPipe, stream, kind, message)
    case TerminationFailure(error) =>
      && Kills(request, env, p) && env.reaping.groupKill.Some?
      && (env.reaping.groupKill.value == error || env.reaping.directKill == Some(error))
  }

  lemma PipeFailures(pipe: Pipe, stream: Stream, limit: U64, f: Failure)
    ensures f in SetupFailure(pipe, stream) || f in OptionalFailure(Drained(pipe, stream, limit).failure) <==>
              f.OutputCaptureFailure? && f.stream == stream && PipeFails(pipe, stream, f.kind, f.message)
  {
    if f.OutputCaptureFailure? && f.kind.Some? {
      assert f == OutputCaptureFailure(f.stream, Some(f.kind.value), f.message);
    }
  }

  lemma ReapFailures(r: Reaping, f: Failure)
    ensures f in ReapingFailures(r) <==>
              || (f.TerminationFailure? && r.groupKill.Some? &&
                  (r.groupKill.value == f.error || r.directKill == Some(f.error)))
              || (f.WaitFailure? && r.wait == Err(f.error))
  {
  }

  lemma SupervisedFailures(request: Request, env: Environment, p: Poll, f: Failure)
    requires env.spawn.Started? && Decides(request.limits.timeout, p)
    ensures f in Supervision(request, env, p).failures <==>
              || f in SetupFailure(env.stdoutPipe, Stdout) || f in SetupFailure(env.stderrPipe, Stderr)
              || (!f.OutputCaptureFailure? && Happened(request, env, p, f))
  {
    hide ReapingFailures, SetupFailure, PipesUp, PipeFails;
    SetupFailures(env);
    ReapFailures(env.reaping, f);
    var setup := SetupFailure(env.stdoutPipe, Stdout) + SetupFailure(env.stderrPipe, Stderr);
    if f in setup { assert f.OutputCaptureFailure?; }
  }

  /** Exactly the failures that happened are reported. */
  lemma FailuresReported(request: Request, env: Environment, p: Poll, f: Failure)
    requires Decides(request.limits.timeout, p)
    ensures f in ResultOf(request, env, p).failures <==> Happened(request, env, p, f)
  {
    if env.spawn.Denied? {
      assert NeverRan(request, env).failures == [SpawnFailure(env.spawn.error)];
    } else {
      StartedFailures(request, env, p, f);
    }
  }

  lemma StartedFailures(request: Request, env: Environment, p: Poll, f: Failure)
    requires env.spawn.Started? && Decides(request.limits.timeout, p)
    ensures f in Ran(request, env, p).failures <==> Happened(request, env, p, f)
  {
    hide Observations, Supervision, SetupFailure, OptionalFailure, Drained, PipeFails, Decides, KillsFor, Kills,
         EndsWith;
    PipeFailures(env.stdoutPipe, Stdout, request.limits.stdoutBytes, f);
    PipeFailures(env.stderrPipe, Stderr, request.limits.stderrBytes, f);
    SupervisedFailures(request, env, p, f);
  }

  /** After the failure that ended the run come killing, reaping, the stdout reader and the stderr reader, in order. */
  function Stage(f: Failure): nat {
    match f
    case TerminationFailure(_) => 1
    case WaitFailure(_) => 2
    case OutputCaptureFailure(Stdout, _, _) => 3
    case OutputCaptureFailure(Stderr, _, _) => 4
    case _ => 0
  }

  ghost predicate Staged(fs: seq<Failure>) {
    forall i, j :: 0 <= i < j < |fs| && (i > 0 || !fs[0].WaitFailure?) ==> Stage(fs[i]) <= Stage(fs[j])
  }

  lemma FailuresStaged(request: Request, env: Environment, p: Poll)
    requires Decides(request.limits.timeout, p) && (env.spawn.Started? ==> PipesUp(env))
    ensures Staged(ResultOf(request, env, p).failures)
  {
    if env.spawn.Started? {
      hide Observations, Drained;
      var out := Drained(env.stdoutPipe, Stdout, request.limits.stdoutBytes);
      var err := Drained(env.stderrPipe, Stderr, request.limits.stderrBytes);
      DrainedStage(env.stdoutPipe, Stdout, request.limits.stdoutBytes);
      DrainedStage(env.stderrPipe, Stderr, request.limits.stderrBytes);
      SetupFailures(env);
      var s := Decision(request.limits.timeout, p, env.reaping, env.spawn.cpuLimitInstalled);
      DecisionStaged(request.limits.timeout, p, env.reaping, env.spawn.cpuLimitInstalled);
      assert Ran(request, env, p).failures == s.failures + OptionalFailure(out.failure) + OptionalFailure(err.failure);
    }
  }

  lemma DrainedStage(pipe: Pipe, stream: Stream, limit: U64)
    ensures var f := Drained(pipe, stream, limit).failure;
            f.Some? ==> Stage(f.value) == if stream == Stdout then 3 else 4
  {
  }

  lemma DecisionStaged(limit: Option<Duration>, p: Poll, r: Reaping, installed: bool)
    requires Decides(limit, p)
    ensures var fs := Decision(limit, p, r, installed).failures;
            Staged(fs) && forall i :: 0 <= i < |fs| ==> Stage(fs[i]) <= 2
  {
  }

  // ----- observations -----

  /** Only the configured limit is known of it: nothing was measured and nothing enforced. */
  predicate Unwatched(o: Observation, configured: LimitValue) {
    && o.configured == configured && o.observed.None? && o.enforcement == NotEnforced && !o.terminated
    && o.truncated.None?
  }

  predicate CountsOutput(o: Observation, limit: U64, output: BoundedOutput) {
    && o.configured == BytesValue(limit) && o.observed == Some(BytesValue(output.total))
    && o.enforcement == CaptureBoundEnforced && !o.terminated && o.truncated == Some(output.truncated)
  }

  /** What is observed of each kind of limit. */
  predicate Observed(request: Request, env: Environment, p: Poll, e: ExecutionResult, o: Observation) {
    var l := request.limits;
    match o.kind
    case CpuTime =>
      && l.cpuTime.Some?
      && if env.spawn.Started? && env.spawn.cpuLimitInstalled
         then && o.configured == DurationValue(l.cpuTime.value) && o.observed.None? && o.truncated.None?
              && o.enforcement == RuntimeLimitEnforced && (o.terminated <==> EndsWith(request, env, p, Signal(24)))
         else Unwatched(o, DurationValue(l.cpuTime.value))
    case MemoryBytes => l.memoryBytes.Some? && Unwatched(o, BytesValue(l.memoryBytes.value))
    case DiskTempWorkspaceBytes => l.diskBytes.Some? && Unwatched(o, BytesValue(l.diskBytes.value))
    case ProcessCount => l.processCount.Some? && Unwatched(o, CountValue(l.processCount.value))
    case FileCount => l.fileCount.Some? && Unwatched(o, CountValue(l.fileCount.value))
    case StdoutBytes => CountsOutput(o, l.stdoutBytes, e.stdout)
    case StderrBytes => CountsOutput(o, l.stderrBytes, e.stderr)
    case TimeoutLimit =>
      && l.timeout.Some? && o.configured == DurationValue(l.timeout.value)
      && o.observed == Some(DurationValue(env.duration)) && o.enforcement == SupervisorTimeoutEnforced
      && (o.terminated <==> KillsFor(request, env, p, ByTimeout)) && o.truncated.None?
    case OtherLimit(name) => OtherLimitRequest(name, o.configured) in l.other && Unwatched(o, o.configured)
  }

  /** What the observations of a run say, given whether the timeout and the CPU limit ended it. */
  lemma ObservationsSay(l: Limits, out: BoundedOutput, err: BoundedOutput, duration: Duration, triggered: bool,
        enforced: Option<bool>, o: Observation)
    ensures o in Observations(l, out, err, duration, triggered, enforced) <==>
              match o.kind
              case CpuTime => l.cpuTime.Some? && o == CpuObservation(l.cpuTime.value, enforced)
              case StdoutBytes => CountsOutput(o, l.stdoutBytes, out)
              case StderrBytes => CountsOutput(o, l.stderrBytes, err)
              case TimeoutLimit => l.timeout.Some? && o == TimeoutObservation(l.timeout.value, duration, triggered)
              case MemoryBytes => l.memoryBytes.Some? && Unwatched(o, BytesValue(l.memoryBytes.value))
              case DiskTempWorkspaceBytes => l.diskBytes.Some? && Unwatched(o, BytesValue(l.diskBytes.value))
              case ProcessCount => l.processCount.Some? && Unwatched(o, CountValue(l.processCount.value))
              case FileCount => l.fileCount.Some? && Unwatched(o, CountValue(l.fileCount.value))
              case OtherLimit(name) => OtherLimitRequest(name, o.configured) in l.other && Unwatched(o, o.configured)
  {
    hide OtherObservations, FixedLimits;
    FixedSay(l, o);
    OthersSay(l.other, o);
  }

  lemma FixedSay(l: Limits, o: Observation)
    ensures o in FixedLimits(l) <==>
              match o.kind
              case MemoryBytes => l.memoryBytes.Some? && Unwatched(o, BytesValue(l.memoryBytes.value))
              case DiskTempWorkspaceBytes => l.diskBytes.Some? && Unwatched(o, BytesValue(l.diskBytes.value))
              case ProcessCount => l.processCount.Some? && Unwatched(o, CountValue(l.processCount.value))
              case FileCount => l.fileCount.Some? && Unwatched(o, CountValue(l.fileCount.value))
              case _ => false
  {
  }

  lemma OthersSay(other: seq<OtherLimitRequest>, o: Observation)
    ensures o in OtherObservations(other) <==>
              o.kind.OtherLimit? && OtherLimitRequest(o.kind.name, o.configured) in other && Unwatched(o, o.configured)
  {
    var all := OtherObservations(other);
    if o.kind.OtherLimit? && OtherLimitRequest(o.kind.name, o.configured) in other && Unwatched(o, o.configured) {
      var i :| 0 <= i < |other| && other[i] == OtherLimitRequest(o.kind.name, o.configured);
      assert all[i] == o;
    }
  }

  /** A run makes exactly the observations of its limits, with its own outputs, duration and end. */
  lemma ObservationsReported(request: Request, env: Environment, p: Poll, o: Observation)
    requires Decides(request.limits.timeout, p)
    ensures var e := ResultOf(request, env, p);
            o in e.observations <==> Observed(request, env, p, e, o)
  {
    hide Observations, Drained, Decision, SetupFailure, CountsOutput, EndsWith, KillsFor;
    var e := ResultOf(request, env, p);
    EndReported(request, env, p);
    if env.spawn.Denied? {
      ObservationsSay(request.limits, e.stdout, e.stderr, env.duration, false, None, o);
    } else {
      CpuLimited(request, env, p);
      var s := Supervision(request, env, p);
      ObservationsSay(request.limits, e.stdout, e.stderr, env.duration, s.timeout.Triggered?,
                      if env.spawn.cpuLimitInstalled then Some(s.cpuLimited) else None, o);
    }
  }

  lemma CpuLimited(request: Request, env: Environment, p: Poll)
    requires env.spawn.Started? && Decides(request.limits.timeout, p)
    ensures Supervision(request, env, p).cpuLimited <==>
              env.spawn.cpuLimitInstalled && EndsWith(request, env, p, Signal(24))
  {
    hide ReapingFailures, SetupFailure, PipesUp;
    SetupFailures(env);
  }

  /** The order of the observations: the place of each kind, with the other limits last. */
  function Place(kind: LimitKind): nat {
    match kind
    case CpuTime => 0
    case MemoryBytes => 1
    case DiskTempWorkspaceBytes => 2
    case ProcessCount => 3
    case FileCount => 4
    case StdoutBytes => 5
    case StderrBytes => 6
    case TimeoutLimit => 7
    case OtherLimit(_) => 8
  }

  ghost predicate Placed(s: seq<Observation>) {
    forall i, j :: 0 <= i < j < |s| ==>
      Place(s[i].kind) < Place(s[j].kind) || (s[i].kind.OtherLimit? && s[j].kind.OtherLimit?)
  }

  /** The last observations are of the other limits, one for each as they were asked. */
  ghost predicate OthersAtEnd(s: seq<Observation>, other: seq<OtherLimitRequest>) {
    && |s| >= |other|
    && forall i :: 0 <= i < |other| ==>
         && s[|s| - |other| + i].kind == OtherLimit(other[i].name)
         && s[|s| - |other| + i].configured == other[i].limit
  }

  /** One observation for each kind, in order, and at the end one for each other limit as they were asked. */
  lemma ObservationsPlaced(request: Request, env: Environment, p: Poll)
    requires Decides(request.limits.timeout, p)
    ensures var s, other := ResultOf(request, env, p).observations, request.limits.other;
            Placed(s) && OthersAtEnd(s, other)
  {
    hide Observations, Drained, Supervision, Placed, OthersAtEnd;
    var e := ResultOf(request, env, p);
    if env.spawn.Denied? {
      AllPlaced(request.limits, e.stdout, e.stderr, env.duration, false, None);
    } else {
      var s := Supervision(request, env, p);
      AllPlaced(request.limits, e.stdout, e.stderr, env.duration, s.timeout.Triggered?,
                if env.spawn.cpuLimitInstalled then Some(s.cpuLimited) else None);
    }
  }

  lemma AllPlaced(l: Limits, out: BoundedOutput, err: BoundedOutput, duration: Duration, triggered: bool,
        enforced: Option<bool>)
    ensures var s := Observations(l, out, err, duration, triggered, enforced);
            Placed(s) && OthersAtEnd(s, l.other)
  {
    hide FixedLimits, OtherObservations, Placed, Within, OthersAtEnd, CpuObservation, CaptureObservation,
         TimeoutObservation;
    var cpu := if l.cpuTime.Some? then [CpuObservation(l.cpuTime.value, enforced)] else [];
    var captures := [CaptureObservation(StdoutBytes, l.stdoutBytes, out),
                     CaptureObservation(StderrBytes, l.stderrBytes, err)];
    var timeout := if l.timeout.Some? then [TimeoutObservation(l.timeout.value, duration, triggered)] else [];
    PartsPlaced(l, out, err, duration, triggered, enforced);
    FixedPlaced(l);
    OthersPlaced(l.other);
    PlacedJoin(cpu, FixedLimits(l), 0, 0, 4);
    PlacedJoin(cpu + FixedLimits(l), captures, 0, 4, 6);
    PlacedJoin(cpu + FixedLimits(l) + captures, timeout, 0, 6, 7);
    PlacedJoin(cpu + FixedLimits(l) + captures + timeout, OtherObservations(l.other), 0, 7, 8);
    OthersLast(cpu + FixedLimits(l) + captures + timeout, l.other);
  }

  ghost predicate Within(s: seq<Observation>, low: nat, high: nat) {
    forall i :: 0 <= i < |s| ==> low <= Place(s[i].kind) <= high
  }

  lemma PlacedJoin(a: seq<Observation>, b: seq<Observation>, low: nat, mid: nat, high: nat)
    requires Placed(a) && Placed(b) && Within(a, low, mid) && Within(b, mid + 1, high) && low <= mid <= high
    ensures Placed(a + b) && Within(a + b, low, high)
  {
    hide Place;
  }

  lemma PartsPlaced(l: Limits, out: BoundedOutput, err: BoundedOutput, duration: Duration, triggered: bool,
        enforced: Option<bool>)
    ensures var cpu := if l.cpuTime.Some? then [CpuObservation(l.cpuTime.value, enforced)] else [];
            Placed(cpu) && Within(cpu, 0, 0)
    ensures var captures := [CaptureObservation(StdoutBytes, l.stdoutBytes, out),
                             CaptureObservation(StderrBytes, l.stderrBytes, err)];
            Placed(captures) && Within(captures, 5, 6)
    ensures var timeout := if l.timeout.Some? then [TimeoutObservation(l.timeout.value, duration, triggered)] else [];
            Placed(timeout) && Within(timeout, 7, 7)
  {
  }

  lemma OthersPlaced(other: seq<OtherLimitRequest>)
    ensures Placed(OtherObservations(other)) && Within(OtherObservations(other), 8, 8)
  {
  }

  lemma OthersLast(front: seq<Observation>, other: seq<OtherLimitRequest>)
    ensures OthersAtEnd(front + OtherObservations(other), other)
  {
  }

  lemma FixedPlaced(l: Limits)
    ensures Placed(FixedLimits(l)) && Within(FixedLimits(l), 1, 4)
  {
    hide Placed, Within;
    var memory := if l.memoryBytes.Some? then [Unenforced(MemoryBytes, BytesValue(l.memoryBytes.value))] else [];
    var disk := if l.diskBytes.Some? then [Unenforced(DiskTempWorkspaceBytes, BytesValue(l.diskBytes.value))] else [];
    var processes := if l.processCount.Some? then [Unenforced(ProcessCount, CountValue(l.processCount.value))] else [];
    var files := if l.fileCount.Some? then [Unenforced(FileCount, CountValue(l.fileCount.value))] else [];
    AtMostOne(memory, 1);
    AtMostOne(disk, 2);
    AtMostOne(processes, 3);
    AtMostOne(files, 4);
    PlacedJoin(memory, disk, 1, 1, 2);
    PlacedJoin(memory + disk, processes, 1, 2, 3);
    PlacedJoin(memory + disk + processes, files, 1, 3, 4);
  }

  lemma AtMostOne(s: seq<Observation>, place: nat)
    requires |s| <= 1 && (|s| == 1 ==> Place(s[0].kind) == place)
    ensures Placed(s) && Within(s, place, place)
  {
  }
}
