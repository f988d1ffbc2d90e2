/**
 Every supervised run converts: under any spawn denial, pipe, reader, wait or kill failure,
 clock, cancellation and CPU-limit death, the adapter and the validator both accept the
 result, with the outcome that an independent table reads off the environment.
 */
module SupervisedResults {
  import opened Prelude
  import opened WorkerModel
  import opened OutputCapture
  import opened Supervisor
  import opened ProducerResults
  import opened ResultAdapter
  import Utf8

  // ----- the table -----

  predicate PipesUp(env: Environment) {
    env.stdoutPipe.Reader? && env.stderrPipe.Reader?
  }

  predicate ReaderFails(pipe: Pipe) {
    pipe.Reader? && (pipe.panics || EndingError(pipe.script).Some?)
  }

  predicate Drains(env: Environment) {
    !ReaderFails(env.stdoutPipe) && !ReaderFails(env.stderrPipe)
  }

  predicate ReapsCleanly(r: Reaping) {
    r.groupKill.None? && r.wait.Ok?
  }

  predicate CpuLimitDeath(request: Request, env: Environment, status: ExitStatus) {
    env.spawn.Started? && env.spawn.cpuLimitInstalled && request.limits.cpuTime.Some? && status == Signal(SIGXCPU)
  }

  function WhenClean(clean: bool): Availability {
    if clean then Complete else Incomplete
  }

  /** The outcome and availability of a run, read off what happened. */
  function Expected(request: Request, env: Environment, p: Poll): (Outcome, Availability)
    requires Decides(request.limits.timeout, p)
  {
    if env.spawn.Denied? then (RunnerFailure, Unavailable)
    else if !PipesUp(env) then (RunnerFailure, Incomplete)
    else if p.cancelled then (CancellationOutcome, WhenClean(ReapsCleanly(env.reaping) && Drains(env)))
    else if Expired(request.limits.timeout, p.elapsed)
    then (TimeoutOutcome, WhenClean(ReapsCleanly(env.reaping) && Drains(env)))
    else match p.child
      case WaitError(_) => (RunnerFailure, Incomplete)
      case Exited(status) =>
        if CpuLimitDeath(request, env, status) then (ResourceBreach, WhenClean(Drains(env)))
        else if !Drains(env) then (RunnerFailure, Incomplete)
        else if status == Code(0) then (Success, Complete)
        else (PhaseFailure(request.phase), Complete)
  }

  function ResultOf(request: Request, env: Environment, p: Poll): ExecutionResult
    requires Decides(request.limits.timeout, p)
  {
    if env.spawn.Denied? then NeverRan(request, env) else Ran(request, env, p)
  }

  // ----- observations of a run -----

  predicate Fits(o: Observation, triggered: bool) {
    && (o.kind == TimeoutLimit ==> o.terminated == triggered)
    && (o.terminated ==> o.enforcement == RuntimeLimitEnforced || o.enforcement == SupervisorTimeoutEnforced)
    && (Terminates(o) ==> o.enforcement == RuntimeLimitEnforced)
  }

  ghost predicate AllFit(s: seq<Observation>, triggered: bool) {
    forall i :: 0 <= i < |s| ==> Fits(s[i], triggered)
  }

  ghost predicate NoneTerminates(s: seq<Observation>) {
    forall i :: 0 <= i < |s| ==> !Terminates(s[i])
  }

  lemma FixedLimitsFit(l: Limits, triggered: bool)
    ensures AllFit(FixedLimits(l), triggered) && NoneTerminates(FixedLimits(l))
  {
  }

  lemma OthersFit(other: seq<OtherLimitRequest>, triggered: bool)
    ensures AllFit(OtherObservations(other), triggered) && NoneTerminates(OtherObservations(other))
  {
  }

  lemma FitsJoin(a: seq<Observation>, b: seq<Observation>, triggered: bool)
    requires AllFit(a, triggered) && AllFit(b, triggered) && NoneTerminates(b)
    ensures AllFit(a + b, triggered) && Breaches(a + b) == Breaches(a)
  {
    hide Fits, Terminates;
    if Breaches(a) {
      var i :| 0 <= i < |a| && a[i].terminated && a[i].kind != TimeoutLimit;
      assert (a + b)[i] == a[i];
    }
    forall i | 0 <= i < |b| ensures !(b[i].terminated && b[i].kind != TimeoutLimit) {
      assert !Terminates(b[i]);
      NotTerminating(b[i]);
    }
  }

  lemma NotTerminating(o: Observation)
    requires !Terminates(o)
    ensures !(o.terminated && o.kind != TimeoutLimit)
  {
  }

  /** The observations of a run fit its facts; only the CPU limit's can report a breach. */
  lemma RunObservationsFit(l: Limits, out: BoundedOutput, err: BoundedOutput, duration: Duration, triggered: bool,
        enforced: Option<bool>)
    ensures var s := Observations(l, out, err, duration, triggered, enforced);
            AllFit(s, triggered) && Breaches(s) == (l.cpuTime.Some? && enforced == Some(true))
  {
    hide FixedLimits, OtherObservations, AllFit, NoneTerminates, Breaches;
    var cpu := if l.cpuTime.Some? then [CpuObservation(l.cpuTime.value, enforced)] else [];
    var captures := [CaptureObservation(StdoutBytes, l.stdoutBytes, out),
                     CaptureObservation(StderrBytes, l.stderrBytes, err)];
    var timeout := if l.timeout.Some? then [TimeoutObservation(l.timeout.value, duration, triggered)] else [];
    CpuFits(l, enforced, triggered);
    CapturesFit(l, out, err, triggered);
    TimeoutFits(l, duration, triggered);
    FixedLimitsFit(l, triggered);
    OthersFit(l.other, triggered);
    FitsJoin(cpu, FixedLimits(l), triggered);
    FitsJoin(cpu + FixedLimits(l), captures, triggered);
    FitsJoin(cpu + FixedLimits(l) + captures, timeout, triggered);
    FitsJoin(cpu + FixedLimits(l) + captures + timeout, OtherObservations(l.other), triggered);
  }

  lemma CpuFits(l: Limits, enforced: Option<bool>, triggered: bool)
    ensures var cpu := if l.cpuTime.Some? then [CpuObservation(l.cpuTime.value, enforced)] else [];
            AllFit(cpu, triggered) && Breaches(cpu) == (l.cpuTime.Some? && enforced == Some(true))
  {
    if l.cpuTime.Some? {
      assert [CpuObservation(l.cpuTime.value, enforced)][0] == CpuObservation(l.cpuTime.value, enforced);
    }
  }

  lemma CapturesFit(l: Limits, out: BoundedOutput, err: BoundedOutput, triggered: bool)
    ensures var s := [CaptureObservation(StdoutBytes, l.stdoutBytes, out),
                      CaptureObservation(StderrBytes, l.stderrBytes, err)];
            AllFit(s, triggered) && NoneTerminates(s)
  {
  }

  lemma TimeoutFits(l: Limits, duration: Duration, triggered: bool)
    ensures var s := if l.timeout.Some? then [TimeoutObservation(l.timeout.value, duration, triggered)] else [];
            AllFit(s, triggered) && NoneTerminates(s)
  {
  }

  lemma FitsPass(s: seq<Observation>, triggered: bool)
    requires AllFit(s, triggered)
    ensures BreachOf(s) == Ok(Breaches(s)) && TimeoutsAgree(s, triggered) && TerminationsEnforced(s)
  {
  }

  // ----- failures of a run -----

  ghost predicate AllInfrastructure(fs: seq<Failure>) {
    forall i :: 0 <= i < |fs| ==> Infrastructure(fs[i])
  }

  lemma TailFailures(fs: seq<Failure>)
    requires fs != [] && AllInfrastructure(fs[1..])
    ensures AnySpawnFailure(fs) == fs[0].SpawnFailure? && AnyTimedOut(fs) == fs[0].TimedOut?
    ensures AnyCancelled(fs) == fs[0].Cancelled?
    ensures AnyInfrastructure(fs) == (Infrastructure(fs[0]) || |fs| > 1)
    ensures AnyRunnerFailure(fs) == (RunnerSide(fs[0]) || |fs| > 1)
  {
    forall i | 1 <= i < |fs| ensures Infrastructure(fs[i]) {
      assert fs[i] == fs[1..][i - 1];
    }
    assert |fs| > 1 ==> Infrastructure(fs[1]) && RunnerSide(fs[1]);
  }

  /** A started run: its first failure, if any, belongs to its exit, and the rest are infrastructure failures. */
  ghost predicate Coherent(exit: ProcessExit, timeout: Timeout, cancellation: Cancellation, breach: bool,
        fs: seq<Failure>) {
    && !exit.NeverStarted?
    && (fs == [] || AllInfrastructure(fs[1..]))
    && (breach ==> exit.ExitedWithoutCode?)
    && (cancellation.Selected? <==> Killed(exit, ByCancellation)) && (timeout.Triggered? <==> Killed(exit, ByTimeout))
    && match exit
       case NeverStarted => false
       case ExitedWithCode(code) =>
         if code == 0 then fs == [] || fs[0].OutputCaptureFailure? else fs != [] && fs[0] == NonZeroExit(Some(code))
       case ExitedWithoutCode => fs != [] && fs[0] == NonZeroExit(None)
       case TerminatedBySupervisor(reason, _) =>
         && fs != []
         && match reason
            case ByTimeout => fs[0].TimedOut?
            case ByCancellation => fs[0].Cancelled?
            case ByWaitFailure => fs[0].WaitFailure?
            case ByOutputCaptureFailure => fs[0].OutputCaptureFailure?
  }

  /** The outcome a coherent run's exit and failures leave. */
  function OutcomeOf(phase: Phase, exit: ProcessExit, breach: bool, fs: seq<Failure>): (Outcome, Availability) {
    var clean := |fs| <= 1;
    if Killed(exit, ByCancellation) then (CancellationOutcome, WhenClean(clean))
    else if Killed(exit, ByTimeout) then (TimeoutOutcome, WhenClean(clean))
    else if exit.TerminatedBySupervisor? then (RunnerFailure, Incomplete)
    else if breach then (ResourceBreach, WhenClean(clean))
    else if exit == ExitedWithCode(0) then if fs == [] then (Success, Complete) else (RunnerFailure, Incomplete)
    else if clean then (PhaseFailure(phase), Complete)
    else (RunnerFailure, Incomplete)
  }

  lemma CoherentVerdict(e: ExecutionResult, breach: bool)
    requires e.processId.Some? && BreachOf(e.observations) == Ok(breach)
    requires Coherent(e.processExit, e.timeout, e.cancellation, breach, e.failures)
    ensures Verdict(e) == Ok(OutcomeOf(e.phase, e.processExit, breach, e.failures))
  {
    hide BreachOf, AllInfrastructure, AnySpawnFailure, AnyInfrastructure;
    if e.failures != [] {
      TailFailures(e.failures);
    } else {
      NoFailures();
    }
  }

  lemma NoFailures()
    ensures !AnySpawnFailure([]) && !AnyTimedOut([]) && !AnyCancelled([]) && !AnyInfrastructure([])
    ensures !AnyRunnerFailure([])
  {
  }

  lemma CoherentAccepted(phase: Phase, f: Facts, breach: bool)
    requires f.metadata.processId.Some? && Breaches(f.observations) == breach
    requires TimeoutsAgree(f.observations, f.timeout.Triggered?) && TerminationsEnforced(f.observations)
    requires Coherent(f.exit, f.timeout, f.cancellation, breach, f.failures)
    requires f.availability == OutcomeOf(phase, f.exit, breach, f.failures).1
    ensures ValidationError(phase, OutcomeOf(phase, f.exit, breach, f.failures).0, f).None?
  {
    hide Breaches, TimeoutsAgree, TerminationsEnforced, AllInfrastructure, AnySpawnFailure, AnyTimedOut, AnyCancelled,
         AnyRunnerFailure;
    if f.failures != [] {
      TailFailures(f.failures);
    } else {
      NoFailures();
    }
  }

  // ----- a run is coherent -----

  lemma ReapingIsInfrastructure(r: Reaping)
    ensures AllInfrastructure(ReapingFailures(r)) && (ReapingFailures(r) == [] <==> ReapsCleanly(r))
  {
  }

  lemma SetupFailures(env: Environment)
    ensures var setup := SetupFailure(env.stdoutPipe, Stdout) + SetupFailure(env.stderrPipe, Stderr);
            (setup == [] <==> PipesUp(env)) && forall i :: 0 <= i < |setup| ==> setup[i].OutputCaptureFailure?
  {
  }

  lemma DecisionCoherent(limit: Option<Duration>, p: Poll, r: Reaping, installed: bool, breach: bool)
    requires Decides(limit, p)
    requires breach ==> Decision(limit, p, r, installed).cpuLimited
    ensures var s := Decision(limit, p, r, installed);
            Coherent(s.exit, s.timeout, s.cancellation, breach, s.failures)
  {
  }

  lemma SetupCoherent(limit: Option<Duration>, r: Reaping, setup: seq<Failure>)
    requires setup != [] && forall i :: 0 <= i < |setup| ==> setup[i].OutputCaptureFailure?
    ensures var s := SetupAborted(limit, r, setup);
            Coherent(s.exit, s.timeout, s.cancellation, false, s.failures)
  {
  }

  /** Reader failures come after everything else, so they never change the primary failure. */
  lemma CoherentWithReaders(exit: ProcessExit, timeout: Timeout, cancellation: Cancellation, breach: bool,
        fs: seq<Failure>, more: seq<Failure>)
    requires Coherent(exit, timeout, cancellation, breach, fs)
    requires forall i :: 0 <= i < |more| ==> more[i].OutputCaptureFailure?
    ensures Coherent(exit, timeout, cancellation, breach, fs + more)
  {
  }

  predicate BreachIn(request: Request, env: Environment, s: Supervised) {
    env.spawn.Started? && env.spawn.cpuLimitInstalled && request.limits.cpuTime.Some? && s.cpuLimited
  }

  lemma RunFailures(request: Request, env: Environment)
    ensures var out := OptionalFailure(Drained(env.stdoutPipe, Stdout, request.limits.stdoutBytes).failure);
            var err := OptionalFailure(Drained(env.stderrPipe, Stderr, request.limits.stderrBytes).failure);
            && (forall i :: 0 <= i < |out + err| ==> (out + err)[i].OutputCaptureFailure?)
            && (out + err == [] <==> Drains(env))
  {
  }

  lemma OutcomeCoherent(request: Request, env: Environment, p: Poll)
    requires env.spawn.Started? && Decides(request.limits.timeout, p)
    ensures var s := Supervision(request, env, p);
            Coherent(s.exit, s.timeout, s.cancellation, BreachIn(request, env, s), s.failures)
  {
    hide Decision, SetupAborted, Coherent, SetupFailure, Decides, PipesUp;
    SetupFailures(env);
    var setup := SetupFailure(env.stdoutPipe, Stdout) + SetupFailure(env.stderrPipe, Stderr);
    var s := Supervision(request, env, p);
    if setup == [] {
      DecisionCoherent(request.limits.timeout, p, env.reaping, env.spawn.cpuLimitInstalled, BreachIn(request, env, s));
    } else {
      SetupCoherent(request.limits.timeout, env.reaping, setup);
      NotCpuLimited(request.limits.timeout, env.reaping, setup);
    }
  }

  lemma NotCpuLimited(limit: Option<Duration>, r: Reaping, setup: seq<Failure>)
    ensures !SetupAborted(limit, r, setup).cpuLimited
  {
  }

  /** The result of a started run is coherent and its observations agree with it. */
  lemma RanCoherent(request: Request, env: Environment, p: Poll)
    requires env.spawn.Started? && Decides(request.limits.timeout, p)
    ensures var e := Ran(request, env, p);
            var breach := BreachIn(request, env, Supervision(request, env, p));
            && Coherent(e.processExit, e.timeout, e.cancellation, breach, e.failures)
            && AllFit(e.observations, e.timeout.Triggered?) && Breaches(e.observations) == breach
  {
    hide Supervision, Coherent, Drained, OptionalFailure, Decides, Observations, AllFit, Breaches;
    var s := Supervision(request, env, p);
    var out := Drained(env.stdoutPipe, Stdout, request.limits.stdoutBytes);
    var err := Drained(env.stderrPipe, Stderr, request.limits.stderrBytes);
    OutcomeCoherent(request, env, p);
    RunFailures(request, env);
    CoherentWithReaders(s.exit, s.timeout, s.cancellation, BreachIn(request, env, s), s.failures,
                        OptionalFailure(out.failure) + OptionalFailure(err.failure));
    assert s.failures + OptionalFailure(out.failure) + OptionalFailure(err.failure) ==
           s.failures + (OptionalFailure(out.failure) + OptionalFailure(err.failure));
    RunObservationsFit(request.limits, out.output, err.output, env.duration, s.timeout.Triggered?,
                       if env.spawn.cpuLimitInstalled then Some(s.cpuLimited) else None);
  }

  // ----- the table is right -----

  lemma RanExpected(request: Request, env: Environment, p: Poll)
    requires env.spawn.Started? && Decides(request.limits.timeout, p)
    ensures var e := Ran(request, env, p);
            var breach := BreachIn(request, env, Supervision(request, env, p));
            OutcomeOf(request.phase, e.processExit, breach, e.failures) == Expected(request, env, p)
  {
    hide Drained, OptionalFailure, Observations, ReapingFailures, ReapsCleanly, Drains, SetupFailure, PipesUp;
    SetupFailures(env);
    RunFailures(request, env);
    ReapingIsInfrastructure(env.reaping);
  }

  lemma DrainedBounds(pipe: Pipe, stream: Stream, limit: U64)
    ensures var o := Drained(pipe, stream, limit).output;
            && o.limit == limit && |o.captured| <= limit && |o.captured| <= o.total
            && (o.truncated <==> o.total > |o.captured|)
  {
  }

  predicate GoodReference(r: Option<string>) {
    r.Some? ==> !Blank(r.value) && |Utf8.Encode(r.value)| <= MAX_REFERENCE_BYTES
  }

  lemma ReferencesAccepted(e: ExecutionResult, refs: References)
    requires forall o :: o == e.stdout || o == e.stderr ==>
               |o.captured| <= o.limit && |o.captured| <= o.total && (o.truncated <==> o.total > |o.captured|)
    ensures var r := OutputReferences(e, refs);
            && (r.Ok? <==> GoodReference(refs.stdoutReference) && GoodReference(refs.stderrReference))
            && (r.Ok? ==> CheckReferences(r.value).None?)
  {
    hide Blank;
    var r := OutputReferences(e, refs);
    if r.Ok? { FewReferences(r.value); }
  }

  lemma FewReferences(outputs: seq<OutputReference>)
    requires |outputs| <= 2
    requires forall i :: 0 <= i < |outputs| ==> |Utf8.Encode(outputs[i].reference)| <= MAX_REFERENCE_BYTES
    ensures CheckReferences(outputs).None?
  {
    hide Utf8.Encode;
    if |outputs| > 0 {
      assert ReferenceBytes(outputs[1..]) ==
             if |outputs| == 1 then 0 else |Utf8.Encode(outputs[1].reference)| + ReferenceBytes(outputs[1..][1..]);
      assert |outputs| == 2 ==> outputs[1..][1..] == [];
    }
  }

  lemma ResultOutputs(request: Request, env: Environment, p: Poll)
    requires Decides(request.limits.timeout, p)
    ensures var e := ResultOf(request, env, p);
            forall o :: o == e.stdout || o == e.stderr ==>
              |o.captured| <= o.limit && |o.captured| <= o.total && (o.truncated <==> o.total > |o.captured|)
  {
    hide Drained, Observations, Supervision;
    DrainedBounds(env.stdoutPipe, Stdout, request.limits.stdoutBytes);
    DrainedBounds(env.stderrPipe, Stderr, request.limits.stderrBytes);
  }

  /** A run denied before its start is unavailable and a runner failure. */
  lemma DeniedClassified(request: Request, env: Environment, host: Host, outputs: seq<OutputReference>)
    requires env.spawn.Denied? && Reorders(host.sortObservations)
    ensures var e := NeverRan(request, env);
            && Verdict(e) == Ok((RunnerFailure, Unavailable))
            && ValidationError(request.phase, RunnerFailure, FactsOf(e, host, Unavailable, outputs)).None?
  {
    hide Observations, Breaches, TimeoutsAgree, TerminationsEnforced, BreachOf, Reorders, AllFit;
    var e := NeverRan(request, env);
    RunObservationsFit(request.limits, e.stdout, e.stderr, env.duration, false, None);
    FitsPass(e.observations, false);
    Reordered(host.sortObservations, e.observations);
    SameObservations(e.observations, host.sortObservations(e.observations), false);
    assert e.failures[0].SpawnFailure?;
  }

  lemma StartedClassified(request: Request, env: Environment, p: Poll, host: Host, outputs: seq<OutputReference>)
    requires env.spawn.Started? && Decides(request.limits.timeout, p) && Reorders(host.sortObservations)
    ensures var e := Ran(request, env, p);
            && Verdict(e) == Ok(Expected(request, env, p))
            && ValidationError(request.phase, Expected(request, env, p).0,
                               FactsOf(e, host, Expected(request, env, p).1, outputs)).None?
  {
    hide Observations, Breaches, TimeoutsAgree, TerminationsEnforced, BreachOf, Reorders, AllFit, Supervision,
         Drained, OptionalFailure,
         Coherent, OutcomeOf, Expected, Verdict, ValidationError, Decides;
    var e := Ran(request, env, p);
    var breach := BreachIn(request, env, Supervision(request, env, p));
    RanCoherent(request, env, p);
    RanExpected(request, env, p);
    FitsPass(e.observations, e.timeout.Triggered?);
    Reordered(host.sortObservations, e.observations);
    SameObservations(e.observations, host.sortObservations(e.observations), e.timeout.Triggered?);
    CoherentVerdict(e, breach);
    CoherentAccepted(request.phase, FactsOf(e, host, Expected(request, env, p).1, outputs), breach);
  }

  /** The reference carries this output's counts under this kind and name. */
  predicate RefersTo(r: OutputReference, kind: OutputKind, reference: string, output: BoundedOutput) {
    && r.kind == kind && r.reference == reference
    && r.observed == output.total && r.retained == |output.captured|
    && r.limit == output.limit && r.truncated == output.truncated
  }

  /** One reference for each output that was given one, stdout's carrying stdout's counts and stderr's its own. */
  ghost predicate RefersToOutputs(outputs: seq<OutputReference>, e: ExecutionResult, refs: References) {
    && |outputs| == (if refs.stdoutReference.Some? then 1 else 0) + (if refs.stderrReference.Some? then 1 else 0)
    && (refs.stdoutReference.Some? ==>
          exists i :: 0 <= i < |outputs| && RefersTo(outputs[i], StdoutOutput, refs.stdoutReference.value, e.stdout))
    && (refs.stderrReference.Some? ==>
          exists i :: 0 <= i < |outputs| && RefersTo(outputs[i], StderrOutput, refs.stderrReference.value, e.stderr))
  }

  lemma OutputsRefer(e: ExecutionResult, refs: References, sort: seq<OutputReference> -> seq<OutputReference>)
    requires |e.stdout.captured| <= e.stdout.limit && |e.stderr.captured| <= e.stderr.limit
    requires OutputReferences(e, refs).Ok? && Reorders(sort)
    ensures RefersToOutputs(sort(OutputReferences(e, refs).value), e, refs)
  {
    var outputs := OutputReferences(e, refs).value;
    var sorted := sort(outputs);
    assert |multiset(sorted)| == |sorted| && |multiset(outputs)| == |outputs|;
    if refs.stdoutReference.Some? {
      var i := MultisetElement(outputs, sorted, 0);
      assert RefersTo(sorted[i], StdoutOutput, refs.stdoutReference.value, e.stdout);
    }
    if refs.stderrReference.Some? {
      var i := MultisetElement(outputs, sorted, |outputs| - 1);
      assert RefersTo(sorted[i], StderrOutput, refs.stderrReference.value, e.stderr);
    }
  }

  /** The producer result tells the same run under the given names, with the outputs' own counts. */
  ghost predicate ToldAs(r: ProducerResult, e: ExecutionResult, id: NonBlank, attempt: NonBlank, refs: References,
        host: Host) {
    && r.id == id && r.attempt == attempt && r.phase == e.phase
    && r.candidate == refs.candidate && r.correlation == refs.correlation
    && r.facts.metadata == Metadata(host.operatingSystem, host.architecture, e.processId)
    && r.facts.exit == e.processExit && r.facts.timeout == e.timeout && r.facts.cancellation == e.cancellation
    && r.facts.duration == e.duration && r.facts.failures == e.failures
    && multiset(r.facts.observations) == multiset(e.observations)
    && (Reorders(host.sortOutputs) ==> RefersToOutputs(r.facts.outputs, e, refs))
  }

  lemma ConvertedTells(e: ExecutionResult, id: NonBlank, attempt: NonBlank, refs: References, host: Host)
    requires |e.stdout.captured| <= e.stdout.limit && |e.stderr.captured| <= e.stderr.limit
    requires Convert(e, id, attempt, refs, host).Ok? && Reorders(host.sortObservations)
    ensures ToldAs(Convert(e, id, attempt, refs, host).value, e, id, attempt, refs, host)
  {
    hide Verdict, ValidationError, OutputReferences, CheckReferences, Reorders, RefersToOutputs;
    Reordered(host.sortObservations, e.observations);
    if Reorders(host.sortOutputs) { OutputsRefer(e, refs, host.sortOutputs); }
  }

  /**
   Every run converts exactly when the supplied references are acceptable, and then with the
   outcome and availability of the table: no run contradicts itself.
   */
  lemma EveryRunConverts(request: Request, env: Environment, polls: nat -> Poll, n: nat, id: NonBlank,
        attempt: NonBlank, refs: References, host: Host)
    requires Decides(request.limits.timeout, polls(n)) && Reorders(host.sortObservations)
    ensures var p := polls(FirstDecisive(request.limits.timeout, polls, 0, n));
            var e := ResultOf(request, env, p);
            var r := Convert(e, id, attempt, refs, host);
            && Verdict(e) == Ok(Expected(request, env, p))
            && (r.Ok? <==> GoodReference(refs.stdoutReference) && GoodReference(refs.stderrReference))
            && (r.Ok? ==> r.value.phase == request.phase && r.value.outcome == Expected(request, env, p).0
                          && r.value.facts.availability == Expected(request, env, p).1
                          && ToldAs(r.value, e, id, attempt, refs, host))
            && (r.Err? ==> r.error.InvalidResult? && OutputReferences(e, refs) == Err(r.error.error))
  {
    hide Verdict, ValidationError, Expected, Ran, NeverRan, OutputReferences, CheckReferences, GoodReference,
         FirstDecisive, Reorders, Decides, ToldAs;
    var p := polls(FirstDecisive(request.limits.timeout, polls, 0, n));
    var e := ResultOf(request, env, p);
    ResultOutputs(request, env, p);
    if Convert(e, id, attempt, refs, host).Ok? { ConvertedTells(e, id, attempt, refs, host); }
    ReferencesAccepted(e, refs);
    var outputs := if OutputReferences(e, refs).Ok? then OutputReferences(e, refs).value else [];
    PhaseOfResult(request, env, p);
    if env.spawn.Denied? {
      DeniedClassified(request, env, host, outputs);
      DeniedExpected(request, env, p);
    } else {
      StartedClassified(request, env, p, host, outputs);
    }
  }

  lemma DeniedExpected(request: Request, env: Environment, p: Poll)
    requires env.spawn.Denied? && Decides(request.limits.timeout, p)
    ensures Expected(request, env, p) == (RunnerFailure, Unavailable)
  {
  }

  lemma PhaseOfResult(request: Request, env: Environment, p: Poll)
    requires Decides(request.limits.timeout, p)
    ensures ResultOf(request, env, p).phase == request.phase
  {
  }
}
