/**
 Conversion of an execution result into a producer result (worker/src/producer_result_adapter.rs).
 The adapter classifies on its own and then asks the validator; here the two are proved to
 agree, and every supervised run is proved to convert.
 */
module ResultAdapter {
  import opened Prelude
  import opened WorkerModel
  import opened OutputCapture
  import opened Supervisor
  import opened ProducerResults
  import Utf8

  datatype Reason =
    | BreachNotEnforced | ExitContradictsIdentity | IncompatibleTerminalFacts
    | TimeoutLacksTermination | CancellationLacksTermination
    | BreachContradictsExit | SpawnFailureNotSole | TerminationFailurePrimary | Undetermined

  datatype ConversionError = ContradictoryFacts(reason: Reason) | InvalidResult(error: ResultError)

  datatype References = References(
    candidate: Option<NonBlank>, correlation: Option<NonBlank>,
    stdoutReference: Option<string>, stderrReference: Option<string>)

  // ----- classification -----

  predicate Terminates(o: Observation) {
    o.terminated && o.kind != TimeoutLimit
  }

  /** Whether a runtime limit ended the run; an unenforced terminating observation is a contradiction. */
  function BreachOf(observations: seq<Observation>): Result<bool, ConversionError> {
    if observations == [] then Ok(false)
    else
      var first := observations[0];
      var rest := BreachOf(observations[1..]);
      if !Terminates(first) then rest
      else if first.enforcement != RuntimeLimitEnforced then Err(ContradictoryFacts(BreachNotEnforced))
      else if rest.Err? then rest
      else Ok(true)
  }

  method ClassifyResourceBreach(observations: seq<Observation>) returns (r: Result<bool, ConversionError>)
    ensures r == BreachOf(observations)
  {
    var breach := false;
    var i := 0;
    BreachIsBreaches(observations);
    assert observations[0..] == observations;
    while i < |observations|
      invariant 0 <= i <= |observations|
      invariant BreachOf(observations).Err? == BreachOf(observations[i..]).Err?
      invariant BreachOf(observations) == Err(ContradictoryFacts(BreachNotEnforced)) || BreachOf(observations).Ok?
      invariant BreachOf(observations).Ok? ==>
                BreachOf(observations).value == (breach || BreachOf(observations[i..]).value)
    {
      assert observations[i..][1..] == observations[i + 1..];
      if Terminates(observations[i]) {
        if observations[i].enforcement == RuntimeLimitEnforced { breach := true; }
        else { return Err(ContradictoryFacts(BreachNotEnforced)); }
      }
      i := i + 1;
    }
    return Ok(breach);
  }

  /** A breach the adapter finds is one the validator sees, and the other way round. */
  lemma {:induction false} BreachIsBreaches(observations: seq<Observation>)
    ensures BreachOf(observations).Ok? <==>
              forall i :: 0 <= i < |observations| && Terminates(observations[i]) ==>
                   observations[i].enforcement == RuntimeLimitEnforced
    ensures BreachOf(observations).Ok? ==> BreachOf(observations).value == Breaches(observations)
    ensures BreachOf(observations).Err? ==> BreachOf(observations).error == ContradictoryFacts(BreachNotEnforced)
  {
    if observations != [] {
      var rest := observations[1..];
      BreachIsBreaches(rest);
      assert forall i :: 0 <= i < |rest| ==> rest[i] == observations[i + 1];
      assert forall i :: 1 <= i < |observations| ==> observations[i] == rest[i - 1];
    }
  }

  predicate TerminalShape(e: ExecutionResult, expected: Termination) {
    && Killed(e.processExit, expected) && e.failures != []
    && ((expected == ByTimeout && e.failures[0].TimedOut?) || (expected == ByCancellation && e.failures[0].Cancelled?))
  }

  function Incoherence(e: ExecutionResult, breach: bool): Option<Reason> {
    var triggered, selected := e.timeout.Triggered?, e.cancellation.Selected?;
    if e.processExit.NeverStarted? == e.processId.Some? then Some(ExitContradictsIdentity)
    else if Count(triggered, selected, breach) > 1 then Some(IncompatibleTerminalFacts)
    else if triggered && !TerminalShape(e, ByTimeout) then Some(TimeoutLacksTermination)
    else if selected && !TerminalShape(e, ByCancellation) then Some(CancellationLacksTermination)
    else if breach && !NonZeroMatches(e.processExit, e.failures) then Some(BreachContradictsExit)
    else None
  }

  predicate Infrastructure(f: Failure) {
    f.WaitFailure? || f.OutputCaptureFailure? || f.TerminationFailure?
  }

  predicate AnyInfrastructure(failures: seq<Failure>) {
    exists i :: 0 <= i < |failures| && Infrastructure(failures[i])
  }

  function StartedAvailability(e: ExecutionResult): Availability {
    if AnyInfrastructure(e.failures) then Incomplete else Complete
  }

  function PhaseFailure(phase: Phase): Outcome {
    if phase == Compile then CompilationFailure else TestFailure
  }

  function Classify(e: ExecutionResult, breach: bool): Result<(Outcome, Availability), Reason> {
    if AnySpawnFailure(e.failures) then
      if |e.failures| != 1 then Err(SpawnFailureNotSole) else Ok((RunnerFailure, Unavailable))
    else if e.timeout.Triggered? then Ok((TimeoutOutcome, StartedAvailability(e)))
    else if e.cancellation.Selected? then Ok((CancellationOutcome, StartedAvailability(e)))
    else if breach then Ok((ResourceBreach, StartedAvailability(e)))
    else if AnyInfrastructure(e.failures) then
      if e.failures != [] && e.failures[0].TerminationFailure?
      then Err(TerminationFailurePrimary)
      else Ok((RunnerFailure, Incomplete))
    else if e.processExit == ExitedWithCode(0) && e.failures == [] then Ok((Success, Complete))
    else if e.failures != [] && e.failures[0].NonZeroExit? && NonZeroMatches(e.processExit, e.failures)
    then Ok((PhaseFailure(e.phase), Complete))
    else Err(Undetermined)
  }

  /** The adapter's verdict before the validator is asked. */
  function Verdict(e: ExecutionResult): Result<(Outcome, Availability), ConversionError> {
    var breach := BreachOf(e.observations);
    if breach.Err? then Err(breach.error)
    else if Incoherence(e, breach.value).Some? then Err(ContradictoryFacts(Incoherence(e, breach.value).value))
    else
      var c := Classify(e, breach.value);
      if c.Err? then Err(ContradictoryFacts(c.error)) else Ok(c.value)
  }

  // ----- output references -----

  function ReferenceTo(kind: OutputKind, reference: string,
        output: BoundedOutput): Result<OutputReference, ResultError> {
    NewReference(kind, reference, output.total, Min(|output.captured|, U64_MAX), output.limit, output.truncated)
  }

  function OutputReferences(e: ExecutionResult, refs: References): Result<seq<OutputReference>, ResultError> {
    var out: Result<seq<OutputReference>, ResultError> :=
      if refs.stdoutReference.None? then Ok([])
      else
        var r := ReferenceTo(StdoutOutput, refs.stdoutReference.value, e.stdout);
        if r.Err? then Err(r.error) else Ok([r.value]);
    if out.Err? || refs.stderrReference.None? then out
    else
      var r := ReferenceTo(StderrOutput, refs.stderrReference.value, e.stderr);
      if r.Err? then Err(r.error) else Ok(out.value + [r.value])
  }

  // ----- conversion -----

  /** The order a sort imposes is not part of the result's meaning: any reordering will do. */
  ghost predicate Reorders<T(!new)>(sort: seq<T> -> seq<T>) {
    forall s :: multiset(sort(s)) == multiset(s)
  }

  /** The host the worker runs on and the orders it sorts by. */
  datatype Host = Host(
    operatingSystem: string, architecture: string, sortObservations: seq<Observation> -> seq<Observation>,
    sortOutputs: seq<OutputReference> -> seq<OutputReference>)

  function FactsOf(e: ExecutionResult, host: Host, availability: Availability, outputs: seq<OutputReference>): Facts {
    Facts(Metadata(host.operatingSystem, host.architecture, e.processId), e.processExit, e.timeout, e.cancellation,
          e.duration,
          availability, host.sortObservations(e.observations), e.failures, host.sortOutputs(outputs))
  }

  function Convert(e: ExecutionResult, id: NonBlank, attempt: NonBlank, refs: References,
        host: Host): Result<ProducerResult, ConversionError> {
    var v := Verdict(e);
    if v.Err? then Err(v.error)
    else
      var outputs := OutputReferences(e, refs);
      if outputs.Err? then Err(InvalidResult(outputs.error))
      else if CheckReferences(outputs.value).Some? then Err(InvalidResult(CheckReferences(outputs.value).value))
      else
        var r := NewResult(id, attempt, e.phase, v.value.0, FactsOf(e, host, v.value.1, outputs.value));
        if r.Err?
        then Err(InvalidResult(r.error))
        else Ok(r.value.(candidate := refs.candidate, correlation := refs.correlation))
  }

  // ----- the adapter and the validator agree -----

  /** The validator never accepts another outcome than the one the adapter determined, whatever the availability. */
  lemma ClassificationsAgree(e: ExecutionResult, host: Host, availability: Availability, outputs: seq<OutputReference>,
        outcome: Outcome)
    requires Reorders(host.sortObservations)
    requires Verdict(e).Ok? && ValidationError(e.phase, outcome, FactsOf(e, host, availability, outputs)).None?
    ensures outcome == Verdict(e).value.0
  {
    hide Breaches, TimeoutsAgree, TerminationsEnforced, BreachOf, Reorders;
    BreachIsBreaches(e.observations);
    Reordered(host.sortObservations, e.observations);
    SameObservations(e.observations, host.sortObservations(e.observations), e.timeout.Triggered?);
  }

  lemma Reordered(sort: seq<Observation> -> seq<Observation>, s: seq<Observation>)
    requires Reorders(sort)
    ensures multiset(sort(s)) == multiset(s)
  {
  }
}
