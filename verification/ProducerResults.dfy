/**
 Producer results and the validator that accepts them (worker/src/producer_result.rs): at most
 one outcome is accepted for the same phase and facts, whatever the order of the observations.
 */
module ProducerResults {
  import opened Prelude
  import opened WorkerModel
  import Utf8

  datatype Availability = Complete | Incomplete | Unavailable

  datatype OutputKind = StdoutOutput | StderrOutput | LogOutput | ProducedArtefact | Diagnostic

  datatype OutputReference = OutputReference(kind: OutputKind, reference: string, observed: U64, retained: U64,
                                             limit: U64, truncated: bool)

  datatype Metadata = Metadata(operatingSystem: string, architecture: string, processId: Option<U64>)

  datatype Facts = Facts(
    metadata: Metadata, exit: ProcessExit, timeout: Timeout, cancellation: Cancellation, duration: Duration,
    availability: Availability, observations: seq<Observation>, failures: seq<Failure>, outputs: seq<OutputReference>)

  datatype Outcome =
    | Success | CompilationFailure | TestFailure
    | TimeoutOutcome | CancellationOutcome | ResourceBreach | RunnerFailure

  datatype Contradiction =
    | ManyTerminalFacts | TimeoutObservationContradicts | UnenforcedTermination
    | ProcessIdentity | SpawnNotSole | PrimaryFailure
    | TerminalClassification | TimeoutTermination | CancellationTermination | OutcomeContradicts | UnavailableStarted

  datatype InvalidOutput =
    | ReferenceTooLong | RetainedOverLimit | RetainedOverObserved
    | TruncationContradicts | TooManyReferences | ReferencesTooLong

  datatype ResultError =
    | EmptyValue
    | InvalidReference(output: InvalidOutput)
    | PhaseOutcomeMismatch
    | Contradictory(reason: Contradiction)

  const MAX_REFERENCE_BYTES := 4 * 1024
  const MAX_OUTPUT_REFERENCES := 128
  const MAX_OUTPUT_REFERENCE_METADATA_BYTES := 64 * 1024

  /** The Unicode White_Space property, which trimming removes. */
  predicate WhiteSpace(c: char) {
    var n: int := c as int;
    9 <= n <= 13 || n == 0x20 || n == 0x85 || n == 0xA0 || n == 0x1680 || 0x2000 <= n <= 0x200A
    || n == 0x2028 || n == 0x2029 || n == 0x202F || n == 0x205F || n == 0x3000
  }

  predicate Blank(s: string) {
    forall i :: 0 <= i < |s| ==> WhiteSpace(s[i])
  }

  type NonBlank = s: string | !Blank(s) witness NonBlankWitness()

  function NonBlankWitness(): (s: string)
    ensures !Blank(s)
  {
    assert !WhiteSpace("x"[0]);
    "x"
  }

  function NewReference(kind: OutputKind, reference: string, observed: U64, retained: U64, limit: U64,
        truncated: bool): Result<OutputReference, ResultError> {
    if Blank(reference) then Err(EmptyValue)
    else if |Utf8.Encode(reference)| > MAX_REFERENCE_BYTES then Err(InvalidReference(ReferenceTooLong))
    else if retained > limit then Err(InvalidReference(RetainedOverLimit))
    else if retained > observed then Err(InvalidReference(RetainedOverObserved))
    else if truncated != (observed > retained) then Err(InvalidReference(TruncationContradicts))
    else Ok(OutputReference(kind, reference, observed, retained, limit, truncated))
  }

  function ReferenceBytes(outputs: seq<OutputReference>): nat {
    if outputs == [] then 0 else |Utf8.Encode(outputs[0].reference)| + ReferenceBytes(outputs[1..])
  }

  function CheckReferences(outputs: seq<OutputReference>): Option<ResultError> {
    if |outputs| > MAX_OUTPUT_REFERENCES then Some(InvalidReference(TooManyReferences))
    else if ReferenceBytes(outputs) > MAX_OUTPUT_REFERENCE_METADATA_BYTES then Some(InvalidReference(ReferencesTooLong))
    else None
  }

  // ----- what the validator looks at -----

  predicate Breaches(observations: seq<Observation>) {
    exists i :: 0 <= i < |observations| && observations[i].terminated && observations[i].kind != TimeoutLimit
  }

  predicate TimeoutsAgree(observations: seq<Observation>, triggered: bool) {
    forall i :: 0 <= i < |observations| && observations[i].kind == TimeoutLimit ==>
         observations[i].terminated == triggered
  }

  predicate TerminationsEnforced(observations: seq<Observation>) {
    forall i :: 0 <= i < |observations| && observations[i].terminated ==>
      observations[i].enforcement != NotEnforced && observations[i].enforcement != CaptureBoundEnforced
  }

  function Count(a: bool, b: bool, c: bool): nat {
    (if a then 1 else 0) + (if b then 1 else 0) + (if c then 1 else 0)
  }

  predicate AnySpawnFailure(failures: seq<Failure>) {
    exists i :: 0 <= i < |failures| && failures[i].SpawnFailure?
  }

  predicate AnyTimedOut(failures: seq<Failure>) {
    exists i :: 0 <= i < |failures| && failures[i].TimedOut?
  }

  predicate AnyCancelled(failures: seq<Failure>) {
    exists i :: 0 <= i < |failures| && failures[i].Cancelled?
  }

  predicate RunnerSide(f: Failure) {
    !f.NonZeroExit? && !f.TimedOut? && !f.Cancelled?
  }

  predicate AnyRunnerFailure(failures: seq<Failure>) {
    exists i :: 0 <= i < |failures| && RunnerSide(failures[i])
  }

  predicate NonZeroMatches(exit: ProcessExit, failures: seq<Failure>) {
    && failures != [] && failures[0].NonZeroExit?
    && match exit
       case ExitedWithCode(code) => failures[0].code == Some(code) && code != 0
       case ExitedWithoutCode => failures[0].code == None
       case _ => false
  }

  predicate Killed(exit: ProcessExit, reason: Termination) {
    exit.TerminatedBySupervisor? && exit.reason == reason
  }

  predicate PrimaryCompatible(exit: ProcessExit, failures: seq<Failure>) {
    failures == [] ||
    match failures[0]
    case SpawnFailure(_) => false
    case NonZeroExit(_) => NonZeroMatches(exit, failures)
    case TimedOut => Killed(exit, ByTimeout)
    case Cancelled => Killed(exit, ByCancellation)
    case WaitFailure(_) => Killed(exit, ByWaitFailure)
    case OutputCaptureFailure(_, _, _) => exit == ExitedWithCode(0) || Killed(exit, ByOutputCaptureFailure)
    case TerminationFailure(_) => false
  }

  function PrimaryFailureError(started: bool, exit: ProcessExit, failures: seq<Failure>): Option<Contradiction> {
    if exit.NeverStarted? == started then Some(ProcessIdentity)
    else if AnySpawnFailure(failures) then
      if |failures| == 1 && exit.NeverStarted? && !started then None else Some(SpawnNotSole)
    else if PrimaryCompatible(exit, failures) then None
    else Some(PrimaryFailure)
  }

  /** What an outcome claims about the facts. */
  predicate OutcomeFits(outcome: Outcome, f: Facts, breach: bool) {
    var triggered := f.timeout.Triggered?;
    var selected := f.cancellation.Selected?;
    match outcome
    case Success =>
      && f.exit == ExitedWithCode(0) && f.failures == [] && !triggered && !selected && !breach
      && f.availability == Complete
    case CompilationFailure =>
      NonZeroMatches(f.exit, f.failures) && !AnyRunnerFailure(f.failures) && !triggered && !selected && !breach
    case TestFailure =>
      NonZeroMatches(f.exit, f.failures) && !AnyRunnerFailure(f.failures) && !triggered && !selected && !breach
    case TimeoutOutcome => triggered && Killed(f.exit, ByTimeout) && f.failures != [] && f.failures[0].TimedOut?
    case CancellationOutcome =>
      selected && Killed(f.exit, ByCancellation) && f.failures != [] && f.failures[0].Cancelled?
    case ResourceBreach => breach && NonZeroMatches(f.exit, f.failures)
    case RunnerFailure => AnyRunnerFailure(f.failures) && !triggered && !selected && !breach
  }

  predicate PhaseAllows(phase: Phase, outcome: Outcome) {
    (outcome == CompilationFailure ==> phase == Compile) && (outcome == TestFailure ==> phase != Compile)
  }

  /** The first reason, in the validator's order, to refuse the outcome. */
  function ValidationError(phase: Phase, outcome: Outcome, f: Facts): Option<ResultError> {
    if !PhaseAllows(phase, outcome) then Some(PhaseOutcomeMismatch)
    else
      var triggered := f.timeout.Triggered?;
      var selected := f.cancellation.Selected?;
      var breach := Breaches(f.observations);
      if Count(triggered, selected, breach) > 1 then Some(Contradictory(ManyTerminalFacts))
      else if !TimeoutsAgree(f.observations, triggered) then Some(Contradictory(TimeoutObservationContradicts))
      else if !TerminationsEnforced(f.observations) then Some(Contradictory(UnenforcedTermination))
      else if PrimaryFailureError(f.metadata.processId.Some?, f.exit, f.failures).Some? then
        Some(Contradictory(PrimaryFailureError(f.metadata.processId.Some?, f.exit, f.failures).value))
      else if AnyTimedOut(f.failures) != triggered || AnyCancelled(f.failures) != selected
      then Some(Contradictory(TerminalClassification))
      else if Killed(f.exit, ByTimeout) && !triggered then Some(Contradictory(TimeoutTermination))
      else if Killed(f.exit, ByCancellation) && !selected then Some(Contradictory(CancellationTermination))
      else if !OutcomeFits(outcome, f, breach) then Some(Contradictory(OutcomeContradicts))
      else if f.availability == Unavailable && !f.exit.NeverStarted? then Some(Contradictory(UnavailableStarted))
      else None
  }

  datatype ProducerResult = ProducerResult(
    id: NonBlank, attempt: NonBlank, phase: Phase, candidate: Option<NonBlank>,
    correlation: Option<NonBlank>, outcome: Outcome, facts: Facts)

  function NewResult(id: NonBlank, attempt: NonBlank, phase: Phase, outcome: Outcome,
        facts: Facts): Result<ProducerResult, ResultError> {
    if ValidationError(phase, outcome, facts).Some? then Err(ValidationError(phase, outcome, facts).value)
    else Ok(ProducerResult(id, attempt, phase, None, None, outcome, facts))
  }

  // ----- the outcome is determined -----

  /** For a phase and facts the validator accepts at most one outcome. */
  lemma AtMostOneOutcome(phase: Phase, facts: Facts, a: Outcome, b: Outcome)
    requires ValidationError(phase, a, facts).None? && ValidationError(phase, b, facts).None?
    ensures a == b
  {
  }

  // ----- what the validator does not look at -----

  /** Two failures of the same kind, which may differ in error kinds and messages. */
  predicate SameKind(f: Failure, g: Failure) {
    match f
    case SpawnFailure(_) => g.SpawnFailure?
    case NonZeroExit(code) => g == NonZeroExit(code)
    case TimedOut => g == TimedOut
    case Cancelled => g == Cancelled
    case WaitFailure(_) => g.WaitFailure?
    case OutputCaptureFailure(stream, _, _) => g.OutputCaptureFailure? && g.stream == stream
    case TerminationFailure(_) => g.TerminationFailure?
  }

  ghost predicate SameKinds(fs: seq<Failure>, gs: seq<Failure>) {
    |fs| == |gs| && forall i :: 0 <= i < |fs| ==> SameKind(fs[i], gs[i])
  }

  /** The same run told twice: up to error kinds, messages, host names, outputs and the order of the observations. */
  ghost predicate SameFacts(f: Facts, g: Facts) {
    && f.metadata.processId.Some? == g.metadata.processId.Some?
    && f.exit == g.exit && f.timeout == g.timeout && f.cancellation == g.cancellation
    && f.availability == g.availability
    && multiset(f.observations) == multiset(g.observations)
    && SameKinds(f.failures, g.failures)
  }

  lemma MultisetElement<T>(s: seq<T>, t: seq<T>, i: nat) returns (j: nat)
    requires multiset(s) == multiset(t) && i < |s|
    ensures j < |t| && t[j] == s[i]
  {
    assert s[i] in multiset(t);
    j :| 0 <= j < |t| && t[j] == s[i];
  }

  lemma ReorderedObservations(s: seq<Observation>, t: seq<Observation>, triggered: bool)
    requires multiset(s) == multiset(t)
    ensures Breaches(s) ==> Breaches(t)
    ensures TimeoutsAgree(t, triggered) ==> TimeoutsAgree(s, triggered)
    ensures TerminationsEnforced(t) ==> TerminationsEnforced(s)
  {
    forall i | 0 <= i < |s| ensures exists j :: 0 <= j < |t| && t[j] == s[i] {
      var j := MultisetElement(s, t, i);
    }
  }

  lemma SameObservations(s: seq<Observation>, t: seq<Observation>, triggered: bool)
    requires multiset(s) == multiset(t)
    ensures Breaches(s) == Breaches(t)
    ensures TimeoutsAgree(s, triggered) == TimeoutsAgree(t, triggered)
    ensures TerminationsEnforced(s) == TerminationsEnforced(t)
  {
    hide Breaches, TimeoutsAgree, TerminationsEnforced;
    ReorderedObservations(s, t, triggered);
    ReorderedObservations(t, s, triggered);
  }

  lemma SameFailures(exit: ProcessExit, fs: seq<Failure>, gs: seq<Failure>)
    requires SameKinds(fs, gs)
    ensures AnySpawnFailure(fs) == AnySpawnFailure(gs) && AnyTimedOut(fs) == AnyTimedOut(gs)
    ensures AnyCancelled(fs) == AnyCancelled(gs)
    ensures AnyRunnerFailure(fs) == AnyRunnerFailure(gs)
    ensures NonZeroMatches(exit, fs) == NonZeroMatches(exit, gs)
    ensures PrimaryCompatible(exit, fs) == PrimaryCompatible(exit, gs)
  {
  }

  /** The validator gives the same answer, error included, for the same run told twice. */
  lemma ValidationIgnoresTelling(phase: Phase, outcome: Outcome, f: Facts, g: Facts)
    requires SameFacts(f, g)
    ensures ValidationError(phase, outcome, f) == ValidationError(phase, outcome, g)
  {
    hide Breaches, TimeoutsAgree, TerminationsEnforced, AnySpawnFailure, AnyTimedOut, AnyCancelled, AnyRunnerFailure,
         NonZeroMatches, PrimaryCompatible;
    SameObservations(f.observations, g.observations, f.timeout.Triggered?);
    SameFailures(f.exit, f.failures, g.failures);
  }
}
