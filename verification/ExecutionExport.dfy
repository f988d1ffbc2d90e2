/**
 The versioned export of a producer result (worker/src/execution_export.rs): the wire form
 forgets messages, error kinds it has no name for and host names, and is validated again
 from scratch. A result that was accepted once is accepted again.
 */
module ExecutionExport {
  import opened Prelude
  import opened WorkerModel
  import opened ProducerResults
  import opened ResultAdapter
  import opened SupervisedResults
  import opened Supervisor
  import Utf8

  const EXECUTION_EXPORT_VERSION := "testgap.execution-export.v1"
  const NANOS: nat := 1_000_000_000

  // ----- the wire form -----

  datatype ExactDuration = ExactDuration(seconds: nat, nanoseconds: nat)

  datatype WireTimeout =
    | WireNotConfigured
    | WireNotTriggered(limit: ExactDuration)
    | WireTriggered(limit: ExactDuration)

  datatype WireErrorKind = NamedKind(index: nat) | Uncategorized

  datatype WireFailure =
    | WireSpawnFailure(kind: WireErrorKind)
    | WireNonZeroExit(code: Option<int>)
    | WireTimedOut
    | WireCancelled
    | WireWaitFailure(kind: WireErrorKind)
    | WireOutputCaptureFailure(stream: Stream, outputKind: Option<WireErrorKind>)
    | WireTerminationFailure(kind: WireErrorKind)

  datatype WireValue =
    | WireDuration(duration: ExactDuration)
    | WireBytes(bytes: U64)
    | WireCount(count: U64)
    | WireCustom(value: U64, unit: string)

  datatype WireObservation = WireObservation(
    kind: LimitKind, configured: WireValue, observed: Option<WireValue>, enforcement: Enforcement,
    terminated: bool, truncated: Option<bool>)

  datatype WireSummary = JUnit(testsRun: U64, failures: U64) | Defects4J(failingTestCount: U64)

  datatype WireFacts = WireFacts(
    metadata: Metadata, exit: ProcessExit, timeout: WireTimeout, cancellation: Cancellation, duration: ExactDuration,
    availability: Availability, observations: seq<WireObservation>, failures: seq<WireFailure>,
    outputs: seq<OutputReference>)

  datatype Export = Export(
    version: string, id: string, attempt: string, phase: Phase, candidate: Option<string>, correlation: Option<string>,
    outcome: Outcome, summary: Option<WireSummary>, facts: WireFacts)

  datatype ExportError =
    | UnsupportedVersion | EmptyIdentity | EmptyReference | SummaryOnCompile | FailuresExceedRun | NanosecondsOutOfRange
    | ReferencesOutOfBounds | InvalidReferenceMetadata | ContradictsResult

  // ----- to the wire -----

  function ToExact(d: Duration): ExactDuration {
    ExactDuration(d / NANOS, d % NANOS)
  }

  function ToWireTimeout(t: Timeout): WireTimeout {
    match t
    case NotConfigured => WireNotConfigured
    case NotTriggered(limit) => WireNotTriggered(ToExact(limit))
    case Triggered(limit) => WireTriggered(ToExact(limit))
  }

  function ToWireKind(k: ErrorKind): WireErrorKind {
    if k.Listed? then NamedKind(k.index) else Uncategorized
  }

  function ToWireFailure(f: Failure): WireFailure {
    match f
    case SpawnFailure(error) => WireSpawnFailure(ToWireKind(error.kind))
    case NonZeroExit(code) => WireNonZeroExit(code)
    case TimedOut => WireTimedOut
    case Cancelled => WireCancelled
    case WaitFailure(error) => WireWaitFailure(ToWireKind(error.kind))
    case OutputCaptureFailure(stream, kind, _) =>
      WireOutputCaptureFailure(stream, if kind.Some? then Some(ToWireKind(kind.value)) else None)
    case TerminationFailure(error) => WireTerminationFailure(ToWireKind(error.kind))
  }

  function ToWireFailures(fs: seq<Failure>): (r: seq<WireFailure>)
    ensures |r| == |fs| && forall i :: 0 <= i < |fs| ==> r[i] == ToWireFailure(fs[i])
  {
    if fs == [] then [] else [ToWireFailure(fs[0])] + ToWireFailures(fs[1..])
  }

  function ToWireValue(v: LimitValue): WireValue {
    match v
    case DurationValue(d) => WireDuration(ToExact(d))
    case BytesValue(n) => WireBytes(n)
    case CountValue(n) => WireCount(n)
    case CustomValue(n, unit) => WireCustom(n, unit)
  }

  function ToWireObservation(o: Observation): WireObservation {
    WireObservation(o.kind, ToWireValue(o.configured),
                    if o.observed.Some? then Some(ToWireValue(o.observed.value)) else None,
                    o.enforcement, o.terminated, o.truncated)
  }

  function ToWireObservations(os: seq<Observation>): (r: seq<WireObservation>)
    ensures |r| == |os| && forall i :: 0 <= i < |os| ==> r[i] == ToWireObservation(os[i])
  {
    if os == [] then [] else [ToWireObservation(os[0])] + ToWireObservations(os[1..])
  }

  function ToWire(f: Facts): WireFacts {
    WireFacts(f.metadata, f.exit, ToWireTimeout(f.timeout), f.cancellation, ToExact(f.duration), f.availability,
              ToWireObservations(f.observations), ToWireFailures(f.failures), f.outputs)
  }

  // ----- from the wire -----

  function FromExact(d: ExactDuration): Option<Duration> {
    if d.nanoseconds >= NANOS then None else Some(d.seconds * NANOS + d.nanoseconds)
  }

  function FromWireTimeout(t: WireTimeout): Option<Timeout> {
    match t
    case WireNotConfigured => Some(NotConfigured)
    case WireNotTriggered(limit) => if FromExact(limit).None? then None else Some(NotTriggered(FromExact(limit).value))
    case WireTriggered(limit) => if FromExact(limit).None? then None else Some(Triggered(FromExact(limit).value))
  }

  /** The kind and message the wire does not carry are replaced by fixed ones. */
  const ERASED: IoError := IoError(Listed(0), "")

  function FromWireFailure(f: WireFailure): Failure {
    match f
    case WireSpawnFailure(_) => SpawnFailure(ERASED)
    case WireNonZeroExit(code) => NonZeroExit(code)
    case WireTimedOut => TimedOut
    case WireCancelled => Cancelled
    case WireWaitFailure(_) => WaitFailure(ERASED)
    case WireOutputCaptureFailure(stream, _) => OutputCaptureFailure(stream, None, "")
    case WireTerminationFailure(_) => TerminationFailure(ERASED)
  }

  function FromWireFailures(fs: seq<WireFailure>): (r: seq<Failure>)
    ensures |r| == |fs| && forall i :: 0 <= i < |fs| ==> r[i] == FromWireFailure(fs[i])
  {
    if fs == [] then [] else [FromWireFailure(fs[0])] + FromWireFailures(fs[1..])
  }

  function FromWireValue(v: WireValue): Option<LimitValue> {
    match v
    case WireDuration(d) => if FromExact(d).None? then None else Some(DurationValue(FromExact(d).value))
    case WireBytes(n) => Some(BytesValue(n))
    case WireCount(n) => Some(CountValue(n))
    case WireCustom(n, unit) => Some(CustomValue(n, unit))
  }

  function FromWireObservation(o: WireObservation): Option<Observation> {
    var configured := FromWireValue(o.configured);
    if configured.None? then None
    else if o.observed.None?
    then Some(Observation(o.kind, configured.value, None, o.enforcement, o.terminated, o.truncated))
    else
      var observed := FromWireValue(o.observed.value);
      if observed.None?
      then None
      else Some(Observation(o.kind, configured.value, observed, o.enforcement, o.terminated, o.truncated))
  }

  function FromWireObservations(os: seq<WireObservation>): Option<seq<Observation>> {
    if os == [] then Some([])
    else
      var first, rest := FromWireObservation(os[0]), FromWireObservations(os[1..]);
      if first.None? || rest.None? then None else Some([first.value] + rest.value)
  }

  /** The facts the wire form is validated as: the host is not named and the output references are checked apart. */
  function FromWire(w: WireFacts, sort: seq<Observation> -> seq<Observation>): Option<Facts> {
    var observations := FromWireObservations(w.observations);
    var timeout := FromWireTimeout(w.timeout);
    var duration := FromExact(w.duration);
    if observations.None? || timeout.None? || duration.None? then None
    else Some(Facts(Metadata("", "", w.metadata.processId), w.exit, timeout.value, w.cancellation, duration.value,
                    w.availability,
                    sort(observations.value), FromWireFailures(w.failures), []))
  }

  // ----- validation -----

  predicate BadReference(r: OutputReference) {
    || Blank(r.reference) || |Utf8.Encode(r.reference)| > MAX_REFERENCE_BYTES
    || r.retained > r.limit || r.retained > r.observed
    || r.truncated != (r.observed > r.retained)
  }

  function OutputsError(outputs: seq<OutputReference>): Option<ExportError> {
    if CheckReferences(outputs).Some? then Some(ReferencesOutOfBounds)
    else if exists i :: 0 <= i < |outputs| && BadReference(outputs[i]) then Some(InvalidReferenceMetadata)
    else None
  }

  predicate BlankOption(s: Option<string>) {
    s.Some? && Blank(s.value)
  }

  function ExportInvalid(e: Export, sort: seq<Observation> -> seq<Observation>): Option<ExportError> {
    if e.version != EXECUTION_EXPORT_VERSION then Some(UnsupportedVersion)
    else if Blank(e.id) || Blank(e.attempt) then Some(EmptyIdentity)
    else if BlankOption(e.candidate) || BlankOption(e.correlation) then Some(EmptyReference)
    else if e.phase == Compile && e.summary.Some? then Some(SummaryOnCompile)
    else if e.summary.Some? && e.summary.value.JUnit? && e.summary.value.testsRun < e.summary.value.failures
    then Some(FailuresExceedRun)
    else if e.facts.duration.nanoseconds >= NANOS then Some(NanosecondsOutOfRange)
    else if OutputsError(e.facts.outputs).Some? then OutputsError(e.facts.outputs)
    else
      var facts := FromWire(e.facts, sort);
      if facts.None? then Some(NanosecondsOutOfRange)
      else if ValidationError(e.phase, e.outcome, facts.value).Some? then Some(ContradictsResult)
      else None
  }

  function FromResult(r: ProducerResult, summary: Option<WireSummary>,
        sort: seq<Observation> -> seq<Observation>): Result<Export, ExportError> {
    var e := Export(EXECUTION_EXPORT_VERSION, r.id, r.attempt, r.phase, r.candidate, r.correlation, r.outcome, summary,
                    ToWire(r.facts));
    if ExportInvalid(e, sort).Some? then Err(ExportInvalid(e, sort).value) else Ok(e)
  }

  // ----- round trips -----

  lemma DurationRoundTrip(d: Duration)
    ensures ToExact(d).nanoseconds < NANOS && FromExact(ToExact(d)) == Some(d)
  {
  }

  lemma TimeoutRoundTrip(t: Timeout)
    ensures FromWireTimeout(ToWireTimeout(t)) == Some(t)
  {
  }

  lemma ObservationRoundTrip(o: Observation)
    ensures FromWireObservation(ToWireObservation(o)) == Some(o)
  {
  }

  lemma {:induction false} ObservationsRoundTrip(os: seq<Observation>)
    ensures FromWireObservations(ToWireObservations(os)) == Some(os)
  {
    hide ToWireObservation, FromWireObservation;
    if os != [] {
      ObservationRoundTrip(os[0]);
      ObservationsRoundTrip(os[1..]);
      assert ToWireObservations(os)[1..] == ToWireObservations(os[1..]);
      assert [os[0]] + os[1..] == os;
    }
  }

  /** The failures come back in order, each of its kind, with exit codes and streams kept. */
  lemma FailuresRoundTrip(fs: seq<Failure>)
    ensures SameKinds(fs, FromWireFailures(ToWireFailures(fs)))
  {
  }

  /** Sent over the wire and sorted again by any order, the facts tell the same run. */
  lemma FactsRoundTrip(f: Facts, sort: seq<Observation> -> seq<Observation>)
    requires Reorders(sort)
    ensures FromWire(ToWire(f), sort).Some? && SameFacts(f, FromWire(ToWire(f), sort).value)
    ensures FromWire(ToWire(f), sort).value.duration == f.duration
    ensures FromWire(ToWire(f), sort).value.metadata.processId == f.metadata.processId
  {
    hide Reorders, ToExact, FromExact, SameKinds, ToWireObservations, FromWireObservations, ToWireFailures,
         FromWireFailures,
         ToWireTimeout, FromWireTimeout;
    ObservationsRoundTrip(f.observations);
    TimeoutRoundTrip(f.timeout);
    DurationRoundTrip(f.duration);
    FailuresRoundTrip(f.failures);
    Reordered(sort, f.observations);
  }

  // ----- what was accepted is exported -----

  predicate Admissible(phase: Phase, summary: Option<WireSummary>) {
    && (summary.Some? ==> phase != Compile)
    && (summary.Some? && summary.value.JUnit? ==> summary.value.failures <= summary.value.testsRun)
  }

  /** A producer result as its constructors accept it. */
  ghost predicate Accepted(r: ProducerResult) {
    && ValidationError(r.phase, r.outcome, r.facts).None?
    && CheckReferences(r.facts.outputs).None?
    && forall i :: 0 <= i < |r.facts.outputs| ==> !BadReference(r.facts.outputs[i])
  }

  /** An accepted producer result is exported exactly when its test summary is admissible. */
  lemma AcceptedResultExports(r: ProducerResult, summary: Option<WireSummary>,
        sort: seq<Observation> -> seq<Observation>)
    requires Accepted(r) && Reorders(sort)
    ensures FromResult(r, summary, sort).Ok? <==> Admissible(r.phase, summary)
  {
    hide Blank, ValidationError, CheckReferences, BadReference, ToWireObservations, FromWireObservations,
         ToWireFailures, FromWireFailures,
         Reorders, SameFacts, FromWire;
    FactsRoundTrip(r.facts, sort);
    DurationRoundTrip(r.facts.duration);
    ValidationIgnoresTelling(r.phase, r.outcome, r.facts, FromWire(ToWire(r.facts), sort).value);
  }

  /** An exported wire form determines its result's outcome: no other outcome passes for the same phase and facts. */
  lemma ExportedOutcomeUnique(r: ProducerResult, summary: Option<WireSummary>,
        sort: seq<Observation> -> seq<Observation>, other: Outcome)
    requires Accepted(r) && Reorders(sort) && FromResult(r, summary, sort).Ok?
    requires ExportInvalid(FromResult(r, summary, sort).value.(outcome := other), sort).None?
    ensures other == r.outcome
  {
    hide Blank, ValidationError, CheckReferences, BadReference, ToWireObservations, FromWireObservations,
         ToWireFailures, FromWireFailures,
         Reorders, SameFacts, FromWire;
    FactsRoundTrip(r.facts, sort);
    var facts := FromWire(ToWire(r.facts), sort).value;
    AtMostOneOutcome(r.phase, facts, other, r.outcome);
  }

  // ----- from a run to its export -----

  lemma SameLength<T>(s: seq<T>, t: seq<T>)
    requires multiset(s) == multiset(t)
    ensures |s| == |t|
  {
    assert |multiset(s)| == |s| && |multiset(t)| == |t|;
  }

  /** Reordering at most two acceptable references leaves them acceptable. */
  lemma SortedReferences(outputs: seq<OutputReference>, sorted: seq<OutputReference>)
    requires multiset(sorted) == multiset(outputs) && |outputs| <= 2
    requires forall i :: 0 <= i < |outputs| ==> !BadReference(outputs[i])
    ensures CheckReferences(sorted).None? && forall i :: 0 <= i < |sorted| ==> !BadReference(sorted[i])
  {
    hide BadReference, CheckReferences;
    SameLength(sorted, outputs);
    forall i | 0 <= i < |sorted|
      ensures !BadReference(sorted[i]) && |Utf8.Encode(sorted[i].reference)| <= MAX_REFERENCE_BYTES
    {
      var j := MultisetElement(sorted, outputs, i);
      ShortReference(sorted[i]);
    }
    FewReferences(sorted);
  }

  lemma ShortReference(r: OutputReference)
    requires !BadReference(r)
    ensures |Utf8.Encode(r.reference)| <= MAX_REFERENCE_BYTES
  {
  }

  lemma OutputReferencesGood(e: ExecutionResult, refs: References)
    requires OutputReferences(e, refs).Ok?
    ensures var r := OutputReferences(e, refs).value;
            |r| <= 2 && forall i :: 0 <= i < |r| ==> !BadReference(r[i])
  {
  }

  /** Whatever the adapter returns is a producer result its constructors accept. */
  lemma ConvertedAccepted(e: ExecutionResult, id: NonBlank, attempt: NonBlank, refs: References, host: Host)
    requires Reorders(host.sortOutputs) && Convert(e, id, attempt, refs, host).Ok?
    ensures Accepted(Convert(e, id, attempt, refs, host).value)
  {
    hide Verdict, ValidationError, OutputReferences, CheckReferences, BadReference, Blank, Reorders;
    OutputReferencesGood(e, refs);
    var outputs := OutputReferences(e, refs).value;
    SortedOutputs(host.sortOutputs, outputs);
    SortedReferences(outputs, host.sortOutputs(outputs));
  }

  lemma SortedOutputs(sort: seq<OutputReference> -> seq<OutputReference>, s: seq<OutputReference>)
    requires Reorders(sort)
    ensures multiset(sort(s)) == multiset(s)
  {
  }

  /**
   Every run, with acceptable references and an admissible summary, is exported; the export tells
   the run's outcome.
   */
  lemma EveryRunExports(request: Request, env: Environment, polls: nat -> Poll, n: nat, id: NonBlank, attempt: NonBlank,
                        refs: References, host: Host, summary: Option<WireSummary>,
                        sort: seq<Observation> -> seq<Observation>)
    requires Decides(request.limits.timeout, polls(n)) && Reorders(host.sortObservations) && Reorders(host.sortOutputs)
    requires Reorders(sort)
    requires GoodReference(refs.stdoutReference) && GoodReference(refs.stderrReference)
    requires Admissible(request.phase, summary)
    ensures var p := polls(FirstDecisive(request.limits.timeout, polls, 0, n));
            var r := Convert(ResultOf(request, env, p), id, attempt, refs, host);
            && r.Ok? && FromResult(r.value, summary, sort).Ok?
            && FromResult(r.value, summary, sort).value.outcome == Expected(request, env, p).0
  {
    hide Verdict, Convert, ValidationError, Expected, ResultOf, GoodReference, FirstDecisive, Reorders, Decides,
         ExportInvalid, Accepted, ToWire;
    var p := polls(FirstDecisive(request.limits.timeout, polls, 0, n));
    EveryRunConverts(request, env, polls, n, id, attempt, refs, host);
    ConvertedAccepted(ResultOf(request, env, p), id, attempt, refs, host);
    AcceptedResultExports(Convert(ResultOf(request, env, p), id, attempt, refs, host).value, summary, sort);
  }
}
