/**
 What the worker's validators accept, told outcome by outcome: the facts each outcome needs, the
 results that convert, and what an export says of the result it came from.
 */
module ResultAcceptance {
  import opened Prelude
  import opened WorkerModel
  import opened Supervisor
  import opened ProducerResults
  import opened ResultAdapter
  import opened SupervisedResults
  import opened ExecutionExport
  import Utf8

  // ----- the facts of each outcome -----

  /** Exactly the timeout's observations say that their limit ended the run, and only when it did. */
  ghost predicate EndedOnlyBy(f: Facts, timeout: bool) {
    forall i :: 0 <= i < |f.observations| ==>
      (f.observations[i].terminated <==> timeout && f.observations[i].kind == TimeoutLimit)
  }

  /** Whatever limit ended the run was one that someone enforces. */
  ghost predicate EndsEnforced(f: Facts) {
    forall i :: 0 <= i < |f.observations| && f.observations[i].terminated ==>
      || f.observations[i].enforcement == RuntimeLimitEnforced
      || f.observations[i].enforcement == SupervisorTimeoutEnforced
  }

  ghost predicate Never(f: Facts, kind: Failure -> bool) {
    forall i :: 0 <= i < |f.failures| ==> !kind(f.failures[i])
  }

  predicate IsSpawn(f: Failure) {
    f.SpawnFailure?
  }

  predicate IsTimedOut(f: Failure) {
    f.TimedOut?
  }

  predicate IsCancelled(f: Failure) {
    f.Cancelled?
  }

  predicate IsNonZero(f: Failure) {
    f.NonZeroExit?
  }

  /** The child ran and ended by itself, not with 0, and its first failure says so. */
  ghost predicate EndedItself(f: Facts) {
    && f.metadata.processId.Some? && f.failures != []
    && ((exists code :: code != 0 && f.exit == ExitedWithCode(code) && f.failures[0] == NonZeroExit(Some(code)))
        || (f.exit == ExitedWithoutCode && f.failures[0] == NonZeroExit(None)))
  }

  /** The supervisor killed the child that ran, for this reason. */
  ghost predicate KilledFor(f: Facts, reason: Termination) {
    f.metadata.processId.Some? && f.exit.TerminatedBySupervisor? && f.exit.reason == reason
  }

  /** Neither timeout nor cancellation: not selected, not triggered and not among the failures. */
  ghost predicate Undisturbed(f: Facts) {
    && !f.timeout.Triggered? && !f.cancellation.Selected? && Never(f, IsTimedOut) && Never(f, IsCancelled)
    && !(f.exit.TerminatedBySupervisor? && (f.exit.reason == ByTimeout || f.exit.reason == ByCancellation))
  }

  predicate IsInfrastructure(f: Failure) {
    f.SpawnFailure? || f.WaitFailure? || f.OutputCaptureFailure? || f.TerminationFailure?
  }

  /** What makes a failure of the runner itself: no start, or something besides the child's own end went wrong. */
  ghost predicate RunnerStory(f: Facts) {
    || (f.metadata.processId.None? && f.exit.NeverStarted? && |f.failures| == 1 && f.failures[0].SpawnFailure?)
    || (&& f.metadata.processId.Some? && !f.exit.NeverStarted? && f.failures != [] && f.availability != Unavailable
        && Never(f, IsSpawn) && !Never(f, IsInfrastructure)
        && match f.failures[0]
           case NonZeroExit(_) => EndedItself(f)
           case WaitFailure(_) => KilledFor(f, ByWaitFailure)
           case OutputCaptureFailure(_, _, _) => f.exit == ExitedWithCode(0) || KilledFor(f, ByOutputCaptureFailure)
           case _ => false)
  }

  /** The facts that each outcome needs. */
  ghost predicate Story(phase: Phase, outcome: Outcome, f: Facts) {
    match outcome
    case Success =>
      && f.metadata.processId.Some? && f.exit == ExitedWithCode(0) && f.failures == [] && f.availability == Complete
      && Undisturbed(f) && EndedOnlyBy(f, false)
    case CompilationFailure => phase == Compile && FailureStory(f)
    case TestFailure => phase != Compile && FailureStory(f)
    case TimeoutOutcome =>
      && KilledFor(f, ByTimeout) && f.timeout.Triggered? && !f.cancellation.Selected?
      && f.failures != [] && f.failures[0].TimedOut? && Never(f, IsSpawn) && Never(f, IsCancelled)
      && EndedOnlyBy(f, true) && EndsEnforced(f) && f.availability != Unavailable
    case CancellationOutcome =>
      && KilledFor(f, ByCancellation) && !f.timeout.Triggered? && f.cancellation.Selected?
      && f.failures != [] && f.failures[0].Cancelled? && Never(f, IsSpawn) && Never(f, IsTimedOut)
      && EndedOnlyBy(f, false) && f.availability != Unavailable
    case ResourceBreach =>
      && EndedItself(f) && Undisturbed(f) && Never(f, IsSpawn) && f.availability != Unavailable
      && !EndedOnlyBy(f, false) && EndsEnforced(f)
      && forall i :: 0 <= i < |f.observations| && f.observations[i].terminated ==>
           f.observations[i].kind != TimeoutLimit
    case RunnerFailure => RunnerStory(f) && Undisturbed(f) && EndedOnlyBy(f, false)
  }

  /** The child failed by itself, nothing else went wrong and no limit ended it. */
  ghost predicate FailureStory(f: Facts) {
    && EndedItself(f) && !f.timeout.Triggered? && !f.cancellation.Selected? && EndedOnlyBy(f, false)
    && f.availability != Unavailable
    && forall i :: 0 <= i < |f.failures| ==> f.failures[i].NonZeroExit?
  }

  // ----- the validator accepts exactly those -----

  lemma ObservationsTell(f: Facts)
    ensures !Breaches(f.observations) && TimeoutsAgree(f.observations, false) <==> EndedOnlyBy(f, false)
    ensures !Breaches(f.observations) && TimeoutsAgree(f.observations, true) <==> EndedOnlyBy(f, true)
    ensures TerminationsEnforced(f.observations) <==> EndsEnforced(f)
    ensures EndedOnlyBy(f, false) ==> EndsEnforced(f)
  {
  }

  lemma FailuresTell(f: Facts)
    ensures AnySpawnFailure(f.failures) <==> !Never(f, IsSpawn)
    ensures AnyTimedOut(f.failures) <==> !Never(f, IsTimedOut)
    ensures AnyCancelled(f.failures) <==> !Never(f, IsCancelled)
    ensures AnyRunnerFailure(f.failures) <==> !Never(f, IsInfrastructure)
    ensures NonZeroMatches(f.exit, f.failures) && f.metadata.processId.Some? <==> EndedItself(f)
  {
  }

  /** Failures that are neither the runner's nor a timeout nor a cancellation are the child's own. */
  lemma OwnFailures(f: Facts)
    ensures (forall i :: 0 <= i < |f.failures| ==> f.failures[i].NonZeroExit?) <==>
              Never(f, IsSpawn) && Never(f, IsTimedOut) && Never(f, IsCancelled) && Never(f, IsInfrastructure)
    ensures Never(f, IsInfrastructure) ==> Never(f, IsSpawn)
    ensures f.failures == [] ==>
              Never(f, IsSpawn) && Never(f, IsTimedOut) && Never(f, IsCancelled) && Never(f, IsInfrastructure)
    ensures f.failures != [] ==>
              && (f.failures[0].TimedOut? ==> !Never(f, IsTimedOut))
              && (f.failures[0].Cancelled? ==> !Never(f, IsCancelled))
              && (f.failures[0].SpawnFailure? ==> !Never(f, IsSpawn))
              && (IsInfrastructure(f.failures[0]) ==> !Never(f, IsInfrastructure))
              && (|f.failures| == 1 && f.failures[0].SpawnFailure? ==> Never(f, IsTimedOut) && Never(f, IsCancelled))
              && (|f.failures| == 1 && !Never(f, IsSpawn) ==> f.failures[0].SpawnFailure?)
  {
  }

  lemma BreachTells(f: Facts)
    ensures Breaches(f.observations) && TimeoutsAgree(f.observations, false) <==>
              && !EndedOnlyBy(f, false)
              && forall i :: 0 <= i < |f.observations| && f.observations[i].terminated ==>
                   f.observations[i].kind != TimeoutLimit
  {
  }

  /** The validator accepts an outcome for these facts exactly when they tell its story. */
  lemma AcceptedIff(phase: Phase, outcome: Outcome, f: Facts)
    ensures ValidationError(phase, outcome, f).None? <==> Story(phase, outcome, f)
  {
    hide Breaches, TimeoutsAgree, TerminationsEnforced, AnySpawnFailure, AnyTimedOut, AnyCancelled, AnyRunnerFailure,
         EndedOnlyBy, EndsEnforced, Never;
    ObservationsTell(f);
    FailuresTell(f);
    OwnFailures(f);
    BreachTells(f);
    match outcome
    case Success =>
    case CompilationFailure =>
    case TestFailure =>
    case TimeoutOutcome =>
    case CancellationOutcome =>
    case ResourceBreach =>
    case RunnerFailure =>
  }

  // ----- what converts -----

  /** Unavailable when the child never started, incomplete after any failure around it, complete otherwise. */
  function AvailabilityOf(failures: seq<Failure>): Availability {
    if exists i :: 0 <= i < |failures| && failures[i].SpawnFailure? then Unavailable
    else if exists i :: 0 <= i < |failures| && IsInfrastructure(failures[i]) then Incomplete
    else Complete
  }

  /** A limit other than the timeout ends a run only by the runtime's own enforcement. */
  ghost predicate BreachesEnforced(observations: seq<Observation>) {
    forall i :: 0 <= i < |observations| && observations[i].terminated && observations[i].kind != TimeoutLimit ==>
      observations[i].enforcement == RuntimeLimitEnforced
  }

  /** The output can be referred to by this name: nonblank, short enough, and consistent in its counts. */
  ghost predicate Referable(reference: Option<string>, output: BoundedOutput) {
    reference.Some? ==>
      && !Blank(reference.value) && |Utf8.Encode(reference.value)| <= 4_096
      && var retained := Min(|output.captured|, U64_MAX);
         retained <= output.limit && retained <= output.total && (output.truncated <==> output.total > retained)
  }

  lemma ReferencesIff(e: ExecutionResult, refs: References)
    ensures OutputReferences(e, refs).Ok? <==>
              Referable(refs.stdoutReference, e.stdout) && Referable(refs.stderrReference, e.stderr)
    ensures OutputReferences(e, refs).Ok? ==> CheckReferences(OutputReferences(e, refs).value).None?
  {
    hide Blank;
    var r := OutputReferences(e, refs);
    if r.Ok? { FewReferences(r.value); }
  }

  /** The story is told by these facts, whoever the host and whatever the references. */
  ghost predicate Tellable(e: ExecutionResult, host: Host, outcome: Outcome) {
    Story(e.phase, outcome, FactsOf(e, host, AvailabilityOf(e.failures), []))
  }

  lemma ToldVerdict(e: ExecutionResult, host: Host, outcome: Outcome)
    requires Reorders(host.sortObservations) && Tellable(e, host, outcome) && BreachesEnforced(e.observations)
    ensures Verdict(e) == Ok((outcome, AvailabilityOf(e.failures)))
  {
    hide Breaches, TimeoutsAgree, TerminationsEnforced, BreachOf, Reorders, BreachesEnforced, Story, AnyTimedOut,
         AnyCancelled, AnyRunnerFailure;
    var f := FactsOf(e, host, AvailabilityOf(e.failures), []);
    AcceptedIff(e.phase, outcome, f);
    BreachIsBreaches(e.observations);
    EnforcedBreach(e.observations);
    Reordered(host.sortObservations, e.observations);
    SameObservations(e.observations, host.sortObservations(e.observations), e.timeout.Triggered?);
    RunnerFailuresAre(e.failures);
  }

  lemma EnforcedBreach(observations: seq<Observation>)
    ensures BreachesEnforced(observations) <==> BreachOf(observations).Ok?
  {
    hide BreachOf;
    BreachIsBreaches(observations);
  }

  lemma RunnerFailuresAre(failures: seq<Failure>)
    ensures AnyRunnerFailure(failures) <==> AnySpawnFailure(failures) || AnyInfrastructure(failures)
    ensures AvailabilityOf(failures) ==
            if AnySpawnFailure(failures) then Unavailable else if AnyInfrastructure(failures) then Incomplete
            else Complete
  {
  }

  lemma VerdictAvailability(e: ExecutionResult)
    requires Verdict(e).Ok?
    ensures Verdict(e).value.1 == AvailabilityOf(e.failures)
  {
    hide BreachOf, AnySpawnFailure, AnyInfrastructure;
    RunnerFailuresAre(e.failures);
  }

  /**
   Any execution result, run or made up, converts exactly when its outputs can be referred to,
   its breaches are enforced and some outcome's story is told by its facts; that is then the outcome.
   */
  lemma ConvertsIff(e: ExecutionResult, id: NonBlank, attempt: NonBlank, refs: References, host: Host)
    requires Reorders(host.sortObservations)
    ensures var r := Convert(e, id, attempt, refs, host);
            && (r.Ok? <==> Referable(refs.stdoutReference, e.stdout) && Referable(refs.stderrReference, e.stderr)
                           && BreachesEnforced(e.observations) && exists outcome :: Tellable(e, host, outcome))
            && (r.Ok? ==> Tellable(e, host, r.value.outcome)
                          && r.value.facts.availability == AvailabilityOf(e.failures))
  {
    hide Verdict, ValidationError, OutputReferences, CheckReferences, Referable, BreachesEnforced, Story, Reorders,
         AvailabilityOf;
    ReferencesIff(e, refs);
    if Verdict(e).Ok? {
      VerdictEnforced(e);
      VerdictAvailability(e);
      var outputs := if OutputReferences(e, refs).Ok? then OutputReferences(e, refs).value else [];
      SameStory(e, host, Verdict(e).value.0, outputs);
    }
    if BreachesEnforced(e.observations) && exists outcome :: Tellable(e, host, outcome) {
      var outcome :| Tellable(e, host, outcome);
      ToldVerdict(e, host, outcome);
    }
  }

  lemma VerdictEnforced(e: ExecutionResult)
    requires Verdict(e).Ok?
    ensures BreachesEnforced(e.observations)
  {
    hide BreachOf, Incoherence, Classify, BreachesEnforced;
    EnforcedBreach(e.observations);
  }

  lemma SameStory(e: ExecutionResult, host: Host, outcome: Outcome, outputs: seq<OutputReference>)
    ensures Tellable(e, host, outcome) <==>
              ValidationError(e.phase, outcome, FactsOf(e, host, AvailabilityOf(e.failures), outputs)).None?
  {
    hide ValidationError, Story, AvailabilityOf;
    var f, g := FactsOf(e, host, AvailabilityOf(e.failures), []), FactsOf(e, host, AvailabilityOf(e.failures), outputs);
    AcceptedIff(e.phase, outcome, f);
    ValidationIgnoresTelling(e.phase, outcome, f, g) by { SameKindsReflexive(e.failures); }
  }

  lemma SameKindsReflexive(fs: seq<Failure>)
    ensures SameKinds(fs, fs)
  {
  }

  // ----- what an export says -----

  /** Seconds and nanoseconds are this duration. */
  predicate DurationTells(d: Duration, w: ExactDuration) {
    d == w.seconds * 1_000_000_000 + w.nanoseconds && w.nanoseconds < 1_000_000_000
  }

  predicate TimeoutTells(t: Timeout, w: WireTimeout) {
    match t
    case NotConfigured => w.WireNotConfigured?
    case NotTriggered(limit) => w.WireNotTriggered? && DurationTells(limit, w.limit)
    case Triggered(limit) => w.WireTriggered? && DurationTells(limit, w.limit)
  }

  predicate ValueTells(v: LimitValue, w: WireValue) {
    match v
    case DurationValue(d) => w.WireDuration? && DurationTells(d, w.duration)
    case BytesValue(n) => w == WireBytes(n)
    case CountValue(n) => w == WireCount(n)
    case CustomValue(n, unit) => w == WireCustom(n, unit)
  }

  predicate ObservationTells(o: Observation, w: WireObservation) {
    && w.kind == o.kind && w.enforcement == o.enforcement && w.terminated == o.terminated && w.truncated == o.truncated
    && ValueTells(o.configured, w.configured) && (w.observed.Some? <==> o.observed.Some?)
    && (o.observed.Some? ==> ValueTells(o.observed.value, w.observed.value))
  }

  /** A listed error kind keeps its name, every other one is uncategorized. */
  predicate KindTells(k: ErrorKind, w: WireErrorKind) {
    match k
    case Listed(index) => w == NamedKind(index)
    case Unlisted(_) => w == Uncategorized
  }

  predicate FailureTells(f: Failure, w: WireFailure) {
    match f
    case SpawnFailure(error) => w.WireSpawnFailure? && KindTells(error.kind, w.kind)
    case NonZeroExit(code) => w == WireNonZeroExit(code)
    case TimedOut => w == WireTimedOut
    case Cancelled => w == WireCancelled
    case WaitFailure(error) => w.WireWaitFailure? && KindTells(error.kind, w.kind)
    case OutputCaptureFailure(stream, kind, _) =>
      && w.WireOutputCaptureFailure? && w.stream == stream && (w.outputKind.Some? <==> kind.Some?)
      && (kind.Some? ==> KindTells(kind.value, w.outputKind.value))
    case TerminationFailure(error) => w.WireTerminationFailure? && KindTells(error.kind, w.kind)
  }

  /** The export names the same result and tells its facts one by one; only messages are left out. */
  ghost predicate ExportTells(r: ProducerResult, summary: Option<WireSummary>, e: Export) {
    && e.version == "testgap.execution-export.v1"
    && e.id == r.id && e.attempt == r.attempt && e.phase == r.phase && e.outcome == r.outcome && e.summary == summary
    && e.candidate == r.candidate && e.correlation == r.correlation
    && e.facts.metadata == r.facts.metadata && e.facts.exit == r.facts.exit
    && e.facts.cancellation == r.facts.cancellation && e.facts.availability == r.facts.availability
    && e.facts.outputs == r.facts.outputs
    && DurationTells(r.facts.duration, e.facts.duration) && TimeoutTells(r.facts.timeout, e.facts.timeout)
    && |e.facts.observations| == |r.facts.observations| && |e.facts.failures| == |r.facts.failures|
    && (forall i :: 0 <= i < |r.facts.observations| ==>
          ObservationTells(r.facts.observations[i], e.facts.observations[i]))
    && (forall i :: 0 <= i < |r.facts.failures| ==> FailureTells(r.facts.failures[i], e.facts.failures[i]))
  }

  lemma ExportedTells(r: ProducerResult, summary: Option<WireSummary>, sort: seq<Observation> -> seq<Observation>)
    requires FromResult(r, summary, sort).Ok?
    ensures ExportTells(r, summary, FromResult(r, summary, sort).value)
  {
    hide ExportInvalid, ToWireObservation, ToWireFailure, ObservationTells, FailureTells;
    ToldDuration(r.facts.duration);
    ToldTimeout(r.facts.timeout);
    forall i | 0 <= i < |r.facts.observations|
      ensures ObservationTells(r.facts.observations[i], ToWireObservation(r.facts.observations[i]))
    {
      ToldObservation(r.facts.observations[i]);
    }
    forall i | 0 <= i < |r.facts.failures|
      ensures FailureTells(r.facts.failures[i], ToWireFailure(r.facts.failures[i]))
    {
      ToldFailure(r.facts.failures[i]);
    }
  }

  lemma ToldDuration(d: Duration)
    ensures DurationTells(d, ToExact(d))
  {
  }

  lemma ToldTimeout(t: Timeout)
    ensures TimeoutTells(t, ToWireTimeout(t))
  {
  }

  lemma ToldObservation(o: Observation)
    ensures ObservationTells(o, ToWireObservation(o))
  {
  }

  lemma ToldFailure(f: Failure)
    ensures FailureTells(f, ToWireFailure(f))
  {
  }

  // ----- which exports are valid -----

  ghost predicate InRange(d: ExactDuration) {
    d.nanoseconds < 1_000_000_000
  }

  ghost predicate ValueInRange(v: WireValue) {
    v.WireDuration? ==> InRange(v.duration)
  }

  /** Every duration an export mentions has its nanoseconds in range. */
  ghost predicate DurationsInRange(w: WireFacts) {
    && InRange(w.duration)
    && (w.timeout.WireNotTriggered? ==> InRange(w.timeout.limit))
    && (w.timeout.WireTriggered? ==> InRange(w.timeout.limit))
    && forall i :: 0 <= i < |w.observations| ==> ObservationInRange(w.observations[i])
  }

  /** At most 128 references of at most 64 KiB together, each of them consistent. */
  ghost predicate ReferencesValid(outputs: seq<OutputReference>) {
    && |outputs| <= 128 && ReferenceBytes(outputs) <= 65_536
    && forall i :: 0 <= i < |outputs| ==>
         && !Blank(outputs[i].reference) && |Utf8.Encode(outputs[i].reference)| <= 4_096
         && outputs[i].retained <= outputs[i].limit && outputs[i].retained <= outputs[i].observed
         && (outputs[i].truncated <==> outputs[i].observed > outputs[i].retained)
  }

  /** The facts that the wire tells, with every message erased. */
  ghost predicate WireTells(w: WireFacts, f: Facts) {
    && f.metadata.processId == w.metadata.processId && f.exit == w.exit && f.cancellation == w.cancellation
    && f.availability == w.availability
    && DurationTells(f.duration, w.duration) && TimeoutTells(f.timeout, w.timeout)
    && |f.observations| == |w.observations| && |f.failures| == |w.failures|
    && (forall i :: 0 <= i < |w.observations| ==> ObservationTells(f.observations[i], w.observations[i]))
    && (forall i :: 0 <= i < |w.failures| ==> SameWireKind(f.failures[i], w.failures[i]))
  }

  predicate SameWireKind(f: Failure, w: WireFailure) {
    match w
    case WireSpawnFailure(_) => f.SpawnFailure?
    case WireNonZeroExit(code) => f == NonZeroExit(code)
    case WireTimedOut => f == TimedOut
    case WireCancelled => f == Cancelled
    case WireWaitFailure(_) => f.WaitFailure?
    case WireOutputCaptureFailure(stream, _) => f.OutputCaptureFailure? && f.stream == stream
    case WireTerminationFailure(_) => f.TerminationFailure?
  }

  /**
   An export, from whatever hand, is valid exactly when its version and names are given, its
   summary and references are admissible, its durations are in range and the facts it tells are
   its outcome's story.
   */
  lemma ExportValidIff(e: Export, sort: seq<Observation> -> seq<Observation>)
    requires Reorders(sort)
    ensures ExportInvalid(e, sort).None? <==>
              && e.version == "testgap.execution-export.v1"
              && !Blank(e.id) && !Blank(e.attempt)
              && (e.candidate.Some? ==> !Blank(e.candidate.value))
              && (e.correlation.Some? ==> !Blank(e.correlation.value))
              && Admissible(e.phase, e.summary) && DurationsInRange(e.facts) && ReferencesValid(e.facts.outputs)
              && exists f :: WireTells(e.facts, f) && Story(e.phase, e.outcome, f)
  {
    hide Blank, Story, ValidationError, FromWire, DurationsInRange, ReferencesValid, WireTells, OutputsError, Reorders;
    ReferencesValidIff(e.facts.outputs);
    DurationInRange(e.facts);
    if DurationsInRange(e.facts) {
      var f := FactsToldBy(e.facts);
      StoryFor(e, sort, f);
      if exists g :: WireTells(e.facts, g) && Story(e.phase, e.outcome, g) {
        var g :| WireTells(e.facts, g) && Story(e.phase, e.outcome, g);
        StoryFor(e, sort, g);
      }
    } else {
      NotRead(e.facts, sort);
    }
  }

  lemma StoryFor(e: Export, sort: seq<Observation> -> seq<Observation>, f: Facts)
    requires Reorders(sort) && DurationsInRange(e.facts) && WireTells(e.facts, f)
    ensures FromWire(e.facts, sort).Some?
    ensures ValidationError(e.phase, e.outcome, FromWire(e.facts, sort).value).None? <==> Story(e.phase, e.outcome, f)
  {
    hide Story, ValidationError, FromWire, DurationsInRange, WireTells, Reorders;
    FromWireTells(e.facts, sort, f);
    AcceptedIff(e.phase, e.outcome, f);
    ValidationIgnoresTelling(e.phase, e.outcome, FromWire(e.facts, sort).value, f);
  }

  lemma NotRead(w: WireFacts, sort: seq<Observation> -> seq<Observation>)
    requires !DurationsInRange(w)
    ensures FromWire(w, sort).None?
  {
    hide FromWireObservations, ValueInRange;
    ObservationsInRange(w.observations);
  }

  /** In range, some facts are told. */
  lemma FactsToldBy(w: WireFacts) returns (f: Facts)
    requires DurationsInRange(w)
    ensures WireTells(w, f)
  {
    hide FromWireObservations, ObservationInRange, FromWireFailure, ObservationTells, SameWireKind;
    ObservationsInRange(w.observations);
    var observations := FromWireObservations(w.observations).value;
    ObservationsRead(w.observations);
    forall i | 0 <= i < |w.failures| ensures SameWireKind(FromWireFailure(w.failures[i]), w.failures[i]) {
      ReadFailure(w.failures[i]);
    }
    f := Facts(Metadata("", "", w.metadata.processId), w.exit, FromWireTimeout(w.timeout).value, w.cancellation,
               FromExact(w.duration).value, w.availability, observations, FromWireFailures(w.failures), []);
  }

  lemma ReadFailure(w: WireFailure)
    ensures SameWireKind(FromWireFailure(w), w)
  {
  }

  lemma {:induction false} ObservationsRead(ws: seq<WireObservation>)
    requires FromWireObservations(ws).Some?
    ensures var os := FromWireObservations(ws).value;
            |os| == |ws| && forall i :: 0 <= i < |ws| ==> ObservationTells(os[i], ws[i])
  {
    hide FromWireObservation, ObservationTells;
    if ws != [] {
      ObservationRead(ws[0]);
      ObservationsRead(ws[1..]);
    }
  }

  lemma ObservationRead(w: WireObservation)
    requires FromWireObservation(w).Some?
    ensures ObservationTells(FromWireObservation(w).value, w)
  {
  }

  /** Wire facts with durations in range are read as the facts they tell, in some order. */
  lemma FromWireTells(w: WireFacts, sort: seq<Observation> -> seq<Observation>, f: Facts)
    requires Reorders(sort) && DurationsInRange(w) && WireTells(w, f)
    ensures FromWire(w, sort).Some? && SameFacts(FromWire(w, sort).value, f)
  {
    hide FromWireObservations, Reorders, ValueInRange, ObservationTells, SameWireKind;
    ObservationsBack(f.observations, w.observations);
    TimeoutBack(f.timeout, w.timeout);
    FailuresBack(f.failures, w.failures);
    Reordered(sort, f.observations);
  }

  lemma TimeoutBack(t: Timeout, w: WireTimeout)
    requires TimeoutTells(t, w)
    ensures FromWireTimeout(w) == Some(t)
  {
  }

  lemma FailuresBack(fs: seq<Failure>, ws: seq<WireFailure>)
    requires |fs| == |ws| && forall i :: 0 <= i < |ws| ==> SameWireKind(fs[i], ws[i])
    ensures SameKinds(FromWireFailures(ws), fs)
  {
    hide FromWireFailure, SameKind, SameWireKind;
    forall i | 0 <= i < |ws| ensures SameKind(FromWireFailure(ws[i]), fs[i]) { FailureBack(fs[i], ws[i]); }
  }

  lemma FailureBack(f: Failure, w: WireFailure)
    requires SameWireKind(f, w)
    ensures SameKind(FromWireFailure(w), f) && SameWireKind(FromWireFailure(w), w)
  {
  }

  ghost predicate ObservationInRange(o: WireObservation) {
    ValueInRange(o.configured) && (o.observed.Some? ==> ValueInRange(o.observed.value))
  }

  lemma {:induction false} ObservationsInRange(ws: seq<WireObservation>)
    ensures FromWireObservations(ws).Some? <==> forall i :: 0 <= i < |ws| ==> ObservationInRange(ws[i])
  {
    hide FromWireObservation, ObservationInRange;
    if ws != [] {
      OneInRange(ws[0]);
      ObservationsInRange(ws[1..]);
      assert forall i :: 1 <= i < |ws| ==> ws[i] == ws[1..][i - 1];
      if forall i :: 0 <= i < |ws| ==> ObservationInRange(ws[i]) {
        assert forall i :: 0 <= i < |ws| - 1 ==> ws[1..][i] == ws[i + 1];
      }
    }
  }

  lemma OneInRange(w: WireObservation)
    ensures FromWireObservation(w).Some? <==> ObservationInRange(w)
  {
  }

  lemma {:induction false} ObservationsBack(os: seq<Observation>, ws: seq<WireObservation>)
    requires |os| == |ws| && forall i :: 0 <= i < |ws| ==> ObservationTells(os[i], ws[i])
    ensures FromWireObservations(ws) == Some(os)
  {
    hide FromWireObservation, ObservationTells;
    if ws != [] {
      OneBack(os[0], ws[0]);
      ObservationsBack(os[1..], ws[1..]);
      assert [os[0]] + os[1..] == os;
    }
  }

  lemma OneBack(o: Observation, w: WireObservation)
    requires ObservationTells(o, w)
    ensures FromWireObservation(w) == Some(o)
  {
  }

  lemma DurationInRange(w: WireFacts)
    ensures DurationsInRange(w) ==> w.duration.nanoseconds < NANOS
  {
  }

  /** The metadata budget counts every reference's bytes. */
  lemma {:induction false} ReferenceBytesAdd(a: seq<OutputReference>, b: seq<OutputReference>)
    ensures ReferenceBytes(a + b) == ReferenceBytes(a) + ReferenceBytes(b)
    ensures |a| == 1 ==> ReferenceBytes(a) == |Utf8.Encode(a[0].reference)|
  {
    hide Utf8.Encode;
    if a == [] {
      assert a + b == b;
    } else {
      assert (a + b)[1..] == a[1..] + b;
      ReferenceBytesAdd(a[1..], b);
    }
  }

  lemma ReferencesValidIff(outputs: seq<OutputReference>)
    ensures OutputsError(outputs).None? <==> ReferencesValid(outputs)
  {
    hide Blank, ReferenceBytes;
  }
}
