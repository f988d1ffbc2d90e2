/**
 The queue adapter as a state machine: its records, its state, and one
 transition function per public operation (queue/adapter.py, queue/models.py).

 Deliveries and claims are stored under generated ids `delivery-1`, `delivery-2`, ...
 and `claim-1`, `claim-2`, ..., so a sequence in creation order stands for either
 dictionary and `DeliveryId`/`ClaimId` n names entry n - 1. Dead letters are a
 sequence in insertion order. A raised error is an `Err`.
 */
module QueueModel {
  import opened Prelude

  datatype RequestId = RequestId(value: string)
  datatype MessageId = MessageId(value: string)
  datatype PublicationId = PublicationId(value: string)
  datatype AttemptId = AttemptId(value: string)
  datatype ResultId = ResultId(value: string)
  datatype WorkerRef = WorkerRef(value: string)

  type DeliveryId = nat
  type ClaimId = nat

  datatype QueueError = KeyError | StateError | ConflictError | ValidationError

  datatype PublicationState =
    | NotAttempted | RejectedBeforeAcceptance | ConfirmedFailure
    | ResultUncertain | ConfirmedSuccess | ConfirmedDuplicate

  datatype ClaimState = Current | Replaced | Revoked | RenewalUncertain | LeaseLost

  datatype ControlState = Active | Cancelled | ControlRevoked | Deleted | Superseded

  datatype DurableEffect = AcceptedResult | WorkflowState | ProvenanceEffect | Audit | EvidenceReference

  datatype FailureClass = Transport | Poison | Application | SecurityRejection

  /** Positive bounds, as RetryPolicy enforces. */
  type Positive = n: int | n >= 1 witness 1

  datatype RetryPolicy = RetryPolicy(maxTransport: Positive, maxPoison: Positive, maxRedrives: Positive)

  /** The envelope fields the adapter reads; `rest` stands for the others in comparisons. */
  datatype Envelope = Envelope(
    request: RequestId, message: MessageId, attempt: Option<AttemptId>,
    publication: Option<PublicationId>, publicationState: Option<PublicationState>,
    provenance: Option<string>,
    claim: Option<ClaimId>, delivery: Option<DeliveryId>, worker: Option<WorkerRef>, fence: Option<int>,
    contractVersion: string, schemaVersion: string, integrity: Option<string>, rest: string)

  datatype Publication = Publication(id: PublicationId, request: RequestId, message: MessageId, state: PublicationState)

  datatype Outcome = Outcome(publication: PublicationId, state: PublicationState, reference: string)

  datatype Provenance = Original(reference: string) | FromPublication(publication: Option<PublicationId>)

  datatype ProviderRef = Given(reference: string) | InMemory(sequence: nat)

  datatype Delivery = Delivery(
    id: DeliveryId, request: RequestId, message: MessageId, attempt: Option<AttemptId>,
    provenance: Provenance, provider: ProviderRef, redelivery: nat)

  datatype Claim = Claim(id: ClaimId, delivery: DeliveryId, worker: WorkerRef, fence: nat, state: ClaimState)

  datatype Binding = Binding(
    result: ResultId, request: RequestId, message: MessageId, attempt: AttemptId,
    slotReference: string, resultReference: string)

  datatype Slot = Slot(request: RequestId, message: MessageId, attempt: AttemptId, reference: string)

  datatype Submission = Submission(
    binding: Binding, occurrence: string, delivery: DeliveryId, worker: WorkerRef, claim: ClaimId, fence: nat,
    contractVersion: string, schemaVersion: string, integrity: Option<string>)

  datatype Authorization = Authorization(authorized: bool, context: string, policyVersion: string, decision: string)

  datatype DeadLetter = DeadLetter(source: Delivery, classification: FailureClass)

  datatype Redrive = Redrive(
    actor: string, provenance: Provenance, sourceDelivery: DeliveryId, message: MessageId, request: RequestId,
    newDelivery: DeliveryId, classification: FailureClass, context: string, policyVersion: string, decision: string)

  datatype Readiness = Readiness(succeeded: bool, effects: set<DurableEffect>)

  datatype RetryDecision = RetryDecision(retryAllowed: bool, deadLettered: bool)

  datatype Queue = Queue(
    policy: RetryPolicy,
    required: set<DurableEffect>,
    messages: map<MessageId, Envelope>,
    publications: map<PublicationId, Publication>,
    history: map<PublicationId, seq<Outcome>>,
    deliveries: seq<Delivery>,
    claims: seq<Claim>,
    current: map<MessageId, ClaimId>,
    controls: map<RequestId, ControlState>,
    accepted: map<ResultId, Binding>,
    slots: map<Slot, ResultId>,
    submissions: map<ResultId, seq<Submission>>,
    conflicted: set<MessageId>,
    rejected: set<RequestId>,
    failures: map<(DeliveryId, FailureClass), nat>,
    deadLetters: seq<DeadLetter>,
    redriveCounts: map<MessageId, nat>,
    redrives: map<DeliveryId, Redrive>,
    acknowledged: set<DeliveryId>,
    fenceSequence: nat)

  function Initial(policy: RetryPolicy, required: set<DurableEffect>): Queue {
    Queue(policy, required, map[], map[], map[], [], [], map[], map[], map[], map[], map[], {}, {}, map[], [], map[],
          map[], {}, 0)
  }

  // ----- lookups -----

  predicate IsDelivery(q: Queue, d: DeliveryId) {
    1 <= d <= |q.deliveries|
  }

  function DeliveryOf(q: Queue, d: DeliveryId): Delivery
    requires IsDelivery(q, d)
  {
    q.deliveries[d - 1]
  }

  predicate IsClaim(q: Queue, c: ClaimId) {
    1 <= c <= |q.claims|
  }

  function ClaimOf(q: Queue, c: ClaimId): Claim
    requires IsClaim(q, c)
  {
    q.claims[c - 1]
  }

  function Control(controls: map<RequestId, ControlState>, r: RequestId): ControlState {
    if r in controls then controls[r] else Active
  }

  predicate Live(state: ClaimState) {
    state == Current || state == RenewalUncertain
  }

  /** The delivery has a dead letter. */
  predicate DeadLettered(dead: seq<DeadLetter>, d: DeliveryId) {
    exists i :: 0 <= i < |dead| && dead[i].source.id == d
  }

  /** The newest dead letter of a delivery of the message. */
  function DeadLetterFor(dead: seq<DeadLetter>, m: MessageId): Option<DeadLetter> {
    if dead == [] then None
    else if dead[|dead| - 1].source.message == m then Some(dead[|dead| - 1])
    else DeadLetterFor(dead[..|dead| - 1], m)
  }

  function DeadLetterOf(dead: seq<DeadLetter>, d: DeliveryId): Option<DeadLetter> {
    if dead == [] then None
    else if dead[|dead| - 1].source.id == d then Some(dead[|dead| - 1])
    else DeadLetterOf(dead[..|dead| - 1], d)
  }

  function CountFor(deliveries: seq<Delivery>, m: MessageId): nat {
    if deliveries == [] then 0
    else CountFor(deliveries[..|deliveries| - 1], m) + if deliveries[|deliveries| - 1].message == m then 1 else 0
  }

  function PublicationFor(q: Queue, m: MessageId): Option<Publication> {
    if m in q.messages && q.messages[m].publication.Some? && q.messages[m].publication.value in q.publications
    then Some(q.publications[q.messages[m].publication.value])
    else None
  }

  predicate CanProcess(q: Queue, d: DeliveryId)
    requires IsDelivery(q, d)
  {
    && DeliveryOf(q, d).request !in q.rejected
    && !DeadLettered(q.deadLetters, d)
    && d !in q.acknowledged
    && Control(q.controls, DeliveryOf(q, d).request) == Active
  }

  /** can_produce_protected_effect: the claim is current, registered and its work is still open. */
  predicate CanProduce(q: Queue, c: ClaimId) {
    && IsClaim(q, c) && IsDelivery(q, ClaimOf(q, c).delivery)
    && var delivery := DeliveryOf(q, ClaimOf(q, c).delivery);
       && ClaimOf(q, c).state == Current
       && delivery.message in q.current && q.current[delivery.message] == c
       && CanProcess(q, ClaimOf(q, c).delivery)
  }

  // ----- publication -----

  predicate ClaimedBindingHolds(q: Queue, e: Envelope)
    requires e.claim.Some? && CanProduce(q, e.claim.value)
  {
    var claim := ClaimOf(q, e.claim.value);
    var delivery := DeliveryOf(q, claim.delivery);
    && e.delivery == Some(delivery.id) && e.worker == Some(claim.worker) && e.fence == Some(claim.fence)
    && e.request == delivery.request && e.message == delivery.message && e.attempt == delivery.attempt
  }

  /** `valid` is the outcome of envelope validation. */
  function Publish(q: Queue, e: Envelope, valid: bool): (Queue, Result<Publication, QueueError>) {
    if !valid then (q, Err(ValidationError))
    else if e.publication.None? then (q, Err(StateError))
    else if e.publicationState != Some(NotAttempted) then (q, Err(StateError))
    else if e.claim.Some? && !CanProduce(q, e.claim.value) then (q, Err(StateError))
    else if e.claim.Some? && !ClaimedBindingHolds(q, e) then (q, Err(ConflictError))
    else if e.message in q.messages && q.messages[e.message] != e then (q, Err(ConflictError))
    else
      var p := e.publication.value;
      if p in q.publications then
        if q.publications[p].request != e.request || q.publications[p].message != e.message then (q, Err(ConflictError))
        else (q, Ok(q.publications[p]))
      else
        var record := Publication(p, e.request, e.message, NotAttempted);
        (q.(messages := q.messages[e.message := e],
            controls := if e.request in q.controls then q.controls else q.controls[e.request := Active],
            publications := q.publications[p := record],
            history := q.history[p := []]),
         Ok(record))
  }

  predicate Delivered(deliveries: seq<Delivery>, m: MessageId) {
    exists i :: 0 <= i < |deliveries| && deliveries[i].message == m
  }

  function RecordOutcome(q: Queue, p: PublicationId, state: PublicationState, reference: string): (Queue,
        Result<Publication, QueueError>) {
    if state == NotAttempted then (q, Err(StateError))
    else if p !in q.publications || p !in q.history then (q, Err(KeyError))
    else
      var current := q.publications[p];
      if (state == RejectedBeforeAcceptance || state == ConfirmedFailure) && Delivered(q.deliveries, current.message)
      then (q, Err(ConflictError))
      else if current.state != NotAttempted && current.state != ResultUncertain && current.state != state
      then (q, Err(ConflictError))
      else
        var updated := current.(state := state);
        var outcome := Outcome(p, state, reference);
        (q.(publications := q.publications[p := updated],
            history := if outcome in q.history[p] then q.history else q.history[p := q.history[p] + [outcome]]),
         Ok(updated))
  }

  // ----- deliveries -----

  function CreateDelivery(q: Queue, m: MessageId, provider: Option<string>, redrive: bool): (Queue, Result<Delivery,
        QueueError>) {
    if m !in q.messages then (q, Err(KeyError))
    else
      var e := q.messages[m];
      if e.request in q.rejected then (q, Err(StateError))
      else if !redrive && DeadLetterFor(q.deadLetters, m).Some? then (q, Err(StateError))
      else
        var n := |q.deliveries| + 1;
        var d := Delivery(n, e.request, m, e.attempt,
                          if e.provenance.Some? then Original(e.provenance.value) else FromPublication(e.publication),
                          if provider.Some? then Given(provider.value) else InMemory(n),
                          CountFor(q.deliveries, m));
        (q.(deliveries := q.deliveries + [d]), Ok(d))
  }

  function Deliver(q: Queue, m: MessageId): (Queue, Result<Delivery, QueueError>) {
    var p := PublicationFor(q, m);
    if p.None? then (q, Err(KeyError))
    else if p.value.state != ConfirmedSuccess && p.value.state != ConfirmedDuplicate then (q, Err(StateError))
    else CreateDelivery(q, m, None, false)
  }

  function ProviderDelivery(q: Queue, m: MessageId, reference: string): (Queue, Result<Delivery, QueueError>) {
    var p := PublicationFor(q, m);
    if p.None? then (q, Err(KeyError))
    else if p.value.state != ResultUncertain && p.value.state != ConfirmedSuccess && p.value.state != ConfirmedDuplicate
    then (q, Err(StateError))
    else CreateDelivery(q, m, Some(reference), false)
  }

  function Redeliver(q: Queue, d: DeliveryId): (Queue, Result<Delivery, QueueError>) {
    if !IsDelivery(q, d) then (q, Err(KeyError)) else CreateDelivery(q, DeliveryOf(q, d).message, None, false)
  }

  // ----- controls and claims -----

  function SetControl(q: Queue, r: RequestId, state: ControlState): (Queue, Result<(), QueueError>) {
    if r in q.rejected && state == Active then (q, Err(StateError))
    else if r !in q.rejected && Control(q.controls, r) != Active && state == Active then (q, Err(StateError))
    else (q.(controls := q.controls[r := state]), Ok(()))
  }

  /** The claims after the registered claim of message `m` loses its lease to a new one. */
  function ReplaceRegistered(q: Queue, m: MessageId): seq<Claim> {
    if m in q.current && IsClaim(q, q.current[m]) && Live(ClaimOf(q, q.current[m]).state)
    then q.claims[q.current[m] - 1 := ClaimOf(q, q.current[m]).(state := Replaced)]
    else q.claims
  }

  function RegisterClaim(q: Queue, m: MessageId, claim: Claim): Queue {
    q.(claims := ReplaceRegistered(q, m) + [claim], current := q.current[m := claim.id],
       fenceSequence := q.fenceSequence + 1)
  }

  function TakeClaim(q: Queue, d: DeliveryId, worker: WorkerRef): (Queue, Result<Claim, QueueError>) {
    if !IsDelivery(q, d) then (q, Err(KeyError))
    else if !CanProcess(q, d) then (q, Err(StateError))
    else
      var claim := Claim(|q.claims| + 1, d, worker, q.fenceSequence + 1, Current);
      (RegisterClaim(q, DeliveryOf(q, d).message, claim), Ok(claim))
  }

  function SetClaimState(q: Queue, c: ClaimId, state: ClaimState): Queue
    requires IsClaim(q, c)
  {
    q.(claims := q.claims[c - 1 := ClaimOf(q, c).(state := state)])
  }

  function MarkUncertain(q: Queue, c: ClaimId): (Queue, Result<Claim, QueueError>) {
    if !IsClaim(q, c) then (q, Err(KeyError))
    else if ClaimOf(q, c).state != Current then (q, Err(StateError))
    else (SetClaimState(q, c, RenewalUncertain), Ok(ClaimOf(q, c).(state := RenewalUncertain)))
  }

  function ConfirmLoss(q: Queue, c: ClaimId): (Queue, Result<Claim, QueueError>) {
    if !IsClaim(q, c) then (q, Err(KeyError))
    else (SetClaimState(q, c, LeaseLost), Ok(ClaimOf(q, c).(state := LeaseLost)))
  }

  // ----- results -----

  function SlotOf(b: Binding): Slot {
    Slot(b.request, b.message, b.attempt, b.slotReference)
  }

  function MarkConflicted(q: Queue, m: MessageId): Queue {
    q.(conflicted := q.conflicted + {m})
  }

  /** The result is accepted in its slot unless it already is, and this submission is recorded once. */
  function StoreAccepted(q: Queue, b: Binding, submission: Submission): Queue {
    var known := if b.result in q.submissions then q.submissions[b.result] else [];
    q.(accepted := q.accepted[b.result := b],
       slots := if b.result in q.accepted then q.slots else q.slots[SlotOf(b) := b.result],
       submissions := q.submissions[b.result := if submission in known then known else known + [submission]])
  }

  /** The one operation that changes state before it raises: a conflict marks the message. */
  function AcceptResult(q: Queue, c: ClaimId, b: Binding, occurrence: string): (Queue, Result<Binding, QueueError>) {
    if !IsClaim(q, c) || !IsDelivery(q, ClaimOf(q, c).delivery) then (q, Err(KeyError))
    else
      var claim := ClaimOf(q, c);
      var delivery := DeliveryOf(q, claim.delivery);
      if delivery.message !in q.messages then (q, Err(KeyError))
      else if !CanProduce(q, c) then (q, Err(StateError))
      else if b.request != delivery.request || b.message != delivery.message || Some(b.attempt) != delivery.attempt
      then (q, Err(ConflictError))
      else if SlotOf(b) in q.slots && q.slots[SlotOf(b)] != b.result
      then (MarkConflicted(q, delivery.message), Err(ConflictError))
      else if b.result in q.accepted && q.accepted[b.result] != b
      then (MarkConflicted(q, delivery.message), Err(ConflictError))
      else
        var e := q.messages[delivery.message];
        var submission := Submission(b, occurrence, claim.delivery, claim.worker, c, claim.fence,
                                     e.contractVersion, e.schemaVersion, e.integrity);
        (StoreAccepted(q, b, submission), Ok(b))
  }

  predicate AckEligible(q: Queue, d: DeliveryId, c: ClaimId, readiness: Readiness)
    requires IsDelivery(q, d) && IsClaim(q, c)
  {
    && readiness.succeeded && q.required <= readiness.effects
    && ClaimOf(q, c).delivery == d
    && DeliveryOf(q, d).request !in q.rejected
    && CanProduce(q, c)
    && DeliveryOf(q, d).message !in q.conflicted
  }

  function Acknowledge(q: Queue, d: DeliveryId, c: ClaimId, readiness: Readiness): (Queue, Result<bool, QueueError>) {
    if !IsDelivery(q, d) || !IsClaim(q, c) then (q, Err(KeyError))
    else if AckEligible(q, d, c, readiness) then (q.(acknowledged := q.acknowledged + {d}), Ok(true))
    else (q, Ok(false))
  }

  // ----- failures, dead letters and redrives -----

  function RevokedIf(claim: Claim, hit: bool): Claim {
    if hit && Live(claim.state) then claim.(state := Revoked) else claim
  }

  /** Every live claim of the delivery is revoked. */
  function RevokeDelivery(claims: seq<Claim>, d: DeliveryId): (r: seq<Claim>)
    ensures |r| == |claims|
    ensures forall i :: 0 <= i < |r| ==> r[i] == RevokedIf(claims[i], claims[i].delivery == d)
  {
    if claims == [] then []
    else
      var n := |claims| - 1;
      RevokeDelivery(claims[..n], d) + [RevokedIf(claims[n], claims[n].delivery == d)]
  }

  predicate BelongsTo(deliveries: seq<Delivery>, claim: Claim, r: RequestId) {
    1 <= claim.delivery <= |deliveries| && deliveries[claim.delivery - 1].request == r
  }

  /** Every live claim of the semantic request is revoked. */
  function RevokeRequest(claims: seq<Claim>, deliveries: seq<Delivery>, r: RequestId): (s: seq<Claim>)
    ensures |s| == |claims|
    ensures forall i :: 0 <= i < |s| ==> s[i] == RevokedIf(claims[i], BelongsTo(deliveries, claims[i], r))
  {
    if claims == [] then []
    else
      var n := |claims| - 1;
      RevokeRequest(claims[..n], deliveries, r) + [RevokedIf(claims[n], BelongsTo(deliveries, claims[n], r))]
  }

  function Limit(policy: RetryPolicy, c: FailureClass): int {
    if c == Poison then policy.maxPoison else policy.maxTransport
  }

  function Failures(q: Queue, d: DeliveryId, c: FailureClass): nat {
    if (d, c) in q.failures then q.failures[(d, c)] else 0
  }

  /** The rejection is sticky and revokes every live claim of the request. */
  function RejectRequest(q: Queue, r: RequestId): Queue {
    q.(rejected := q.rejected + {r}, claims := RevokeRequest(q.claims, q.deliveries, r))
  }

  /** One more failure of the class; the one that reaches the limit dead-letters the delivery. */
  function CountFailure(q: Queue, delivery: Delivery, d: DeliveryId, c: FailureClass, dead: bool): Queue {
    var counted := q.failures[(d, c) := Failures(q, d, c) + 1];
    if dead
    then q.(failures := counted, deadLetters := q.deadLetters + [DeadLetter(delivery, c)],
            claims := RevokeDelivery(q.claims, d))
    else q.(failures := counted)
  }

  /** The disposition of a failure of open work. */
  function Disposition(q: Queue, delivery: Delivery, d: DeliveryId, c: FailureClass): (Queue, RetryDecision) {
    if c == SecurityRejection then (RejectRequest(q, delivery.request), RetryDecision(false, false))
    else if c == Application then (q, RetryDecision(false, false))
    else
      var dead := Failures(q, d, c) + 1 >= Limit(q.policy, c);
      (CountFailure(q, delivery, d, c, dead), RetryDecision(!dead, dead))
  }

  function ClassifyFailure(q: Queue, d: DeliveryId, c: FailureClass): (Queue, Result<RetryDecision, QueueError>) {
    if !IsDelivery(q, d) then (q, Err(KeyError))
    else
      var delivery := DeliveryOf(q, d);
      if DeadLettered(q.deadLetters, d) then (q, Err(StateError))
      else if Control(q.controls, delivery.request) != Active then (q, Err(StateError))
      else if delivery.request in q.rejected then
        if c == SecurityRejection then (q, Ok(RetryDecision(false, false))) else (q, Err(StateError))
      else
        var disposed := Disposition(q, delivery, d, c);
        (disposed.0, Ok(disposed.1))
  }

  datatype RedriveSource = FromDelivery(delivery: DeliveryId) | FromMessage(message: MessageId)

  function CountOf(counts: map<MessageId, nat>, m: MessageId): nat {
    if m in counts then counts[m] else 0
  }

  function RedriveCount(q: Queue, m: MessageId): nat {
    CountOf(q.redriveCounts, m)
  }

  function SourceLetter(dead: seq<DeadLetter>, source: RedriveSource): Option<DeadLetter> {
    match source
    case FromDelivery(d) => DeadLetterOf(dead, d)
    case FromMessage(m) => DeadLetterFor(dead, m)
  }

  /** `valid` is the outcome of re-validating the stored envelope. */
  function RedriveWork(q: Queue, source: RedriveSource, actor: string, authorization: Option<Authorization>,
        valid: bool)
    : (Queue, Result<Delivery, QueueError>)
  {
    if authorization.None? || !authorization.value.authorized then (q, Err(StateError))
    else
      var letter := SourceLetter(q.deadLetters, source);
      if letter.None? then (q, Err(StateError))
      else
        var from := letter.value.source;
        if Control(q.controls, from.request) != Active then (q, Err(StateError))
        else if from.request in q.rejected then (q, Err(StateError))
        else if from.message !in q.messages then (q, Err(KeyError))
        else if !valid then (q, Err(ValidationError))
        else if RedriveCount(q, from.message) >= q.policy.maxRedrives then (q, Err(StateError))
        else
          var counted := q.(redriveCounts := q.redriveCounts[from.message := RedriveCount(q, from.message) + 1]);
          var (after, r) := CreateDelivery(counted, from.message, None, true);
          if r.Err? then (after, r)
          else
            var a := authorization.value;
            var record := Redrive(actor, from.provenance, from.id, from.message, from.request, r.value.id,
                                  letter.value.classification, a.context, a.policyVersion, a.decision);
            (after.(redrives := after.redrives[r.value.id := record]), r)
  }

  // ----- one step of any operation -----

  datatype Op =
    | OpPublish(envelope: Envelope, valid: bool)
    | OpOutcome(publication: PublicationId, state: PublicationState, reference: string)
    | OpDeliver(message: MessageId)
    | OpProviderDelivery(message: MessageId, reference: string)
    | OpRedeliver(delivery: DeliveryId)
    | OpControl(request: RequestId, control: ControlState)
    | OpClaim(delivery: DeliveryId, worker: WorkerRef)
    | OpMarkUncertain(claim: ClaimId)
    | OpConfirmLoss(claim: ClaimId)
    | OpAccept(claim: ClaimId, binding: Binding, occurrence: string)
    | OpAcknowledge(delivery: DeliveryId, claim: ClaimId, readiness: Readiness)
    | OpClassify(delivery: DeliveryId, classification: FailureClass)
    | OpRedrive(source: RedriveSource, actor: string, authorization: Option<Authorization>, valid: bool)

  function Step(q: Queue, op: Op): Queue {
    match op
    case OpPublish(e, valid) => Publish(q, e, valid).0
    case OpOutcome(p, state, reference) => RecordOutcome(q, p, state, reference).0
    case OpDeliver(m) => Deliver(q, m).0
    case OpProviderDelivery(m, reference) => ProviderDelivery(q, m, reference).0
    case OpRedeliver(d) => Redeliver(q, d).0
    case OpControl(r, state) => SetControl(q, r, state).0
    case OpClaim(d, worker) => TakeClaim(q, d, worker).0
    case OpMarkUncertain(c) => MarkUncertain(q, c).0
    case OpConfirmLoss(c) => ConfirmLoss(q, c).0
    case OpAccept(c, b, occurrence) => AcceptResult(q, c, b, occurrence).0
    case OpAcknowledge(d, c, readiness) => Acknowledge(q, d, c, readiness).0
    case OpClassify(d, c) => ClassifyFailure(q, d, c).0
    case OpRedrive(source, actor, authorization, valid) => RedriveWork(q, source, actor, authorization, valid).0
  }

  function Run(q: Queue, ops: seq<Op>): Queue {
    if ops == [] then q else Step(Run(q, ops[..|ops| - 1]), ops[|ops| - 1])
  }
}
