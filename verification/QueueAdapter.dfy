/**
 The in-memory adapter itself: an object whose operations update its collections. Each
 operation is proved to be the transition function of the same name, and any sequence of
 calls to be a run, so every run-wide promise proved of runs holds of the object.
 */
module QueueAdapter {
  import opened Prelude
  import opened QueueModel

  class InMemoryQueueAdapter {
    const policy: RetryPolicy
    const required: set<DurableEffect>
    var messages: map<MessageId, Envelope>
    var publications: map<PublicationId, Publication>
    var history: map<PublicationId, seq<Outcome>>
    var deliveries: seq<Delivery>
    var claims: seq<Claim>
    var current: map<MessageId, ClaimId>
    var controls: map<RequestId, ControlState>
    var accepted: map<ResultId, Binding>
    var slots: map<Slot, ResultId>
    var submissions: map<ResultId, seq<Submission>>
    var conflicted: set<MessageId>
    var rejected: set<RequestId>
    var failures: map<(DeliveryId, FailureClass), nat>
    var deadLetters: seq<DeadLetter>
    var redriveCounts: map<MessageId, nat>
    var redrives: map<DeliveryId, Redrive>
    var acknowledged: set<DeliveryId>
    var deliverySequence: nat
    var claimSequence: nat
    var fenceSequence: nat

    ghost predicate Valid()
      reads this
    {
      deliverySequence == |deliveries| && claimSequence == |claims|
    }

    function State(): Queue
      reads this
    {
      Queue(policy, required, messages, publications, history, deliveries, claims, current, controls, accepted, slots,
            submissions,
            conflicted, rejected, failures, deadLetters, redriveCounts, redrives, acknowledged, fenceSequence)
    }

    constructor (policy: RetryPolicy, required: set<DurableEffect>)
      ensures Valid() && State() == Initial(policy, required)
    {
      this.policy, this.required := policy, required;
      messages, publications, history := map[], map[], map[];
      deliveries, claims, current := [], [], map[];
      controls, accepted, slots, submissions := map[], map[], map[], map[];
      conflicted, rejected, failures, deadLetters := {}, {}, map[], [];
      redriveCounts, redrives, acknowledged := map[], map[], {};
      deliverySequence, claimSequence, fenceSequence := 0, 0, 0;
    }

    // ----- publication -----

    method Publish(e: Envelope, valid: bool) returns (r: Result<Publication, QueueError>)
      requires Valid()
      modifies this
      ensures Valid() && (State(), r) == QueueModel.Publish(old(State()), e, valid)
    {
      hide CanProduce, ClaimedBindingHolds;
      if !valid { return Err(ValidationError); }
      if e.publication.None? || e.publicationState != Some(NotAttempted) { return Err(StateError); }
      if e.claim.Some? {
        if !CanProduce(State(), e.claim.value) { return Err(StateError); }
        if !ClaimedBindingHolds(State(), e) { return Err(ConflictError); }
      }
      if e.message in messages && messages[e.message] != e { return Err(ConflictError); }
      var p := e.publication.value;
      if p in publications {
        if publications[p].request != e.request || publications[p].message != e.message { return Err(ConflictError); }
        return Ok(publications[p]);
      }
      var record := StoreMessage(e, p);
      return Ok(record);
    }

    method StoreMessage(e: Envelope, p: PublicationId) returns (record: Publication)
      modifies `messages, `controls, `publications, `history
      ensures record == Publication(p, e.request, e.message, NotAttempted)
      ensures messages == old(messages)[e.message := e]
      ensures controls == if e.request in old(controls) then old(controls) else old(controls)[e.request := Active]
      ensures publications == old(publications)[p := record] && history == old(history)[p := []]
    {
      messages := messages[e.message := e];
      if e.request !in controls { controls := controls[e.request := Active]; }
      record := Publication(p, e.request, e.message, NotAttempted);
      publications := publications[p := record];
      history := history[p := []];
    }

    /** Whether any delivery of the message exists. */
    method AnyDelivery(m: MessageId) returns (found: bool)
      ensures found == Delivered(deliveries, m)
    {
      var i := 0;
      while i < |deliveries|
        invariant 0 <= i <= |deliveries|
        invariant forall k :: 0 <= k < i ==> deliveries[k].message != m
      {
        if deliveries[i].message == m { return true; }
        i := i + 1;
      }
      return false;
    }

    method RecordPublicationOutcome(p: PublicationId, state: PublicationState,
        reference: string) returns (r: Result<Publication, QueueError>)
      requires Valid()
      modifies this
      ensures Valid() && (State(), r) == RecordOutcome(old(State()), p, state, reference)
    {
      hide Delivered;
      if state == NotAttempted { return Err(StateError); }
      if p !in publications || p !in history { return Err(KeyError); }
      var record := publications[p];
      if state == RejectedBeforeAcceptance || state == ConfirmedFailure {
        var delivered := AnyDelivery(record.message);
        if delivered { return Err(ConflictError); }
      }
      if record.state != NotAttempted && record.state != ResultUncertain && record.state != state {
        return Err(ConflictError);
      }
      var updated := record.(state := state);
      StoreOutcome(p, updated, Outcome(p, state, reference));
      return Ok(updated);
    }

    method StoreOutcome(p: PublicationId, updated: Publication, outcome: Outcome)
      requires p in history
      modifies `publications, `history
      ensures publications == old(publications)[p := updated]
      ensures history == if outcome in old(history)[p] then old(history)
                         else old(history)[p := old(history)[p] + [outcome]]
    {
      publications := publications[p := updated];
      if outcome !in history[p] { history := history[p := history[p] + [outcome]]; }
    }

    // ----- deliveries -----

    /** The number of earlier deliveries of the message. */
    method PriorDeliveries(m: MessageId) returns (prior: nat)
      ensures prior == CountFor(deliveries, m)
    {
      prior := 0;
      var i := 0;
      while i < |deliveries|
        invariant 0 <= i <= |deliveries|
        invariant prior == CountFor(deliveries[..i], m)
      {
        assert deliveries[..i + 1][..i] == deliveries[..i];
        if deliveries[i].message == m { prior := prior + 1; }
        i := i + 1;
      }
      assert deliveries[..i] == deliveries;
    }

    /** The message's dead letters, searched newest first. */
    method DeadLetterForMessage(m: MessageId) returns (found: Option<DeadLetter>)
      ensures found == DeadLetterFor(deadLetters, m)
    {
      var i := |deadLetters|;
      assert deadLetters[..i] == deadLetters;
      while i > 0
        invariant 0 <= i <= |deadLetters|
        invariant DeadLetterFor(deadLetters, m) == DeadLetterFor(deadLetters[..i], m)
      {
        i := i - 1;
        assert deadLetters[..i + 1][..i] == deadLetters[..i];
        if deadLetters[i].source.message == m { return Some(deadLetters[i]); }
      }
      return None;
    }

    method CreateDelivery(m: MessageId, provider: Option<string>, redrive: bool) returns (r: Result<Delivery,
        QueueError>)
      requires deliverySequence == |deliveries|
      modifies `deliveries, `deliverySequence
      ensures deliverySequence == |deliveries|
      ensures (State(), r) == QueueModel.CreateDelivery(old(State()), m, provider, redrive)
    {
      hide CountFor, DeadLetterFor;
      if m !in messages { return Err(KeyError); }
      var e := messages[m];
      if e.request in rejected { return Err(StateError); }
      if !redrive {
        var letter := DeadLetterForMessage(m);
        if letter.Some? { return Err(StateError); }
      }
      deliverySequence := deliverySequence + 1;
      var prior := PriorDeliveries(m);
      var delivery := Delivery(deliverySequence, e.request, m, e.attempt,
                               if e.provenance.Some?
                               then Original(e.provenance.value)
                               else FromPublication(e.publication),
                               if provider.Some? then Given(provider.value) else InMemory(deliverySequence),
                               prior);
      deliveries := deliveries + [delivery];
      return Ok(delivery);
    }

    method Deliver(m: MessageId) returns (r: Result<Delivery, QueueError>)
      requires Valid()
      modifies this
      ensures Valid() && (State(), r) == QueueModel.Deliver(old(State()), m)
    {
      hide QueueModel.CreateDelivery;
      var p := PublicationFor(State(), m);
      if p.None? { return Err(KeyError); }
      if p.value.state != ConfirmedSuccess && p.value.state != ConfirmedDuplicate { return Err(StateError); }
      r := CreateDelivery(m, None, false);
    }

    method RecordProviderDelivery(m: MessageId, reference: string) returns (r: Result<Delivery, QueueError>)
      requires Valid()
      modifies this
      ensures Valid() && (State(), r) == ProviderDelivery(old(State()), m, reference)
    {
      hide QueueModel.CreateDelivery;
      var p := PublicationFor(State(), m);
      if p.None? { return Err(KeyError); }
      if p.value.state != ResultUncertain && p.value.state != ConfirmedSuccess && p.value.state != ConfirmedDuplicate {
        return Err(StateError);
      }
      r := CreateDelivery(m, Some(reference), false);
    }

    method Redeliver(d: DeliveryId) returns (r: Result<Delivery, QueueError>)
      requires Valid()
      modifies this
      ensures Valid() && (State(), r) == QueueModel.Redeliver(old(State()), d)
    {
      hide QueueModel.CreateDelivery;
      if !IsDelivery(State(), d) { return Err(KeyError); }
      r := CreateDelivery(DeliveryOf(State(), d).message, None, false);
    }

    // ----- controls and claims -----

    method SetControl(request: RequestId, state: ControlState) returns (r: Result<(), QueueError>)
      requires Valid()
      modifies this
      ensures Valid() && (State(), r) == QueueModel.SetControl(old(State()), request, state)
    {
      var before := Control(controls, request);
      if request in rejected {
        if state == Active { return Err(StateError); }
      } else if before != Active && state == Active {
        return Err(StateError);
      }
      controls := controls[request := state];
      return Ok(());
    }

    method TakeClaim(d: DeliveryId, worker: WorkerRef) returns (r: Result<Claim, QueueError>)
      requires Valid()
      modifies this
      ensures Valid() && (State(), r) == QueueModel.TakeClaim(old(State()), d, worker)
    {
      hide CanProcess, RegisterClaim;
      if !IsDelivery(State(), d) { return Err(KeyError); }
      if !CanProcess(State(), d) { return Err(StateError); }
      var claim := Register(d, worker, deliveries[d - 1].message);
      return Ok(claim);
    }

    method Register(d: DeliveryId, worker: WorkerRef, m: MessageId) returns (claim: Claim)
      requires Valid()
      modifies `claims, `current, `claimSequence, `fenceSequence
      ensures Valid() && claim == Claim(|old(claims)| + 1, d, worker, old(fenceSequence) + 1, Current)
      ensures State() == RegisterClaim(old(State()), m, claim)
    {
      ReplaceClaim(m);
      claim := AddClaim(d, worker, m);
    }

    /** The message's live registered claim, if any, loses its lease to a newer one. */
    method ReplaceClaim(m: MessageId)
      modifies `claims
      ensures claims == ReplaceRegistered(old(State()), m)
    {
      if m in current && IsClaim(State(), current[m]) {
        var previous := claims[current[m] - 1];
        if Live(previous.state) { claims := claims[current[m] - 1 := previous.(state := Replaced)]; }
      }
    }

    method AddClaim(d: DeliveryId, worker: WorkerRef, m: MessageId) returns (claim: Claim)
      modifies `claims, `current, `claimSequence, `fenceSequence
      ensures claimSequence == old(claimSequence) + 1 && fenceSequence == old(fenceSequence) + 1
      ensures claim == Claim(claimSequence, d, worker, fenceSequence, Current)
      ensures claims == old(claims) + [claim] && current == old(current)[m := claim.id]
    {
      claimSequence := claimSequence + 1;
      fenceSequence := fenceSequence + 1;
      claim := Claim(claimSequence, d, worker, fenceSequence, Current);
      claims := claims + [claim];
      current := current[m := claim.id];
    }

    method MarkRenewalUncertain(c: ClaimId) returns (r: Result<Claim, QueueError>)
      requires Valid()
      modifies this
      ensures Valid() && (State(), r) == MarkUncertain(old(State()), c)
    {
      if !IsClaim(State(), c) { return Err(KeyError); }
      var claim := claims[c - 1];
      if claim.state != Current { return Err(StateError); }
      var updated := claim.(state := RenewalUncertain);
      claims := claims[c - 1 := updated];
      return Ok(updated);
    }

    method ConfirmLeaseLoss(c: ClaimId) returns (r: Result<Claim, QueueError>)
      requires Valid()
      modifies this
      ensures Valid() && (State(), r) == ConfirmLoss(old(State()), c)
    {
      if !IsClaim(State(), c) { return Err(KeyError); }
      var updated := claims[c - 1].(state := LeaseLost);
      claims := claims[c - 1 := updated];
      return Ok(updated);
    }

    // ----- results -----

    method AcceptResult(c: ClaimId, b: Binding, occurrence: string) returns (r: Result<Binding, QueueError>)
      requires Valid()
      modifies this
      ensures Valid() && (State(), r) == QueueModel.AcceptResult(old(State()), c, b, occurrence)
    {
      hide CanProduce, StoreAccepted, MarkConflicted;
      if !IsClaim(State(), c) || !IsDelivery(State(), claims[c - 1].delivery) { return Err(KeyError); }
      var claim := claims[c - 1];
      var delivery := deliveries[claim.delivery - 1];
      if delivery.message !in messages { return Err(KeyError); }
      var e := messages[delivery.message];
      if !CanProduce(State(), c) { return Err(StateError); }
      if b.request != delivery.request || b.message != delivery.message || Some(b.attempt) != delivery.attempt {
        return Err(ConflictError);
      }
      var slot := SlotOf(b);
      if slot in slots && slots[slot] != b.result {
        Conflict(delivery.message);
        return Err(ConflictError);
      }
      if b.result in accepted && accepted[b.result] != b {
        Conflict(delivery.message);
        return Err(ConflictError);
      }
      Store(b, Submission(b, occurrence, claim.delivery, claim.worker, c, claim.fence,
                          e.contractVersion, e.schemaVersion, e.integrity));
      return Ok(b);
    }

    method Conflict(m: MessageId)
      modifies `conflicted
      ensures State() == MarkConflicted(old(State()), m)
    {
      conflicted := conflicted + {m};
    }

    method Store(b: Binding, submission: Submission)
      requires b.result in accepted ==> accepted[b.result] == b
      modifies `accepted, `slots, `submissions
      ensures State() == StoreAccepted(old(State()), b, submission)
    {
      AddResult(b, submission);
    }

    method AddResult(b: Binding, submission: Submission)
      requires b.result in accepted ==> accepted[b.result] == b
      modifies `accepted, `slots, `submissions
      ensures accepted == old(accepted)[b.result := b]
      ensures slots == if b.result in old(accepted) then old(slots) else old(slots)[SlotOf(b) := b.result]
      ensures var known := if b.result in old(submissions) then old(submissions)[b.result] else [];
              submissions == old(submissions)[b.result := if submission in known then known else known + [submission]]
    {
      if b.result !in accepted {
        accepted := accepted[b.result := b];
        slots := slots[SlotOf(b) := b.result];
      }
      if b.result !in submissions { submissions := submissions[b.result := []]; }
      if submission !in submissions[b.result] {
        submissions := submissions[b.result := submissions[b.result] + [submission]];
      }
    }

    method Acknowledge(d: DeliveryId, c: ClaimId, readiness: Readiness) returns (r: Result<bool, QueueError>)
      requires Valid()
      modifies this
      ensures Valid() && (State(), r) == QueueModel.Acknowledge(old(State()), d, c, readiness)
    {
      hide CanProduce;
      if !IsDelivery(State(), d) || !IsClaim(State(), c) { return Err(KeyError); }
      if !AckEligible(State(), d, c, readiness) { return Ok(false); }
      acknowledged := acknowledged + {d};
      return Ok(true);
    }

    // ----- failures, dead letters and redrives -----

    /** Revokes every live claim of one delivery. */
    method RevokeClaimsOfDelivery(d: DeliveryId)
      modifies `claims
      ensures claims == RevokeDelivery(old(claims), d)
    {
      var i := 0;
      while i < |claims|
        invariant 0 <= i <= |claims| == |old(claims)|
        invariant forall k :: 0 <= k < i ==> claims[k] == RevokedIf(old(claims)[k], old(claims)[k].delivery == d)
        invariant forall k :: i <= k < |claims| ==> claims[k] == old(claims)[k]
      {
        if claims[i].delivery == d && Live(claims[i].state) { claims := claims[i := claims[i].(state := Revoked)]; }
        i := i + 1;
      }
    }

    /** Makes a security rejection of the delivery's whole request sticky. */
    method EstablishSecurityRejection(delivery: Delivery)
      modifies `claims, `rejected
      ensures rejected == old(rejected) + {delivery.request}
      ensures claims == RevokeRequest(old(claims), deliveries, delivery.request)
    {
      rejected := rejected + {delivery.request};
      var i := 0;
      while i < |claims|
        invariant 0 <= i <= |claims| == |old(claims)|
        invariant rejected == old(rejected) + {delivery.request}
        invariant forall k :: 0 <= k < i ==>
                  claims[k] == RevokedIf(old(claims)[k], BelongsTo(deliveries, old(claims)[k], delivery.request))
        invariant forall k :: i <= k < |claims| ==> claims[k] == old(claims)[k]
      {
        if Live(claims[i].state) {
          if BelongsTo(deliveries, claims[i], delivery.request) { claims := claims[i := claims[i].(state := Revoked)]; }
        }
        i := i + 1;
      }
    }

    method HasDeadLetter(d: DeliveryId) returns (found: bool)
      ensures found == DeadLettered(deadLetters, d)
    {
      var i := 0;
      while i < |deadLetters|
        invariant 0 <= i <= |deadLetters|
        invariant forall k :: 0 <= k < i ==> deadLetters[k].source.id != d
      {
        if deadLetters[i].source.id == d { return true; }
        i := i + 1;
      }
      return false;
    }

    method ClassifyFailure(d: DeliveryId, c: FailureClass) returns (r: Result<RetryDecision, QueueError>)
      requires Valid()
      modifies this
      ensures Valid() && (State(), r) == QueueModel.ClassifyFailure(old(State()), d, c)
    {
      hide DeadLettered, Control, Disposition;
      if !IsDelivery(State(), d) { return Err(KeyError); }
      var delivery := deliveries[d - 1];
      var lettered := HasDeadLetter(d);
      if lettered { return Err(StateError); }
      if Control(controls, delivery.request) != Active { return Err(StateError); }
      if delivery.request in rejected {
        if c == SecurityRejection { return Ok(RetryDecision(false, false)); }
        return Err(StateError);
      }
      ghost var q := State();
      assert QueueModel.ClassifyFailure(q, d, c) ==
             (Disposition(q, delivery, d, c).0, Ok(Disposition(q, delivery, d, c).1));
      var decision := Dispose(delivery, d, c);
      return Ok(decision);
    }

    /** The disposition of a failure of open work. */
    method Dispose(delivery: Delivery, d: DeliveryId, c: FailureClass) returns (decision: RetryDecision)
      requires Valid()
      modifies `claims, `rejected, `failures, `deadLetters
      ensures Valid() && State() == Disposition(old(State()), delivery, d, c).0
      ensures decision == Disposition(old(State()), delivery, d, c).1
    {
      hide RejectRequest, CountFailure, Failures, Limit;
      if c == SecurityRejection {
        Reject(delivery);
        return RetryDecision(false, false);
      }
      if c == Application { return RetryDecision(false, false); }
      var dead := Count(delivery, d, c);
      return RetryDecision(!dead, dead);
    }

    method Reject(delivery: Delivery)
      modifies `claims, `rejected
      ensures |claims| == old(|claims|) && State() == RejectRequest(old(State()), delivery.request)
    {
      EstablishSecurityRejection(delivery);
    }

    method Count(delivery: Delivery, d: DeliveryId, c: FailureClass) returns (dead: bool)
      modifies `failures, `deadLetters, `claims
      ensures dead == (Failures(old(State()), d, c) + 1 >= Limit(policy, c))
      ensures |claims| == old(|claims|) && State() == CountFailure(old(State()), delivery, d, c, dead)
    {
      hide RevokeDelivery;
      dead := AddFailure(delivery, d, c);
    }

    /** Counts a transport or poison failure; the one that reaches the limit dead-letters the delivery. */
    method AddFailure(delivery: Delivery, d: DeliveryId, c: FailureClass) returns (dead: bool)
      modifies `failures, `deadLetters, `claims
      ensures dead == (Failures(old(State()), d, c) + 1 >= Limit(policy, c))
      ensures failures == old(failures)[(d, c) := Failures(old(State()), d, c) + 1]
      ensures deadLetters == (if dead then old(deadLetters) + [DeadLetter(delivery, c)] else old(deadLetters))
      ensures |claims| == old(|claims|) && claims == (if dead then RevokeDelivery(old(claims), d) else old(claims))
    {
      hide RevokeDelivery, Limit;
      var count := (if (d, c) in failures then failures[(d, c)] else 0) + 1;
      failures := failures[(d, c) := count];
      if count < Limit(policy, c) { return false; }
      deadLetters := deadLetters + [DeadLetter(delivery, c)];
      RevokeClaimsOfDelivery(d);
      return true;
    }

    method Redrive(source: RedriveSource, actor: string, authorization: Option<Authorization>,
        valid: bool) returns (r: Result<Delivery, QueueError>)
      requires Valid()
      modifies this
      ensures Valid() && (State(), r) == RedriveWork(old(State()), source, actor, authorization, valid)
    {
      hide QueueModel.CreateDelivery, DeadLetterFor, DeadLetterOf, Control, CountOf;
      if authorization.None? || !authorization.value.authorized { return Err(StateError); }
      var a := authorization.value;
      var letter: Option<DeadLetter>;
      match source {
        case FromDelivery(d) => letter := DeadLetterOf(deadLetters, d);
        case FromMessage(m) => letter := DeadLetterForMessage(m);
      }
      if letter.None? { return Err(StateError); }
      var from := letter.value.source;
      if Control(controls, from.request) != Active { return Err(StateError); }
      if from.request in rejected { return Err(StateError); }
      if from.message !in messages { return Err(KeyError); }
      if !valid { return Err(ValidationError); }
      var count := CountOf(redriveCounts, from.message);
      if count >= policy.maxRedrives { return Err(StateError); }
      redriveCounts := redriveCounts[from.message := count + 1];
      r := CreateDelivery(from.message, None, true);
      if r.Ok? {
        var record := QueueModel.Redrive.Redrive(actor, from.provenance, from.id, from.message, from.request,
                                                 r.value.id,
                              letter.value.classification, a.context, a.policyVersion, a.decision);
        redrives := redrives[r.value.id := record];
      }
    }

    // ----- any sequence of calls -----

    method Perform(op: Op)
      requires Valid()
      modifies this
      ensures Valid() && State() == Step(old(State()), op)
    {
      hide QueueModel.Publish, RecordOutcome, QueueModel.Deliver, ProviderDelivery, QueueModel.Redeliver,
           QueueModel.SetControl,
           QueueModel.TakeClaim, MarkUncertain, ConfirmLoss, QueueModel.AcceptResult, QueueModel.Acknowledge,
           QueueModel.ClassifyFailure, RedriveWork, State, Valid;
      match op {
        case OpPublish(e, valid) => var _ := Publish(e, valid);
        case OpOutcome(p, state, reference) => var _ := RecordPublicationOutcome(p, state, reference);
        case OpDeliver(m) => var _ := Deliver(m);
        case OpProviderDelivery(m, reference) => var _ := RecordProviderDelivery(m, reference);
        case OpRedeliver(d) => var _ := Redeliver(d);
        case OpControl(r, state) => var _ := SetControl(r, state);
        case OpClaim(d, worker) => var _ := TakeClaim(d, worker);
        case OpMarkUncertain(c) => var _ := MarkRenewalUncertain(c);
        case OpConfirmLoss(c) => var _ := ConfirmLeaseLoss(c);
        case OpAccept(c, b, occurrence) => var _ := AcceptResult(c, b, occurrence);
        case OpAcknowledge(d, c, readiness) => var _ := Acknowledge(d, c, readiness);
        case OpClassify(d, c) => var _ := ClassifyFailure(d, c);
        case OpRedrive(source, actor, authorization, valid) => var _ := Redrive(source, actor, authorization, valid);
      }
    }

    /** Calls made one after another take the object through a run. */
    method PerformAll(ops: seq<Op>)
      requires Valid()
      modifies this
      ensures Valid() && State() == Run(old(State()), ops)
    {
      hide Step;
      var i := 0;
      while i < |ops|
        invariant 0 <= i <= |ops| && Valid()
        invariant State() == Run(old(State()), ops[..i])
      {
        Perform(ops[i]);
        assert ops[..i + 1][..i] == ops[..i];
        i := i + 1;
      }
      assert ops[..i] == ops;
    }
  }
}
