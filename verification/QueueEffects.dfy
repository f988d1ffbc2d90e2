/**
 What one operation of the queue accepts and stores: for every operation the exact condition
 under which it succeeds, what it then records, and that it touches nothing else.
 */
module QueueEffects {
  import opened Prelude
  import opened QueueModel
  import opened QueueInvariants
  import opened QueueEvolution
  import opened QueueTheorems

  /** Every key but one is as it was. */
  ghost predicate OthersKept<K(!new), V(!new)>(before: map<K, V>, after: map<K, V>, key: K) {
    forall k :: k != key ==> (k in after <==> k in before) && (k in before ==> after[k] == before[k])
  }

  /** Every claim but one is as it was. */
  ghost predicate OtherClaimsKept(before: seq<Claim>, after: seq<Claim>, c: ClaimId) {
    |after| == |before| && forall i :: 0 <= i < |before| && i != c - 1 ==> after[i] == before[i]
  }

  // ----- who may produce effects -----

  /** A claim may produce protected effects exactly while it is current, registered and its work is open. */
  lemma PowerMeans(q: Queue, c: ClaimId)
    ensures CanProduce(q, c) <==>
              && 1 <= c <= |q.claims| && q.claims[c - 1].state == Current
              && 1 <= q.claims[c - 1].delivery <= |q.deliveries|
              && var d := q.deliveries[q.claims[c - 1].delivery - 1];
              && d.message in q.current && q.current[d.message] == c
              && d.request !in q.rejected && q.claims[c - 1].delivery !in q.acknowledged
              && (d.request in q.controls ==> q.controls[d.request] == Active)
              && forall i :: 0 <= i < |q.deadLetters| ==> q.deadLetters[i].source.id != q.claims[c - 1].delivery
  {
  }

  /** Without the power a claim can neither submit nor acknowledge. */
  lemma PowerlessRefused(q: Queue, c: ClaimId, b: Binding, occurrence: string, d: DeliveryId, readiness: Readiness)
    requires !CanProduce(q, c)
    ensures AcceptResult(q, c, b, occurrence).1.Err? && AcceptResult(q, c, b, occurrence).0 == q
    ensures Acknowledge(q, d, c, readiness).1 != Ok(true) && Acknowledge(q, d, c, readiness).0 == q
  {
    hide CanProduce, StoreAccepted;
  }

  lemma PowerlessLater(q: Queue, c: ClaimId, more: seq<Op>)
    requires Good(q) && IsClaim(q, c) && !CanProduce(q, c)
    ensures !CanProduce(Run(q, more), c)
  {
    hide Good, Evolves, Run, CanProduce;
    RunEvolves(q, more);
    if CanProduce(Run(q, more), c) { PowerWasHeld(q, Run(q, more), c); }
  }

  // ----- leases -----

  lemma ClaimStateStored(q: Queue, c: ClaimId, state: ClaimState)
    requires IsClaim(q, c)
    ensures var q1 := SetClaimState(q, c, state);
            && IsClaim(q1, c) && q1.claims[c - 1] == q.claims[c - 1].(state := state)
            && OtherClaimsKept(q.claims, q1.claims, c) && q1 == q.(claims := q1.claims)
            && (state != Current ==> !CanProduce(q1, c))
  {
    hide CanProcess;
  }

  /**
   A confirmed lease loss is stored: the claim is LeaseLost, as answered, every other claim and
   record is as it was, and from then on the claim produces nothing, submits nothing and
   acknowledges nothing, over any run.
   */
  lemma LossEndsClaim(q: Queue, c: ClaimId, more: seq<Op>, b: Binding, occurrence: string, d: DeliveryId,
        readiness: Readiness)
    requires Good(q)
    ensures var (q1, r) := ConfirmLoss(q, c);
            && (r.Ok? <==> 1 <= c <= |q.claims|) && (r.Err? ==> r.error == KeyError && q1 == q)
            && (r.Ok? ==>
                  && r.value == q.claims[c - 1].(state := LeaseLost)
                  && IsClaim(q1, c) && q1.claims[c - 1] == r.value
                  && OtherClaimsKept(q.claims, q1.claims, c) && q1 == q.(claims := q1.claims)
                  && !CanProduce(q1, c) && !CanProduce(Run(q1, more), c)
                  && AcceptResult(Run(q1, more), c, b, occurrence).1.Err?
                  && Acknowledge(Run(q1, more), d, c, readiness).1 != Ok(true))
  {
    hide Good, CanProduce, Run, AcceptResult, Acknowledge, SetClaimState, OtherClaimsKept;
    if IsClaim(q, c) {
      ClaimStateStored(q, c, LeaseLost);
      ConfirmLossKeeps(q, c);
      var q1 := ConfirmLoss(q, c).0;
      PowerlessLater(q1, c, more);
      PowerlessRefused(Run(q1, more), c, b, occurrence, d, readiness);
    }
  }

  /** An uncertain renewal is stored on the current claim only, which then produces nothing over any run. */
  lemma UncertaintyStopsClaim(q: Queue, c: ClaimId, more: seq<Op>, b: Binding, occurrence: string, d: DeliveryId,
        readiness: Readiness)
    requires Good(q)
    ensures var (q1, r) := MarkUncertain(q, c);
            && (r.Ok? <==> 1 <= c <= |q.claims| && q.claims[c - 1].state == Current)
            && (r.Err? ==> q1 == q && r.error == if 1 <= c <= |q.claims| then StateError else KeyError)
            && (r.Ok? ==>
                  && r.value == q.claims[c - 1].(state := RenewalUncertain)
                  && IsClaim(q1, c) && q1.claims[c - 1] == r.value
                  && OtherClaimsKept(q.claims, q1.claims, c) && q1 == q.(claims := q1.claims)
                  && !CanProduce(q1, c) && !CanProduce(Run(q1, more), c)
                  && AcceptResult(Run(q1, more), c, b, occurrence).1.Err?
                  && Acknowledge(Run(q1, more), d, c, readiness).1 != Ok(true))
  {
    hide Good, CanProduce, Run, AcceptResult, Acknowledge, SetClaimState, OtherClaimsKept;
    if IsClaim(q, c) && ClaimOf(q, c).state == Current {
      ClaimStateStored(q, c, RenewalUncertain);
      MarkUncertainKeeps(q, c);
      var q1 := MarkUncertain(q, c).0;
      PowerlessLater(q1, c, more);
      PowerlessRefused(Run(q1, more), c, b, occurrence, d, readiness);
    }
  }

  // ----- controls -----

  /** Whether work is active, cancelled, revoked, deleted or superseded; work nobody controlled is active. */
  ghost predicate InState(q: Queue, r: RequestId, state: ControlState) {
    if r in q.controls then q.controls[r] == state else state == Active
  }

  /**
   A control is stored for its request and no other. Work can be set active only while it is, and
   not once rejected; in any other state no claim of it produces anything, at once or over any run.
   */
  lemma ControlStops(q: Queue, r: RequestId, state: ControlState, more: seq<Op>, c: ClaimId)
    requires Good(q)
    ensures var (q1, answer) := SetControl(q, r, state);
            && (answer.Ok? <==> state != Active || (r !in q.rejected && InState(q, r, Active)))
            && (answer.Err? ==> answer.error == StateError && q1 == q)
            && (answer.Ok? ==>
                  && r in q1.controls && q1.controls[r] == state && OthersKept(q.controls, q1.controls, r)
                  && q1 == q.(controls := q1.controls)
                  && (state != Active && IsClaim(q1, c) && WorkOf(q1, c, r) ==>
                        !CanProduce(q1, c) && !CanProduce(Run(q1, more), c)))
  {
    hide Good, Run, CanProduce, DeadLettered, CanProcess;
    ControlKeeps(q, r, state);
    var q1 := SetControl(q, r, state).0;
    if SetControl(q, r, state).1.Ok? && state != Active && IsClaim(q1, c) && WorkOf(q1, c, r) {
      StoppedWork(q1, c, r, state);
      PowerlessLater(q1, c, more);
    }
  }

  ghost predicate WorkOf(q: Queue, c: ClaimId, r: RequestId)
    requires IsClaim(q, c)
  {
    IsDelivery(q, q.claims[c - 1].delivery) && DeliveryOf(q, q.claims[c - 1].delivery).request == r
  }

  lemma StoppedWork(q: Queue, c: ClaimId, r: RequestId, state: ControlState)
    requires r in q.controls && q.controls[r] == state && state != Active && IsClaim(q, c) && WorkOf(q, c, r)
    ensures !CanProduce(q, c)
  {
  }

  // ----- claims -----

  /** The work of the delivery is open: not rejected, not dead-lettered, not acknowledged and active. */
  ghost predicate OpenDelivery(q: Queue, d: DeliveryId) {
    && 1 <= d <= |q.deliveries| && d !in q.acknowledged
    && q.deliveries[d - 1].request !in q.rejected && InState(q, q.deliveries[d - 1].request, Active)
    && forall i :: 0 <= i < |q.deadLetters| ==> q.deadLetters[i].source.id != d
  }

  lemma OpenMeans(q: Queue, d: DeliveryId)
    ensures OpenDelivery(q, d) <==> IsDelivery(q, d) && CanProcess(q, d)
  {
  }

  /**
   A claim is taken exactly of open work. It is appended as the next claim, current, with the next
   fence and registered for its message; a claim it takes over from, if it was live, is Replaced,
   and every other claim and record is as it was.
   */
  lemma ClaimTaken(q: Queue, d: DeliveryId, worker: WorkerRef)
    ensures var (q1, r) := TakeClaim(q, d, worker);
            && (r.Ok? <==> OpenDelivery(q, d))
            && (r.Err? ==> q1 == q && r.error == if 1 <= d <= |q.deliveries| then StateError else KeyError)
            && (r.Ok? ==> TakenFrom(q, q1, d, worker, r.value))
  {
    hide CanProcess, ReplaceRegistered, OpenDelivery, OthersKept;
    OpenMeans(q, d);
    if IsDelivery(q, d) && CanProcess(q, d) {
      var m := DeliveryOf(q, d).message;
      Replacing(q, m);
      RegisteredOnly(q.current, m, |q.claims| + 1);
    }
  }

  lemma RegisteredOnly(current: map<MessageId, ClaimId>, m: MessageId, c: ClaimId)
    ensures OthersKept(current, current[m := c], m)
  {
  }

  ghost predicate TakenFrom(q: Queue, q1: Queue, d: DeliveryId, worker: WorkerRef, claim: Claim) {
    && IsDelivery(q, d) && |q1.claims| == |q.claims| + 1 && q1.claims[|q.claims|] == claim
    && claim.id == |q.claims| + 1 && claim.delivery == d && claim.worker == worker && claim.state == Current
    && claim.fence == q1.fenceSequence == q.fenceSequence + 1
    && var m := q.deliveries[d - 1].message;
       && m in q1.current && q1.current[m] == claim.id && OthersKept(q.current, q1.current, m)
       && ClaimsReplaced(q, q1.claims[..|q.claims|], m)
       && q1 == q.(claims := q1.claims, current := q1.current, fenceSequence := q1.fenceSequence)
  }

  /** Only the registered claim of the message changes, and only to Replaced from a live state. */
  ghost predicate ClaimsReplaced(q: Queue, after: seq<Claim>, m: MessageId) {
    && |after| == |q.claims|
    && forall i :: 0 <= i < |q.claims| ==>
         if m in q.current && q.current[m] == i + 1 &&
            (q.claims[i].state == Current || q.claims[i].state == RenewalUncertain)
         then after[i] == q.claims[i].(state := Replaced)
         else after[i] == q.claims[i]
  }

  lemma Replacing(q: Queue, m: MessageId)
    ensures ClaimsReplaced(q, ReplaceRegistered(q, m), m)
    ensures |ReplaceRegistered(q, m)| == |q.claims|
  {
  }

  // ----- deliveries -----

  /** A message without a dead letter of any of its deliveries. */
  ghost predicate Unlettered(q: Queue, m: MessageId) {
    forall i :: 0 <= i < |q.deadLetters| ==> q.deadLetters[i].source.message != m
  }

  /** The next delivery of a stored message: its envelope's request, attempt and provenance, and its reference. */
  ghost predicate NextDelivery(q: Queue, q1: Queue, m: MessageId, provider: Option<string>, d: Delivery)
    requires m in q.messages
  {
    var e := q.messages[m];
    && q1 == q.(deliveries := q.deliveries + [d])
    && d.id == |q.deliveries| + 1 && d.message == m && d.request == e.request && d.attempt == e.attempt
    && d.redelivery == CountFor(q.deliveries, m)
    && (e.provenance.Some? ==> d.provenance == Original(e.provenance.value))
    && (e.provenance.None? ==> d.provenance == FromPublication(e.publication))
    && (provider.Some? ==> d.provider == Given(provider.value))
    && (provider.None? ==> d.provider == InMemory(|q.deliveries| + 1))
  }

  lemma DeliveryCreated(q: Queue, m: MessageId, provider: Option<string>, redrive: bool)
    ensures var (q1, r) := CreateDelivery(q, m, provider, redrive);
            && (r.Ok? <==> m in q.messages && q.messages[m].request !in q.rejected && (redrive || Unlettered(q, m)))
            && (r.Err? ==> q1 == q && r.error == if m in q.messages then StateError else KeyError)
            && (r.Ok? ==> NextDelivery(q, q1, m, provider, r.value))
  {
    hide CountFor, DeadLetterFor;
    LetteredIffFound(q.deadLetters, m);
  }

  /** The publication of a stored message, if its envelope names a recorded one. */
  ghost predicate PublishedAs(q: Queue, m: MessageId, state: PublicationState) {
    Published(q, m) && q.publications[q.messages[m].publication.value].state == state
  }

  /** The message is stored with a recorded publication. */
  ghost predicate Published(q: Queue, m: MessageId) {
    m in q.messages && q.messages[m].publication.Some? && q.messages[m].publication.value in q.publications
  }

  ghost predicate Confirmed(q: Queue, m: MessageId) {
    PublishedAs(q, m, ConfirmedSuccess) || PublishedAs(q, m, ConfirmedDuplicate)
  }

  ghost predicate MayDeliver(q: Queue, m: MessageId) {
    m in q.messages && q.messages[m].request !in q.rejected && Unlettered(q, m)
  }

  /**
   A message is delivered exactly after a confirmed publication, a provider's own delivery recorded
   after an uncertain one as well, and redelivered after any delivery; always of work that is
   neither rejected nor dead-lettered, and always as the next delivery.
   */
  lemma DeliversExactly(q: Queue, m: MessageId, reference: string, d: DeliveryId)
    ensures var (q1, r) := Deliver(q, m);
            && (r.Ok? <==> MayDeliver(q, m) && Confirmed(q, m))
            && (r.Ok? ==> NextDelivery(q, q1, m, None, r.value)) && (r.Err? ==> q1 == q)
            && (r.Err? ==> r.error == if Published(q, m) then StateError else KeyError)
    ensures var (q1, r) := ProviderDelivery(q, m, reference);
            && (r.Ok? <==> MayDeliver(q, m) && (Confirmed(q, m) || PublishedAs(q, m, ResultUncertain)))
            && (r.Ok? ==> NextDelivery(q, q1, m, Some(reference), r.value)) && (r.Err? ==> q1 == q)
            && (r.Err? ==> r.error == if Published(q, m) then StateError else KeyError)
    ensures var (q1, r) := Redeliver(q, d);
            && (r.Ok? <==> IsDelivery(q, d) && MayDeliver(q, q.deliveries[d - 1].message))
            && (r.Ok? ==> NextDelivery(q, q1, q.deliveries[d - 1].message, None, r.value)) && (r.Err? ==> q1 == q)
            && (r.Err? ==> r.error == if IsDelivery(q, d) && q.deliveries[d - 1].message in q.messages then StateError
                                      else KeyError)
  {
    hide CreateDelivery, NextDelivery, Unlettered;
    DeliveryCreated(q, m, None, false);
    DeliveryCreated(q, m, Some(reference), false);
    if IsDelivery(q, d) { DeliveryCreated(q, DeliveryOf(q, d).message, None, false); }
  }

  // ----- publication -----

  /** The envelope may be stored: well-formed, unattempted, naming no claim and agreeing with what is stored. */
  ghost predicate Publishable(q: Queue, e: Envelope, valid: bool) {
    && valid && e.publication.Some? && e.publicationState == Some(NotAttempted) && e.claim.None?
    && (e.message in q.messages ==> q.messages[e.message] == e)
    && (e.publication.value in q.publications ==>
          && q.publications[e.publication.value].request == e.request
          && q.publications[e.publication.value].message == e.message)
  }

  /** A new publication is stored unattempted and without history, under its envelope, and nothing else changes. */
  ghost predicate NewlyPublished(q: Queue, q1: Queue, e: Envelope, record: Publication)
    requires e.publication.Some?
  {
    var p := e.publication.value;
    && record == Publication(p, e.request, e.message, NotAttempted)
    && p in q1.publications && q1.publications[p] == record && OthersKept(q.publications, q1.publications, p)
    && p in q1.history && q1.history[p] == [] && OthersKept(q.history, q1.history, p)
    && e.message in q1.messages && q1.messages[e.message] == e && OthersKept(q.messages, q1.messages, e.message)
    && (e.request in q.controls ==> q1.controls == q.controls)
    && (e.request !in q.controls ==>
          && e.request in q1.controls && q1.controls[e.request] == Active
          && OthersKept(q.controls, q1.controls, e.request))
    && q1 == q.(messages := q1.messages, controls := q1.controls, publications := q1.publications,
                history := q1.history)
  }

  lemma PublishesExactly(q: Queue, e: Envelope, valid: bool)
    requires Good(q)
    ensures var (q1, r) := Publish(q, e, valid);
            && (r.Ok? <==> Publishable(q, e, valid)) && (r.Err? ==> q1 == q)
            && (r.Err? && e.claim.None? ==>
                  r.error == if !valid then ValidationError
                             else if e.publication.None? || e.publicationState != Some(NotAttempted) then StateError
                             else ConflictError)
            && (r.Ok? && e.publication.value in q.publications ==>
                  q1 == q && r.value == q.publications[e.publication.value])
            && (r.Ok? && e.publication.value !in q.publications ==> NewlyPublished(q, q1, e, r.value))
  {
    hide Good, CanProduce, ClaimedBindingHolds;
    if e.claim.Some? { ClaimedEnvelopeRefused(q, e, valid); }
  }

  /** The outcome may be recorded: no step back, no failure of something delivered, none against a settled state. */
  ghost predicate Recordable(q: Queue, p: PublicationId, state: PublicationState) {
    && state != NotAttempted && p in q.publications && p in q.history
    && (state == RejectedBeforeAcceptance || state == ConfirmedFailure ==>
          forall i :: 0 <= i < |q.deliveries| ==> q.deliveries[i].message != q.publications[p].message)
    && (|| q.publications[p].state == NotAttempted || q.publications[p].state == ResultUncertain
        || q.publications[p].state == state)
  }

  /** A recorded outcome becomes the publication's state and enters its history once, and nothing else changes. */
  lemma OutcomeRecorded(q: Queue, p: PublicationId, state: PublicationState, reference: string)
    ensures var (q1, r) := RecordOutcome(q, p, state, reference);
            && (r.Ok? <==> Recordable(q, p, state)) && (r.Err? ==> q1 == q)
            && (r.Err? ==> r.error == if state == NotAttempted then StateError
                                      else if p in q.publications && p in q.history then ConflictError else KeyError)
            && (r.Ok? ==>
                  && r.value == q.publications[p].(state := state)
                  && p in q1.publications && q1.publications[p] == r.value
                  && OthersKept(q.publications, q1.publications, p) && OthersKept(q.history, q1.history, p)
                  && p in q1.history
                  && (Outcome(p, state, reference) in q.history[p] ==> q1.history[p] == q.history[p])
                  && (Outcome(p, state, reference) !in q.history[p] ==>
                        q1.history[p] == q.history[p] + [Outcome(p, state, reference)])
                  && q1 == q.(publications := q1.publications, history := q1.history))
  {
  }

  // ----- results -----

  /** The claim may submit this binding: it has the power and the binding names its delivery's work. */
  ghost predicate MaySubmit(q: Queue, c: ClaimId, b: Binding) {
    && CanProduce(q, c)
    && var d := q.deliveries[q.claims[c - 1].delivery - 1];
       d.message in q.messages && b.request == d.request && b.message == d.message && Some(b.attempt) == d.attempt
  }

  /** The claim, its delivery and the delivery's message are stored. */
  ghost predicate Submits(q: Queue, c: ClaimId) {
    && 1 <= c <= |q.claims| && 1 <= q.claims[c - 1].delivery <= |q.deliveries|
    && q.deliveries[q.claims[c - 1].delivery - 1].message in q.messages
  }

  /** The slot already holds another result, or the result is already bound otherwise. */
  ghost predicate Clashes(q: Queue, b: Binding) {
    var slot := Slot(b.request, b.message, b.attempt, b.slotReference);
    || (slot in q.slots && q.slots[slot] != b.result)
    || (b.result in q.accepted && q.accepted[b.result] != b)
  }

  /** The submission names its claim, the claim's worker and fence, the delivery and the envelope's versions. */
  ghost predicate SubmittedBy(q: Queue, c: ClaimId, b: Binding, occurrence: string, s: Submission)
    requires MaySubmit(q, c, b)
  {
    var claim, e := q.claims[c - 1], q.messages[b.message];
    && s.binding == b && s.occurrence == occurrence && s.claim == c
    && s.delivery == claim.delivery && s.worker == claim.worker && s.fence == claim.fence
    && s.contractVersion == e.contractVersion && s.schemaVersion == e.schemaVersion && s.integrity == e.integrity
  }

  /**
   A result is accepted exactly from a claim with the power, for its own work and without a clash;
   it is then bound in its slot and its submission recorded once. A clash is refused and marks the
   message; every other refusal changes nothing.
   */
  lemma SubmitsExactly(q: Queue, c: ClaimId, b: Binding, occurrence: string)
    ensures var (q1, r) := AcceptResult(q, c, b, occurrence);
            && (r.Ok? <==> MaySubmit(q, c, b) && !Clashes(q, b))
            && (r.Ok? ==> r.value == b && ResultStored(q, q1, c, b, occurrence))
            && (r.Err? && MaySubmit(q, c, b) ==>
                  r.error == ConflictError && q1 == q.(conflicted := q.conflicted + {b.message}))
            && (r.Err? && !MaySubmit(q, c, b) ==> q1 == q && r.error == if !Submits(q, c) then KeyError
                                                                        else if !CanProduce(q, c) then StateError
                                                                        else ConflictError)
  {
    hide CanProduce, ResultStored;
    PowerNames(q, c);
    if MaySubmit(q, c, b) && !Clashes(q, b) {
      var claim, e := ClaimOf(q, c), q.messages[b.message];
      var submission := Submission(b, occurrence, claim.delivery, claim.worker, c, claim.fence,
                                   e.contractVersion, e.schemaVersion, e.integrity);
      StoredAs(q, c, b, occurrence, submission);
    }
  }

  lemma PowerNames(q: Queue, c: ClaimId)
    ensures CanProduce(q, c) ==> IsClaim(q, c) && IsDelivery(q, ClaimOf(q, c).delivery)
  {
    hide CanProcess;
  }

  ghost predicate ResultStored(q: Queue, q1: Queue, c: ClaimId, b: Binding, occurrence: string)
    requires MaySubmit(q, c, b)
  {
    && b.result in q1.accepted && q1.accepted[b.result] == b && OthersKept(q.accepted, q1.accepted, b.result)
    && (b.result in q.accepted ==> q1.slots == q.slots)
    && (b.result !in q.accepted ==>
          var slot := Slot(b.request, b.message, b.attempt, b.slotReference);
          slot in q1.slots && q1.slots[slot] == b.result && OthersKept(q.slots, q1.slots, slot))
    && b.result in q1.submissions && OthersKept(q.submissions, q1.submissions, b.result)
    && var known := if b.result in q.submissions then q.submissions[b.result] else [];
       && (q1.submissions[b.result] == known ||
           (|q1.submissions[b.result]| == |known| + 1 && q1.submissions[b.result][..|known|] == known))
       && (exists s :: s in q1.submissions[b.result] && SubmittedBy(q, c, b, occurrence, s))
       && (q1.submissions[b.result] != known ==>
             q1.submissions[b.result][|known|] !in known &&
             SubmittedBy(q, c, b, occurrence, q1.submissions[b.result][|known|]))
       && q1 == q.(accepted := q1.accepted, slots := q1.slots, submissions := q1.submissions)
  }

  lemma StoredAs(q: Queue, c: ClaimId, b: Binding, occurrence: string, s: Submission)
    requires MaySubmit(q, c, b) && SubmittedBy(q, c, b, occurrence, s)
    ensures ResultStored(q, StoreAccepted(q, b, s), c, b, occurrence)
  {
    hide CanProduce, SubmittedBy, MaySubmit;
    var known := if b.result in q.submissions then q.submissions[b.result] else [];
    var after := StoreAccepted(q, b, s).submissions[b.result];
    assert s in after by { if s !in known { assert after[|known|] == s; } }
  }

  /**
   An acknowledgement is true exactly when the work succeeded with every required effect, by the
   delivery's own claim with the power, of a message without a conflict; it then closes the
   delivery and nothing else.
   */
  lemma AcknowledgesExactly(q: Queue, d: DeliveryId, c: ClaimId, readiness: Readiness)
    ensures var (q1, r) := Acknowledge(q, d, c, readiness);
            && (r == Ok(true) <==>
                  && 1 <= d <= |q.deliveries| && CanProduce(q, c) && q.claims[c - 1].delivery == d
                  && readiness.succeeded && (forall effect :: effect in q.required ==> effect in readiness.effects)
                  && q.deliveries[d - 1].message !in q.conflicted)
            && (r.Err? <==> !(1 <= d <= |q.deliveries|) || !(1 <= c <= |q.claims|)) && (r.Err? ==> r.error == KeyError)
            && q1 == if r == Ok(true) then q.(acknowledged := q.acknowledged + {d}) else q
  {
    hide DeadLettered, Control;
  }

  // ----- failures -----

  /** Exactly the live claims that `hit` selects are revoked; every other claim is as it was. */
  ghost predicate RevokedExactly(before: seq<Claim>, after: seq<Claim>, hit: Claim -> bool) {
    && |after| == |before|
    && forall i :: 0 <= i < |before| ==>
         if hit(before[i]) && (before[i].state == Current || before[i].state == RenewalUncertain)
         then after[i] == before[i].(state := Revoked)
         else after[i] == before[i]
  }

  predicate OfDelivery(claim: Claim, d: DeliveryId) {
    claim.delivery == d
  }

  predicate OfRequest(deliveries: seq<Delivery>, claim: Claim, r: RequestId) {
    1 <= claim.delivery <= |deliveries| && deliveries[claim.delivery - 1].request == r
  }

  lemma SweptDelivery(claims: seq<Claim>, d: DeliveryId)
    ensures RevokedExactly(claims, RevokeDelivery(claims, d), claim => OfDelivery(claim, d))
  {
  }

  lemma SweptRequest(claims: seq<Claim>, deliveries: seq<Delivery>, r: RequestId)
    ensures RevokedExactly(claims, RevokeRequest(claims, deliveries, r), claim => OfRequest(deliveries, claim, r))
  {
  }

  /** Failures of a delivery that has no dead letter, of active work; of rejected work only a security rejection. */
  ghost predicate Classifiable(q: Queue, d: DeliveryId, c: FailureClass) {
    && 1 <= d <= |q.deliveries| && (forall i :: 0 <= i < |q.deadLetters| ==> q.deadLetters[i].source.id != d)
    && InState(q, q.deliveries[d - 1].request, Active)
    && (q.deliveries[d - 1].request in q.rejected ==> c == SecurityRejection)
  }

  lemma ClassifiesExactly(q: Queue, d: DeliveryId, c: FailureClass)
    ensures var (q1, r) := ClassifyFailure(q, d, c);
            && (r.Ok? <==> Classifiable(q, d, c)) && (r.Err? ==> q1 == q)
            && (r.Err? ==> r.error == if 1 <= d <= |q.deliveries| then StateError else KeyError)
  {
    hide Disposition;
  }

  /** A security rejection rejects the request and revokes its live claims, and stores nothing else. */
  lemma RejectionStored(q: Queue, d: DeliveryId)
    requires Classifiable(q, d, SecurityRejection)
    ensures var (q1, r) := ClassifyFailure(q, d, SecurityRejection);
            var request := q.deliveries[d - 1].request;
            && r == Ok(RetryDecision(false, false))
            && (request in q.rejected ==> q1 == q)
            && (request !in q.rejected ==>
                  && q1 == q.(rejected := q.rejected + {request}, claims := q1.claims)
                  && RevokedExactly(q.claims, q1.claims, claim => OfRequest(q.deliveries, claim, request)))
  {
    hide RevokeRequest, RevokedExactly;
    ClassifiesExactly(q, d, SecurityRejection);
    SweptRequest(q.claims, q.deliveries, q.deliveries[d - 1].request);
  }

  /** The number of failures of one kind recorded for a delivery. */
  ghost predicate Recorded(q: Queue, d: DeliveryId, c: FailureClass, n: nat) {
    if (d, c) in q.failures then q.failures[(d, c)] == n else n == 0
  }

  /**
   A counted failure raises its own count by one and no other. The one that reaches the limit of
   its kind appends the delivery with its kind as a dead letter and revokes the delivery's live
   claims; an earlier one allows a retry and stores nothing else.
   */
  lemma FailureStored(q: Queue, d: DeliveryId, c: FailureClass, n: nat)
    requires Classifiable(q, d, c) && (c == Transport || c == Poison) && Recorded(q, d, c, n)
    ensures var (q1, r) := ClassifyFailure(q, d, c);
            var limit := if c == Poison then q.policy.maxPoison else q.policy.maxTransport;
            && (d, c) in q1.failures && q1.failures[(d, c)] == n + 1 && OthersKept(q.failures, q1.failures, (d, c))
            && (n + 1 < limit ==> r == Ok(RetryDecision(true, false)) && q1 == q.(failures := q1.failures))
            && (n + 1 >= limit ==>
                  && r == Ok(RetryDecision(false, true))
                  && q1.deadLetters == q.deadLetters + [DeadLetter(q.deliveries[d - 1], c)]
                  && q1 == q.(failures := q1.failures, deadLetters := q1.deadLetters, claims := q1.claims)
                  && RevokedExactly(q.claims, q1.claims, claim => OfDelivery(claim, d)))
  {
    hide RevokeDelivery, RevokedExactly, CountFailure, ClassifyFailure, Classifiable, OthersKept;
    var dead := Failures(q, d, c) + 1 >= Limit(q.policy, c);
    assert 1 <= d <= |q.deliveries| by { ClassifiedDelivery(q, d, c); }
    CountedFailure(q, d, c);
    FailureCounted(q, q.deliveries[d - 1], d, c, dead);
    SweptDelivery(q.claims, d);
  }

  lemma ClassifiedDelivery(q: Queue, d: DeliveryId, c: FailureClass)
    requires Classifiable(q, d, c)
    ensures 1 <= d <= |q.deliveries|
  {
  }

  lemma CountedFailure(q: Queue, d: DeliveryId, c: FailureClass)
    requires Classifiable(q, d, c) && (c == Transport || c == Poison)
    ensures var dead := Failures(q, d, c) + 1 >= Limit(q.policy, c);
            ClassifyFailure(q, d, c) ==
            (CountFailure(q, q.deliveries[d - 1], d, c, dead), Ok(RetryDecision(!dead, dead)))
  {
    hide CountFailure;
    ClassifiesExactly(q, d, c);
  }

  lemma FailureCounted(q: Queue, delivery: Delivery, d: DeliveryId, c: FailureClass, dead: bool)
    ensures var q1 := CountFailure(q, delivery, d, c, dead);
            && (d, c) in q1.failures && q1.failures[(d, c)] == Failures(q, d, c) + 1
            && OthersKept(q.failures, q1.failures, (d, c))
            && q1 == if dead then q.(failures := q1.failures, deadLetters := q.deadLetters + [DeadLetter(delivery, c)],
                                     claims := RevokeDelivery(q.claims, d))
                     else q.(failures := q1.failures)
  {
    hide RevokeDelivery;
  }

  // ----- redrives -----

  /** The newest dead letter of the delivery, or of any delivery of the message. */
  ghost predicate NewestLetter(dead: seq<DeadLetter>, source: RedriveSource, i: nat) {
    && i < |dead| && Names(source, dead[i]) && forall j :: i < j < |dead| ==> !Names(source, dead[j])
  }

  predicate Names(source: RedriveSource, letter: DeadLetter) {
    match source
    case FromDelivery(d) => letter.source.id == d
    case FromMessage(m) => letter.source.message == m
  }

  lemma {:induction false} SourceLetterIs(dead: seq<DeadLetter>, source: RedriveSource)
    ensures SourceLetter(dead, source).None? ==> forall i :: 0 <= i < |dead| ==> !Names(source, dead[i])
    ensures SourceLetter(dead, source).Some? ==>
              exists i: nat :: NewestLetter(dead, source, i) && dead[i] == SourceLetter(dead, source).value
  {
    if dead != [] {
      var n := |dead| - 1;
      SourceLetterIs(dead[..n], source);
      if Names(source, dead[n]) {
        assert NewestLetter(dead, source, n);
      } else if SourceLetter(dead[..n], source).Some? {
        var i: nat :| NewestLetter(dead[..n], source, i) && dead[..n][i] == SourceLetter(dead[..n], source).value;
        assert NewestLetter(dead, source, i);
      }
    }
  }

  /** The letter may be redriven under this decision: authorized, valid, active, unrejected and within the limit. */
  ghost predicate Redrivable(q: Queue, letter: DeadLetter, authorization: Option<Authorization>, valid: bool) {
    && authorization.Some? && authorization.value.authorized && valid
    && InState(q, letter.source.request, Active) && letter.source.request !in q.rejected
    && letter.source.message in q.messages && q.messages[letter.source.message].request !in q.rejected
    && (letter.source.message in q.redriveCounts ==> q.redriveCounts[letter.source.message] < q.policy.maxRedrives)
    && (letter.source.message !in q.redriveCounts ==> 0 < q.policy.maxRedrives)
  }

  /** The redrive of a letter: its message's next delivery, one more in the count, and a record of who, what and why. */
  ghost predicate Redriven(q: Queue, q1: Queue, letter: DeadLetter, actor: string, a: Authorization, d: Delivery)
    requires letter.source.message in q.messages
  {
    var m := letter.source.message;
    && q1 == q.(deliveries := q1.deliveries, redriveCounts := q1.redriveCounts, redrives := q1.redrives)
    && NextDelivery(q, q.(deliveries := q1.deliveries), m, None, d)
    && m in q1.redriveCounts && OthersKept(q.redriveCounts, q1.redriveCounts, m)
    && q1.redriveCounts[m] == (if m in q.redriveCounts then q.redriveCounts[m] else 0) + 1
    && d.id in q1.redrives && OthersKept(q.redrives, q1.redrives, d.id)
    && q1.redrives[d.id] == Redrive(actor, letter.source.provenance, letter.source.id, m, letter.source.request, d.id,
                                    letter.classification, a.context, a.policyVersion, a.decision)
  }

  /** A redrive happens exactly when the newest letter it names may be redriven, and otherwise changes nothing. */
  lemma RedrivesExactly(q: Queue, source: RedriveSource, actor: string, authorization: Option<Authorization>,
        valid: bool, i: nat)
    requires i < |q.deadLetters| ==> NewestLetter(q.deadLetters, source, i)
    requires i >= |q.deadLetters| ==> forall j :: 0 <= j < |q.deadLetters| ==> !Names(source, q.deadLetters[j])
    ensures var (q1, r) := RedriveWork(q, source, actor, authorization, valid);
            && (r.Ok? <==> i < |q.deadLetters| && Redrivable(q, q.deadLetters[i], authorization, valid))
            && (r.Err? && Good(q) ==> q1 == q)
            && (r.Ok? ==> Redriven(q, q1, q.deadLetters[i], actor, authorization.value, r.value))
  {
    hide CreateDelivery, SourceLetter, Good, Redriven, NewestLetter, Unlettered, RedriveWork;
    NewestNames(q.deadLetters, source, i);
    if Good(q) { RedriveRefusal(q, source, actor, authorization, valid); }
    if i < |q.deadLetters| {
      RedriveOf(q, source, actor, authorization, valid, q.deadLetters[i]);
    } else {
      NoLetter(q, source, actor, authorization, valid);
    }
  }

  lemma NoLetter(q: Queue, source: RedriveSource, actor: string, authorization: Option<Authorization>, valid: bool)
    requires SourceLetter(q.deadLetters, source).None?
    ensures RedriveWork(q, source, actor, authorization, valid).1.Err?
  {
  }

  lemma RedriveOf(q: Queue, source: RedriveSource, actor: string, authorization: Option<Authorization>, valid: bool,
        letter: DeadLetter)
    requires SourceLetter(q.deadLetters, source) == Some(letter)
    ensures var (q1, r) := RedriveWork(q, source, actor, authorization, valid);
            && (r.Ok? <==> Redrivable(q, letter, authorization, valid))
            && (r.Ok? ==> Redriven(q, q1, letter, actor, authorization.value, r.value))
  {
    hide CreateDelivery, SourceLetter, Redriven, NextDelivery, Unlettered;
    var m := letter.source.message;
    if m in q.messages && authorization.Some? {
      var counted := q.(redriveCounts := q.redriveCounts[m := RedriveCount(q, m) + 1]);
      var (q1, r) := CreateDelivery(counted, m, None, true);
      DeliveryCreated(counted, m, None, true);
      if r.Ok? { RedriveRecorded(q, q1, letter, actor, authorization.value, r.value); }
    }
  }

  lemma NewestNames(dead: seq<DeadLetter>, source: RedriveSource, i: nat)
    requires i < |dead| ==> NewestLetter(dead, source, i)
    requires i >= |dead| ==> forall j :: 0 <= j < |dead| ==> !Names(source, dead[j])
    ensures SourceLetter(dead, source) == if i < |dead| then Some(dead[i]) else None
  {
    SourceLetterIs(dead, source);
  }

  lemma RedriveRecorded(q: Queue, created: Queue, letter: DeadLetter, actor: string, a: Authorization, d: Delivery)
    requires letter.source.message in q.messages
    requires var m := letter.source.message;
             NextDelivery(q.(redriveCounts := q.redriveCounts[m := RedriveCount(q, m) + 1]), created, m, None, d)
    ensures var from := letter.source;
            var record := Redrive(actor, from.provenance, from.id, from.message, from.request, d.id,
                                  letter.classification, a.context, a.policyVersion, a.decision);
            Redriven(q, created.(redrives := created.redrives[d.id := record]), letter, actor, a, d)
  {
    hide CountFor;
    var m := letter.source.message;
    assert created.deliveries == q.deliveries + [d];
    assert created.redriveCounts == q.redriveCounts[m := RedriveCount(q, m) + 1];
  }

  lemma RedriveRefusal(q: Queue, source: RedriveSource, actor: string, authorization: Option<Authorization>,
        valid: bool)
    requires Good(q)
    ensures RedriveWork(q, source, actor, authorization, valid).1.Err? ==>
              RedriveWork(q, source, actor, authorization, valid).0 == q
  {
    hide Good, RedriveWork;
    RedriveCreates(q, source, actor, authorization, valid);
  }
}
