/**
 What every reachable queue state satisfies. Each invariant is a predicate over the
 collections it relates, each has one lemma per kind of change to them, and each
 operation keeps their conjunction `Good`.
 */
module QueueInvariants {
  import opened Prelude
  import opened QueueModel

  // ----- messages, publications and deliveries -----

  ghost predicate DeliveryGood(messages: map<MessageId, Envelope>, deliveries: seq<Delivery>, i: nat)
    requires i < |deliveries|
  {
    var d := deliveries[i];
    && d.id == i + 1
    && d.message in messages
    && d.request == messages[d.message].request && d.attempt == messages[d.message].attempt
    && d.redelivery == CountFor(deliveries[..i], d.message)
  }

  /** Deliveries repeat their message's envelope and count its earlier deliveries. */
  ghost predicate DeliveriesGood(messages: map<MessageId, Envelope>, deliveries: seq<Delivery>) {
    forall i :: 0 <= i < |deliveries| ==> DeliveryGood(messages, deliveries, i)
  }

  ghost predicate Bound(messages: map<MessageId, Envelope>, publications: map<PublicationId, Publication>, m: MessageId)
    requires m in messages
  {
    var e := messages[m];
    && e.message == m && e.claim.None? && e.publication.Some?
    && e.publication.value in publications
    && publications[e.publication.value].message == m
  }

  ghost predicate BoundBack(messages: map<MessageId, Envelope>, publications: map<PublicationId, Publication>,
        p: PublicationId)
    requires p in publications
  {
    var record := publications[p];
    && record.id == p && record.message in messages
    && messages[record.message].publication == Some(p)
    && messages[record.message].request == record.request
  }

  /** Messages and publications are in bijection, and no stored envelope names a claim. */
  ghost predicate PublishedGood(messages: map<MessageId, Envelope>, publications: map<PublicationId, Publication>) {
    && (forall m :: m in messages ==> Bound(messages, publications, m))
    && (forall p :: p in publications ==> BoundBack(messages, publications, p))
  }

  ghost predicate OutcomesGood(state: PublicationState, outcomes: seq<Outcome>) {
    && (outcomes == [] <==> state == NotAttempted)
    && (outcomes != [] ==> outcomes[|outcomes| - 1].state == state)
    && (forall i :: 0 <= i < |outcomes| ==> outcomes[i].state == ResultUncertain || outcomes[i].state == state)
    && (forall i, j :: 0 <= i < j < |outcomes| ==> outcomes[i] != outcomes[j])
  }

  /** A publication's history is: uncertain outcomes, then outcomes equal to its state; no entry twice. */
  ghost predicate HistoryGood(publications: map<PublicationId, Publication>, history: map<PublicationId,
        seq<Outcome>>) {
    && history.Keys == publications.Keys
    && (forall p :: p in publications ==> OutcomesGood(publications[p].state, history[p]))
  }

  predicate Deliverable(state: PublicationState) {
    state == ResultUncertain || state == ConfirmedSuccess || state == ConfirmedDuplicate
  }

  ghost predicate HasDeliverable(messages: map<MessageId, Envelope>, publications: map<PublicationId, Publication>,
        m: MessageId) {
    && m in messages && messages[m].publication.Some? && messages[m].publication.value in publications
    && Deliverable(publications[messages[m].publication.value].state)
  }

  /** A message with a delivery has an uncertain or successful publication. */
  ghost predicate SentGood(messages: map<MessageId, Envelope>, publications: map<PublicationId, Publication>,
        deliveries: seq<Delivery>) {
    forall i :: 0 <= i < |deliveries| ==> HasDeliverable(messages, publications, deliveries[i].message)
  }

  // ----- claims -----

  ghost predicate ClaimGood(deliveries: seq<Delivery>, claims: seq<Claim>, current: map<MessageId, ClaimId>, i: nat)
    requires i < |claims|
  {
    && claims[i].id == i + 1 && claims[i].fence == i + 1
    && 1 <= claims[i].delivery <= |deliveries|
    && deliveries[claims[i].delivery - 1].message in current
    && i < current[deliveries[claims[i].delivery - 1].message]
  }

  ghost predicate Registered(deliveries: seq<Delivery>, claims: seq<Claim>, current: map<MessageId, ClaimId>,
        m: MessageId)
    requires m in current
  {
    && 1 <= current[m] <= |claims|
    && 1 <= claims[current[m] - 1].delivery <= |deliveries|
    && deliveries[claims[current[m] - 1].delivery - 1].message == m
  }

  /** Fences rise by one per claim, and a message's registered claim is its newest. */
  ghost predicate ClaimsGood(deliveries: seq<Delivery>, claims: seq<Claim>, current: map<MessageId, ClaimId>,
        fences: nat) {
    && fences == |claims|
    && (forall i :: 0 <= i < |claims| ==> ClaimGood(deliveries, claims, current, i))
    && (forall m :: m in current ==> Registered(deliveries, claims, current, m))
  }

  ghost predicate OpenWork(deliveries: seq<Delivery>, current: map<MessageId, ClaimId>, rejected: set<RequestId>,
        dead: seq<DeadLetter>, claim: Claim) {
    && 1 <= claim.delivery <= |deliveries|
    && var d := deliveries[claim.delivery - 1];
       && d.message in current && current[d.message] == claim.id
       && d.request !in rejected
       && !DeadLettered(dead, claim.delivery)
  }

  /** A current or renewal-uncertain claim is the registered one, of work neither rejected nor dead-lettered. */
  ghost predicate LiveGood(deliveries: seq<Delivery>, claims: seq<Claim>, current: map<MessageId, ClaimId>,
        rejected: set<RequestId>, dead: seq<DeadLetter>) {
    forall i :: 0 <= i < |claims| && Live(claims[i].state) ==> OpenWork(deliveries, current, rejected, dead, claims[i])
  }

  // ----- results -----

  ghost predicate ResultBound(accepted: map<ResultId, Binding>, slots: map<Slot, ResultId>, r: ResultId)
    requires r in accepted
  {
    accepted[r].result == r && SlotOf(accepted[r]) in slots && slots[SlotOf(accepted[r])] == r
  }

  ghost predicate SlotBound(accepted: map<ResultId, Binding>, slots: map<Slot, ResultId>, s: Slot)
    requires s in slots
  {
    slots[s] in accepted && SlotOf(accepted[slots[s]]) == s
  }

  /** Result slots and accepted results are in bijection. */
  ghost predicate ResultsGood(accepted: map<ResultId, Binding>, slots: map<Slot, ResultId>) {
    && (forall r :: r in accepted ==> ResultBound(accepted, slots, r))
    && (forall s :: s in slots ==> SlotBound(accepted, slots, s))
  }

  ghost predicate SubmissionGood(binding: Binding, deliveries: seq<Delivery>, claims: seq<Claim>, s: Submission) {
    && s.binding == binding
    && 1 <= s.claim <= |claims| && s.fence == s.claim
    && claims[s.claim - 1].delivery == s.delivery && claims[s.claim - 1].worker == s.worker
    && 1 <= s.delivery <= |deliveries|
    && deliveries[s.delivery - 1].message == binding.message && deliveries[s.delivery - 1].request == binding.request
  }

  ghost predicate SubmissionsOf(binding: Binding, deliveries: seq<Delivery>, claims: seq<Claim>,
        list: seq<Submission>) {
    && list != []
    && (forall i :: 0 <= i < |list| ==> SubmissionGood(binding, deliveries, claims, list[i]))
    && (forall i, j :: 0 <= i <= j < |list| ==> list[i].fence <= list[j].fence)
  }

  /** Every accepted result was submitted, by claims of its own message, with non-decreasing fences. */
  ghost predicate SubmissionsGood(accepted: map<ResultId, Binding>, submissions: map<ResultId, seq<Submission>>,
        deliveries: seq<Delivery>, claims: seq<Claim>) {
    && submissions.Keys == accepted.Keys
    && (forall r :: r in submissions ==> SubmissionsOf(accepted[r], deliveries, claims, submissions[r]))
  }

  // ----- failures, dead letters and redrives -----

  predicate Counted(c: FailureClass) {
    c == Transport || c == Poison
  }

  ghost predicate LetterGood(policy: RetryPolicy, deliveries: seq<Delivery>, failures: map<(DeliveryId, FailureClass),
        nat>, letter: DeadLetter) {
    && 1 <= letter.source.id <= |deliveries| && deliveries[letter.source.id - 1] == letter.source
    && Counted(letter.classification)
    && (letter.source.id, letter.classification) in failures
    && failures[(letter.source.id, letter.classification)] == Limit(policy, letter.classification)
  }

  ghost predicate LettersDistinct(dead: seq<DeadLetter>) {
    forall i, j :: 0 <= i < j < |dead| ==> dead[i].source.id != dead[j].source.id
  }

  ghost predicate HasLetter(dead: seq<DeadLetter>, d: DeliveryId, c: FailureClass) {
    exists i :: 0 <= i < |dead| && dead[i].source.id == d && dead[i].classification == c
  }

  ghost predicate FailureGood(policy: RetryPolicy, deliveries: seq<Delivery>, failures: map<(DeliveryId, FailureClass),
        nat>, dead: seq<DeadLetter>, d: DeliveryId, c: FailureClass)
    requires (d, c) in failures
  {
    && 1 <= d <= |deliveries| && Counted(c)
    && 1 <= failures[(d, c)] <= Limit(policy, c)
    && (failures[(d, c)] == Limit(policy, c) ==> HasLetter(dead, d, c))
  }

  /** Counts stay within their limit and reach it exactly for the classification that dead-lettered. */
  ghost predicate FailuresGood(policy: RetryPolicy, deliveries: seq<Delivery>,
        failures: map<(DeliveryId, FailureClass), nat>, dead: seq<DeadLetter>) {
    && LettersDistinct(dead)
    && (forall i :: 0 <= i < |dead| ==> LetterGood(policy, deliveries, failures, dead[i]))
    && (forall d, c :: (d, c) in failures ==> FailureGood(policy, deliveries, failures, dead, d, c))
  }

  /** The redrive records of the message's deliveries. */
  ghost function Tally(deliveries: seq<Delivery>, redrives: map<DeliveryId, Redrive>, m: MessageId): nat {
    if deliveries == [] then 0
    else
      var last := deliveries[|deliveries| - 1];
      Tally(deliveries[..|deliveries| - 1], redrives, m) + if last.message == m && last.id in redrives then 1 else 0
  }

  ghost predicate RedriveGood(deliveries: seq<Delivery>, dead: seq<DeadLetter>, redrives: map<DeliveryId, Redrive>,
        d: DeliveryId)
    requires d in redrives
  {
    var record := redrives[d];
    && 1 <= record.sourceDelivery < d <= |deliveries|
    && record.newDelivery == d
    && deliveries[d - 1].message == record.message && deliveries[d - 1].request == record.request
    && deliveries[record.sourceDelivery - 1].message == record.message
    && HasLetter(dead, record.sourceDelivery, record.classification)
  }

  /**
   A redrive record names its dead-lettered source and new delivery; the records of a message are
   its count, within the limit.
   */
  ghost predicate RedrivesGood(policy: RetryPolicy, deliveries: seq<Delivery>, dead: seq<DeadLetter>,
        redrives: map<DeliveryId, Redrive>, counts: map<MessageId, nat>) {
    && (forall d :: d in redrives ==> RedriveGood(deliveries, dead, redrives, d))
    && (forall m :: Tally(deliveries, redrives, m) == CountOf(counts, m) <= policy.maxRedrives)
  }

  ghost predicate Good(q: Queue) {
    && DeliveriesGood(q.messages, q.deliveries)
    && PublishedGood(q.messages, q.publications)
    && HistoryGood(q.publications, q.history)
    && SentGood(q.messages, q.publications, q.deliveries)
    && ClaimsGood(q.deliveries, q.claims, q.current, q.fenceSequence)
    && LiveGood(q.deliveries, q.claims, q.current, q.rejected, q.deadLetters)
    && ResultsGood(q.accepted, q.slots)
    && SubmissionsGood(q.accepted, q.submissions, q.deliveries, q.claims)
    && FailuresGood(q.policy, q.deliveries, q.failures, q.deadLetters)
    && RedrivesGood(q.policy, q.deliveries, q.deadLetters, q.redrives, q.redriveCounts)
  }

  lemma InitialGood(policy: RetryPolicy, required: set<DurableEffect>)
    ensures Good(Initial(policy, required))
  {
  }

  // ----- one message more -----

  lemma DeliveriesKeepMessage(messages: map<MessageId, Envelope>, deliveries: seq<Delivery>, m: MessageId, e: Envelope)
    requires DeliveriesGood(messages, deliveries) && m !in messages
    ensures DeliveriesGood(messages[m := e], deliveries)
  {
    var ms := messages[m := e];
    forall i | 0 <= i < |deliveries| ensures DeliveryGood(ms, deliveries, i) {
      assert DeliveryGood(messages, deliveries, i);
    }
  }

  lemma PublishedGrows(messages: map<MessageId, Envelope>, publications: map<PublicationId, Publication>, e: Envelope,
        p: PublicationId)
    requires PublishedGood(messages, publications)
    requires e.message !in messages && p !in publications && e.publication == Some(p) && e.claim.None?
    ensures PublishedGood(messages[e.message := e],
                          publications[p := Publication(p, e.request, e.message, NotAttempted)])
  {
  }

  lemma SentKeepsMessage(messages: map<MessageId, Envelope>, publications: map<PublicationId, Publication>,
        deliveries: seq<Delivery>, e: Envelope, p: PublicationId, record: Publication)
    requires SentGood(messages, publications, deliveries)
    requires e.message !in messages && p !in publications
    ensures SentGood(messages[e.message := e], publications[p := record], deliveries)
  {
  }

  /** A claim that may produce effects belongs to a stored message. */
  lemma ProducingClaimIsStored(q: Queue, c: ClaimId)
    requires DeliveriesGood(q.messages, q.deliveries) && CanProduce(q, c)
    ensures DeliveryOf(q, ClaimOf(q, c).delivery).message in q.messages
  {
    var d := ClaimOf(q, c).delivery;
    assert DeliveryGood(q.messages, q.deliveries, d - 1);
  }

  /** An envelope that names a claim is always refused: its message is already stored without one. */
  lemma ClaimedEnvelopeRefused(q: Queue, e: Envelope, valid: bool)
    requires Good(q) && e.claim.Some?
    ensures Publish(q, e, valid).1.Err? && Publish(q, e, valid).0 == q
  {
    hide HistoryGood, SentGood, ClaimsGood, LiveGood, ResultsGood, SubmissionsGood, FailuresGood, RedrivesGood;
    if CanProduce(q, e.claim.value) && ClaimedBindingHolds(q, e) {
      ProducingClaimIsStored(q, e.claim.value);
      assert Bound(q.messages, q.publications, e.message);
    }
  }

  /** A publish that changes the state stores a new message under a new publication. */
  lemma PublishStoresNew(q: Queue, e: Envelope, valid: bool)
    requires Good(q) && Publish(q, e, valid).1.Ok? && e.publication.Some? && e.publication.value !in q.publications
    ensures e.message !in q.messages && e.claim.None?
  {
    if e.claim.Some? {
      ClaimedEnvelopeRefused(q, e, valid);
    } else {
      assert e.message in q.messages ==> Bound(q.messages, q.publications, e.message);
    }
  }

  lemma PublishKeeps(q: Queue, e: Envelope, valid: bool)
    requires Good(q)
    ensures Good(Publish(q, e, valid).0)
  {
    hide DeliveriesGood, PublishedGood, SentGood, ClaimsGood, LiveGood, ResultsGood, SubmissionsGood, FailuresGood,
         RedrivesGood,
         CanProduce, ClaimedBindingHolds;
    var r := Publish(q, e, valid);
    if r.1.Ok? && e.publication.value !in q.publications {
      var p := e.publication.value;
      PublishStoresNew(q, e, valid);
      DeliveriesKeepMessage(q.messages, q.deliveries, e.message, e);
      PublishedGrows(q.messages, q.publications, e, p);
      SentKeepsMessage(q.messages, q.publications, q.deliveries, e, p,
                       Publication(p, e.request, e.message, NotAttempted));
    }
  }

  // ----- a publication outcome -----

  lemma OutcomeAdded(state: PublicationState, outcomes: seq<Outcome>, outcome: Outcome)
    requires OutcomesGood(state, outcomes)
    requires state == NotAttempted || state == ResultUncertain || state == outcome.state
    requires outcome.state != NotAttempted
    ensures OutcomesGood(outcome.state, if outcome in outcomes then outcomes else outcomes + [outcome])
  {
  }

  lemma PublishedKeepsState(messages: map<MessageId, Envelope>, publications: map<PublicationId, Publication>,
        p: PublicationId, state: PublicationState)
    requires PublishedGood(messages, publications) && p in publications
    ensures PublishedGood(messages, publications[p := publications[p].(state := state)])
  {
  }

  /** A delivered message's publication only moves to a deliverable state. */
  lemma SentKeepsState(messages: map<MessageId, Envelope>, publications: map<PublicationId, Publication>,
        deliveries: seq<Delivery>, p: PublicationId, state: PublicationState)
    requires SentGood(messages, publications, deliveries) && PublishedGood(messages, publications) && p in publications
    requires Deliverable(state) || !Delivered(deliveries, publications[p].message)
    ensures SentGood(messages, publications[p := publications[p].(state := state)], deliveries)
  {
  }

  lemma RecordOutcomeKeeps(q: Queue, p: PublicationId, state: PublicationState, reference: string)
    requires Good(q)
    ensures Good(RecordOutcome(q, p, state, reference).0)
  {
    hide DeliveriesGood, PublishedGood, SentGood, ClaimsGood, LiveGood, ResultsGood, SubmissionsGood, FailuresGood,
         RedrivesGood,
         OutcomesGood, Delivered;
    if RecordOutcome(q, p, state, reference).1.Ok? {
      OutcomeAdded(q.publications[p].state, q.history[p], Outcome(p, state, reference));
      PublishedKeepsState(q.messages, q.publications, p, state);
      SentKeepsState(q.messages, q.publications, q.deliveries, p, state);
    }
  }

  // ----- one delivery more -----

  lemma DeliveriesGrow(messages: map<MessageId, Envelope>, deliveries: seq<Delivery>, d: Delivery)
    requires DeliveriesGood(messages, deliveries)
    requires d.message in messages && d.id == |deliveries| + 1 && d.redelivery == CountFor(deliveries, d.message)
    requires d.request == messages[d.message].request && d.attempt == messages[d.message].attempt
    ensures DeliveriesGood(messages, deliveries + [d])
  {
    var ds := deliveries + [d];
    forall i | 0 <= i < |ds| ensures DeliveryGood(messages, ds, i) {
      assert ds[..i] == deliveries[..i];
      if i < |deliveries| { assert DeliveryGood(messages, deliveries, i); }
      else { assert deliveries[..i] == deliveries; }
    }
  }

  lemma ClaimsKeepDelivery(deliveries: seq<Delivery>, d: Delivery, claims: seq<Claim>, current: map<MessageId,
        ClaimId>, fences: nat)
    requires ClaimsGood(deliveries, claims, current, fences)
    ensures ClaimsGood(deliveries + [d], claims, current, fences)
  {
    forall i | 0 <= i < |claims| ensures ClaimGood(deliveries + [d], claims, current, i) {
      assert ClaimGood(deliveries, claims, current, i);
    }
    forall m | m in current ensures Registered(deliveries + [d], claims, current, m) {
      assert Registered(deliveries, claims, current, m);
    }
  }

  lemma LiveKeepsDelivery(deliveries: seq<Delivery>, d: Delivery, claims: seq<Claim>, current: map<MessageId, ClaimId>,
        rejected: set<RequestId>, dead: seq<DeadLetter>)
    requires LiveGood(deliveries, claims, current, rejected, dead)
    ensures LiveGood(deliveries + [d], claims, current, rejected, dead)
  {
  }

  lemma SubmissionsKeepDelivery(accepted: map<ResultId, Binding>, submissions: map<ResultId, seq<Submission>>,
        deliveries: seq<Delivery>, d: Delivery, claims: seq<Claim>)
    requires SubmissionsGood(accepted, submissions, deliveries, claims)
    ensures SubmissionsGood(accepted, submissions, deliveries + [d], claims)
  {
  }

  lemma FailuresKeepDelivery(policy: RetryPolicy, deliveries: seq<Delivery>, d: Delivery,
        failures: map<(DeliveryId, FailureClass), nat>, dead: seq<DeadLetter>)
    requires FailuresGood(policy, deliveries, failures, dead)
    ensures FailuresGood(policy, deliveries + [d], failures, dead)
  {
  }

  lemma RedrivesKeepDelivery(policy: RetryPolicy, deliveries: seq<Delivery>, d: Delivery, dead: seq<DeadLetter>,
        redrives: map<DeliveryId, Redrive>, counts: map<MessageId, nat>)
    requires RedrivesGood(policy, deliveries, dead, redrives, counts) && d.id == |deliveries| + 1
    ensures RedrivesGood(policy, deliveries + [d], dead, redrives, counts)
  {
  }

  /** All the facts about a delivery added for a deliverable message. */
  lemma CreateKeepsCommon(q: Queue, m: MessageId, provider: Option<string>, redrive: bool)
    requires Good(q) && HasDeliverable(q.messages, q.publications, m)
    ensures var q1 := CreateDelivery(q, m, provider, redrive).0;
            && DeliveriesGood(q1.messages, q1.deliveries) && SentGood(q1.messages, q1.publications, q1.deliveries)
            && ClaimsGood(q1.deliveries, q1.claims, q1.current, q1.fenceSequence)
            && LiveGood(q1.deliveries, q1.claims, q1.current, q1.rejected, q1.deadLetters)
            && SubmissionsGood(q1.accepted, q1.submissions, q1.deliveries, q1.claims)
            && FailuresGood(q1.policy, q1.deliveries, q1.failures, q1.deadLetters)
  {
    hide DeliveriesGood, PublishedGood, HistoryGood, ClaimsGood, LiveGood, ResultsGood, SubmissionsGood, FailuresGood,
         RedrivesGood,
         HasDeliverable, CountFor;
    var r := CreateDelivery(q, m, provider, redrive);
    if r.1.Ok? {
      var d := r.1.value;
      DeliveriesGrow(q.messages, q.deliveries, d);
      ClaimsKeepDelivery(q.deliveries, d, q.claims, q.current, q.fenceSequence);
      LiveKeepsDelivery(q.deliveries, d, q.claims, q.current, q.rejected, q.deadLetters);
      SubmissionsKeepDelivery(q.accepted, q.submissions, q.deliveries, d, q.claims);
      FailuresKeepDelivery(q.policy, q.deliveries, d, q.failures, q.deadLetters);
    }
  }

  lemma CreateKeeps(q: Queue, m: MessageId, provider: Option<string>)
    requires Good(q) && HasDeliverable(q.messages, q.publications, m)
    ensures Good(CreateDelivery(q, m, provider, false).0)
  {
    hide DeliveriesGood, PublishedGood, HistoryGood, SentGood, ClaimsGood, LiveGood, ResultsGood, SubmissionsGood,
         FailuresGood, RedrivesGood,
         HasDeliverable, CountFor;
    CreateKeepsCommon(q, m, provider, false);
    var r := CreateDelivery(q, m, provider, false);
    if r.1.Ok? {
      RedrivesKeepDelivery(q.policy, q.deliveries, r.1.value, q.deadLetters, q.redrives, q.redriveCounts);
    }
  }

  lemma DeliverKeeps(q: Queue, m: MessageId)
    requires Good(q)
    ensures Good(Deliver(q, m).0)
  {
    hide Good, CreateDelivery;
    if Deliver(q, m) == CreateDelivery(q, m, None, false) && HasDeliverable(q.messages, q.publications, m) {
      CreateKeeps(q, m, None);
    }
  }

  lemma ProviderDeliveryKeeps(q: Queue, m: MessageId, reference: string)
    requires Good(q)
    ensures Good(ProviderDelivery(q, m, reference).0)
  {
    hide Good, CreateDelivery;
    if HasDeliverable(q.messages, q.publications, m) {
      CreateKeeps(q, m, Some(reference));
    }
  }

  lemma RedeliverKeeps(q: Queue, d: DeliveryId)
    requires Good(q)
    ensures Good(Redeliver(q, d).0)
  {
    hide CreateDelivery;
    if IsDelivery(q, d) {
      assert HasDeliverable(q.messages, q.publications, q.deliveries[d - 1].message);
      CreateKeeps(q, DeliveryOf(q, d).message, None);
    }
  }

  // ----- controls and claims -----

  lemma ControlKeeps(q: Queue, r: RequestId, state: ControlState)
    requires Good(q)
    ensures Good(SetControl(q, r, state).0)
  {
    hide DeliveriesGood, PublishedGood, HistoryGood, SentGood, ClaimsGood, LiveGood, ResultsGood, SubmissionsGood,
         FailuresGood, RedrivesGood;
  }

  /** `after` has the claims of `claims`, each possibly in another state. */
  ghost predicate SameButState(claims: seq<Claim>, after: seq<Claim>) {
    && |after| == |claims|
    && forall i :: 0 <= i < |claims| ==> after[i] == claims[i].(state := after[i].state)
  }

  /** No claim becomes live. */
  ghost predicate NoneRevived(claims: seq<Claim>, after: seq<Claim>)
    requires |after| == |claims|
  {
    forall i :: 0 <= i < |claims| && Live(after[i].state) ==> Live(claims[i].state)
  }

  lemma ClaimsKeepState(deliveries: seq<Delivery>, claims: seq<Claim>, after: seq<Claim>, current: map<MessageId,
        ClaimId>, fences: nat)
    requires ClaimsGood(deliveries, claims, current, fences) && SameButState(claims, after)
    ensures ClaimsGood(deliveries, after, current, fences)
  {
    forall i | 0 <= i < |after| ensures ClaimGood(deliveries, after, current, i) {
      assert ClaimGood(deliveries, claims, current, i);
    }
    forall m | m in current ensures Registered(deliveries, after, current, m) {
      assert Registered(deliveries, claims, current, m);
    }
  }

  lemma LiveKeepsState(deliveries: seq<Delivery>, claims: seq<Claim>, after: seq<Claim>, current: map<MessageId,
        ClaimId>, rejected: set<RequestId>, dead: seq<DeadLetter>)
    requires LiveGood(deliveries, claims, current, rejected, dead) && SameButState(claims, after)
    requires NoneRevived(claims, after)
    ensures LiveGood(deliveries, after, current, rejected, dead)
  {
  }

  lemma SubmissionsKeepState(accepted: map<ResultId, Binding>, submissions: map<ResultId, seq<Submission>>,
        deliveries: seq<Delivery>, claims: seq<Claim>, after: seq<Claim>)
    requires SubmissionsGood(accepted, submissions, deliveries, claims) && SameButState(claims, after)
    ensures SubmissionsGood(accepted, submissions, deliveries, after)
  {
  }

  /** Changing claim states without reviving any keeps everything. */
  lemma ClaimStatesKeep(q: Queue, after: seq<Claim>)
    requires Good(q) && SameButState(q.claims, after) && NoneRevived(q.claims, after)
    ensures Good(q.(claims := after))
  {
    hide DeliveriesGood, PublishedGood, HistoryGood, SentGood, ClaimsGood, LiveGood, ResultsGood, SubmissionsGood,
         FailuresGood, RedrivesGood,
         SameButState, NoneRevived;
    ClaimsKeepState(q.deliveries, q.claims, after, q.current, q.fenceSequence);
    LiveKeepsState(q.deliveries, q.claims, after, q.current, q.rejected, q.deadLetters);
    SubmissionsKeepState(q.accepted, q.submissions, q.deliveries, q.claims, after);
  }

  lemma MarkUncertainKeeps(q: Queue, c: ClaimId)
    requires Good(q)
    ensures Good(MarkUncertain(q, c).0)
  {
    hide Good;
    if MarkUncertain(q, c).1.Ok? { ClaimStatesKeep(q, SetClaimState(q, c, RenewalUncertain).claims); }
  }

  lemma ConfirmLossKeeps(q: Queue, c: ClaimId)
    requires Good(q)
    ensures Good(ConfirmLoss(q, c).0)
  {
    hide Good;
    if IsClaim(q, c) { ClaimStatesKeep(q, SetClaimState(q, c, LeaseLost).claims); }
  }

  lemma ClaimsGrow(deliveries: seq<Delivery>, claims: seq<Claim>, current: map<MessageId, ClaimId>, fences: nat,
        c: Claim)
    requires ClaimsGood(deliveries, claims, current, fences)
    requires c.id == |claims| + 1 == c.fence && 1 <= c.delivery <= |deliveries|
    ensures ClaimsGood(deliveries, claims + [c], current[deliveries[c.delivery - 1].message := c.id], fences + 1)
  {
    var cs, cur := claims + [c], current[deliveries[c.delivery - 1].message := c.id];
    forall i | 0 <= i < |cs| ensures ClaimGood(deliveries, cs, cur, i) {
      if i < |claims| { assert ClaimGood(deliveries, claims, current, i); }
    }
    forall m | m in cur ensures Registered(deliveries, cs, cur, m) {
      if m != deliveries[c.delivery - 1].message { assert Registered(deliveries, claims, current, m); }
    }
  }

  /** After the registered claim is replaced, a new claim may be registered in its place. */
  lemma LiveGrows(deliveries: seq<Delivery>, claims: seq<Claim>, current: map<MessageId, ClaimId>,
        rejected: set<RequestId>, dead: seq<DeadLetter>, c: Claim)
    requires LiveGood(deliveries, claims, current, rejected, dead)
    requires forall i :: 0 <= i < |claims| ==> claims[i].id == i + 1
    requires 1 <= c.delivery <= |deliveries|
    requires var d := deliveries[c.delivery - 1];
             && d.request !in rejected && !DeadLettered(dead, c.delivery)
             && (d.message in current ==>
                   1 <= current[d.message] <= |claims| && !Live(claims[current[d.message] - 1].state))
    ensures LiveGood(deliveries, claims + [c], current[deliveries[c.delivery - 1].message := c.id], rejected, dead)
  {
  }

  lemma SubmissionsKeepClaim(accepted: map<ResultId, Binding>, submissions: map<ResultId, seq<Submission>>,
        deliveries: seq<Delivery>, claims: seq<Claim>, c: Claim)
    requires SubmissionsGood(accepted, submissions, deliveries, claims)
    ensures SubmissionsGood(accepted, submissions, deliveries, claims + [c])
  {
  }

  /** The registered claim of the message is not live after a replacement. */
  lemma ReplacedRegistered(q: Queue, m: MessageId)
    requires ClaimsGood(q.deliveries, q.claims, q.current, q.fenceSequence)
    ensures |ReplaceRegistered(q, m)| == |q.claims|
    ensures SameButState(q.claims, ReplaceRegistered(q, m)) && NoneRevived(q.claims, ReplaceRegistered(q, m))
    ensures m in q.current ==> IsClaim(q, q.current[m]) && !Live(ReplaceRegistered(q, m)[q.current[m] - 1].state)
  {
  }

  lemma ClaimsNumbered(deliveries: seq<Delivery>, claims: seq<Claim>, current: map<MessageId, ClaimId>, fences: nat)
    requires ClaimsGood(deliveries, claims, current, fences)
    ensures fences == |claims|
    ensures forall i :: 0 <= i < |claims| ==> claims[i].id == i + 1 == claims[i].fence
  {
    forall i | 0 <= i < |claims| ensures claims[i].id == i + 1 == claims[i].fence {
      assert ClaimGood(deliveries, claims, current, i);
    }
  }

  lemma TakeClaimKeeps(q: Queue, d: DeliveryId, worker: WorkerRef)
    requires Good(q)
    ensures Good(TakeClaim(q, d, worker).0)
  {
    hide DeliveriesGood, PublishedGood, HistoryGood, SentGood, ClaimsGood, LiveGood, ResultsGood, SubmissionsGood,
         FailuresGood, RedrivesGood,
         ReplaceRegistered, DeadLettered, Live, SameButState, NoneRevived;
    var r := TakeClaim(q, d, worker);
    if r.1.Ok? {
      var m := DeliveryOf(q, d).message;
      ReplacedRegistered(q, m);
      var after := ReplaceRegistered(q, m);
      ClaimStatesKeep(q, after);
      var q0 := q.(claims := after);
      ClaimsNumbered(q0.deliveries, q0.claims, q0.current, q0.fenceSequence);
      ClaimsGrow(q.deliveries, after, q.current, q.fenceSequence, r.1.value);
      LiveGrows(q.deliveries, after, q.current, q.rejected, q.deadLetters, r.1.value);
      SubmissionsKeepClaim(q.accepted, q.submissions, q.deliveries, after, r.1.value);
    }
  }

  // ----- results -----

  /** The claim that may submit has the largest fence among its message's earlier submissions. */
  lemma ProducerIsNewest(q: Queue, c: ClaimId, s: Submission)
    requires ClaimsGood(q.deliveries, q.claims, q.current, q.fenceSequence) && CanProduce(q, c)
    requires SubmissionGood(s.binding, q.deliveries, q.claims, s)
    requires s.binding.message == DeliveryOf(q, ClaimOf(q, c).delivery).message
    ensures s.fence <= ClaimOf(q, c).fence
  {
    assert ClaimGood(q.deliveries, q.claims, q.current, s.claim - 1);
    assert ClaimGood(q.deliveries, q.claims, q.current, c - 1);
  }

  lemma ResultsGrow(accepted: map<ResultId, Binding>, slots: map<Slot, ResultId>, b: Binding)
    requires ResultsGood(accepted, slots) && b.result !in accepted && SlotOf(b) !in slots
    ensures ResultsGood(accepted[b.result := b], slots[SlotOf(b) := b.result])
  {
  }

  /** A submission by a claim whose fence is not smaller than any before it. */
  lemma SubmissionAdded(binding: Binding, deliveries: seq<Delivery>, claims: seq<Claim>, list: seq<Submission>,
        s: Submission)
    requires list == [] || SubmissionsOf(binding, deliveries, claims, list)
    requires SubmissionGood(binding, deliveries, claims, s)
    requires forall i :: 0 <= i < |list| ==> list[i].fence <= s.fence
    ensures SubmissionsOf(binding, deliveries, claims, if s in list then list else list + [s])
  {
  }

  /** The state after an accepted submission. */
  lemma AcceptedSubmission(q: Queue, c: ClaimId, b: Binding, occurrence: string)
    requires Good(q) && AcceptResult(q, c, b, occurrence).1.Ok?
    ensures var q1 := AcceptResult(q, c, b, occurrence).0;
            SubmissionsGood(q1.accepted, q1.submissions, q1.deliveries, q1.claims)
  {
    hide DeliveriesGood, PublishedGood, HistoryGood, SentGood, LiveGood, ResultsGood, FailuresGood, RedrivesGood,
         SubmissionsOf, CanProcess, ClaimsGood;
    var q1 := AcceptResult(q, c, b, occurrence).0;
    var known := if b.result in q.submissions then q.submissions[b.result] else [];
    var e := q.messages[b.message];
    var s := Submission(b, occurrence, ClaimOf(q, c).delivery, ClaimOf(q, c).worker, c, ClaimOf(q, c).fence,
                        e.contractVersion, e.schemaVersion, e.integrity);
    SubmissionsNewest(q, c, b, s, known);
    SubmissionAdded(b, q.deliveries, q.claims, known, s);
    assert q1.submissions[b.result] == if s in known then known else known + [s];
  }

  lemma SubmissionsNewest(q: Queue, c: ClaimId, b: Binding, s: Submission, known: seq<Submission>)
    requires ClaimsGood(q.deliveries, q.claims, q.current, q.fenceSequence) && CanProduce(q, c)
    requires known == [] || SubmissionsOf(b, q.deliveries, q.claims, known)
    requires b.message == DeliveryOf(q, ClaimOf(q, c).delivery).message
    requires b.request == DeliveryOf(q, ClaimOf(q, c).delivery).request
    requires s.binding == b && s.claim == c && s.delivery == ClaimOf(q, c).delivery && s.worker == ClaimOf(q, c).worker
    requires s.fence == ClaimOf(q, c).fence
    ensures SubmissionGood(b, q.deliveries, q.claims, s)
    ensures forall i :: 0 <= i < |known| ==> known[i].fence <= s.fence
  {
    hide CanProcess;
    assert ClaimGood(q.deliveries, q.claims, q.current, c - 1);
    forall i | 0 <= i < |known| ensures known[i].fence <= s.fence {
      ProducerIsNewest(q, c, known[i]);
    }
  }

  lemma AcceptKeeps(q: Queue, c: ClaimId, b: Binding, occurrence: string)
    requires Good(q)
    ensures Good(AcceptResult(q, c, b, occurrence).0)
  {
    hide DeliveriesGood, PublishedGood, HistoryGood, SentGood, ClaimsGood, LiveGood, SubmissionsGood, FailuresGood,
         RedrivesGood,
         CanProduce;
    var r := AcceptResult(q, c, b, occurrence);
    if r.1.Ok? {
      AcceptedSubmission(q, c, b, occurrence);
      if b.result !in q.accepted {
        assert SlotOf(b) in q.slots ==> SlotBound(q.accepted, q.slots, SlotOf(b));
        ResultsGrow(q.accepted, q.slots, b);
      } else {
        assert q.accepted[b.result := b] == q.accepted;
      }
    }
  }

  lemma AcknowledgeKeeps(q: Queue, d: DeliveryId, c: ClaimId, readiness: Readiness)
    requires Good(q)
    ensures Good(Acknowledge(q, d, c, readiness).0)
  {
  }

  // ----- failures -----

  /** Revoking every live claim of a rejected request leaves no live claim of it. */
  lemma RejectionLeavesNone(q: Queue, r: RequestId)
    requires LiveGood(q.deliveries, q.claims, q.current, q.rejected, q.deadLetters)
    ensures LiveGood(q.deliveries, RevokeRequest(q.claims, q.deliveries, r), q.current, q.rejected + {r}, q.deadLetters)
    ensures SameButState(q.claims, RevokeRequest(q.claims, q.deliveries, r))
    ensures NoneRevived(q.claims, RevokeRequest(q.claims, q.deliveries, r))
  {
  }

  /** Revoking every live claim of a dead-lettered delivery leaves no live claim of it. */
  lemma DeadLetterLeavesNone(q: Queue, letter: DeadLetter)
    requires LiveGood(q.deliveries, q.claims, q.current, q.rejected, q.deadLetters)
    ensures LiveGood(q.deliveries, RevokeDelivery(q.claims, letter.source.id), q.current, q.rejected,
                     q.deadLetters + [letter])
    ensures SameButState(q.claims, RevokeDelivery(q.claims, letter.source.id))
    ensures NoneRevived(q.claims, RevokeDelivery(q.claims, letter.source.id))
  {
  }

  /** One more failure below the limit. */
  lemma FailureCounted(policy: RetryPolicy, deliveries: seq<Delivery>, failures: map<(DeliveryId, FailureClass), nat>,
        dead: seq<DeadLetter>, d: DeliveryId, c: FailureClass, n: nat)
    requires FailuresGood(policy, deliveries, failures, dead) && !DeadLettered(dead, d)
    requires 1 <= d <= |deliveries| && Counted(c) && 1 <= n < Limit(policy, c)
    ensures FailuresGood(policy, deliveries, failures[(d, c) := n], dead)
  {
  }

  lemma LetterStays(dead: seq<DeadLetter>, letter: DeadLetter, d: DeliveryId, c: FailureClass)
    requires HasLetter(dead, d, c)
    ensures HasLetter(dead + [letter], d, c)
  {
    var i :| 0 <= i < |dead| && dead[i].source.id == d && dead[i].classification == c;
    assert (dead + [letter])[i] == dead[i];
  }

  lemma LetterAdded(dead: seq<DeadLetter>, letter: DeadLetter)
    requires LettersDistinct(dead) && !DeadLettered(dead, letter.source.id)
    ensures LettersDistinct(dead + [letter]) && HasLetter(dead + [letter], letter.source.id, letter.classification)
  {
    assert (dead + [letter])[|dead|] == letter;
  }

  /** The failure that reaches the limit dead-letters its delivery. */
  lemma FailureDeadLetters(policy: RetryPolicy, deliveries: seq<Delivery>, failures: map<(DeliveryId, FailureClass),
        nat>, dead: seq<DeadLetter>, letter: DeadLetter)
    requires FailuresGood(policy, deliveries, failures, dead) && !DeadLettered(dead, letter.source.id)
    requires 1 <= letter.source.id <= |deliveries| && deliveries[letter.source.id - 1] == letter.source
    requires Counted(letter.classification)
    ensures FailuresGood(policy, deliveries,
                         failures[(letter.source.id, letter.classification) := Limit(policy, letter.classification)],
                         dead + [letter])
  {
    hide HasLetter, LettersDistinct;
    var after := failures[(letter.source.id, letter.classification) := Limit(policy, letter.classification)];
    var letters := dead + [letter];
    LetterAdded(dead, letter);
    forall i | 0 <= i < |letters| ensures LetterGood(policy, deliveries, after, letters[i]) {
      if i < |dead| { assert LetterGood(policy, deliveries, failures, dead[i]); }
    }
    forall k, x | (k, x) in after ensures FailureGood(policy, deliveries, after, letters, k, x) {
      if (k, x) != (letter.source.id, letter.classification) {
        assert FailureGood(policy, deliveries, failures, dead, k, x);
        if HasLetter(dead, k, x) { LetterStays(dead, letter, k, x); }
      }
    }
  }

  lemma RedrivesKeepLetter(policy: RetryPolicy, deliveries: seq<Delivery>, dead: seq<DeadLetter>, letter: DeadLetter,
        redrives: map<DeliveryId, Redrive>, counts: map<MessageId, nat>)
    requires RedrivesGood(policy, deliveries, dead, redrives, counts)
    ensures RedrivesGood(policy, deliveries, dead + [letter], redrives, counts)
  {
    hide HasLetter, CountOf, Tally;
    forall k | k in redrives ensures RedriveGood(deliveries, dead + [letter], redrives, k) {
      assert RedriveGood(deliveries, dead, redrives, k);
      LetterStays(dead, letter, redrives[k].sourceDelivery, redrives[k].classification);
    }
  }

  /** A count never outgrows its limit, so the failure that stops being retried reaches it exactly. */
  lemma CountWithinLimit(q: Queue, d: DeliveryId, c: FailureClass)
    requires FailuresGood(q.policy, q.deliveries, q.failures, q.deadLetters)
    requires !DeadLettered(q.deadLetters, d)
    ensures Failures(q, d, c) < Limit(q.policy, c)
  {
  }

  lemma RejectKeeps(q: Queue, r: RequestId)
    requires Good(q)
    ensures Good(q.(rejected := q.rejected + {r}, claims := RevokeRequest(q.claims, q.deliveries, r)))
  {
    hide DeliveriesGood, PublishedGood, HistoryGood, SentGood, ClaimsGood, LiveGood, ResultsGood, SubmissionsGood,
         FailuresGood, RedrivesGood,
         SameButState, NoneRevived;
    RejectionLeavesNone(q, r);
    ClaimStatesKeep(q, RevokeRequest(q.claims, q.deliveries, r));
  }

  lemma DeadLetterKeeps(q: Queue, d: DeliveryId, c: FailureClass)
    requires Good(q) && IsDelivery(q, d) && !DeadLettered(q.deadLetters, d) && Counted(c)
    ensures Good(q.(failures := q.failures[(d, c) := Limit(q.policy, c)],
                    deadLetters := q.deadLetters + [DeadLetter(DeliveryOf(q, d), c)],
                    claims := RevokeDelivery(q.claims, d)))
  {
    hide PublishedGood, HistoryGood, SentGood, ClaimsGood, LiveGood, ResultsGood, SubmissionsGood, FailuresGood,
         RedrivesGood,
         SameButState, NoneRevived, DeadLettered, Limit, CountFor;
    assert DeliveryGood(q.messages, q.deliveries, d - 1);
    var letter := DeadLetter(DeliveryOf(q, d), c);
    FailureDeadLetters(q.policy, q.deliveries, q.failures, q.deadLetters, letter);
    DeadLetterLeavesNone(q, letter);
    ClaimStatesKeep(q, RevokeDelivery(q.claims, d));
    RedrivesKeepLetter(q.policy, q.deliveries, q.deadLetters, letter, q.redrives, q.redriveCounts);
  }

  lemma CountKeeps(q: Queue, d: DeliveryId, c: FailureClass, n: nat)
    requires Good(q) && IsDelivery(q, d) && !DeadLettered(q.deadLetters, d) && Counted(c) && 1 <= n < Limit(q.policy, c)
    ensures Good(q.(failures := q.failures[(d, c) := n]))
  {
    hide DeliveriesGood, PublishedGood, HistoryGood, SentGood, ClaimsGood, LiveGood, ResultsGood, SubmissionsGood,
         FailuresGood, RedrivesGood,
         DeadLettered;
    FailureCounted(q.policy, q.deliveries, q.failures, q.deadLetters, d, c, n);
  }

  lemma ClassifyKeeps(q: Queue, d: DeliveryId, c: FailureClass)
    requires Good(q)
    ensures Good(ClassifyFailure(q, d, c).0)
  {
    hide Good, Control;
    if ClassifyFailure(q, d, c).1.Ok? && ClassifyFailure(q, d, c).0 != q {
      if c == SecurityRejection {
        RejectKeeps(q, DeliveryOf(q, d).request);
      } else {
        GoodFailures(q);
        CountWithinLimit(q, d, c);
        if Failures(q, d, c) + 1 < Limit(q.policy, c) {
          CountKeeps(q, d, c, Failures(q, d, c) + 1);
        } else {
          DeadLetterKeeps(q, d, c);
        }
      }
    }
  }

  lemma GoodFailures(q: Queue)
    requires Good(q)
    ensures FailuresGood(q.policy, q.deliveries, q.failures, q.deadLetters)
  {
  }

  // ----- redrives -----

  ghost predicate AmongLetters(dead: seq<DeadLetter>, letter: DeadLetter) {
    exists i :: 0 <= i < |dead| && dead[i] == letter
  }

  /** A dead letter found for a source is one of the dead letters. */
  lemma LetterFound(dead: seq<DeadLetter>, source: RedriveSource)
    requires SourceLetter(dead, source).Some?
    ensures AmongLetters(dead, SourceLetter(dead, source).value)
  {
    if SourceLetter(dead[..|dead| - 1], source) == SourceLetter(dead, source) {
      LetterFound(dead[..|dead| - 1], source);
    } else {
      assert dead[|dead| - 1] == SourceLetter(dead, source).value;
    }
  }

  /** The redriven source is a stored delivery with a dead letter. */
  lemma RedriveSourceGood(q: Queue, source: RedriveSource)
    requires Good(q) && SourceLetter(q.deadLetters, source).Some?
    ensures var letter := SourceLetter(q.deadLetters, source).value;
            && 1 <= letter.source.id <= |q.deliveries| && q.deliveries[letter.source.id - 1] == letter.source
            && letter.source.message in q.messages && q.messages[letter.source.message].request == letter.source.request
            && HasLetter(q.deadLetters, letter.source.id, letter.classification)
            && HasDeliverable(q.messages, q.publications, letter.source.message)
  {
    hide PublishedGood, HistoryGood, ClaimsGood, LiveGood, ResultsGood, SubmissionsGood, RedrivesGood, HasDeliverable,
         CountFor;
    LetterFound(q.deadLetters, source);
    var letter := SourceLetter(q.deadLetters, source).value;
    assert LetterGood(q.policy, q.deliveries, q.failures, letter);
    assert DeliveryGood(q.messages, q.deliveries, letter.source.id - 1);
  }

  /** Adding a record for a delivery not tallied before. */
  lemma TallyKeepsRecord(deliveries: seq<Delivery>, redrives: map<DeliveryId, Redrive>, d: DeliveryId, record: Redrive,
        m: MessageId)
    requires forall i :: 0 <= i < |deliveries| ==> deliveries[i].id != d
    ensures Tally(deliveries, redrives[d := record], m) == Tally(deliveries, redrives, m)
  {
    if deliveries != [] { TallyKeepsRecord(deliveries[..|deliveries| - 1], redrives, d, record, m); }
  }

  /** A redriven delivery raises the tally and the count of its message together. */
  lemma RedrivesGrow(policy: RetryPolicy, deliveries: seq<Delivery>, d: Delivery, dead: seq<DeadLetter>,
        redrives: map<DeliveryId, Redrive>, counts: map<MessageId, nat>, record: Redrive)
    requires RedrivesGood(policy, deliveries, dead, redrives, counts)
    requires forall i :: 0 <= i < |deliveries| ==> deliveries[i].id == i + 1
    requires d.id == |deliveries| + 1 == record.newDelivery && d.message == record.message
    requires d.request == record.request
    requires 1 <= record.sourceDelivery <= |deliveries| && deliveries[record.sourceDelivery - 1].message == d.message
    requires HasLetter(dead, record.sourceDelivery, record.classification)
    requires CountOf(counts, d.message) < policy.maxRedrives
    ensures RedrivesGood(policy, deliveries + [d], dead, redrives[d.id := record],
                         counts[d.message := CountOf(counts, d.message) + 1])
  {
    hide HasLetter, Tally;
    var ds, rs, cs := deliveries + [d], redrives[d.id := record], counts[d.message := CountOf(counts, d.message) + 1];
    forall k | k in rs ensures RedriveGood(ds, dead, rs, k) {
      if k != d.id { assert RedriveGood(deliveries, dead, redrives, k); }
    }
    forall m ensures Tally(ds, rs, m) == CountOf(cs, m) <= policy.maxRedrives {
      TallyKeepsRecord(deliveries, redrives, d.id, record, m);
      TallyAppend(deliveries, d, rs, m);
      assert Tally(deliveries, redrives, m) == CountOf(counts, m);
    }
  }

  lemma TallyAppend(deliveries: seq<Delivery>, d: Delivery, redrives: map<DeliveryId, Redrive>, m: MessageId)
    ensures Tally(deliveries + [d], redrives, m) ==
            Tally(deliveries, redrives, m) + if d.message == m && d.id in redrives then 1 else 0
  {
  }

  lemma DeliveriesNumberedById(messages: map<MessageId, Envelope>, deliveries: seq<Delivery>)
    requires DeliveriesGood(messages, deliveries)
    ensures forall i :: 0 <= i < |deliveries| ==> deliveries[i].id == i + 1
  {
    forall i | 0 <= i < |deliveries| ensures deliveries[i].id == i + 1 {
      assert DeliveryGood(messages, deliveries, i);
    }
  }

  /** What a successful redrive does. */
  lemma RedriveCreates(q: Queue, source: RedriveSource, actor: string, authorization: Option<Authorization>,
        valid: bool)
    requires Good(q)
    ensures var (q1, r) := RedriveWork(q, source, actor, authorization, valid);
            if r.Err? then q1 == q
            else
              && SourceLetter(q.deadLetters, source).Some?
              && var from := SourceLetter(q.deadLetters, source).value.source;
                 var created := CreateDelivery(q, from.message, None, true);
              && created.1 == r && RedriveCount(q, from.message) < q.policy.maxRedrives
              && from.request !in q.rejected
              && r.value.id in q1.redrives
              && var record := q1.redrives[r.value.id];
              && q1 == created.0.(redriveCounts := q.redriveCounts[from.message := RedriveCount(q, from.message) + 1],
                                  redrives := q.redrives[r.value.id := record])
              && record.newDelivery == r.value.id && record.sourceDelivery == from.id && record.message == from.message
              && record.request == from.request
              && record.classification == SourceLetter(q.deadLetters, source).value.classification
  {
    hide DeliveriesGood, PublishedGood, HistoryGood, SentGood, ClaimsGood, LiveGood, ResultsGood, SubmissionsGood,
         FailuresGood, RedrivesGood,
         SourceLetter, HasLetter, HasDeliverable, CountFor;
    if SourceLetter(q.deadLetters, source).Some? {
      RedriveSourceGood(q, source);
    }
  }

  lemma RedriveKeeps(q: Queue, source: RedriveSource, actor: string, authorization: Option<Authorization>, valid: bool)
    requires Good(q)
    ensures Good(RedriveWork(q, source, actor, authorization, valid).0)
  {
    hide DeliveriesGood, PublishedGood, HistoryGood, SentGood, ClaimsGood, LiveGood, ResultsGood, SubmissionsGood,
         FailuresGood, RedrivesGood,
         SourceLetter, HasLetter, HasDeliverable, CountFor, RedriveWork;
    var (q1, r) := RedriveWork(q, source, actor, authorization, valid);
    RedriveCreates(q, source, actor, authorization, valid);
    if r.Ok? {
      var from := SourceLetter(q.deadLetters, source).value.source;
      RedriveSourceGood(q, source);
      CreateKeepsCommon(q, from.message, None, true);
      DeliveriesNumberedById(q.messages, q.deliveries);
      RedrivesGrow(q.policy, q.deliveries, r.value, q.deadLetters, q.redrives, q.redriveCounts,
                   q1.redrives[r.value.id]);
    }
  }

  // ----- every step and every run -----

  lemma StepKeeps(q: Queue, op: Op)
    requires Good(q)
    ensures Good(Step(q, op))
  {
    hide Good, Publish, RecordOutcome, Deliver, ProviderDelivery, Redeliver, SetControl, TakeClaim, MarkUncertain,
         ConfirmLoss,
         AcceptResult, Acknowledge, ClassifyFailure, RedriveWork;
    match op
    case OpPublish(e, valid) => PublishKeeps(q, e, valid);
    case OpOutcome(p, state, reference) => RecordOutcomeKeeps(q, p, state, reference);
    case OpDeliver(m) => DeliverKeeps(q, m);
    case OpProviderDelivery(m, reference) => ProviderDeliveryKeeps(q, m, reference);
    case OpRedeliver(d) => RedeliverKeeps(q, d);
    case OpControl(r, state) => ControlKeeps(q, r, state);
    case OpClaim(d, worker) => TakeClaimKeeps(q, d, worker);
    case OpMarkUncertain(c) => MarkUncertainKeeps(q, c);
    case OpConfirmLoss(c) => ConfirmLossKeeps(q, c);
    case OpAccept(c, b, occurrence) => AcceptKeeps(q, c, b, occurrence);
    case OpAcknowledge(d, c, readiness) => AcknowledgeKeeps(q, d, c, readiness);
    case OpClassify(d, c) => ClassifyKeeps(q, d, c);
    case OpRedrive(source, actor, authorization, valid) => RedriveKeeps(q, source, actor, authorization, valid);
  }

  /** Every state reached from the empty queue, by any sequence of operations, is good. */
  lemma {:induction false} ReachableGood(policy: RetryPolicy, required: set<DurableEffect>, ops: seq<Op>)
    ensures Good(Run(Initial(policy, required), ops))
  {
    hide Good, Step;
    if ops == [] {
      InitialGood(policy, required);
    } else {
      ReachableGood(policy, required, ops[..|ops| - 1]);
      StepKeeps(Run(Initial(policy, required), ops[..|ops| - 1]), ops[|ops| - 1]);
    }
  }
}
