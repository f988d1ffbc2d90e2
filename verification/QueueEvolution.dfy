/**
 How the queue may change over a run: which records are never rewritten, which counters
 only rise, and which doors, once closed, no later operation opens again. `Evolves`
 holds across every step of a good queue and is transitive, so it holds across every run.
 */
module QueueEvolution {
  import opened Prelude
  import opened QueueModel
  import opened QueueInvariants

  /** Records are only added. */
  ghost predicate Grows(q: Queue, q1: Queue) {
    && q1.policy == q.policy && q1.required == q.required
    && q.deliveries <= q1.deliveries && q.deadLetters <= q1.deadLetters
    && Submap(q.messages, q1.messages) && Submap(q.accepted, q1.accepted) && Submap(q.slots, q1.slots)
    && Submap(q.redrives, q1.redrives)
    && q.conflicted <= q1.conflicted && q.rejected <= q1.rejected && q.acknowledged <= q1.acknowledged
  }

  predicate Settled(state: PublicationState) {
    state != NotAttempted && state != ResultUncertain
  }

  ghost predicate PublicationEvolves(q: Queue, q1: Queue, p: PublicationId)
    requires p in q.publications
  {
    && p in q1.publications
    && q1.publications[p] == q.publications[p].(state := q1.publications[p].state)
    && (Settled(q.publications[p].state) ==> q1.publications[p].state == q.publications[p].state)
    && (p in q.history ==> p in q1.history && q.history[p] <= q1.history[p])
  }

  /** Publications keep their binding, a settled state never changes and histories only grow. */
  ghost predicate PublicationsEvolve(q: Queue, q1: Queue) {
    forall p :: p in q.publications ==> PublicationEvolves(q, q1, p)
  }

  /** Work that has left the active state never returns to it. */
  ghost predicate ControlsEvolve(controls: map<RequestId, ControlState>, controls1: map<RequestId, ControlState>) {
    forall r :: Control(controls1, r) == Active ==> Control(controls, r) == Active
  }

  /** Claim states only go from current to uncertain to one of the ended states; lease loss is last. */
  predicate StateFollows(a: ClaimState, b: ClaimState) {
    && (b == Current ==> a == Current)
    && (b == RenewalUncertain ==> Live(a))
    && (a == LeaseLost ==> b == LeaseLost)
    && (b == Replaced || b == Revoked ==> Live(a) || a == b)
  }

  ghost predicate ClaimsEvolve(claims: seq<Claim>, claims1: seq<Claim>) {
    && |claims| <= |claims1|
    && forall i :: 0 <= i < |claims| ==>
         claims1[i] == claims[i].(state := claims1[i].state) && StateFollows(claims[i].state, claims1[i].state)
  }

  /** A registration is only ever replaced by a newer claim. */
  ghost predicate RegistrationsEvolve(count: nat, current: map<MessageId, ClaimId>, current1: map<MessageId, ClaimId>) {
    forall m :: m in current1 && current1[m] <= count ==> m in current && current[m] == current1[m]
  }

  ghost predicate SubmissionsEvolve(submissions: map<ResultId, seq<Submission>>, submissions1: map<ResultId,
        seq<Submission>>) {
    forall r :: r in submissions ==> r in submissions1 && submissions[r] <= submissions1[r]
  }

  ghost predicate CountersEvolve(q: Queue, q1: Queue) {
    && (forall k :: k in q.failures ==> k in q1.failures && q.failures[k] <= q1.failures[k])
    && (forall m :: RedriveCount(q, m) <= RedriveCount(q1, m))
  }

  ghost predicate NewSubmission(submissions: map<ResultId, seq<Submission>>, submissions1: map<ResultId,
        seq<Submission>>, r: ResultId, i: nat) {
    && r in submissions1 && i < |submissions1[r]|
    && (r in submissions ==> |submissions[r]| <= i)
  }

  /** Nothing new happens to the work of a rejected request, and no conflicted message is acknowledged. */
  ghost predicate Sealed(q: Queue, q1: Queue) {
    && (forall i :: |q.deliveries| <= i < |q1.deliveries| ==> q1.deliveries[i].request !in q.rejected)
    && (forall i :: |q.claims| <= i < |q1.claims| ==>
          IsDelivery(q1, q1.claims[i].delivery) && DeliveryOf(q1, q1.claims[i].delivery).request !in q.rejected)
    && (forall r :: r in q1.accepted && r !in q.accepted ==> q1.accepted[r].request !in q.rejected)
    && (forall r, i: nat :: NewSubmission(q.submissions, q1.submissions, r, i) ==>
          q1.submissions[r][i].binding.request !in q.rejected)
    && (forall d :: d in q1.acknowledged && d !in q.acknowledged ==>
          && IsDelivery(q1, d) && DeliveryOf(q1, d).request !in q.rejected
          && DeliveryOf(q1, d).message !in q.conflicted)
    && (forall d :: d in q1.redrives && d !in q.redrives ==> q1.redrives[d].request !in q.rejected)
  }

  ghost predicate MessageLettered(dead: seq<DeadLetter>, m: MessageId) {
    exists i :: 0 <= i < |dead| && dead[i].source.message == m
  }

  /** New deliveries of dead-lettered messages are redrives. */
  ghost predicate RedriveOnly(q: Queue, q1: Queue) {
    forall i :: |q.deliveries| <= i < |q1.deliveries| && MessageLettered(q.deadLetters, q1.deliveries[i].message) ==>
      q1.deliveries[i].id in q1.redrives
  }

  ghost predicate Evolves(q: Queue, q1: Queue) {
    && Grows(q, q1)
    && PublicationsEvolve(q, q1)
    && ControlsEvolve(q.controls, q1.controls)
    && ClaimsEvolve(q.claims, q1.claims)
    && RegistrationsEvolve(|q.claims|, q.current, q1.current)
    && SubmissionsEvolve(q.submissions, q1.submissions)
    && CountersEvolve(q, q1)
    && Sealed(q, q1)
    && RedriveOnly(q, q1)
  }

  lemma EvolvesReflexive(q: Queue)
    ensures Evolves(q, q)
  {
  }

  // ----- transitivity -----

  lemma GrowsTransitive(a: Queue, b: Queue, c: Queue)
    requires Grows(a, b) && Grows(b, c)
    ensures Grows(a, c)
  {
  }

  lemma PublicationsTransitive(a: Queue, b: Queue, c: Queue)
    requires PublicationsEvolve(a, b) && PublicationsEvolve(b, c)
    ensures PublicationsEvolve(a, c)
  {
  }

  lemma ClaimsTransitive(a: seq<Claim>, b: seq<Claim>, c: seq<Claim>)
    requires ClaimsEvolve(a, b) && ClaimsEvolve(b, c)
    ensures ClaimsEvolve(a, c)
  {
  }

  lemma RegistrationsTransitive(a: Queue, b: Queue, c: Queue)
    requires |a.claims| <= |b.claims|
    requires RegistrationsEvolve(|a.claims|, a.current, b.current)
    requires RegistrationsEvolve(|b.claims|, b.current, c.current)
    ensures RegistrationsEvolve(|a.claims|, a.current, c.current)
  {
  }

  lemma CountersTransitive(a: Queue, b: Queue, c: Queue)
    requires CountersEvolve(a, b) && CountersEvolve(b, c)
    ensures CountersEvolve(a, c)
  {
  }

  lemma SealedTransitive(a: Queue, b: Queue, c: Queue)
    requires Grows(a, b) && Grows(b, c) && ClaimsEvolve(b.claims, c.claims)
    requires SubmissionsEvolve(b.submissions, c.submissions)
    requires Sealed(a, b) && Sealed(b, c)
    ensures Sealed(a, c)
  {
    hide StateFollows;
    forall r, i: nat | NewSubmission(a.submissions, c.submissions, r, i)
      ensures c.submissions[r][i].binding.request !in a.rejected
    {
      assert NewSubmission(b.submissions, c.submissions, r, i) || NewSubmission(a.submissions, b.submissions, r, i);
    }
    forall i | |a.claims| <= i < |c.claims|
      ensures IsDelivery(c, c.claims[i].delivery) && DeliveryOf(c, c.claims[i].delivery).request !in a.rejected
    {
      if i < |b.claims| {
        assert c.claims[i].delivery == b.claims[i].delivery;
        assert IsDelivery(b, b.claims[i].delivery);
      }
    }
  }

  lemma RedriveOnlyTransitive(a: Queue, b: Queue, c: Queue)
    requires Grows(a, b) && Grows(b, c) && RedriveOnly(a, b) && RedriveOnly(b, c)
    ensures RedriveOnly(a, c)
  {
  }

  lemma EvolvesTransitive(a: Queue, b: Queue, c: Queue)
    requires Evolves(a, b) && Evolves(b, c)
    ensures Evolves(a, c)
  {
    hide Grows, PublicationsEvolve, CountersEvolve, Sealed, RedriveOnly, StateFollows;
    GrowsTransitive(a, b, c);
    PublicationsTransitive(a, b, c);
    ClaimsTransitive(a.claims, b.claims, c.claims);
    RegistrationsTransitive(a, b, c);
    CountersTransitive(a, b, c);
    SealedTransitive(a, b, c);
    RedriveOnlyTransitive(a, b, c);
  }

  // ----- each operation -----

  /** Operations on publications and controls touch no delivery, claim or result. */
  lemma PublicationSideEvolves(q: Queue, q1: Queue)
    requires q1 ==
              q.(messages := q1.messages, controls := q1.controls, publications := q1.publications,
                 history := q1.history)
    requires Submap(q.messages, q1.messages) && PublicationsEvolve(q, q1) && ControlsEvolve(q.controls, q1.controls)
    ensures Evolves(q, q1)
  {
    hide PublicationsEvolve, ControlsEvolve, MessageLettered;
  }

  lemma PublishEvolves(q: Queue, e: Envelope, valid: bool)
    requires Good(q)
    ensures Evolves(q, Publish(q, e, valid).0)
  {
    hide Good, CanProduce, ClaimedBindingHolds, Evolves;
    EvolvesReflexive(q);
    var r := Publish(q, e, valid);
    if r.1.Ok? && e.publication.value !in q.publications {
      PublishStoresNew(q, e, valid);
      PublicationSideEvolves(q, r.0);
    }
  }

  lemma RecordOutcomeEvolves(q: Queue, p: PublicationId, state: PublicationState, reference: string)
    ensures Evolves(q, RecordOutcome(q, p, state, reference).0)
  {
    hide Delivered, Evolves;
    EvolvesReflexive(q);
    if RecordOutcome(q, p, state, reference).1.Ok? {
      PublicationSideEvolves(q, RecordOutcome(q, p, state, reference).0);
    }
  }

  lemma ControlEvolves(q: Queue, r: RequestId, state: ControlState)
    ensures Evolves(q, SetControl(q, r, state).0)
  {
    hide Evolves;
    EvolvesReflexive(q);
    if SetControl(q, r, state).1.Ok? {
      var q1 := SetControl(q, r, state).0;
      assert q1 ==
             q.(messages := q1.messages, controls := q1.controls, publications := q1.publications,
                history := q1.history);
      PublicationSideEvolves(q, q1);
    }
  }

  lemma ClaimStatesEvolve(q: Queue, after: seq<Claim>)
    requires ClaimsEvolve(q.claims, after) && |after| == |q.claims|
    ensures Evolves(q, q.(claims := after))
  {
    hide ClaimsEvolve, MessageLettered;
  }

  lemma MarkUncertainEvolves(q: Queue, c: ClaimId)
    ensures Evolves(q, MarkUncertain(q, c).0)
  {
    hide Evolves;
    EvolvesReflexive(q);
    if MarkUncertain(q, c).1.Ok? { ClaimStatesEvolve(q, SetClaimState(q, c, RenewalUncertain).claims); }
  }

  lemma ConfirmLossEvolves(q: Queue, c: ClaimId)
    ensures Evolves(q, ConfirmLoss(q, c).0)
  {
    hide Evolves;
    EvolvesReflexive(q);
    if IsClaim(q, c) { ClaimStatesEvolve(q, SetClaimState(q, c, LeaseLost).claims); }
  }

  lemma ReplaceEvolves(q: Queue, m: MessageId)
    ensures ClaimsEvolve(q.claims, ReplaceRegistered(q, m)) && |ReplaceRegistered(q, m)| == |q.claims|
  {
  }

  lemma TakeClaimEvolves(q: Queue, d: DeliveryId, worker: WorkerRef)
    ensures Evolves(q, TakeClaim(q, d, worker).0)
  {
    hide MessageLettered, DeadLettered, ReplaceRegistered, StateFollows;
    EvolvesReflexive(q);
    if TakeClaim(q, d, worker).1.Ok? { ReplaceEvolves(q, DeliveryOf(q, d).message); }
  }

  /** The submissions of every result but one are as they were, and that one gains at most a last entry. */
  lemma SubmissionAppended(submissions: map<ResultId, seq<Submission>>, r: ResultId, s: Submission, added: bool)
    requires added || r in submissions
    ensures var known := if r in submissions then submissions[r] else [];
            var submissions1 := submissions[r := if added then known + [s] else known];
            && SubmissionsEvolve(submissions, submissions1)
            && forall x, i: nat :: NewSubmission(submissions, submissions1, x, i) ==> submissions1[x][i] == s
  {
  }

  lemma AcceptEvolves(q: Queue, c: ClaimId, b: Binding, occurrence: string)
    requires Good(q)
    ensures Evolves(q, AcceptResult(q, c, b, occurrence).0)
  {
    hide Good, Evolves, SubmissionsEvolve, NewSubmission, CanProcess;
    EvolvesReflexive(q);
    var (q1, r) := AcceptResult(q, c, b, occurrence);
    if r.Ok? {
      AcceptedSubmissions(q, c, b, occurrence);
      AcceptedEvolves(q, q1, b);
    } else if q1 != q {
      ConflictEvolves(q, DeliveryOf(q, ClaimOf(q, c).delivery).message);
    }
  }

  lemma AcceptedSubmissions(q: Queue, c: ClaimId, b: Binding, occurrence: string)
    requires Good(q) && AcceptResult(q, c, b, occurrence).1.Ok?
    ensures var q1 := AcceptResult(q, c, b, occurrence).0;
            && b.request !in q.rejected
            && SubmissionsEvolve(q.submissions, q1.submissions)
            && forall r, i: nat :: NewSubmission(q.submissions, q1.submissions, r, i) ==>
                 q1.submissions[r][i].binding == b
  {
    hide Good, SubmissionsEvolve, NewSubmission, DeadLettered;
    var e := q.messages[b.message];
    var s := Submission(b, occurrence, ClaimOf(q, c).delivery, ClaimOf(q, c).worker, c, ClaimOf(q, c).fence,
                        e.contractVersion, e.schemaVersion, e.integrity);
    var known := if b.result in q.submissions then q.submissions[b.result] else [];
    SubmissionAppended(q.submissions, b.result, s, s !in known);
  }

  lemma ConflictEvolves(q: Queue, m: MessageId)
    ensures Evolves(q, MarkConflicted(q, m))
  {
    hide MessageLettered;
  }

  /** A result accepted or submitted again for work that is not rejected. */
  lemma AcceptedEvolves(q: Queue, q1: Queue, b: Binding)
    requires q1 == q.(accepted := q1.accepted, slots := q1.slots, submissions := q1.submissions)
    requires Submap(q.accepted, q1.accepted) && Submap(q.slots, q1.slots)
    requires SubmissionsEvolve(q.submissions, q1.submissions)
    requires b.request !in q.rejected
    requires forall r :: r in q1.accepted && r !in q.accepted ==> q1.accepted[r] == b
    requires forall r, i: nat :: NewSubmission(q.submissions, q1.submissions, r, i) ==>
              q1.submissions[r][i].binding == b
    ensures Evolves(q, q1)
  {
    hide MessageLettered, SubmissionsEvolve, NewSubmission;
  }

  lemma AcknowledgedEvolves(q: Queue, d: DeliveryId)
    requires IsDelivery(q, d) && DeliveryOf(q, d).request !in q.rejected
    requires DeliveryOf(q, d).message !in q.conflicted
    ensures Evolves(q, q.(acknowledged := q.acknowledged + {d}))
  {
    hide MessageLettered;
  }

  lemma AcknowledgeEvolves(q: Queue, d: DeliveryId, c: ClaimId, readiness: Readiness)
    ensures Evolves(q, Acknowledge(q, d, c, readiness).0)
  {
    hide Evolves, CanProduce;
    EvolvesReflexive(q);
    if Acknowledge(q, d, c, readiness).1 == Ok(true) { AcknowledgedEvolves(q, d); }
  }

  // ----- deliveries -----

  /** A delivery is only created for work that is not rejected, and not dead-lettered unless it is a redrive. */
  lemma DeliveryEvolves(q: Queue, q1: Queue, d: Delivery)
    requires q1 == q.(deliveries := q.deliveries + [d], redrives := q1.redrives, redriveCounts := q1.redriveCounts)
    requires Submap(q.redrives, q1.redrives)
    requires forall m :: RedriveCount(q, m) <= RedriveCount(q1, m)
    requires d.request !in q.rejected
    requires forall k :: k in q1.redrives && k !in q.redrives ==> q1.redrives[k].request !in q.rejected
    requires MessageLettered(q.deadLetters, d.message) ==> d.id in q1.redrives
    ensures Evolves(q, q1)
  {
    hide MessageLettered, RedriveCount;
  }

  lemma LetteredIffFound(dead: seq<DeadLetter>, m: MessageId)
    ensures DeadLetterFor(dead, m).Some? <==> MessageLettered(dead, m)
  {
  }

  lemma CreateEvolves(q: Queue, m: MessageId, provider: Option<string>)
    ensures Evolves(q, CreateDelivery(q, m, provider, false).0)
  {
    hide Evolves, MessageLettered, CountFor, DeadLetterFor;
    EvolvesReflexive(q);
    var (q1, r) := CreateDelivery(q, m, provider, false);
    if r.Ok? {
      LetteredIffFound(q.deadLetters, m);
      DeliveryEvolves(q, q1, r.value);
    }
  }

  lemma DeliverEvolves(q: Queue, m: MessageId)
    ensures Evolves(q, Deliver(q, m).0)
  {
    hide Evolves, CreateDelivery;
    EvolvesReflexive(q);
    CreateEvolves(q, m, None);
  }

  lemma ProviderDeliveryEvolves(q: Queue, m: MessageId, reference: string)
    ensures Evolves(q, ProviderDelivery(q, m, reference).0)
  {
    hide Evolves, CreateDelivery;
    EvolvesReflexive(q);
    CreateEvolves(q, m, Some(reference));
  }

  lemma RedeliverEvolves(q: Queue, d: DeliveryId)
    ensures Evolves(q, Redeliver(q, d).0)
  {
    hide Evolves, CreateDelivery;
    EvolvesReflexive(q);
    if IsDelivery(q, d) { CreateEvolves(q, DeliveryOf(q, d).message, None); }
  }

  lemma RedriveEvolves(q: Queue, source: RedriveSource, actor: string, authorization: Option<Authorization>,
        valid: bool)
    requires Good(q)
    ensures Evolves(q, RedriveWork(q, source, actor, authorization, valid).0)
  {
    hide Good, Evolves, RedriveWork, SourceLetter, CountFor, MessageLettered, RedriveGood;
    EvolvesReflexive(q);
    RedriveCreates(q, source, actor, authorization, valid);
    var (q1, r) := RedriveWork(q, source, actor, authorization, valid);
    if r.Ok? {
      NewRedriveId(q, |q.deliveries| + 1);
      DeliveryEvolves(q, q1, r.value);
    }
  }

  lemma NewRedriveId(q: Queue, d: DeliveryId)
    requires Good(q) && d > |q.deliveries|
    ensures d !in q.redrives
  {
  }

  // ----- failures -----

  lemma RevocationEvolves(claims: seq<Claim>, deliveries: seq<Delivery>, r: RequestId, d: DeliveryId)
    ensures ClaimsEvolve(claims, RevokeRequest(claims, deliveries, r))
    ensures ClaimsEvolve(claims, RevokeDelivery(claims, d))
  {
  }

  /** A failure only counts up, dead-letters, rejects and revokes. */
  lemma FailureEvolves(q: Queue, q1: Queue)
    requires q1 ==
              q.(failures := q1.failures, deadLetters := q1.deadLetters, claims := q1.claims, rejected := q1.rejected)
    requires q.deadLetters <= q1.deadLetters && q.rejected <= q1.rejected
    requires ClaimsEvolve(q.claims, q1.claims) && |q1.claims| == |q.claims|
    requires forall k :: k in q.failures ==> k in q1.failures && q.failures[k] <= q1.failures[k]
    ensures Evolves(q, q1)
  {
    hide ClaimsEvolve, MessageLettered;
  }

  lemma RejectEvolves(q: Queue, r: RequestId)
    ensures Evolves(q, q.(rejected := q.rejected + {r}, claims := RevokeRequest(q.claims, q.deliveries, r)))
  {
    hide Evolves, ClaimsEvolve;
    RevocationEvolves(q.claims, q.deliveries, r, 0);
    FailureEvolves(q, q.(rejected := q.rejected + {r}, claims := RevokeRequest(q.claims, q.deliveries, r)));
  }

  lemma CountEvolves(q: Queue, d: DeliveryId, c: FailureClass)
    ensures Evolves(q, q.(failures := q.failures[(d, c) := Failures(q, d, c) + 1]))
  {
    hide Evolves, ClaimsEvolve;
    SameClaimsEvolve(q.claims);
    FailureEvolves(q, q.(failures := q.failures[(d, c) := Failures(q, d, c) + 1]));
  }

  lemma DeadLetterEvolves(q: Queue, letter: DeadLetter)
    ensures var d, c := letter.source.id, letter.classification;
            Evolves(q, q.(failures := q.failures[(d, c) := Failures(q, d, c) + 1],
                          deadLetters := q.deadLetters + [letter], claims := RevokeDelivery(q.claims, d)))
  {
    hide Evolves, ClaimsEvolve;
    var d, c := letter.source.id, letter.classification;
    RevocationEvolves(q.claims, q.deliveries, RequestId(""), d);
    FailureEvolves(q, q.(failures := q.failures[(d, c) := Failures(q, d, c) + 1],
                         deadLetters := q.deadLetters + [letter], claims := RevokeDelivery(q.claims, d)));
  }

  lemma ClassifyEvolves(q: Queue, d: DeliveryId, c: FailureClass)
    requires Good(q)
    ensures Evolves(q, ClassifyFailure(q, d, c).0)
  {
    hide Evolves, DeadLettered, Control, Limit, CountFor, PublishedGood, HistoryGood, SentGood, ClaimsGood, LiveGood,
         ResultsGood,
         SubmissionsGood, FailuresGood, RedrivesGood, Failures;
    EvolvesReflexive(q);
    if ClassifyFailure(q, d, c).0 != q {
      if c == SecurityRejection {
        RejectEvolves(q, DeliveryOf(q, d).request);
      } else if Failures(q, d, c) + 1 < Limit(q.policy, c) {
        CountEvolves(q, d, c);
      } else {
        assert DeliveryGood(q.messages, q.deliveries, d - 1);
        DeadLetterEvolves(q, DeadLetter(DeliveryOf(q, d), c));
      }
    }
  }

  lemma SameClaimsEvolve(claims: seq<Claim>)
    ensures ClaimsEvolve(claims, claims)
  {
  }

  // ----- every step and every run -----

  lemma StepEvolves(q: Queue, op: Op)
    requires Good(q)
    ensures Evolves(q, Step(q, op))
  {
    hide Good, Evolves, Publish, RecordOutcome, Deliver, ProviderDelivery, Redeliver, SetControl, TakeClaim,
         MarkUncertain, ConfirmLoss,
         AcceptResult, Acknowledge, ClassifyFailure, RedriveWork;
    match op
    case OpPublish(e, valid) => PublishEvolves(q, e, valid);
    case OpOutcome(p, state, reference) => RecordOutcomeEvolves(q, p, state, reference);
    case OpDeliver(m) => DeliverEvolves(q, m);
    case OpProviderDelivery(m, reference) => ProviderDeliveryEvolves(q, m, reference);
    case OpRedeliver(d) => RedeliverEvolves(q, d);
    case OpControl(r, state) => ControlEvolves(q, r, state);
    case OpClaim(d, worker) => TakeClaimEvolves(q, d, worker);
    case OpMarkUncertain(c) => MarkUncertainEvolves(q, c);
    case OpConfirmLoss(c) => ConfirmLossEvolves(q, c);
    case OpAccept(c, b, occurrence) => AcceptEvolves(q, c, b, occurrence);
    case OpAcknowledge(d, c, readiness) => AcknowledgeEvolves(q, d, c, readiness);
    case OpClassify(d, c) => ClassifyEvolves(q, d, c);
    case OpRedrive(source, actor, authorization, valid) => RedriveEvolves(q, source, actor, authorization, valid);
  }

  /** Over any run from a good state, the state stays good and evolves. */
  lemma {:induction false} RunEvolves(q: Queue, ops: seq<Op>)
    requires Good(q)
    ensures Good(Run(q, ops)) && Evolves(q, Run(q, ops))
  {
    hide Good, Evolves, Step;
    if ops == [] {
      EvolvesReflexive(q);
    } else {
      var before := Run(q, ops[..|ops| - 1]);
      RunEvolves(q, ops[..|ops| - 1]);
      StepKeeps(before, ops[|ops| - 1]);
      StepEvolves(before, ops[|ops| - 1]);
      EvolvesTransitive(q, before, Run(q, ops));
    }
  }
}
