/**
 The promises of the queue, each over every state reached from an empty queue by any
 sequence of operations, and over every further run from there.
 */
module QueueTheorems {
  import opened Prelude
  import opened QueueModel
  import opened QueueInvariants
  import opened QueueEvolution

  function Reached(policy: RetryPolicy, required: set<DurableEffect>, ops: seq<Op>): Queue {
    Run(Initial(policy, required), ops)
  }

  function MessageOfClaim(q: Queue, c: ClaimId): Option<MessageId> {
    if IsClaim(q, c) && IsDelivery(q, ClaimOf(q, c).delivery)
    then Some(DeliveryOf(q, ClaimOf(q, c).delivery).message)
    else None
  }

  // ----- claims and fences -----

  /** Every claim has a message; the registered claim has the largest fence of its message. */
  lemma RegisteredHasLargestFence(policy: RetryPolicy, required: set<DurableEffect>, ops: seq<Op>, c: ClaimId)
    requires IsClaim(Reached(policy, required, ops), c)
    ensures var q := Reached(policy, required, ops);
            && MessageOfClaim(q, c).Some?
            && var m := MessageOfClaim(q, c).value;
               && m in q.current && MessageOfClaim(q, q.current[m]) == Some(m)
               && ClaimOf(q, c).fence <= ClaimOf(q, q.current[m]).fence
               && (ClaimOf(q, c).fence == ClaimOf(q, q.current[m]).fence ==> c == q.current[m])
  {
    hide Run, DeliveriesGood, PublishedGood, HistoryGood, SentGood, LiveGood, ResultsGood, SubmissionsGood,
         FailuresGood, RedrivesGood;
    ReachableGood(policy, required, ops);
    var q := Reached(policy, required, ops);
    assert ClaimGood(q.deliveries, q.claims, q.current, c - 1);
    var m := MessageOfClaim(q, c).value;
    assert Registered(q.deliveries, q.claims, q.current, m);
    assert ClaimGood(q.deliveries, q.claims, q.current, q.current[m] - 1);
  }

  /** A current or renewal-uncertain claim is the registered claim of its message, so there is at most one. */
  lemma LiveClaimIsRegistered(policy: RetryPolicy, required: set<DurableEffect>, ops: seq<Op>, c: ClaimId)
    requires IsClaim(Reached(policy, required, ops), c) && Live(ClaimOf(Reached(policy, required, ops), c).state)
    ensures var q := Reached(policy, required, ops);
            MessageOfClaim(q, c).Some? && MessageOfClaim(q, c).value in q.current &&
            q.current[MessageOfClaim(q, c).value] == c
  {
    hide Run, DeliveriesGood, PublishedGood, HistoryGood, SentGood, ResultsGood, SubmissionsGood, FailuresGood,
         RedrivesGood, DeadLettered;
    ReachableGood(policy, required, ops);
    var q := Reached(policy, required, ops);
    assert ClaimGood(q.deliveries, q.claims, q.current, c - 1);
    assert OpenWork(q.deliveries, q.current, q.rejected, q.deadLetters, q.claims[c - 1]);
  }

  lemma AtMostOneLiveClaim(policy: RetryPolicy, required: set<DurableEffect>, ops: seq<Op>, a: ClaimId, b: ClaimId)
    requires var q := Reached(policy, required, ops);
             && IsClaim(q, a) && Live(ClaimOf(q, a).state) && IsClaim(q, b) && Live(ClaimOf(q, b).state)
             && MessageOfClaim(q, a) == MessageOfClaim(q, b)
    ensures a == b
  {
    hide Run;
    LiveClaimIsRegistered(policy, required, ops, a);
    LiveClaimIsRegistered(policy, required, ops, b);
  }

  lemma DeadLetteredGrows(dead: seq<DeadLetter>, dead1: seq<DeadLetter>, d: DeliveryId)
    requires dead <= dead1 && DeadLettered(dead, d)
    ensures DeadLettered(dead1, d)
  {
  }

  /** An existing claim that can produce effects could produce them before. */
  lemma PowerWasHeld(q: Queue, q1: Queue, c: ClaimId)
    requires Good(q) && Evolves(q, q1) && IsClaim(q, c) && CanProduce(q1, c)
    ensures CanProduce(q, c)
  {
    hide DeliveriesGood, PublishedGood, HistoryGood, SentGood, LiveGood, ResultsGood, SubmissionsGood, FailuresGood,
         RedrivesGood,
         PublicationsEvolve, SubmissionsEvolve, CountersEvolve, Sealed, RedriveOnly, DeadLettered, Control;
    assert ClaimGood(q.deliveries, q.claims, q.current, c - 1);
    var d := ClaimOf(q, c).delivery;
    assert q1.claims[c - 1].delivery == d;
    if DeadLettered(q.deadLetters, d) { DeadLetteredGrows(q.deadLetters, q1.deadLetters, d); }
  }

  /** Over any run, a claim that has lost the power to produce protected effects never regains it. */
  lemma PowerNeverRegained(policy: RetryPolicy, required: set<DurableEffect>, ops: seq<Op>, more: seq<Op>, c: ClaimId)
    requires var q := Reached(policy, required, ops);
             IsClaim(q, c) && !CanProduce(q, c)
    ensures !CanProduce(Run(Reached(policy, required, ops), more), c)
  {
    hide Good, Evolves, Run, CanProduce;
    var q := Reached(policy, required, ops);
    ReachableGood(policy, required, ops);
    RunEvolves(q, more);
    if CanProduce(Run(q, more), c) { PowerWasHeld(q, Run(q, more), c); }
  }

  // ----- results -----

  /** Slots and accepted results are in bijection. */
  lemma SlotsAndResultsBijective(policy: RetryPolicy, required: set<DurableEffect>, ops: seq<Op>)
    ensures var q := Reached(policy, required, ops);
            && (forall r :: r in q.accepted ==>
                  q.accepted[r].result == r && SlotOf(q.accepted[r]) in q.slots && q.slots[SlotOf(q.accepted[r])] == r)
            && (forall s :: s in q.slots ==> q.slots[s] in q.accepted && SlotOf(q.accepted[q.slots[s]]) == s)
  {
    hide Run, DeliveriesGood, PublishedGood, HistoryGood, SentGood, ClaimsGood, LiveGood, SubmissionsGood,
         FailuresGood, RedrivesGood;
    ReachableGood(policy, required, ops);
    var q := Reached(policy, required, ops);
    forall r | r in q.accepted
      ensures q.accepted[r].result == r && SlotOf(q.accepted[r]) in q.slots && q.slots[SlotOf(q.accepted[r])] == r
    {
      assert ResultBound(q.accepted, q.slots, r);
    }
    forall s | s in q.slots ensures q.slots[s] in q.accepted && SlotOf(q.accepted[q.slots[s]]) == s {
      assert SlotBound(q.accepted, q.slots, s);
    }
  }

  /** An accepted result and its slot are never rewritten, and earlier submissions stay first. */
  lemma ResultsNeverRewritten(policy: RetryPolicy, required: set<DurableEffect>, ops: seq<Op>, more: seq<Op>,
        r: ResultId)
    requires r in Reached(policy, required, ops).accepted
    ensures var q := Reached(policy, required, ops);
            var q1 := Run(q, more);
            && r in q1.accepted && q1.accepted[r] == q.accepted[r]
            && SlotOf(q.accepted[r]) in q1.slots && q1.slots[SlotOf(q.accepted[r])] == r
            && r in q.submissions && r in q1.submissions && q.submissions[r] <= q1.submissions[r]
  {
    hide Run, DeliveriesGood, PublishedGood, HistoryGood, SentGood, ClaimsGood, LiveGood, FailuresGood, RedrivesGood,
         SubmissionsOf,
         PublicationsEvolve, ControlsEvolve, ClaimsEvolve, RegistrationsEvolve, CountersEvolve, Sealed, RedriveOnly;
    var q := Reached(policy, required, ops);
    ReachableGood(policy, required, ops);
    RunEvolves(q, more);
    assert ResultBound(q.accepted, q.slots, r);
  }

  /** The submissions of one result carry non-decreasing fences, each the fence of a claim of its message. */
  lemma SubmissionFencesRise(policy: RetryPolicy, required: set<DurableEffect>, ops: seq<Op>, r: ResultId, i: nat,
        j: nat)
    requires var q := Reached(policy, required, ops);
             r in q.submissions && i <= j < |q.submissions[r]|
    ensures var q := Reached(policy, required, ops);
            && r in q.accepted
            && q.submissions[r][i].fence <= q.submissions[r][j].fence
            && q.submissions[r][i].binding == q.accepted[r]
            && MessageOfClaim(q, q.submissions[r][i].claim) == Some(q.accepted[r].message)
            && ClaimOf(q, q.submissions[r][i].claim).fence == q.submissions[r][i].fence
  {
    hide Run, DeliveriesGood, PublishedGood, HistoryGood, SentGood, LiveGood, ResultsGood, FailuresGood, RedrivesGood;
    ReachableGood(policy, required, ops);
    var q := Reached(policy, required, ops);
    assert SubmissionsOf(q.accepted[r], q.deliveries, q.claims, q.submissions[r]);
    assert SubmissionGood(q.accepted[r], q.deliveries, q.claims, q.submissions[r][i]);
    assert ClaimGood(q.deliveries, q.claims, q.current, q.submissions[r][i].claim - 1);
  }

  // ----- security rejection -----

  lemma RejectedHasNoLiveClaim(q: Queue, c: ClaimId)
    requires Good(q) && IsClaim(q, c) && Live(ClaimOf(q, c).state)
    ensures IsDelivery(q, ClaimOf(q, c).delivery) && DeliveryOf(q, ClaimOf(q, c).delivery).request !in q.rejected
  {
    hide DeliveriesGood, PublishedGood, HistoryGood, SentGood, ClaimsGood, ResultsGood, SubmissionsGood, FailuresGood,
         RedrivesGood, DeadLettered;
    assert OpenWork(q.deliveries, q.current, q.rejected, q.deadLetters, q.claims[c - 1]);
  }

  /**
   After a security rejection of a request, no later step creates a delivery, a claim, an
   accepted result, a submission, an acknowledgement or a redrive for it, the rejection
   stays, and none of its claims is current or renewal-uncertain.
   */
  lemma RejectionIsFinal(policy: RetryPolicy, required: set<DurableEffect>, ops: seq<Op>, more: seq<Op>,
        request: RequestId)
    requires request in Reached(policy, required, ops).rejected
    ensures var q := Reached(policy, required, ops);
            var q1 := Run(q, more);
            && request in q1.rejected
            && Sealed(q, q1)
            && forall c :: IsClaim(q1, c) && Live(ClaimOf(q1, c).state) ==>
                 IsDelivery(q1, ClaimOf(q1, c).delivery) && DeliveryOf(q1, ClaimOf(q1, c).delivery).request != request
  {
    hide Run, Good, Sealed, PublicationsEvolve, ControlsEvolve, ClaimsEvolve, RegistrationsEvolve, SubmissionsEvolve,
         CountersEvolve, RedriveOnly, Live;
    var q := Reached(policy, required, ops);
    ReachableGood(policy, required, ops);
    RunEvolves(q, more);
    var q1 := Run(q, more);
    forall c | IsClaim(q1, c) && Live(ClaimOf(q1, c).state)
      ensures IsDelivery(q1, ClaimOf(q1, c).delivery) && DeliveryOf(q1, ClaimOf(q1, c).delivery).request != request
    {
      RejectedHasNoLiveClaim(q1, c);
    }
  }

  // ----- dead letters and redrives -----

  /** Every redrive record is counted, and the count stays within the limit. */
  lemma RedrivesWithinLimit(policy: RetryPolicy, required: set<DurableEffect>, ops: seq<Op>, m: MessageId)
    ensures var q := Reached(policy, required, ops);
            Tally(q.deliveries, q.redrives, m) == RedriveCount(q, m) <= policy.maxRedrives
  {
    hide Run, DeliveriesGood, PublishedGood, HistoryGood, SentGood, ClaimsGood, LiveGood, ResultsGood,
         SubmissionsGood, FailuresGood,
         Tally, PublicationsEvolve, ControlsEvolve, ClaimsEvolve, RegistrationsEvolve, SubmissionsEvolve,
         CountersEvolve, Sealed, RedriveOnly;
    ReachableGood(policy, required, ops);
    InitialGood(policy, required);
    RunEvolves(Initial(policy, required), ops);
    var q := Reached(policy, required, ops);
    assert Tally(q.deliveries, q.redrives, m) == CountOf(q.redriveCounts, m) <= q.policy.maxRedrives;
  }

  /** If every delivery of m past the first n is redriven, later deliveries and redrive records grow together. */
  lemma {:induction false} TallyFollowsCount(deliveries: seq<Delivery>, n: nat, redrives: map<DeliveryId, Redrive>,
        m: MessageId)
    requires n <= |deliveries|
    requires forall i :: n <= i < |deliveries| && deliveries[i].message == m ==> deliveries[i].id in redrives
    ensures CountFor(deliveries, m) - CountFor(deliveries[..n], m) ==
              Tally(deliveries, redrives, m) - Tally(deliveries[..n], redrives, m)
  {
    if n == |deliveries| {
      assert deliveries[..n] == deliveries;
    } else {
      TallyFollowsCount(deliveries[..|deliveries| - 1], n, redrives, m);
      assert deliveries[..|deliveries| - 1][..n] == deliveries[..n];
    }
  }

  /** Records that only grow at new deliveries leave the tally of the old ones unchanged. */
  lemma {:induction false} TallyOfOldDeliveries(deliveries: seq<Delivery>, redrives: map<DeliveryId, Redrive>,
        redrives1: map<DeliveryId, Redrive>, m: MessageId)
    requires Submap(redrives, redrives1)
    ensures Tally(deliveries, redrives, m) <= Tally(deliveries, redrives1, m)
  {
    if deliveries != [] { TallyOfOldDeliveries(deliveries[..|deliveries| - 1], redrives, redrives1, m); }
  }

  /**
   Once a message has a dead letter, each of its new deliveries is a redrive, so over any
   further run it is delivered at most as often as redrives remain.
   */
  lemma DeadLetteredOnlyRedriven(policy: RetryPolicy, required: set<DurableEffect>, ops: seq<Op>, more: seq<Op>,
        m: MessageId)
    requires MessageLettered(Reached(policy, required, ops).deadLetters, m)
    ensures var q := Reached(policy, required, ops);
            var q1 := Run(q, more);
            && |q.deliveries| <= |q1.deliveries|
            && (forall i :: |q.deliveries| <= i < |q1.deliveries| && q1.deliveries[i].message == m ==>
                  q1.deliveries[i].id in q1.redrives)
            && CountFor(q1.deliveries, m) - CountFor(q.deliveries, m) <= policy.maxRedrives - RedriveCount(q, m)
  {
    hide Run, Good, PublicationsEvolve, ControlsEvolve, ClaimsEvolve, RegistrationsEvolve, SubmissionsEvolve,
         CountersEvolve, Sealed,
         Tally, CountFor, MessageLettered, RedriveCount;
    var q := Reached(policy, required, ops);
    var q1 := Run(q, more);
    ReachableGood(policy, required, ops);
    RunEvolves(q, more);
    RedrivesWithinLimit(policy, required, ops, m);
    assert q1.deliveries[..|q.deliveries|] == q.deliveries;
    TallyFollowsCount(q1.deliveries, |q.deliveries|, q1.redrives, m);
    TallyOfOldDeliveries(q.deliveries, q.redrives, q1.redrives, m);
    RunConcat(Initial(policy, required), ops, more);
    RedrivesWithinLimit(policy, required, ops + more, m);
  }

  lemma {:induction false} RunConcat(q: Queue, ops: seq<Op>, more: seq<Op>)
    ensures Run(q, ops + more) == Run(Run(q, ops), more)
  {
    hide Step;
    if more == [] {
      assert ops + more == ops;
    } else {
      RunConcat(q, ops, more[..|more| - 1]);
      assert (ops + more)[..|ops + more| - 1] == ops + more[..|more| - 1];
    }
  }

  /**
   A failure count never exceeds its limit and equals it exactly for the classification that
   dead-lettered the delivery.
   */
  lemma FailuresReachLimitWithLetter(policy: RetryPolicy, required: set<DurableEffect>, ops: seq<Op>, d: DeliveryId,
        c: FailureClass)
    ensures var q := Reached(policy, required, ops);
            && Failures(q, d, c) <= Limit(policy, c)
            && (Failures(q, d, c) == Limit(policy, c) <==> HasLetter(q.deadLetters, d, c))
  {
    hide Run, Good, PublicationsEvolve, ControlsEvolve, ClaimsEvolve, RegistrationsEvolve, SubmissionsEvolve,
         CountersEvolve, Sealed, RedriveOnly;
    ReachableGood(policy, required, ops);
    InitialGood(policy, required);
    RunEvolves(Initial(policy, required), ops);
    FailureLimit(Reached(policy, required, ops), d, c);
  }

  lemma FailureLimit(q: Queue, d: DeliveryId, c: FailureClass)
    requires Good(q)
    ensures Failures(q, d, c) <= Limit(q.policy, c)
    ensures Failures(q, d, c) == Limit(q.policy, c) <==> HasLetter(q.deadLetters, d, c)
  {
  }

  /** A delivery has at most one dead letter, and dead letters are never rewritten or removed. */
  lemma DeadLettersImmutable(policy: RetryPolicy, required: set<DurableEffect>, ops: seq<Op>, more: seq<Op>)
    ensures var q := Reached(policy, required, ops);
            q.deadLetters <= Run(q, more).deadLetters && LettersDistinct(q.deadLetters)
  {
    hide Run, DeliveriesGood, PublishedGood, HistoryGood, SentGood, ClaimsGood, LiveGood, ResultsGood,
         SubmissionsGood, RedrivesGood, LettersDistinct,
         PublicationsEvolve, ControlsEvolve, ClaimsEvolve, RegistrationsEvolve, SubmissionsEvolve,
         CountersEvolve, Sealed, RedriveOnly;
    ReachableGood(policy, required, ops);
    RunEvolves(Reached(policy, required, ops), more);
  }

  // ----- messages, publications and deliveries -----

  /** Messages and publications are in bijection: each names the other. */
  lemma MessagesAndPublicationsBijective(policy: RetryPolicy, required: set<DurableEffect>, ops: seq<Op>)
    ensures var q := Reached(policy, required, ops);
            && (forall m :: m in q.messages ==> Bound(q.messages, q.publications, m))
            && (forall p :: p in q.publications ==> BoundBack(q.messages, q.publications, p))
  {
    hide Run, DeliveriesGood, HistoryGood, SentGood, ClaimsGood, LiveGood, ResultsGood, SubmissionsGood, FailuresGood,
         RedrivesGood, Bound, BoundBack;
    ReachableGood(policy, required, ops);
  }

  /** A message with a delivery has an uncertain, confirmed or duplicate-confirmed publication. */
  lemma DeliveredIsPublished(policy: RetryPolicy, required: set<DurableEffect>, ops: seq<Op>, i: nat)
    requires i < |Reached(policy, required, ops).deliveries|
    ensures var q := Reached(policy, required, ops);
            && PublicationFor(q, q.deliveries[i].message).Some?
            && Deliverable(PublicationFor(q, q.deliveries[i].message).value.state)
  {
    hide Run, DeliveriesGood, PublishedGood, HistoryGood, ClaimsGood, LiveGood, ResultsGood, SubmissionsGood,
         FailuresGood, RedrivesGood;
    ReachableGood(policy, required, ops);
    var q := Reached(policy, required, ops);
    assert HasDeliverable(q.messages, q.publications, q.deliveries[i].message);
  }

  /** A settled publication state never changes; an earlier outcome is never lost. */
  lemma SettledNeverChanges(policy: RetryPolicy, required: set<DurableEffect>, ops: seq<Op>, more: seq<Op>,
        p: PublicationId)
    requires p in Reached(policy, required, ops).publications
    ensures var q := Reached(policy, required, ops);
            var q1 := Run(q, more);
            && p in q1.publications
            && (Settled(q.publications[p].state) ==> q1.publications[p] == q.publications[p])
            && p in q.history && p in q1.history && q.history[p] <= q1.history[p]
            && OutcomesGood(q1.publications[p].state, q1.history[p])
  {
    hide Run, DeliveriesGood, PublishedGood, SentGood, ClaimsGood, LiveGood, ResultsGood, SubmissionsGood,
         FailuresGood, RedrivesGood, OutcomesGood,
         Grows, ControlsEvolve, ClaimsEvolve, RegistrationsEvolve, SubmissionsEvolve,
         CountersEvolve, Sealed, RedriveOnly;
    var q := Reached(policy, required, ops);
    ReachableGood(policy, required, ops);
    RunEvolves(q, more);
    assert PublicationEvolves(q, Run(q, more), p);
  }

  /** Deliveries of one message counted up to a prefix never outnumber those of a longer prefix. */
  lemma {:induction false} CountGrows(deliveries: seq<Delivery>, i: nat, m: MessageId)
    requires i <= |deliveries|
    ensures CountFor(deliveries[..i], m) <= CountFor(deliveries, m)
  {
    if i == |deliveries| {
      assert deliveries[..i] == deliveries;
    } else {
      CountGrows(deliveries[..|deliveries| - 1], i, m);
      assert deliveries[..|deliveries| - 1][..i] == deliveries[..i];
    }
  }

  lemma CountStep(deliveries: seq<Delivery>, i: nat, m: MessageId)
    requires i < |deliveries|
    ensures CountFor(deliveries[..i + 1], m) ==
            CountFor(deliveries[..i], m) + if deliveries[i].message == m then 1 else 0
  {
    assert deliveries[..i + 1][..i] == deliveries[..i];
  }

  /** The k-th delivery of the message. */
  lemma {:induction false} KthDelivery(deliveries: seq<Delivery>, m: MessageId, k: nat) returns (i: nat)
    requires k < CountFor(deliveries, m)
    ensures i < |deliveries| && deliveries[i].message == m && CountFor(deliveries[..i], m) == k
  {
    var n := |deliveries| - 1;
    if k < CountFor(deliveries[..n], m) {
      i := KthDelivery(deliveries[..n], m, k);
      assert deliveries[..n][..i] == deliveries[..i];
    } else {
      i := n;
    }
  }

  /** A message's deliveries are numbered 0, 1, ... in creation order, each number used once. */
  lemma DeliveriesNumbered(policy: RetryPolicy, required: set<DurableEffect>, ops: seq<Op>, m: MessageId,
        k: nat) returns (i: nat)
    requires k < CountFor(Reached(policy, required, ops).deliveries, m)
    ensures var ds := Reached(policy, required, ops).deliveries;
            && i < |ds| && ds[i].message == m && ds[i].redelivery == k
            && forall j :: 0 <= j < |ds| && ds[j].message == m ==>
                 && (j < i ==> ds[j].redelivery < k) && (j > i ==> ds[j].redelivery > k)
  {
    hide Run, PublishedGood, HistoryGood, SentGood, ClaimsGood, LiveGood, ResultsGood, SubmissionsGood, FailuresGood,
         RedrivesGood, CountFor;
    ReachableGood(policy, required, ops);
    var q := Reached(policy, required, ops);
    var ds := q.deliveries;
    i := KthDelivery(ds, m, k);
    assert DeliveryGood(q.messages, ds, i);
    forall j | 0 <= j < |ds| && ds[j].message == m && j != i
      ensures (j < i ==> ds[j].redelivery < k) && (j > i ==> ds[j].redelivery > k)
    {
      assert DeliveryGood(q.messages, ds, j);
      NumbersRise(ds, m, Min(i, j), Max(i, j));
    }
  }

  lemma NumbersRise(deliveries: seq<Delivery>, m: MessageId, i: nat, j: nat)
    requires i < j < |deliveries| && deliveries[i].message == m
    ensures CountFor(deliveries[..i], m) < CountFor(deliveries[..j], m)
  {
    hide CountFor;
    CountStep(deliveries, i, m);
    CountGrows(deliveries[..j], i + 1, m);
    assert deliveries[..j][..i + 1] == deliveries[..i + 1];
  }

  /** An envelope that names a claim is refused in every reachable state. */
  lemma ClaimedEnvelopeNeverPublished(policy: RetryPolicy, required: set<DurableEffect>, ops: seq<Op>, e: Envelope,
        valid: bool)
    requires e.claim.Some?
    ensures Publish(Reached(policy, required, ops), e, valid).1.Err?
    ensures Publish(Reached(policy, required, ops), e, valid).0 == Reached(policy, required, ops)
  {
    hide Run, Good, Publish;
    ReachableGood(policy, required, ops);
    ClaimedEnvelopeRefused(Reached(policy, required, ops), e, valid);
  }

  // ----- what an operation hands over, repeats and closes -----

  /** A new claim can produce effects at once, and no other claim of its message still can. */
  lemma NewClaimTakesOver(q: Queue, d: DeliveryId, worker: WorkerRef, other: ClaimId)
    requires Good(q) && TakeClaim(q, d, worker).1.Ok?
    ensures var (q1, r) := TakeClaim(q, d, worker);
            && CanProduce(q1, r.value.id)
            && (MessageOfClaim(q1, other) == MessageOfClaim(q1, r.value.id) && other != r.value.id ==>
                  !CanProduce(q1, other))
  {
    hide DeliveriesGood, PublishedGood, HistoryGood, SentGood, LiveGood, ResultsGood, SubmissionsGood, FailuresGood,
         RedrivesGood,
         DeadLettered, Control, ReplaceRegistered;
    ReplacedRegistered(q, DeliveryOf(q, d).message);
  }

  /** Submitting again what was just accepted is accepted again and changes nothing. */
  lemma AcceptRepeats(q: Queue, c: ClaimId, b: Binding, occurrence: string)
    requires Good(q) && AcceptResult(q, c, b, occurrence).1.Ok?
    ensures var q1 := AcceptResult(q, c, b, occurrence).0;
            AcceptResult(q1, c, b, occurrence) == (q1, Ok(b))
  {
    hide Good, CanProduce;
    var q1 := AcceptResult(q, c, b, occurrence).0;
    AcceptLeavesPower(q, c, b, occurrence);
    AcceptedIsBound(q, c, b, occurrence);
    assert q1.accepted[b.result := b] == q1.accepted;
    assert q1.submissions[b.result := q1.submissions[b.result]] == q1.submissions;
  }

  lemma AcceptLeavesPower(q: Queue, c: ClaimId, b: Binding, occurrence: string)
    requires AcceptResult(q, c, b, occurrence).1.Ok?
    ensures CanProduce(AcceptResult(q, c, b, occurrence).0, c)
  {
    hide DeadLettered, Control;
  }

  lemma AcceptedIsBound(q: Queue, c: ClaimId, b: Binding, occurrence: string)
    requires Good(q) && AcceptResult(q, c, b, occurrence).1.Ok?
    ensures var q1 := AcceptResult(q, c, b, occurrence).0;
            SlotOf(b) in q1.slots && q1.slots[SlotOf(b)] == b.result && b.result in q1.accepted &&
            q1.accepted[b.result] == b
  {
    hide Good, CanProduce;
    AcceptKeeps(q, c, b, occurrence);
    BoundIn(AcceptResult(q, c, b, occurrence).0, b.result);
  }

  lemma BoundIn(q: Queue, r: ResultId)
    requires Good(q) && r in q.accepted
    ensures SlotOf(q.accepted[r]) in q.slots && q.slots[SlotOf(q.accepted[r])] == r
  {
  }

  /** A true acknowledgement comes from the claim that holds the power, and ends it for every later step. */
  lemma AcknowledgedIsClosed(q: Queue, d: DeliveryId, c: ClaimId, readiness: Readiness, more: seq<Op>, other: ClaimId)
    requires Good(q) && Acknowledge(q, d, c, readiness).1 == Ok(true)
    ensures CanProduce(q, c) && ClaimOf(q, c).delivery == d && readiness.succeeded && q.required <= readiness.effects
    ensures DeliveryOf(q, d).message !in q.conflicted
    ensures var q1 := Run(Acknowledge(q, d, c, readiness).0, more);
            && d in q1.acknowledged
            && (IsClaim(q1, other) && ClaimOf(q1, other).delivery == d ==> !CanProduce(q1, other))
  {
    hide Good, CanProcess, Run, PublicationsEvolve, ControlsEvolve, ClaimsEvolve, RegistrationsEvolve,
         SubmissionsEvolve,
         CountersEvolve, Sealed, RedriveOnly;
    var q0 := Acknowledge(q, d, c, readiness).0;
    AcknowledgeKeeps(q, d, c, readiness);
    RunEvolves(q0, more);
    AcknowledgedCannotProduce(Run(q0, more), d, other);
  }

  lemma AcknowledgedCannotProduce(q: Queue, d: DeliveryId, c: ClaimId)
    ensures d in q.acknowledged && IsClaim(q, c) && ClaimOf(q, c).delivery == d ==> !CanProduce(q, c)
  {
  }

  // ----- conflicted messages -----

  /**
   A conflict is final: the message stays conflicted, no later step of any run acknowledges a
   delivery of it, and an attempt to acknowledge one there answers false and changes nothing.
   */
  lemma ConflictIsFinal(policy: RetryPolicy, required: set<DurableEffect>, ops: seq<Op>, more: seq<Op>, m: MessageId,
        d: DeliveryId, c: ClaimId, readiness: Readiness)
    requires m in Reached(policy, required, ops).conflicted
    ensures var q := Reached(policy, required, ops);
            var q1 := Run(q, more);
            && m in q1.conflicted
            && (d in q1.acknowledged && d !in q.acknowledged ==>
                  IsDelivery(q1, d) && DeliveryOf(q1, d).message != m)
            && (IsDelivery(q1, d) && DeliveryOf(q1, d).message == m && IsClaim(q1, c) ==>
                  Acknowledge(q1, d, c, readiness) == (q1, Ok(false)))
  {
    hide Run, Good, CanProduce, PublicationsEvolve, ControlsEvolve, ClaimsEvolve, RegistrationsEvolve,
         SubmissionsEvolve, CountersEvolve, RedriveOnly;
    var q := Reached(policy, required, ops);
    ReachableGood(policy, required, ops);
    RunEvolves(q, more);
  }

  /** Publishing an accepted envelope again answers its record as it then stands and changes nothing. */
  lemma PublishRepeats(q: Queue, e: Envelope, valid: bool, more: seq<Op>)
    requires Good(q) && Publish(q, e, valid).1.Ok?
    ensures var q1 := Run(Publish(q, e, valid).0, more);
            && e.publication.Some? && e.publication.value in q1.publications
            && Publish(q1, e, valid) == (q1, Ok(q1.publications[e.publication.value]))
  {
    hide Good, Run, Sealed, RedriveOnly, CountersEvolve, SubmissionsEvolve, RegistrationsEvolve, ClaimsEvolve,
         ControlsEvolve, CanProduce;
    var q0 := Publish(q, e, valid).0;
    PublishKeeps(q, e, valid);
    if e.claim.Some? { ClaimedEnvelopeRefused(q, e, valid); }
    PublishedEnvelope(q, e, valid);
    RunEvolves(q0, more);
    assert PublicationEvolves(q0, Run(q0, more), e.publication.value);
  }

  lemma PublishedEnvelope(q: Queue, e: Envelope, valid: bool)
    requires Good(q) && Publish(q, e, valid).1.Ok?
    ensures var q0 := Publish(q, e, valid).0;
            && e.claim.None? && valid && e.publication.Some? && e.publicationState == Some(NotAttempted)
            && e.message in q0.messages && q0.messages[e.message] == e
            && e.publication.value in q0.publications
            && q0.publications[e.publication.value].request == e.request
            && q0.publications[e.publication.value].message == e.message
  {
    hide DeliveriesGood, HistoryGood, SentGood, ClaimsGood, LiveGood, ResultsGood, SubmissionsGood, FailuresGood,
         RedrivesGood, CanProduce,
         ClaimedBindingHolds;
    if e.claim.Some? { ClaimedEnvelopeRefused(q, e, valid); }
    if e.publication.value in q.publications { assert BoundBack(q.messages, q.publications, e.publication.value); }
  }

  lemma OpenFailure(q: Queue, d: DeliveryId, c: FailureClass)
    requires ClassifyFailure(q, d, c).1.Ok? && Counted(c) && DeliveryOf(q, d).request !in q.rejected
    ensures var dead := Failures(q, d, c) + 1 >= Limit(q.policy, c);
            ClassifyFailure(q, d, c) == (CountFailure(q, DeliveryOf(q, d), d, c, dead), Ok(RetryDecision(!dead, dead)))
    ensures IsDelivery(q, d) && !DeadLettered(q.deadLetters, d)
    ensures Control(q.controls, DeliveryOf(q, d).request) == Active
  {
  }

  lemma CountedOnce(q: Queue, delivery: Delivery, d: DeliveryId, c: FailureClass, dead: bool)
    ensures Failures(CountFailure(q, delivery, d, c, dead), d, c) == Failures(q, d, c) + 1
  {
  }

  lemma LetterRecorded(q: Queue, delivery: Delivery, d: DeliveryId, c: FailureClass, dead: bool)
    requires delivery.id == d && !DeadLettered(q.deadLetters, d)
    ensures DeadLettered(CountFailure(q, delivery, d, c, dead).deadLetters, d) == dead
  {
    hide RevokeDelivery, Failures, DeadLettered;
    LetterCounts(q.deadLetters, DeadLetter(delivery, c));
  }

  lemma LetterCounts(dead: seq<DeadLetter>, letter: DeadLetter)
    ensures DeadLettered(dead + [letter], letter.source.id)
  {
    assert (dead + [letter])[|dead|] == letter;
  }

  /**
   A transport or poison failure of open work is retried until exactly the configured number, and
   then dead-letters.
   */
  lemma FailureDisposition(q: Queue, d: DeliveryId, c: FailureClass)
    requires Good(q) && ClassifyFailure(q, d, c).1.Ok? && Counted(c) && DeliveryOf(q, d).request !in q.rejected
    ensures var (q1, r) := ClassifyFailure(q, d, c);
            var limit := if c == Transport then q.policy.maxTransport else q.policy.maxPoison;
            && r.value.deadLettered == (Failures(q, d, c) + 1 == limit) && r.value.retryAllowed == !r.value.deadLettered
            && Failures(q1, d, c) == Failures(q, d, c) + 1
            && DeadLettered(q1.deadLetters, d) == r.value.deadLettered
            && !DeadLettered(q.deadLetters, d) && Control(q.controls, DeliveryOf(q, d).request) == Active
  {
    hide Good, Failures, CountFailure, DeadLettered, ClassifyFailure;
    GoodFailures(q);
    OpenFailure(q, d, c);
    CountWithinLimit(q, d, c);
    IdsMatch(q, d);
    CountedOnce(q, DeliveryOf(q, d), d, c, Failures(q, d, c) + 1 >= Limit(q.policy, c));
    LetterRecorded(q, DeliveryOf(q, d), d, c, Failures(q, d, c) + 1 >= Limit(q.policy, c));
  }

  lemma IdsMatch(q: Queue, d: DeliveryId)
    requires Good(q) && IsDelivery(q, d)
    ensures DeliveryOf(q, d).id == d
  {
    hide PublishedGood, HistoryGood, SentGood, ClaimsGood, LiveGood, ResultsGood, SubmissionsGood, FailuresGood,
         RedrivesGood, CountFor;
    assert DeliveryGood(q.messages, q.deliveries, d - 1);
  }

  /** A redrive is authorized, of dead-lettered open work, and its record carries the decision that allowed it. */
  lemma RedriveIsAuthorized(q: Queue, source: RedriveSource, actor: string, authorization: Option<Authorization>,
        valid: bool)
    requires Good(q) && RedriveWork(q, source, actor, authorization, valid).1.Ok?
    ensures var (q1, r) := RedriveWork(q, source, actor, authorization, valid);
            && authorization.Some? && authorization.value.authorized && valid
            && r.value.id !in q.redrives && r.value.id in q1.redrives
            && var record := q1.redrives[r.value.id];
               && record.actor == actor && record.context == authorization.value.context
               && record.policyVersion == authorization.value.policyVersion
               && record.decision == authorization.value.decision
               && HasLetter(q.deadLetters, record.sourceDelivery, record.classification)
               && Control(q.controls, record.request) == Active && record.request !in q.rejected
               && RedriveCount(q1, record.message) == RedriveCount(q, record.message) + 1
  {
    hide Good, SourceLetter, HasLetter, HasDeliverable, CountFor, Control;
    RedriveCreates(q, source, actor, authorization, valid);
    RedriveSourceGood(q, source);
    NewRedriveId(q, |q.deliveries| + 1);
  }

  /**
   An application failure changes nothing; a security rejection rejects the request and counts,
   dead-letters and retries nothing.
   */
  lemma UncountedDisposition(q: Queue, d: DeliveryId, c: FailureClass)
    requires ClassifyFailure(q, d, c).1.Ok? && !Counted(c)
    ensures var (q1, r) := ClassifyFailure(q, d, c);
            && !r.value.deadLettered && !r.value.retryAllowed
            && q1.failures == q.failures && q1.deadLetters == q.deadLetters
            && (c == Application ==> q1 == q)
            && (c == SecurityRejection && DeliveryOf(q, d).request !in q.rejected ==>
                  q1.rejected == q.rejected + {DeliveryOf(q, d).request})
  {
    hide DeadLettered, Control, Disposition;
    UncountedFailure(q, DeliveryOf(q, d), d, c);
  }

  lemma UncountedFailure(q: Queue, delivery: Delivery, d: DeliveryId, c: FailureClass)
    requires !Counted(c)
    ensures var (q1, r) := Disposition(q, delivery, d, c);
            && r == RetryDecision(false, false) && q1.failures == q.failures && q1.deadLetters == q.deadLetters
            && (c == Application ==> q1 == q)
            && (c == SecurityRejection ==> q1.rejected == q.rejected + {delivery.request})
  {
    hide CountFailure, Failures, Limit, RevokeRequest;
  }

  /**
   A plain delivery needs a confirmed publication and a provider occurrence at least an uncertain
   one; both repeat the stored envelope, of work neither rejected nor dead-lettered.
   */
  lemma DeliveryNeedsPublication(q: Queue, m: MessageId, reference: string)
    ensures Deliver(q, m).1.Ok? ==>
              && PublicationFor(q, m).Some?
              && PublicationFor(q, m).value.state in {ConfirmedSuccess, ConfirmedDuplicate}
              && Deliver(q, m).1.value.provider == InMemory(|q.deliveries| + 1)
              && FreshDelivery(q, m, Deliver(q, m).1.value)
    ensures ProviderDelivery(q, m, reference).1.Ok? ==>
              && PublicationFor(q, m).Some? && Deliverable(PublicationFor(q, m).value.state)
              && ProviderDelivery(q, m, reference).1.value.provider == Given(reference)
              && FreshDelivery(q, m, ProviderDelivery(q, m, reference).1.value)
  {
    hide CountFor, DeadLetterFor, MessageLettered;
    LetteredIffFound(q.deadLetters, m);
  }

  /** The next delivery of a stored message whose work is open. */
  ghost predicate FreshDelivery(q: Queue, m: MessageId, d: Delivery) {
    && m in q.messages && d.message == m && d.request == q.messages[m].request && d.attempt == q.messages[m].attempt
    && d.id == |q.deliveries| + 1 && d.redelivery == CountFor(q.deliveries, m)
    && d.request !in q.rejected && !MessageLettered(q.deadLetters, m)
  }
}
