# TestGap verification

A Dafny 4.11 model of the parts of TestGap where correctness depends on state, arithmetic or
several modules agreeing, with proofs about all inputs, all runs or all reachable states.
`dafny verify dfyconfig.toml` checks the whole project.

**Retrieval context packing.** `SourceLines` splits text without losing a character; `Windows`
opens windows around located symbols and re-partitions the overlapping ones; `SpanFitting`
shrinks a span to whole lines under a byte capacity; `Utf8` and `Identities` give the byte costs
and the digest inputs; `ContextAssembly` and `ContextBundles` verify files and pack spans greedily under the
token budget; `ContextCoverage` is what a bundle shows when the budget suffices. The promises
are disjoint bounded spans, no lost target, no line twice, a bundle that passes every
constructor check.

**Candidate ranking.** `Ranking` scores, sorts and numbers the candidates and proves that the
contract the context module demands is met; `Scoring` is the integer logarithm and BM25,
`LogAccuracy` bounds that logarithm's error against the exact series, `LogDoubling` proves that
the series obeys the law of the logarithm across every step of the shift, `LogBounds` that it lies
between the logarithm's tangents, and `TermRarity` is
what the rarity of a term does to the score.

**Queue.** `QueueModel` is the in-memory adapter as a state machine with one transition
function per operation. `QueueInvariants` proves what every reachable state satisfies,
`QueueEvolution` what no step can undo, `QueueTheorems` the promises over runs and
`QueueEffects` exactly when each operation succeeds and what it then stores. `QueueAdapter`
is the object with mutable collections whose operations are proved to be those transitions.

**Worker.** `OutputCapture` and `Supervisor` run a child against an arbitrary environment.
`ResultAdapter` classifies the result, `ProducerResults` validates it independently and
`ExecutionExport` validates it once more after the wire form erased messages, error kinds and
order. `SupervisedResults` proves that they agree on every run and that the outcome is the one
an independent table reads off what happened; `RunReports` is what a run reports, told from
what happened to its process and pipes, and `ResultAcceptance` states exactly which facts each
outcome needs, which results convert and which exports are valid.

**Write-once persistence.** `EvidenceTables`, `EvidencePersistence`, `EvidenceAcceptance`, `EvidenceLinks` and
`EvidenceStore` are the insert/converge/conflict aggregates under savepoints; `OrderedListings`
and `EvidenceProjections` read them back; `BundlePersistence` is the context-bundle aggregate,
which is persisted without comparing stored collections and is exact all the same, and
`RebudgetedBundles` what that means for one request assembled under two budgets.
`WorkflowLog` is the gap-free event log and the compare-and-swap.

**Signing-key cache.** `JwksCache` is the single-flight cache as interleaved atomic steps.

Methods and classes follow the code that works step by step; each is proved equal to a
specification function, and the lemmas are about those functions. A raised error is an `Err`.

Seven places where the code does less than its words suggest, kept as they are and stated exactly:
an envelope that names a claim can never be published (`ClaimedEnvelopeRefused`); truncation is
invisible at a capture limit of 2^64 - 1 (`TruncatedExactly`, `MaximalLimitHidesTruncation`); a
key fetched with a lifetime of zero or less is still returned once, already expired
(`AnswerUnexpiredIff`, `ZeroLifetimeReturnsExpired`); a fetch left by an uncaught exception
keeps the key cache from ever refreshing (`StuckIffAbandoned`, `StuckForever`); two bundles that
share an item, such as those of one request under two budgets, cannot both be persisted
(`NextAcceptedIff`, `RebudgetedExample`); a rarer term can weigh a thousandth less than a
commoner one when their counts lie on the two sides of a large power of two
(`RarerWeighsNoLessButForOne`, `RarerCanWeighLess`); and identities are distinct only as far as the digest
is, so assembly and generation fail exactly when the digest collides on two of the items or
candidates at hand (`AssemblySucceeds`, `GenerateCandidates`).

## Model

| member | source | states |
|---|---|---|
| SourceLines.SplitIsCanonical | apps/api/app/retrieval/context.py:369-396 | For every text, joining the split lines gives the text back, and every line is nonempty with its terminator (`\n`, `\r` or `\r\n`) only at its end; only the last line may lack one. |
| SourceLines.SplitOfJoin | apps/api/app/retrieval/context.py:369-396 | That shape determines the split: any lines of the shape, joined and split again, come back unchanged. |
| SourceLines.ResplitSlice | apps/api/app/retrieval/context.py:369-396 | Re-splitting the join of any contiguous slice of a text's lines gives exactly that slice, including around `\r` and `\r\n`. |
| SourceLines.SplitSourceLines | apps/api/app/retrieval/context.py:369-396 | The index/start scanning loop computes the split. |
| Windows.SelectWindows | apps/api/app/retrieval/context.py:464-490 | The loop over the symbols' hits opens one window per distinct located line, ascending and bounded, and a prefix window when nothing was located. |
| Windows.EveryFoundLineChosen | apps/api/app/retrieval/context.py:464-490 | With at most sixteen located lines none is cut off by the proposal bound. |
| Windows.ChosenAreFirst | apps/api/app/retrieval/context.py:464-490 | A located line is passed over only when sixteen smaller ones are chosen. |
| Windows.CoveredEndStuck | apps/api/app/retrieval/context.py:525-532 | The coverage loop ends, and only at a line that no emitted segment continues. |
| Windows.MergeAllGood | apps/api/app/retrieval/context.py:493-605 | Merging the windows of any distinct ascending targets in a file of any length gives sorted, pairwise disjoint segments of 1 to 80 lines whose union is the union of the windows; every target lies in a segment that carries it, and no segment carries anything else. |
| Windows.MergeAllCuts | apps/api/app/retrieval/context.py:493-605 | Where the segments are cut, for every list of distinct ascending lines: the anchors are the lines whose window ends past all earlier ones, each is the primary target of one segment, and a segment whose anchor lies in earlier coverage starts twenty lines above it but below the previous anchor; every other one starts where the coverage of the earlier anchors ends. |
| Windows.SegmentCarries | apps/api/app/retrieval/context.py:493-605 | A segment carries exactly the located lines it contains. |
| Windows.SortSorts | apps/api/app/retrieval/context.py:524 | The merge sees the very windows selected, by start and then end. |
| Windows.FileSpansGood | apps/api/app/retrieval/context.py:464-605 | The same for selection, sort and merge together, for every set of located lines and every file length; the result is never empty. |
| Windows.FileSpansCut | apps/api/app/retrieval/context.py:464-605 | With a located line the spans of a file are cut exactly there, at the anchors of the chosen lines. |
| Windows.FileSpansCover | apps/api/app/retrieval/context.py:464-605 | The spans cover exactly the twenty lines above and the rest of the eighty around each chosen line, or the first eighty lines when nothing was located. |
| Windows.MergeOne | apps/api/app/retrieval/context.py:524-604 | The loop body, with its in-place replacement and insertion, is one merge step, of which `MergeAllCuts` says where it cuts. |
| Windows.MergeProposals | apps/api/app/retrieval/context.py:493-605 | The whole in-place algorithm computes the merge that `MergeAllGood` and `MergeAllCuts` determine: every segment's bounds, primary target and carried lines. |
| SpanFitting.PrefixIsBytes | apps/api/app/retrieval/context.py:613-619 | Entry k of the running byte prefix is the UTF-8 size of the first k lines joined. |
| SpanFitting.SliceBytes | apps/api/app/retrieval/context.py:613-619 | The difference of two entries is the UTF-8 size of exactly the lines between them. |
| SpanFitting.LineBytePrefix | apps/api/app/retrieval/context.py:613-619 | The accumulating loop computes that prefix. |
| SpanFitting.FittedInside | apps/api/app/retrieval/context.py:622-679 | A fitted range stays inside its span and the byte capacity and cannot be extended by one line on either side. |
| SpanFitting.FittedKeepsTargets | apps/api/app/retrieval/context.py:622-679 | It contains the primary target, and every carried target whenever all of them fit together with the lines between. |
| SpanFitting.FittedNone | apps/api/app/retrieval/context.py:622-679 | Nothing is fitted if and only if the primary line (the first line when untargeted) does not fit. |
| SpanFitting.FittedIs | apps/api/app/retrieval/context.py:622-679 | Exactly which range is fitted: the whole span when it fits, else from the hull of the carried targets (or the primary target alone) grown in turns on the two sides, the later line first, or the longest prefix of an untargeted span. |
| SpanFitting.ExpandInTurns | apps/api/app/retrieval/context.py:662-679 | The lines added on the two sides differ by at most one unless a side has reached the span's edge or its next line did not fit. |
| SpanFitting.GrownIsExpand | apps/api/app/retrieval/context.py:662-679 | Growing in turns determines the result: only the loop's own answer does so and cannot grow further. |
| SpanFitting.FitSpan | apps/api/app/retrieval/context.py:622-679 | The low/high/used loops compute the fitted range and terminate. |
| Identities.SharedIdentityIsCollision | apps/api/app/retrieval/context.py:208-243 | Two context items that differ in any provenance field share an identity only if the hash maps two different inputs to one digest: the length-prefixed encoding is injective. |
| Identities.PartsBytesInjective | apps/api/app/retrieval/context.py:208-216 | Two different part lists never feed the same bytes to the digest. |
| Identities.SharedCandidateIsCollision | apps/api/app/retrieval/candidates.py:473-490 | Two different files get one candidate identity if and only if the hash maps their two different inputs to one digest: the separated, length-prefixed encoding is injective. |
| ContextAssembly.LocateSymbol | apps/api/app/retrieval/context.py:434-453 | The search loops return the first line that matches the first pattern that matches at all: a method's first call, a type's first declaration or else its first mention, or none. |
| ContextAssembly.FoundLinesAre | apps/api/app/retrieval/context.py:434-476 | The located lines of a file are exactly those on which one of the candidate's symbols is located. |
| ContextAssembly.ReadSucceedsIff | apps/api/app/retrieval/context.py:345-366 | A file is read if and only if its bytes have the indexed size and digest and text indexed as text still is; it gives lines exactly when it is text without NUL characters, and each failure has its own error. |
| ContextBundles.PackSpansGood | apps/api/app/retrieval/context.py:762-818 | Packing one file's spans succeeds with items in ascending order that never overlap, each showing exactly the named lines with their size and digest, inside a span whose primary target it shows, within the budget and the item count. |
| ContextBundles.PackSpansGreedy | apps/api/app/retrieval/context.py:762-818 | Packing is greedy: every span gets exactly the range fitted to the capacity that the items of earlier spans left, and is passed over only when nothing fits it or the item count is reached. |
| ContextBundles.PackGroupsGreedy | apps/api/app/retrieval/context.py:758-818 | Over all files: each file's spans are served greedily from what the files before it left, and there are no other items. |
| ContextBundles.AssembledGreedy | apps/api/app/retrieval/context.py:706-834 | The items of every bundle are packed greedily from the windows selected and merged for each candidate's unchanged file, in candidate order. |
| ContextBundles.AssembledGood | apps/api/app/retrieval/context.py:706-834 | For every accepted request: the result is a bundle whose items show exactly the named lines of the named file's current text, which has the indexed size and digest, each inside one of the windows selected and merged for that candidate, no source line twice, at most 10,000 items, consumed tokens equal to the sum and within the budget; or a request or file error; no item, budget or bundle constructor check ever fails, and the duplicate error occurs if and only if two of the packed items are digested from different bytes into one digest. |
| ContextBundles.AssemblySucceeds | apps/api/app/retrieval/context.py:706-834 | Assembly succeeds if and only if the workspace is bound, the candidates are known, every file's bytes have the indexed size and digest, and no two of the items packed for this request collide in the digest. |
| ContextBundles.WholeSpansWhenBudgetSuffices | apps/api/app/retrieval/context.py:765-815 | When the budget suffices for all of a file's spans, the items are those spans, each whole and in order, the same for every such budget. |
| ContextCoverage.AllSpansWhole | apps/api/app/retrieval/context.py:758-818 | The same over all files: when budget and item count suffice for all spans, packing emits every span of every file whole, and the items do not depend on the budget. |
| ContextCoverage.AllTargetsShown | apps/api/app/retrieval/context.py:706-834 | Then the bundle shows every line on which any symbol of any candidate was located. |
| ContextCoverage.LargerBudgetSameItems | apps/api/app/retrieval/context.py:706-834 | Raising a budget that already suffices gives a bundle with the very same items and only another budget. |
| ContextBundles.RepeatedIdIsCollision | apps/api/app/retrieval/localisation.py:533-545 | Packed items are pairwise different sources, so their identities are distinct if and only if no two of these very items are digested from different bytes into one digest. |
| ContextBundles.GeneratedAreKnown | apps/api/app/retrieval/context.py:733-755 | Candidates generated for the request's own index pass the rank contract and all three candidate checks of the request, and have distinct identities if and only if no two of them collide. |
| ContextBundles.AssembleContext | apps/api/app/retrieval/context.py:706-834 | The three loops of the assembly compute the bundle those results are about. |
| Ranking.RankedUnique | apps/api/app/retrieval/candidates.py:899 | A sequence in rank order (score descending, path ascending) is determined by its elements. |
| Ranking.CorpusOrderIrrelevant | apps/api/app/retrieval/candidates.py:874-914 | The ranking does not depend on the order in which the corpus was read. |
| Ranking.TopCandidatesAreBest | apps/api/app/retrieval/candidates.py:874-914 | Every positively scored file is emitted or outranked by all emitted ones: exactly the top K. |
| Ranking.TopCandidatesAreScored | apps/api/app/retrieval/candidates.py:874-914 | Every emitted candidate is a file of the corpus with its own path, symbols, repository and revision, its rank, and as score the sum of its positive contributions, which is above zero. |
| Ranking.ScoreIsPositiveTotal | apps/api/app/retrieval/candidates.py:895-899 | A file's score is the sum of its positive contributions, defined apart from the scoring loop: a single contribution x scores max(0, x). |
| Ranking.ScoreAdds | apps/api/app/retrieval/candidates.py:895-899 | The score of two lists of contributions together is the sum of their scores. |
| Ranking.ScoreRises | apps/api/app/retrieval/candidates.py:895-899 | Raising one positive contribution by n raises the score by n. |
| Ranking.StrLessIs | apps/api/app/retrieval/candidates.py:901 | Path order is lexicographic: the first difference decides, and a proper prefix comes first. |
| Ranking.TopCandidatesGenuine | apps/api/app/retrieval/context.py:167-200 | The emitted candidates satisfy the rank check the context module makes: ranks 1..N, scores descending, ties by ascending path. |
| Ranking.SortByRankSorts | apps/api/app/retrieval/localisation.py:251-260 | Ordering candidates loses none and puts them by rank, equal ranks by identity. |
| Ranking.SortByRankKeeps | apps/api/app/retrieval/localisation.py:251-260 | Ordering candidates whose ranks are already 1..N leaves them as they are. |
| Ranking.RequireRankSemantics | apps/api/app/retrieval/context.py:167-200 | The check accepts exactly the candidate lists in genuine rank order. |
| Ranking.AcceptCandidates | apps/api/app/retrieval/context.py:133-163 | Supplied candidates are accepted as they stand or refused; acceptance never reorders them. |
| Ranking.RepeatedIdsCollide | apps/api/app/retrieval/candidates.py:894-914 | The top candidates are different files, so their identities are distinct if and only if the digest collides on no two of them. |
| Ranking.GenerateCandidates | apps/api/app/retrieval/candidates.py:874-914 | The scoring, sorting and numbering loops return exactly the top candidates, scored by the sum of the positive contributions, or the duplicate error if and only if the digest collides on the identity inputs of two of these candidates. |
| Scoring.LnMilliNearShift | apps/api/app/retrieval/candidates.py:291-307 | The fixed-point logarithm stays within 695 thousandths of the bit-length shift times the 32-bit fixed-point constant the code uses for ln 2, for all positive arguments. |
| Scoring.LnMilliMonotone | apps/api/app/retrieval/candidates.py:291-307 | While the bit-length shift is fixed it never falls as the numerator grows, floors and all. |
| Scoring.ComputeLnMilli | apps/api/app/retrieval/candidates.py:291-307 | The shifting and the series loop compute that logarithm. |
| LogAccuracy.LnMilliAccurate | apps/api/app/retrieval/candidates.py:287-307 | For all positive arguments the fixed-point result is the exact series `shift * ln 2 + 2(z + z^3/3 + ...)` in thousandths, with ln 2 as the same series at 1/3, rounded down: with any number of terms from eleven on it is never higher and never more than one lower, up to 1/65536 for each bit of the shift and one more. |
| LogAccuracy.AlignedExact | apps/api/app/retrieval/candidates.py:294-298 | Alignment changes the fraction by exactly the shift's power of two. |
| Scoring.ComponentRises | apps/api/app/retrieval/candidates.py:577-579 | A term's saturating component rises with its frequency and stays below 2200. |
| Scoring.LexicalRisesWithFrequency | apps/api/app/retrieval/candidates.py:560-590 | At a fixed document length, raising query-term frequencies never lowers the lexical score, which stays within its clamp. |
| Scoring.LexicalFallsWithLength | apps/api/app/retrieval/candidates.py:560-590 | A longer document with the same term frequencies never scores higher. |
| Scoring.ScoreLexical | apps/api/app/retrieval/candidates.py:560-590 | The accumulation loop computes that score. |
| LogDoubling.DoublingAddsLn2 | apps/api/app/retrieval/candidates.py:287-307 | The eleven terms of the series obey the law of the logarithm: for every ratio between a half and one, doubling the ratio adds the series at 1/3, which stands for ln 2, to within 1/300000. |
| LogDoubling.LnMilliFallsButForOne | apps/api/app/retrieval/candidates.py:291-307 | However the fraction is written and wherever the shift steps, a larger denominator never raises the result by more than one thousandth, for numbers of up to thirty thousand bits together. |
| LogBounds.LnMilliBetween | apps/api/app/retrieval/candidates.py:291-307 | The result lies between 1000(1 - d/n) and 1000(n/d - 1) up to rounding, for all numbers of up to sixty thousand bits. |
| LogBounds.Exchanged | apps/api/app/retrieval/candidates.py:291-307 | Exchanging numerator and denominator changes the sign of the exact series. |
| TermRarity.RarerWeighsNoLessButForOne | apps/api/app/retrieval/candidates.py:574 | So a rarer term never weighs less by more than one thousandth. |
| TermRarity.RarerScoresNoLess | apps/api/app/retrieval/candidates.py:560-590 | For every query and document, a corpus whose terms are as rare or rarer gives no lower score, for counts 2df + 1 of equal bit length or of lengths three or more apart. |
| TermRarity.RarerCanWeighLess | apps/api/app/retrieval/candidates.py:574 | Between such lengths it can fail: a concrete corpus in which the rarer of two terms weighs one thousandth less, because the counts lie on the two sides of 2^30. |
| TermRarity.AverageDocumentScore | apps/api/app/retrieval/candidates.py:560-590 | The scale: a document of average length with each query term at most once scores five times the sum of the present terms' weights, clamped at 500000. |
| TermRarity.RawAdds | apps/api/app/retrieval/candidates.py:567-582 | The raw scores of two parts of a query add up. |
| TermRarity.UbiquitousWeighsNothing | apps/api/app/retrieval/candidates.py:574 | A term in every one of at least a thousand files weighs nothing. |
| TermRarity.PresentRareTermScores | apps/api/app/retrieval/candidates.py:560-590 | A document at most a thousand times as long as the average that contains a query term of at most about a quarter of the files scores above zero. |
| QueueInvariants.StepKeeps | apps/api/app/queue/adapter.py:91-684 | Every public operation, with any arguments and whether it raises or not, keeps the invariants of the whole queue state. |
| QueueInvariants.ReachableGood | apps/api/app/queue/adapter.py:41-684 | Every state reached from an empty queue by any sequence of operations satisfies them. |
| QueueInvariants.ClaimedEnvelopeRefused | apps/api/app/queue/adapter.py:91-103 | An envelope that names a claim is always refused without a change, because its message is already stored under an envelope that names none. |
| QueueTheorems.ClaimedEnvelopeNeverPublished | apps/api/app/queue/adapter.py:91-103 | So it is in every reachable state. |
| QueueInvariants.ProducerIsNewest | apps/api/app/queue/adapter.py:372-448 | The claim that may submit has at least the fence of every earlier submission for its message. |
| QueueInvariants.RejectionLeavesNone | apps/api/app/queue/adapter.py:544-563 | The revocation sweep leaves no live claim of the rejected request. |
| QueueInvariants.DeadLetterLeavesNone | apps/api/app/queue/adapter.py:534-542 | The revocation sweep leaves no live claim of the dead-lettered delivery. |
| QueueEvolution.StepEvolves | apps/api/app/queue/adapter.py:91-684 | Across every operation, records are only added, settled publications and ended claims stay so, controls are not reactivated, counters do not fall, rejected requests gain nothing, conflicted messages no acknowledgement and dead-lettered messages only redrives. |
| QueueEvolution.RunEvolves | apps/api/app/queue/adapter.py:41-684 | The same across every run. |
| QueueTheorems.RegisteredHasLargestFence | apps/api/app/queue/adapter.py:292-327 | In every reachable state each claim's message has a registered claim, of that message, with the largest fence. |
| QueueTheorems.LiveClaimIsRegistered | apps/api/app/queue/adapter.py:292-370 | A current or renewal-uncertain claim is the registered claim of its message. |
| QueueTheorems.AtMostOneLiveClaim | apps/api/app/queue/adapter.py:292-370 | Each message has at most one current or renewal-uncertain claim. |
| QueueTheorems.PowerNeverRegained | apps/api/app/queue/adapter.py:268-370 | Over any run, a claim that has lost the power to produce protected effects never regains it. |
| QueueTheorems.NewClaimTakesOver | apps/api/app/queue/adapter.py:292-327 | A new claim can produce effects at once and every other claim of its message no longer can. |
| QueueTheorems.SlotsAndResultsBijective | apps/api/app/queue/adapter.py:412-431 | Result slots and accepted results are in bijection in every reachable state. |
| QueueTheorems.ResultsNeverRewritten | apps/api/app/queue/adapter.py:412-448 | An accepted result, its slot and its earlier submissions are never rewritten over any run. |
| QueueTheorems.SubmissionFencesRise | apps/api/app/queue/adapter.py:432-448 | The submissions of one result repeat its binding and carry non-decreasing fences, each of a claim of its message. |
| QueueTheorems.AcceptRepeats | apps/api/app/queue/adapter.py:372-448 | Submitting again what was just accepted is accepted and changes nothing. |
| QueueTheorems.AcknowledgedIsClosed | apps/api/app/queue/adapter.py:460-496 | A true acknowledgement comes from the power-holding claim of an unconflicted message with all required effects ready, and no claim of the delivery can ever produce effects afterwards. |
| QueueTheorems.ConflictIsFinal | apps/api/app/queue/adapter.py:412-431 | Once a message is conflicted it stays so over any run, no later step acknowledges a delivery of it, and every attempt answers false without a change. |
| QueueTheorems.RejectionIsFinal | apps/api/app/queue/adapter.py:223-266 | After a security rejection no later step creates a delivery, claim, accepted result, submission, acknowledgement or redrive for the request, and none of its claims is live. |
| QueueTheorems.RedrivesWithinLimit | apps/api/app/queue/adapter.py:626-643 | The redrive records of a message's deliveries equal its redrive count, which never exceeds the limit. |
| QueueTheorems.DeadLetteredOnlyRedriven | apps/api/app/queue/adapter.py:223-229 | Once a message has a dead letter every new delivery is a redrive, so any further run delivers it at most as often as redrives remain. |
| QueueTheorems.RedriveIsAuthorized | apps/api/app/queue/adapter.py:579-643 | A redrive needs a positive authorization of dead-lettered, active, unrejected work, and its record carries the decision. |
| QueueTheorems.FailuresReachLimitWithLetter | apps/api/app/queue/adapter.py:524-535 | A failure count never exceeds its limit and equals it if and only if the delivery is dead-lettered for that classification. |
| QueueTheorems.FailureDisposition | apps/api/app/queue/adapter.py:524-542 | A transport or poison failure is retried until exactly the configured number and then dead-letters. |
| QueueTheorems.UncountedDisposition | apps/api/app/queue/adapter.py:511-523 | An application failure changes nothing; a security rejection rejects the whole request and counts, dead-letters and retries nothing. |
| QueueTheorems.DeadLettersImmutable | apps/api/app/queue/adapter.py:509-535 | Dead letters are never rewritten or removed, and a delivery has at most one. |
| QueueTheorems.MessagesAndPublicationsBijective | apps/api/app/queue/adapter.py:100-121 | Messages and publications name each other one to one in every reachable state. |
| QueueTheorems.PublishRepeats | apps/api/app/queue/adapter.py:103-121 | Publishing an accepted envelope again, after any further run, answers its record as it stands and changes nothing. |
| QueueTheorems.DeliveryNeedsPublication | apps/api/app/queue/adapter.py:186-247 | A plain delivery needs a confirmed publication, a provider occurrence at least an uncertain one; both are the next delivery of open work and repeat the stored envelope. |
| QueueTheorems.DeliveredIsPublished | apps/api/app/queue/adapter.py:138-214 | Any message with a delivery has an uncertain, confirmed or duplicate-confirmed publication. |
| QueueTheorems.SettledNeverChanges | apps/api/app/queue/adapter.py:148-170 | A settled publication never changes over any run; its outcome history only grows and is uncertain outcomes followed by outcomes of its state, none twice. |
| QueueTheorems.DeliveriesNumbered | apps/api/app/queue/adapter.py:230-247 | A message's deliveries are numbered 0, 1, ... in creation order, each number used once. |
| QueueEffects.PowerMeans | apps/api/app/queue/adapter.py:357-370 | A claim may produce protected effects exactly while it is current, registered for its message, and its delivery is unacknowledged, without a dead letter, of unrejected active work. |
| QueueEffects.LossEndsClaim | apps/api/app/queue/adapter.py:348-355 | A confirmed lease loss stores the claim as LeaseLost, exactly as answered, and changes nothing else; at once and over any run that claim produces nothing, submits nothing and acknowledges nothing. |
| QueueEffects.UncertaintyStopsClaim | apps/api/app/queue/adapter.py:335-346 | The same for an uncertain renewal, which only a current claim can have. |
| QueueEffects.ControlStops | apps/api/app/queue/adapter.py:268-284 | A control is stored for its request alone, refused exactly when it would reactivate; under any other control no claim of the work produces anything, at once or over any run. |
| QueueEffects.ClaimTaken | apps/api/app/queue/adapter.py:292-327 | A claim is taken exactly of open work: appended as current with the next fence and registered, the registered claim it takes over from Replaced if it was live, and nothing else changed. |
| QueueEffects.DeliversExactly | apps/api/app/queue/adapter.py:186-254 | When each kind of delivery succeeds, and the delivery it then adds: the next one of its message, with the stored envelope's request, attempt and provenance. |
| QueueEffects.PublishesExactly | apps/api/app/queue/adapter.py:91-121 | When an envelope is accepted in a reachable state, and the message, record, history and control it then stores. |
| QueueEffects.OutcomeRecorded | apps/api/app/queue/adapter.py:123-170 | When an outcome is recorded, and that it becomes the record's state and enters its history once. |
| QueueEffects.SubmitsExactly | apps/api/app/queue/adapter.py:372-448 | A result is accepted exactly from a claim with the power, for its own work and without a clash, and is then bound in its slot with its submission recorded once; a clash only marks the message, every other refusal changes nothing. |
| QueueEffects.AcknowledgesExactly | apps/api/app/queue/adapter.py:460-496 | An acknowledgement is true exactly when the work succeeded with every required effect, by the delivery's own claim with the power, of an unconflicted message; it then closes the delivery and changes nothing else. |
| QueueEffects.ClassifiesExactly | apps/api/app/queue/adapter.py:498-523 | Which failures of which deliveries are classified; every other one changes nothing. |
| QueueEffects.FailureStored | apps/api/app/queue/adapter.py:524-542 | A counted failure raises its own count alone; the one that reaches its limit appends the delivery as a dead letter and revokes exactly its live claims. |
| QueueEffects.RejectionStored | apps/api/app/queue/adapter.py:511-563 | A security rejection rejects the request, revokes exactly its live claims and stores nothing else. |
| QueueEffects.RedrivesExactly | apps/api/app/queue/adapter.py:579-643 | When the newest matching dead letter is redriven, and the delivery, count and record that adds. |
| QueueAdapter.InMemoryQueueAdapter.Publish | apps/api/app/queue/adapter.py:91-121 | The object's `publish`: new state and result are those of the transition function that the invariants and `QueueEffects` are proved of. |
| QueueAdapter.InMemoryQueueAdapter.RecordPublicationOutcome | apps/api/app/queue/adapter.py:123-170 | The object's `record_publication_outcome`, with its scan for deliveries: new state and result are those of the transition function that the invariants and `QueueEffects` are proved of. |
| QueueAdapter.InMemoryQueueAdapter.CreateDelivery | apps/api/app/queue/adapter.py:216-247 | The object's `_create_delivery`, with its count of prior deliveries: new state and result are those of the transition function that the invariants and `QueueEffects` are proved of. |
| QueueAdapter.InMemoryQueueAdapter.Deliver | apps/api/app/queue/adapter.py:186-196 | The object's `deliver`: new state and result are those of the transition function that the invariants and `QueueEffects` are proved of. |
| QueueAdapter.InMemoryQueueAdapter.RecordProviderDelivery | apps/api/app/queue/adapter.py:198-214 | The object's `record_provider_delivery_occurrence`: new state and result are those of the transition function that the invariants and `QueueEffects` are proved of. |
| QueueAdapter.InMemoryQueueAdapter.Redeliver | apps/api/app/queue/adapter.py:249-254 | The object's `redeliver`: new state and result are those of the transition function that the invariants and `QueueEffects` are proved of. |
| QueueAdapter.InMemoryQueueAdapter.SetControl | apps/api/app/queue/adapter.py:268-284 | The object's `set_control`: new state and result are those of the transition function that the invariants and `QueueEffects` are proved of. |
| QueueAdapter.InMemoryQueueAdapter.TakeClaim | apps/api/app/queue/adapter.py:292-327 | The object's `claim`: new state and result are those of the transition function that the invariants and `QueueEffects` are proved of. |
| QueueAdapter.InMemoryQueueAdapter.MarkRenewalUncertain | apps/api/app/queue/adapter.py:335-346 | The object's `mark_renewal_uncertain`: new state and result are those of the transition function that the invariants and `QueueEffects` are proved of. |
| QueueAdapter.InMemoryQueueAdapter.ConfirmLeaseLoss | apps/api/app/queue/adapter.py:348-355 | The object's `confirm_lease_loss`: new state and result are those of the transition function that the invariants and `QueueEffects` are proved of. |
| QueueAdapter.InMemoryQueueAdapter.AcceptResult | apps/api/app/queue/adapter.py:372-448 | The object's `accept_result`, which marks a conflict before it raises: new state and result are those of the transition function that the invariants and `QueueEffects` are proved of. |
| QueueAdapter.InMemoryQueueAdapter.Acknowledge | apps/api/app/queue/adapter.py:485-496 | The object's `acknowledge`: new state and result are those of the transition function that the invariants and `QueueEffects` are proved of. |
| QueueAdapter.InMemoryQueueAdapter.ClassifyFailure | apps/api/app/queue/adapter.py:498-542 | The object's `classify_failure`: new state and result are those of the transition function that the invariants and `QueueEffects` are proved of. |
| QueueAdapter.InMemoryQueueAdapter.Redrive | apps/api/app/queue/adapter.py:579-643 | The object's `redrive`: new state and result are those of the transition function that the invariants and `QueueEffects` are proved of. |
| QueueAdapter.InMemoryQueueAdapter.DeadLetterForMessage | apps/api/app/queue/adapter.py:651-661 | The reverse search returns the newest dead letter of the message. |
| QueueAdapter.InMemoryQueueAdapter.RevokeClaimsOfDelivery | apps/api/app/queue/adapter.py:536-541 | The in-place sweep revokes exactly the live claims of the delivery. |
| QueueAdapter.InMemoryQueueAdapter.EstablishSecurityRejection | apps/api/app/queue/adapter.py:544-563 | The in-place sweep revokes exactly the live claims of the request and the rejection is recorded. |
| QueueAdapter.InMemoryQueueAdapter.PerformAll | apps/api/app/queue/adapter.py:41-684 | Any sequence of calls on one object takes its state through a run, so every run-wide result holds of the object. |
| OutputCapture.CaptureOutput | apps/worker/src/supervisor.rs:575-609 | The drain loop keeps the first `limit` bytes that arrive, counts all with saturation and reports the ending error. |
| OutputCapture.TruncatedExactly | apps/worker/src/supervisor.rs:575-609 | The kept bytes are the first min(total, limit) of the stream; truncation is reported if and only if more arrived and the limit is not 2^64 - 1, where the saturated total cannot tell; it always equals total > kept. |
| OutputCapture.MaximalLimitHidesTruncation | apps/worker/src/supervisor.rs:575-609 | A concrete stream of 2^64 bytes at the limit 2^64 - 1 loses its last byte and is not reported truncated. |
| OutputCapture.ChunkingIrrelevant | apps/worker/src/supervisor.rs:579-591 | How the bytes are cut into reads does not change the outcome. |
| OutputCapture.ArrivedInOrder | apps/worker/src/supervisor.rs:579-604 | Bytes arrive in the order read until the first empty read or error, and what follows is never read. |
| Supervisor.TerminateAndReap | apps/worker/src/supervisor.rs:463-502 | Group kill, fallback kill and reap record each failure in order and yield the termination reason and code. |
| Supervisor.SuperviseChild | apps/worker/src/supervisor.rs:376-441 | The polling loop acts on the first decisive iteration, cancellation before timeout before the child's own end. |
| Supervisor.TimeoutEndsTheLoop | apps/worker/src/supervisor.rs:376-447 | With a timeout and an honest clock the loop ends within ceil(limit / 5 ms) iterations whatever the child does. |
| Supervisor.FinishReader | apps/worker/src/supervisor.rs:611-637 | Joining a reader yields its output, or an empty one with a failure when it panicked. |
| Supervisor.ResourceObservations | apps/worker/src/supervisor.rs:714-800 | One observation per configured limit in fixed order, then the other limits in request order. |
| Supervisor.Execute | apps/worker/src/supervisor.rs:249-349 | A whole run: denied before the start, or started, supervised, drained and reported; the reported stdout is the first bytes of the stdout pipe up to stdout's limit, with their total and truncation, and stderr that of the stderr pipe. |
| ProducerResults.AtMostOneOutcome | apps/worker/src/producer_result.rs:465-617 | For a given phase and runtime facts the validator accepts at most one outcome. |
| ProducerResults.ValidationIgnoresTelling | apps/worker/src/producer_result.rs:465-700 | The validator's answer, error included, does not depend on error kinds, messages, host names, outputs or the order of observations. |
| ResultAdapter.ClassifyResourceBreach | apps/worker/src/producer_result_adapter.rs:295-317 | The flag loop finds a breach, or the first unenforced terminating observation. |
| ResultAdapter.BreachIsBreaches | apps/worker/src/producer_result_adapter.rs:295-317 | The adapter's breach is the validator's: it errs exactly on an unenforced terminating observation and otherwise finds one if and only if there is one. |
| ResultAdapter.ClassificationsAgree | apps/worker/src/producer_result_adapter.rs:191-258 | On any execution result, the validator never accepts another outcome than the one the adapter determined. |
| SupervisedResults.RunObservationsFit | apps/worker/src/supervisor.rs:714-829 | A run's observations never contradict its timeout, and only the CPU limit's can report a breach. |
| SupervisedResults.RanCoherent | apps/worker/src/supervisor.rs:249-349 | Every started run's exit, timeout, cancellation, failures and observations agree, however late a reader fails. |
| SupervisedResults.RanExpected | apps/worker/src/supervisor.rs:249-672 | The outcome its exit and failures leave is the one an independent table reads off what happened. |
| SupervisedResults.EveryRunConverts | apps/worker/src/producer_result_adapter.rs:76-127 | For every run, under any denial, pipe, reader, wait or kill failure, clock, cancellation or CPU-limit death, conversion succeeds if and only if the supplied references are nonblank and at most 4096 bytes, with the table's outcome and availability, telling the same exit, timeout, cancellation, duration, failures in order and observations under the given names; the stdout reference carries stdout's observed, retained, limit and truncated values and the stderr reference stderr's. |
| RunReports.OutputsReported | apps/worker/src/supervisor.rs:332-352 | Every run reports as stdout what arrived on the stdout pipe and as stderr what arrived on the stderr pipe, cut at their own limits; a missing, unread or panicked pipe is empty. |
| RunReports.ReferencesCountPipes | apps/worker/src/producer_result_adapter.rs:334-371 | After conversion each output reference counts the bytes of the pipe it is named for. |
| RunReports.FirstEndActs | apps/worker/src/supervisor.rs:376-441 | Supervision acts on the first iteration that finds the run cancelled, at or past its limit, or its child no longer running, and on no other. |
| RunReports.EndReported | apps/worker/src/supervisor.rs:249-441 | The reported exit, timeout and cancellation are those of what happened: never started, killed for the first of its reasons with the reaped code, or ended by itself; with the child's own process id and the run's duration. |
| RunReports.FailuresReported | apps/worker/src/supervisor.rs:249-672 | Exactly the failures that happened are reported: spawn, exit, timeout, cancellation, kill, wait and each pipe's own, with their messages. |
| RunReports.FailuresStaged | apps/worker/src/supervisor.rs:249-349 | With both pipes up they come in order: the one that ended the run, killing, reaping, the stdout reader, the stderr reader. |
| RunReports.ObservationsReported | apps/worker/src/supervisor.rs:714-829 | Exactly one kind of observation for each configured limit: enforced or not, terminated exactly when that limit ended the run, with stdout's and stderr's own totals. |
| RunReports.ObservationsPlaced | apps/worker/src/supervisor.rs:714-829 | At most one observation of each kind, in fixed order, and then one for each other limit as requested. |
| ExecutionExport.FactsRoundTrip | apps/worker/src/execution_export.rs:669-696 | Facts sent over the wire and sorted again by any order tell the same run: exit, timeout, cancellation, duration, availability, observations as a multiset and the kinds of the failures in order. |
| ExecutionExport.DurationRoundTrip | apps/worker/src/execution_export.rs:698-707 | Seconds and nanoseconds give the duration back, with nanoseconds in range. |
| ExecutionExport.AcceptedResultExports | apps/worker/src/execution_export.rs:596-637 | A producer result its constructors accepted is exported if and only if its test summary is admissible (none in the compile phase, JUnit failures at most tests run). |
| ExecutionExport.ExportedOutcomeUnique | apps/worker/src/execution_export.rs:141-155 | No other outcome passes export validation for the same phase and facts. |
| ExecutionExport.ConvertedAccepted | apps/worker/src/producer_result_adapter.rs:76-127 | Whatever the adapter returns passes the checks of the result and reference constructors, in any sort order. |
| ExecutionExport.EveryRunExports | apps/worker/src/execution_export.rs:596-637 | Every run with acceptable references and an admissible summary is exported with the outcome of the table. |
| ResultAcceptance.AcceptedIff | apps/worker/src/producer_result.rs:465-700 | For every phase, outcome and facts, consistent or not, the validator accepts the outcome if and only if the facts tell its story: a table, one row per outcome, of the exit, failures, timeout, cancellation, observations and availability it needs. |
| ResultAcceptance.ConvertsIff | apps/worker/src/producer_result_adapter.rs:76-371 | Any execution result, even one no run makes, converts if and only if its outputs can be referred to, every limit other than the timeout that ended it was enforced by the runtime, and some outcome's story is told by its facts; that outcome is then the result's, with the availability its failures leave. |
| ResultAcceptance.ExportedTells | apps/worker/src/execution_export.rs:597-637 | An export carries the result's own names, phase, outcome and references and tells its facts one by one, durations to the nanosecond and listed error kinds by name; only messages are left out. |
| ResultAcceptance.ExportValidIff | apps/worker/src/execution_export.rs:96-163 | An export from whatever hand is valid if and only if version and names are given, summary and references are admissible, all durations are in range and the facts it tells are its outcome's story. |
| ResultAcceptance.ReferenceBytesAdd | apps/worker/src/producer_result.rs:299-322 | The metadata budget counts the bytes of every reference. |
| EvidencePersistence.ConvergeAllCollects | apps/api/app/db/db004_persistence.py:183-229 | Converging rows one by one succeeds only into the old children plus the incoming collection, every incoming row held. |
| EvidencePersistence.CandidateKeepsBijection | apps/api/app/db/db004_persistence.py:335-415 | Patch and version rows stay in bijection and agree on run, attempt and provenance. |
| EvidencePersistence.CandidateKeepsLineage | apps/api/app/db/db004_persistence.py:314-332 | Every repaired version's stored parent is stored, of level 0 and of the same run. |
| EvidenceAcceptance.CandidateAcceptedIff | apps/api/app/db/db004_persistence.py:293-454 | A candidate is accepted if and only if patch and version name each other and agree, their run and attempt are known and belong together, a repaired version's parent is a stored initial version of the same run, and both rows are stored just as they are, with these files, or both are new. |
| EvidenceAcceptance.CandidateRefused | apps/api/app/db/db004_persistence.py:314-454 | Why a candidate is refused, by the first reason that applies: a mismatch of patch and version, an unknown run, attempt or parent, one that does not belong, or a conflict with stored rows. |
| EvidenceAcceptance.ArtefactRefused | apps/api/app/db/db004_persistence.py:485-524 | Why an artefact is refused: something it names is unknown, does not belong together, or it is stored otherwise. |
| EvidenceAcceptance.EvidenceRefused | apps/api/app/db/db004_persistence.py:679-760 | Why an execution is refused before anything is written, by the first reason that applies. |
| EvidenceAcceptance.ManifestRefused | apps/api/app/db/db004_persistence.py:901-1010 | Why a manifest is refused before anything is written: something it names is unknown or does not agree. |
| EvidenceAcceptance.ArtefactAcceptedIff | apps/api/app/db/db004_persistence.py:485-524 | An artefact is accepted if and only if what it names is stored and belongs together, and it is new or stored just as it is. |
| EvidenceAcceptance.EvidenceAcceptedIff | apps/api/app/db/db004_persistence.py:679-876 | An execution is accepted if and only if it fits its candidate's run and attempt, a breach has a breached observation, its artefacts name it or nothing and agree with stored ones, and it is stored with these very children or is new with one role per artefact, one artefact per stream and one case per test. |
| EvidenceAcceptance.ManifestAcceptedIff | apps/api/app/db/db004_persistence.py:901-1076 | A manifest is accepted if and only if what it names agrees, its members are distinct and stored just as given, and it is new or stored with this row and these members. |
| EvidencePersistence.NothingRewritten | apps/api/app/db/db004_persistence.py:183-1076 | Over any sequence of candidate, artefact, evidence and manifest persists, stored rows and the children of stored parents never change, and lineage, bindings and attempt-to-run links stay sound. |
| EvidencePersistence.SuccessReadsBackAndReplays | apps/api/app/db/db004_persistence.py:335-1076 | A persist that succeeded is stored exactly as it came, root and child collections, still is after any further run, and persisting it again succeeds and changes nothing. |
| EvidenceLinks.LinksConsistent | apps/api/app/db/db004_persistence.py:485-1076 | Over any run, artefacts, executions and manifests that name each other describe the same candidate, attempt, phase and run, and every role and member names a stored artefact. |
| EvidenceStore.ConvergeRows | apps/api/app/db/db004_persistence.py:183-229 | The insert loop over child rows stops at the first conflict. |
| EvidenceStore.Session.PersistCandidate | apps/api/app/db/db004_persistence.py:335-454 | Row-by-row writes inside a savepoint: the whole aggregate, or the tables as they were and the error. |
| EvidenceStore.Session.PersistArtefact | apps/api/app/db/db004_persistence.py:485-524 | The same for one artefact reference. |
| EvidenceStore.Session.PersistEvidence | apps/api/app/db/db004_persistence.py:679-876 | The same for an execution with its artefacts, roles, test cases and observations. |
| EvidenceStore.Session.PersistManifest | apps/api/app/db/db004_persistence.py:901-1076 | The same for a manifest and its members. |
| OrderedListings.AscendingUnique | apps/api/app/db/db004_queries.py:335-347 | Rows in strictly ascending key order are determined by their elements, so an ordered query has one answer. |
| OrderedListings.ListingIs | apps/api/app/db/db004_queries.py:335-347 | Of rows that are exactly a stored collection, an ordered query answers the same rows, and answers them in the given order if and only if that order ascends. |
| EvidenceProjections.ProjectionsReadBack | apps/api/app/db/db004_queries.py:402-575 | After a successful persist and any further run, the projections give the aggregate back: every scalar field, every numbered test case and observation in order, every embedded artefact; changed files, roles and members as the same rows, in the given order if and only if it ascends in the collation. |
| BundlePersistence.OnlyTheStoredBundle | apps/api/app/db/db004_persistence.py:237-290 | Although the stored items are not compared as a collection, a bundle under a stored identity is accepted only when it is the stored one: unique positions, positive token counts and the stored total leave no room for a changed, added or removed item. |
| BundlePersistence.PersistSucceedsIff | apps/api/app/db/db004_persistence.py:237-290 | A bundle is accepted if and only if it is already stored exactly as it is, or its identity and all its item identities are new. |
| BundlePersistence.BundlesReadBack | apps/api/app/db/db004_persistence.py:237-290 | Over any run an accepted bundle stays stored exactly, a replay changes nothing, no other bundle is ever accepted under its identity, and the position-ordered query answers exactly its items. |
| BundlePersistence.NextAcceptedIff | apps/api/app/db/db004_persistence.py:237-290 | Of two acceptable bundles with different identities the second is still accepted after the first if and only if they share no item. |
| BundlePersistence.SharedItemNeverBoth | apps/api/app/db/db004_persistence.py:237-290 | Over any run, once a bundle is accepted, every other bundle that shares an item with it is refused as a conflict. |
| RebudgetedBundles.RebudgetedRefused | apps/api/app/retrieval/context.py:245-259 | Item identities leave out the bundle that bundle identities and budgets tell apart: once a request's bundle is stored, the bundle of the same request with a larger budget is refused, after any run and under any identity. |
| RebudgetedBundles.RebudgetedExample | apps/api/app/db/db004_persistence.py:237-290 | A concrete request under budgets 1 and 2: each bundle is accepted alone, and the second is refused after the first. |
| BundlePersistence.AssembledConstructed | apps/api/app/retrieval/localisation.py:357-389 | Every bundle that assembly returns meets the constructor conditions these results rest on. |
| BundlePersistence.BundleSession.PersistContextBundle | apps/api/app/db/db004_persistence.py:237-290 | The root and the item loop inside a savepoint: the whole bundle, or the tables as they were and the conflict. |
| WorkflowLog.HistoryGood | apps/api/app/db/workflow_persistence.py:37-75 | Under any interleaving of appends and swaps each run's rows are numbered by its row count, its producer ids are distinct and the log only grew. |
| WorkflowLog.SequencesComplete | apps/api/app/db/workflow_persistence.py:68-75 | A run with n rows has exactly one row for each sequence 1..n. |
| WorkflowLog.RetriesChangeNothing | apps/api/app/db/workflow_persistence.py:52-66 | Any history gives the same database as its first occurrences only, so retries anywhere change nothing. |
| WorkflowLog.FirstsAreFirst | apps/api/app/db/workflow_persistence.py:52-66 | The first occurrences repeat nothing among themselves and leave out only repeats. |
| WorkflowLog.AppendOutcome | apps/api/app/db/workflow_persistence.py:37-75 | Exactly what an append does: a stored producer event with the same fingerprint is answered, with another one it conflicts, an unknown run is an error, and otherwise one row is added with the next sequence. |
| WorkflowLog.RetryReturnsStored | apps/api/app/db/workflow_persistence.py:58-64 | A retry with the same fingerprint is answered with the stored row. |
| WorkflowLog.SwapSucceedsIff | apps/api/app/db/workflow_persistence.py:78-111 | A swap succeeds exactly on known fields, the expected state and the expected version; it then raises the version by one, writes every field it names, the state among them, keeps every other and adds none, and answers the stored run; a refused one changes nothing and has its own error. |
| WorkflowLog.NoTwoSwapsOfOneVersion | apps/api/app/db/workflow_persistence.py:93-111 | Two swaps of one run that expect the same version cannot both succeed, whatever happens between them. |
| WorkflowLog.WorkflowSession.AppendRunEvent | apps/api/app/db/workflow_persistence.py:37-75 | The lookup and the maximum query make the append. |
| WorkflowLog.WorkflowSession.CompareAndSwapRun | apps/api/app/db/workflow_persistence.py:78-111 | The guarded update makes the swap, with the eleven mutable fields. |
| JwksCache.InterleavingGood | apps/api/app/api/auth.py:89-126 | Under any interleaving of threads and a clock that never runs backwards, the cache agrees with the log of fetches and returns. |
| JwksCache.SingleFlight | apps/api/app/api/auth.py:89-126 | At most one thread fetches at any time. |
| JwksCache.FetchesKeepCooldown | apps/api/app/api/auth.py:101-117 | A fetch starts only with none in flight or abandoned and no earlier than the cooldown after the previous one finished. |
| JwksCache.StuckIffAbandoned | apps/api/app/api/auth.py:105-126 | In a reachable state the refresh flag is set with no thread left to reset it if and only if some fetch was left by an exception that `get_key` does not catch. |
| JwksCache.AbandonSticks | apps/api/app/api/auth.py:105-126 | Two steps reach such a state: a lookup that starts a fetch, and the fetch abandoned. |
| JwksCache.StuckForever | apps/api/app/api/auth.py:89-126 | From such a state no fetch starts or finishes in any run, and the key set and its expiry never change again. |
| JwksCache.ReturnedKeyIsLatest | apps/api/app/api/auth.py:92-126 | With a positive lifetime, a returned key is the latest successful fetch's key of that id and was unexpired when read. |
| JwksCache.NeverDenied | apps/api/app/api/auth.py:89-126 | Conversely, under any interleaving a key that the latest successful fetch brought is never answered None before it expires. |
| JwksCache.LookupAnswers | apps/api/app/api/auth.py:90-108 | What a lookup does in every case: a cached unexpired key and a remembered unknown id are answered at once without a change; within the cooldown the id is remembered and answered None; otherwise it is forgotten and the call waits or starts the fetch. |
| JwksCache.CompleteStores | apps/api/app/api/auth.py:115-126 | What a finished fetch stores and answers: the cooldown starts, a new key set replaces the old one whole with its lifetime, a failure keeps the old one, and only an id without a key is remembered as unknown. |
| JwksCache.LogInOrder | apps/api/app/api/auth.py:89-126 | The log of every run is in time order. |
| JwksCache.AnswerUnexpiredIff | apps/api/app/api/auth.py:115-126 | The key a fetch answers is unexpired if and only if the lifetime is positive. |
| JwksCache.ZeroLifetimeReturnsExpired | apps/api/app/api/auth.py:89-126 | A concrete run with a lifetime of zero: the first fetched key is returned at the moment at which it expires. |
| JwksCache.RememberKeepsNewest | apps/api/app/api/auth.py:81-87 | Remembering an id makes it the newest entry, keeps ids distinct, bounds the table and drops only the oldest entries. |
| JwksCache.UnknownBounded | apps/api/app/api/auth.py:81-87 | In every reachable state the table of unknown ids is within its bound and names no id twice. |
| JwksCache.UnknownAnsweredAgain | apps/api/app/api/auth.py:96-103 | An id a fetch did not bring is answered None for the negative lifetime, without a fetch and without a change, unless an unexpired key is cached. |
| JwksCache.KeyCache.RememberUnknown | apps/api/app/api/auth.py:81-87 | The eviction loop keeps the newest entries. |
| JwksCache.KeyCache.Look | apps/api/app/api/auth.py:90-108 | The first critical section of `get_key`. |
| JwksCache.KeyCache.Finish | apps/api/app/api/auth.py:115-126 | The second critical section of `get_key`. |

## Left out

- SHA-256 is an arbitrary function; results that need distinct digests are stated up to a collision between the very items or candidates at hand.
- The symbol search patterns are arbitrary predicates on a line, and the per-signal scores other than the lexical one are inputs.
- The detail text of a ranking signal is not modelled; only scores, ranks and order are. The bounds that the RankingSignal and RankingExplanation constructors put on names, contributions, details and the number of signals while candidates are generated are not modelled, so neither is a generation that such a bound refuses.
- `_Proposal.extra` is a set of lines, because only its members and their minimum and maximum are used.
- Python's sort is stable insertion; the merge promise is stated for the windows that `_select_windows` yields, since arbitrary proposal lists do not keep segments disjoint.
- File access is one read per file with its outcome as input: descriptor, symlink and directory checks are not modelled, nor is the cache of a file read twice.
- The digest of the bundle identity is not modelled; item and candidate identities are.
- The outcomes of envelope, identity and reference validation in the queue are inputs; markers, string bounds and policy callbacks are not modelled.
- Queue deliveries and claims are sequences in creation order indexed by their generated number, in place of dictionaries keyed by `delivery-n` and `claim-n`; dead letters are a sequence in insertion order.
- Query members of the queue that only read one record are not modelled.
- Spawn authority, environment policy and CPU-limit preparation are one input: denied, or started with or without an installed limit. The Unix branch is modelled.
- Supervisor.SuperviseChild: a decisive iteration is required to exist, because without a timeout a child that never ends is polled for ever; `TimeoutEndsTheLoop` gives one when there is a timeout and an honest clock. A run that never polls is covered by any polls that decide, since they are not read.
- Durations are unbounded nanosecond counts, exit codes unbounded integers; byte totals saturate at 2^64 - 1 as the code's do.
- A reader's stream is a finite script; a pipe that is never closed has no join to model.
- Derived orders on observations and output references are arbitrary reorderings; I/O error kinds are an open set of which some have a wire name; the enumerations of the wire form that only rename are shared with the domain.
- The JSON bytes, their size budget and the strict decoder are not modelled.
- The projections' checks of the identity argument (a nonempty string within its column bound) are not modelled; an unknown identity is. The collation of text columns is a parameter, any strict total order.
- A stored bundle's creation time, which the database sets and nothing compares, is not modelled; the item fields that are only stored and compared are one opaque text.
- Durable runs and attempts are fixed while evidence is persisted; UUID parsing, column bounds and database check constraints are not modelled.
- EvidenceTables.PersistEvidence: test cases and observations are given in their canonical order, and the artefacts of an execution are persisted before its role rows rather than in turn, which differs only when one artefact appears twice, a case the constructor excludes.
- Database sessions are the committed or rolled-back sequence their row locks leave; an append that is rolled back is one that did not happen.
- JwksCache.Step: a waiting thread may look again at any time, which includes every wake-up the condition variable can give; that it does wake up is not stated.
- FastAPI, JWT verification, the web application, evaluation metrics, evidence field validation and Defects4J tooling are not part of this model.
