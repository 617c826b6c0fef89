# Verified model of the ASF delivery core

This project models, in Dafny, the parts of the repository on which a delivery rests, and proves what they
promise. `dafny verify dfyconfig.toml` checks all of it.

| component | files |
|---|---|
| streaming SHA-256 against FIPS 180-4 | `ByteNumbers`, `Fips180`, `Sha256` |
| delivery runner: an append-only event log, crashes, takeovers, fix loops, adversarial controllers | `DeliveryLog`, `DeliverySteps`, `DeliveryGates`, `DeliverySafety`, `DeliveryRunnerSafety`, `DeliveryLife`, `DeliveryFixes`, `DeliveryPaths`, `DeliveryBound`, `DeliveryTermination`, `DeliveryRunner` |
| evidence finalizer and its agreement with the runner | `EvidenceFinalizer`, `DeliveryAgreement`, `FinalizerAgreement`, `DeliveredLives` |
| GitHub effects against a remote that loses responses and that others write to | `BranchEffects`, `PullRequestEffects`, `FinalDelivery` |
| RFC 8785 canonical JSON, on trees and on heap graphs | `JsonText`, `CanonicalJson`, `JsonGraph` |
| event cursor | `Utf8Base64`, `EventCursor` |
| provider harness: two stream validators, forced stops, the race around a provider session | `ProviderStream`, `ProviderResults`, `ToolRace` |
| replay fence, checkpoint recovery, cost rounding, CI verdicts | `ReplayFence`, `CheckpointRecovery`, `Budget`, `CiVerdict` |
| reading the log back | `EventScan` |
| shared | `Options`, `Naturals`, `ExactSets`, `Sorting` |

How it is built:

- What the source does step by step is a class or a method with loops; each is proved equal to a function of its
  inputs and old state, and the properties are lemmas about that function. What the source writes as expressions is
  functions.
- A protocol is a state machine. Its steps include everything others may do: crash, take over, answer anything, land
  or lose a request, write to the remote, move the clock. A theorem about runs is about every sequence of steps.
- `DeliveryLife.WholeLife` is a run's whole life: any sequence of owner generations, recoveries, turns that may be cut
  short before any write, cancellations and their escalations, reconciliations that resume the run anywhere the store
  allows, and takeovers, with arbitrary controller answers in `Answer`.
- Stated assumptions: the store writes an event and its checkpoint together and refuses stale generations; digests,
  MACs and signatures are arbitrary functions (injective where a lemma says so); number rendering is an injective
  function into the JSON number grammar (`CanonicalJson.RendersNumbers`); a JavaScript string is a sequence of 16-bit
  code units.

Results that are not what one would expect:

- Fixing can start twice as often as the admitted budget (`DeliveryFixes.FixingIsBounded`), and for every budget some
  life does so (`DeliveryBound.FixBoundIsAttained`): the CI path compares the durable count but does not advance the
  runtime's. A life passes its budget exactly where a turn finds the runtime's count below the budget that the durable
  count has reached (`DeliveryFixes.BudgetIsPassedExactly`); some life does if and only if CI can fail
  (`DeliveryBound.BudgetCanBePassed`).
- The finalizer refuses a genuinely delivered log exactly where the delivered candidate's verification round was
  interrupted and repeated, or the evidence intent is older than the latest entry
  (`FinalizerAgreement.FinalizerAcceptsExactly`). `DeliveredLives` holds, for every policy that can deliver, a life that
  is accepted and one of each refused kind.
- A pull request on another branch that merely carries another run's marker, although it conflicts with nothing, makes
  a run's first observation ambiguous and keeps it from creating its own as long as it stays
  (`PullRequestEffects.ForeignMarkerBlocksCreates`).
- A run id holding U+FFFD has a second accepted cursor for every position (`EventCursor.ReplacementHasTwoCursors`).
- A provider that overran its tool calls loses even its cancellation: the forced result is refused
  (`ToolRace.ForcedStopIsPublished`).
- Two equal collects can agree on a delivery state that never was, where both halves recur
  (`FinalDelivery.RecurrenceDefeatsTheCollect`); a create still in flight can be followed by a second one
  (`PullRequestEffects.UnsettledCreateDuplicates`); an authentication is re-admitted exactly where a prune beyond its
  expiry came between, for which the clock must go back (`ReplayFence.ReplayExactly`, `ReplayFence.NeverTwice`).

## Model

| member | source | states |
|---|---|---|
| Sha256.HashFile | native/ctxlane_seqpacket.c:77-226 | for every way of cutting the bytes into reads, the digest is FIPS 180-4's of all of them below 2^61 bytes, and above that the one with the length taken modulo 2^64 |
| Sha256.Sha256Context.Init | native/ctxlane_seqpacket.c:163-170 | the state is the hash of no block and nothing has been given |
| Sha256.Sha256Context.Transform | native/ctxlane_seqpacket.c:103-161 | the in-place schedule and 64 rounds give the recursive compression function of section 6.2.2 on the old state and the block |
| Sha256.Sha256Context.Update | native/ctxlane_seqpacket.c:172-186 | any chunk extends the message by itself, block boundaries wherever they fall, with the counter modulo 2^64 |
| Sha256.Sha256Context.Final | native/ctxlane_seqpacket.c:188-208 | the one or two closing blocks end, and the bytes emitted are the digest of everything given since `Init` |
| Sha256.CounterIsExact | native/ctxlane_seqpacket.c:172-189 | below 2^64 bits the counter's digest is the standard's |
| Sha256.DigestInWords | native/ctxlane_seqpacket.c:202-207 | eight big-endian words in their places are the whole digest |
| Fips180.WordOfReadsWordBytes | native/ctxlane_seqpacket.c:202-207 | a word's four big-endian bytes read back as the word |
| Fips180.PaddingIsMinimal | native/ctxlane_seqpacket.c:188-201 | the padding is the shortest that section 5.1.1 allows, keeps the message and ends in a length that reads back |
| ByteNumbers.BigEndianByte | native/ctxlane_seqpacket.c:199-200 | each byte stored by shift and truncation is the matching base-256 digit of the length |
| ExactSets.ExactSetMeans | src/asf/checkpoint-policy.ts:1512-1521 | the one-sided test means the same values, each once, on both sides (pigeonhole) |
| DeliveryLife.NoDeliveryBeforeItsGates | src/asf/delivery-runner.ts:1167-1393 | in every life, each delivered candidate has since its creation, in order and each as the latest of its kind: an uninterrupted verification round of exactly the required checks all passed, approved local review, push, pull request, fully passed CI, approved PR review, and a passed revalidation as the entry just before; with no other candidate's event between |
| DeliverySafety.DeliveryIsGated | src/asf/delivery-runner.ts:3775-3867 | a licensed delivery entry has the whole gate behind it |
| DeliverySafety.LicensedKeeps | src/state/store.ts:9792-10330 | every licensed write keeps the store invariant: phase, candidate, checkpoint and gates agree with the log |
| DeliveryRunnerSafety.VerificationLicensed | src/asf/delivery-runner.ts:3388-3498 | whatever the checks answer, a verification stage writes only what the gates so far license |
| DeliveryRunnerSafety.LicensedWritesKeep | src/asf/delivery-runner.ts:1864-1875 | a whole plan of licensed writes keeps the invariant, wherever it is cut |
| DeliveryLife.IterateKeeps | src/asf/delivery-runner.ts:1167-1393 | one turn of the phase loop, with any answers and cut at any write, keeps the invariant |
| DeliveryGates.PassedBelow | src/asf/delivery-runner.ts:3725-4028 | a passed gate has every earlier gate still passed behind it |
| DeliveryGates.PassedIsLatest | src/asf/delivery-runner.ts:5545-5560 | the event that passed a gate is the latest of its kind, so the runner's look-ups of the latest verdict find it |
| DeliveryFixes.FixingIsBounded | src/asf/delivery-runner.ts:4030-4054 | over a whole life, restarts included, fixing starts at most 2 * maxFixIterations times |
| DeliveryFixes.BudgetIsPassedExactly | src/asf/delivery-runner.ts:4030-4054 | a life has more than maxFixIterations starts if and only if some turn starts fixing while the runtime's count is below the budget and the durable count is not |
| DeliveryFixes.FixingIsWithinBudget | src/asf/delivery-runner.ts:4495-4549 | so lives that never take the call on the durable count keep to maxFixIterations |
| DeliveryBound.FixBoundIsAttained | src/asf/delivery-runner.ts:4495-4549 | for every budget of a policy whose CI can fail there is a life with exactly 2 * maxFixIterations starts |
| DeliveryBound.OnlyFailingCiOverruns | src/asf/delivery-runner.ts:4495-4549 | where CI cannot fail, every life keeps to maxFixIterations |
| DeliveryBound.BudgetCanBePassed | src/asf/delivery-runner.ts:4030-4054 | for every budget above zero some life passes it if and only if CI can fail |
| DeliveryFixes.TurnCounts | src/asf/delivery-runner.ts:5539-5543 | a turn that starts fixing was below the budget on the count it compared, and starts it once |
| DeliveryTermination.TurnFalls | src/asf/delivery-runner.ts:1167-1393 | each turn that goes round again lowers (fixes left, stages left), stages split by checkpoint currency and CI outcome |
| DeliveryRunner.Runner.Run | src/asf/delivery-runner.ts:1167-1666 | one `run()` call claims, recovers and loops as the life's steps do, stops within 50 * maxFixIterations + 25 turns and keeps the invariant |
| DeliveryRunner.Runner.PhaseLoop | src/asf/delivery-runner.ts:1167-1393 | the `for(;;)` loop is the life's turns in order, ends, and keeps the invariant |
| DeliveryRunner.Runner.RecoverRuntime | src/asf/delivery-runner.ts:1512-1666 | recovery rebuilds the runtime the model's `Recover` names, or leaves the store alone |
| DeliveryRunner.Runner.Transition | src/asf/delivery-runner.ts:2432-2494 | one atomic event-and-checkpoint write, or a stop before it |
| DeliveryRunner.Runner.CompleteLocalVerification | src/asf/delivery-runner.ts:3388-3498 | the per-check loop writes exactly the round's events and takes the exit the outcomes name |
| DeliveryRunner.Runner.CompleteReview | src/asf/delivery-runner.ts:3558-3723 | the review's verdict is written and followed as the plan says, local and pull-request reviews alike |
| DeliveryRunner.Runner.CompleteCi | src/asf/delivery-runner.ts:4495-4549 | the CI snapshot is written and followed as the plan says |
| DeliveryRunner.Runner.StartFixing | src/asf/delivery-runner.ts:4030-4054 | fixing starts, and the runtime's count advances, only as the guard allows |
| DeliveryRunner.Runner.AfterPullRequestReview | src/asf/delivery-runner.ts:3755-4028 | revalidation and delivery after an approved review |
| DeliveryRunner.Runner.HandleError | src/asf/delivery-runner.ts:5585-5771 | every way a turn can end early writes just its interruption, block or cancellation |
| EventScan.ReadEvents | src/asf/delivery-runner.ts:5562-5583 | the paging loop ends and returns the whole log, each event once and in order, exactly where nothing was compacted and the log is within the bound; otherwise it refuses |
| EventScan.PageContinues | src/state/store.ts:10380-10466 | a page from a cursor holds exactly the rows that follow, and its cursor is the one behind them |
| EvidenceFinalizer.AssertEvents | src/asf/evidence-finalizer.ts:360-533 | the finalizer's scans in their order accept exactly the logs that replay, are chronological, and hold the candidate, verification, review, initial-CI and final-CI evidence |
| EvidenceFinalizer.AssertHistory | src/asf/evidence-finalizer.ts:687-706 | the replay loop accepts exactly the logs every entry of which is a legal, timely successor |
| EvidenceFinalizer.AssertSameValues | src/asf/evidence-finalizer.ts:135-150 | sizes and one containment decide equality of two duplicate-free value lists |
| EvidenceFinalizer.ExactEventMap | src/asf/evidence-finalizer.ts:168-186 | a map of the candidate's check ids, or nothing exactly where one is repeated |
| EvidenceFinalizer.ExactPassedCiEvidence | src/asf/evidence-finalizer.ts:188-238 | accepts exactly the snapshots of each required context once, all passed |
| DeliveryAgreement.LifeIsTimely | src/asf/delivery-runner.ts:4332-4414 | with a clock that never goes back, every entry of every life is in time for the intent and the observation it refers to |
| FinalizerAgreement.VerificationIsACount | src/asf/evidence-finalizer.ts:472-533 | behind a passed round the finalizer's set comparison is a count of results plus no older failure |
| FinalizerAgreement.FinalizerAcceptsExactly | src/asf/evidence-finalizer.ts:360-706 | of every log a timely life brings to PR_DELIVERED, the finalizer accepts exactly those with an evidence intent as late as the log and a candidate verified once |
| DeliveredLives.DeliveredAndAccepted | src/asf/evidence-finalizer.ts:360-706 | every policy that can deliver has a life that is delivered and accepted |
| DeliveredLives.RepeatedRoundIsRefused | src/asf/evidence-finalizer.ts:472-533 | with two checks or more it has one that is delivered and refused, its verification round interrupted and repeated |
| DeliveredLives.OlderIntentIsRefused | src/asf/evidence-finalizer.ts:687-706 | and one that is delivered and refused because it was resumed at an entry older than its latest |
| BranchEffects.PushFollowsNotApplied | src/asf/github-effects.ts:514-669 | in every interleaving a push begins only right after the call itself saw the ref absent or at the lease's value |
| BranchEffects.OverwritesOnlyExpected | src/asf/github-adapter.ts:185-215 | the run replaces the remote ref only where it holds the intent's expected SHA |
| BranchEffects.SuccessWasSeen | src/asf/github-effects.ts:514-669 | success is returned, and the push recorded, only for a candidate the remote was seen to hold |
| BranchEffects.ExpectedIsOwnHead | src/asf/delivery-runner.ts:5526-5537 | without foreign writers the expected SHA is always the run's own last confirmed head, and no observation is ambiguous |
| BranchEffects.BranchController.EnsureBranch | src/asf/github-effects.ts:514-570 | one call is a run of the protocol's machine and succeeds exactly when one of its own observations saw the candidate |
| PullRequestEffects.AtMostOnePullRequest | src/asf/github-effects.ts:671-835 | with one owner at a time and creates settled by the next observation, the run creates at most one pull request in its life, whatever crashes or others do |
| PullRequestEffects.UnsettledCreateDuplicates | src/asf/github-effects.ts:671-835 | without that assumption there is a run with two |
| PullRequestEffects.LaterCandidateConfirmed | src/asf/delivery-runner.ts:4136-4219 | among any other pull requests, opened and edited by anyone, that take neither its head nor its marker, every later candidate is confirmed on the run's one pull request by the first observation, without a second create |
| PullRequestEffects.ObservationIsExact | src/asf/github-effects.ts:720-835 | a readable observation is not applied exactly where nothing is visible, confirmed exactly where one pull request is exact and nothing else conflicts, and ambiguous otherwise |
| PullRequestEffects.OnlyForeignMarkersConfuse | src/asf/github-effects.ts:776-805 | among others that take neither its head nor its marker, a run's observation is ambiguous exactly while it has no pull request and another run's marker is in sight |
| PullRequestEffects.ForeignMarkerBlocksCreates | src/asf/github-adapter.ts:230-240 | while such a marker stays in sight, a run without a pull request never creates one |
| PullRequestEffects.MatchedMeansOnlyExact | src/asf/github-effects.ts:720-835 | the filters accept a pull request exactly when it is exact and nothing else conflicts |
| PullRequestEffects.PullRequestController.EnsurePullRequest | src/asf/github-effects.ts:671-719 | one call is a run of the machine and succeeds exactly when one of its observations found the one exact pull request |
| FinalDelivery.ObserveFinalDelivery | src/asf/github-effects.ts:307-512 | accepted exactly when both collects agree and show the exact pull request alone on an acceptable base, repository names compared without case |
| FinalDelivery.DoubleCollectIsASnapshot | src/asf/github-effects.ts:426-438 | for every history in which either half never recurs, what was accepted is the joint state at one instant between the reads |
| FinalDelivery.RecurrenceDefeatsTheCollect | src/asf/github-effects.ts:426-438 | where both recur, a state that never was can be accepted |
| FinalDelivery.SameProposalSameRun | src/asf/delivery-proposal.ts:55-111 | head and marker name the run, work order, attempt and target, and neither candidate nor generation |
| CanonicalJson.RejectLoneSurrogates | src/asf/canonical-json.ts:15-28 | the index loop accepts exactly the texts in which every surrogate is paired |
| JsonText.UnescapeEscape | src/asf/canonical-json.ts:30-37 | every code unit's escape is read back, whatever follows |
| JsonText.ParseOfPrint | src/asf/canonical-json.ts:55-148 | parsing a printed tree gives the tree, although numbers do not delimit themselves |
| CanonicalJson.SortForgetsOrder | src/asf/canonical-json.ts:120-142 | sorting members with distinct keys by code units forgets their order and nothing else |
| CanonicalJson.ParseOfSerialize | src/asf/canonical-json.ts:144-148 | a left inverse: parsing the output of any accepted value gives it back with its members sorted |
| CanonicalJson.EqualTextsSameValues | src/asf/canonical-json.ts:55-148 | for accepted values, equal texts if and only if equal values up to member order |
| CanonicalJson.OrderNeverMatters | src/asf/canonical-json.ts:55-148 | one value in two insertion orders is accepted alike and serialized alike |
| JsonGraph.Canonicalizer.CanonicalJson | src/asf/canonical-json.ts:55-148 | on any finite heap graph: ends, refuses exactly where a cycle or a bad node can be reached, and otherwise serializes the unfolding; shared acyclic nodes are accepted |
| JsonGraph.Canonicalizer.Canonicalize | src/asf/canonical-json.ts:82-142 | `ancestors` is restored on every exit and the outcome is explained by a value or a path |
| JsonGraph.UnfoldingHasNoCycle | src/asf/canonical-json.ts:82-95 | a node that unfolds to a value has no cycle below it |
| JsonGraph.AcceptedHasNothingBad | src/asf/canonical-json.ts:96-142 | an accepted unfolding has no refused node or leaf anywhere below |
| Utf8Base64.LossyOfUtf8 | src/asf/event-cursor.ts:18-34 | decoding UTF-8 with replacement undoes encoding of any text without lone surrogates |
| Utf8Base64.NothingReplaced | src/asf/event-cursor.ts:36-60 | where no replacement appears, the bytes were the text's own encoding |
| Utf8Base64.OnlyCanonicalReencodes | src/asf/event-cursor.ts:36-60 | re-encoding tells exactly the base64url texts that are an encoding, trailing bits included |
| EventCursor.DecodeInvertsEncode | src/asf/event-cursor.ts:18-60 | for every run id and sequence that can be encoded, decode gives the sequence back |
| EventCursor.OnlyEncodedAccepted | src/asf/event-cursor.ts:36-60 | for run ids without U+FFFD nothing outside encode's image is accepted |
| EventCursor.ReplacementHasTwoCursors | src/asf/event-cursor.ts:36-60 | for every other run id each position has a second accepted cursor |
| ProviderStream.ParseProviderResult | src/agent/trusted-harness.ts:704-856 | the public parser's loop accepts exactly the results whose stream is well placed, paired and concluded and whose digest is that of the rest |
| ProviderStream.AssertTransportResult | src/agent/trusted-harness.ts:1589-1795 | the harness's loop accepts exactly the transport results within limits whose stream matches the gateway calls made |
| ProviderResults.AcceptedTransportPublishes | src/agent/trusted-harness.ts:1313-1387 | any accepted transport result, under any final status and with its terminal event rewritten, parses if and only if a success has a complete stream and the gateway named each tool as it was asked for |
| ProviderResults.ForcedTransportResult | src/agent/trusted-harness.ts:1827-1891 | the pushed events are the opening pair per completed call and the closing pair, 2k+3 in all |
| ProviderResults.ForcedStreamAccepted | src/agent/trusted-harness.ts:1445-1450 | under a monotone clock the forced stream passes the harness's validator exactly when the calls counted are within `max_tool_calls` |
| ProviderResults.ForcedStreamPublishes | src/agent/trusted-harness.ts:1827-1891 | and what is built from it passes the public parser under any final status |
| ToolRace.OneCallAtATime | src/agent/trusted-harness.ts:1145-1213 | in every interleaving at most one gateway call runs, no request id reaches the gateway twice, and never more calls than admitted |
| ToolRace.NothingStartsAfterTheRace | src/agent/trusted-harness.ts:1215-1275 | once the race is over nothing starts or is counted any more, and once a result is built nothing is running |
| ToolRace.PublishedWithinBudget | src/agent/trusted-harness.ts:1597-1612 | every published result parses and has completed calls <= counted calls = reported calls <= `max_tool_calls` |
| ToolRace.ForcedStopIsPublished | src/agent/trusted-harness.ts:1277-1311 | in every interleaving under a monotone clock, a cancellation or deadline that reaches the checks is published if and only if the counted calls are within `max_tool_calls` |
| ToolRace.Execution.InvokeTool | src/agent/trusted-harness.ts:1145-1213 | the refusals in their order, which of them spend a call, and the hand-over |
| ToolRace.Execution.SetCompletedTool | src/agent/trusted-harness.ts:1196-1200 | an insertion-ordered map's `set`: in place where the id is present, at the end otherwise |
| ToolRace.Execution.WinRace | src/agent/trusted-harness.ts:1215-1262 | the outcome taken, the session closed, and what is pending remembered |
| ToolRace.Execution.AssembleResult | src/agent/trusted-harness.ts:1264-1284 | refusals for a pending tool or a lost fence, or the result to check |
| ToolRace.Execution.Finish | src/agent/trusted-harness.ts:1286-1388 | published exactly when both validators accept |
| ReplayFence.CoordinatesAreDistinct | src/asf/control-auth.ts:81-83 | well-formed controllers, keys and nonces share a coordinate only if they are the same |
| ReplayFence.FenceIsExact | src/asf/control-auth.ts:202-248 | over every call sequence with a monotone clock the pruned, bounded map decides each call as a verifier that never forgets, and never holds more than its maximum |
| ReplayFence.NeverTwice | src/asf/control-auth.ts:237-247 | no authentication is accepted twice: a coordinate comes again only with a later expiry and after the first expired beyond the skew |
| ReplayFence.OldEntriesAreGone | src/asf/control-auth.ts:237-239 | an entry is gone at the first prune later than lifetime + 2 * skew after its acceptance |
| ReplayFence.FreshIsAccepted | src/asf/control-auth.ts:136-151 | a signer-made envelope with a fresh nonce is accepted exactly inside its window while there is room |
| ReplayFence.HeldExactly | src/asf/control-auth.ts:237-247 | with any clock the map holds exactly the acceptances that no later call has pruned |
| ReplayFence.ReplayExactly | src/asf/control-auth.ts:237-247 | with any clock a call that passes every other check is refused as a replay if and only if its coordinate was accepted and no call since, itself included, prunes that acceptance |
| ReplayFence.SameEnvelopeAgain | src/asf/control-auth.ts:237-247 | an accepted envelope that comes again passes the replay check exactly where a call between them pruned beyond its expiry and the skew |
| ReplayFence.ClockGoingBackReplays | src/asf/control-auth.ts:237-247 | a run with a clock that goes back in which one envelope is accepted twice |
| ReplayFence.Authenticator.VerifyCall | src/asf/control-auth.ts:202-248 | verdict and remaining nonces for every call, refusals in their order |
| ReplayFence.Authenticator.PruneNonces | src/asf/control-auth.ts:237-239 | deleting while walking leaves exactly the entries not older than the bound |
| ReplayFence.CollectKeys | src/asf/control-auth.ts:171-200 | the options accepted, and each key under its own coordinate |
| CheckpointRecovery.PlanRecovery | src/asf/checkpoint-policy.ts:1528-1742 | the loop and branches give the model's plan or its first refusal |
| CheckpointRecovery.AcceptedPartitions | src/asf/checkpoint-policy.ts:1589-1641 | confirmed and not-applied effects are the required ones, each exactly once and never both |
| CheckpointRecovery.ActionMeans | src/asf/checkpoint-policy.ts:1643-1742 | a plan goes on exactly for the orchestrator with nothing not-applied; any other plan replays and skips every confirmed effect |
| CheckpointRecovery.OrderDoesNotMatter | src/asf/checkpoint-policy.ts:1589-1742 | acceptance, action and both sets are the same for every order of the observations |
| Budget.TextIsRead | src/asf/budget.ts:128-142 | every mantissa/exponent text is read as its digits and the place of the last one |
| Budget.CostIsBracketed | src/asf/budget.ts:144-169 | limit and observed micros bracket the exact cost within one micro and meet exactly at whole micros |
| Budget.RefusedOnlyAboveTheRange | src/asf/budget.ts:155-157 | refusal exactly where the micros pass the largest safe integer |
| Budget.RoundingIsMonotone | src/asf/budget.ts:161-169 | a larger cost never has fewer micros, nor a smaller one a refusal alone, however written |
| Budget.CapIsKept | src/asf/budget.ts:161-169 | for every list of costs: recorded sum within the recorded cap implies exact sum within the exact cap, and the recorded sum exceeds it needlessly only by less than a micro a piece and one |
| CiVerdict.ListCheckRuns | src/asf/github-ci-controller.ts:424-488 | the paging loop computes the specified read within 101 pages |
| CiVerdict.ListCommitStatuses | src/asf/github-ci-controller.ts:545-588 | likewise for commit statuses, which have no total |
| CiVerdict.StableCheckRunsAreRead | src/asf/github-ci-controller.ts:424-488 | a stable result set is returned whole, each row once, exactly up to 10,000 rows |
| CiVerdict.StableStatusesAreRead | src/asf/github-ci-controller.ts:545-588 | likewise for statuses |
| CiVerdict.AcceptedRunsAreDistinct | src/asf/github-ci-controller.ts:469-481 | whatever the server does, an accepted list has no row twice, keeps the bound and matches the declared total |
| CiVerdict.OnlyOneSorting | src/asf/github-ci-controller.ts:213-249 | rows with different keys have one sorting under the comparator, whatever algorithm finds it |
| CiVerdict.OutcomeMeans | src/asf/github-ci-controller.ts:221-244 | passed if and only if there are rows, all coherent, of one producer, and all at the greatest timestamp passed; likewise pending; not scheduled exactly without rows |
| CiVerdict.VerdictForgetsOrder | src/asf/github-ci-controller.ts:349-369 | a context's evidence list and outcome are the same for every order of the rows |
| CiVerdict.StableHeadVerdict | src/asf/github-ci-controller.ts:298-381 | from two stable servers to the verdict: every row of the context and no other decides it |

## Left out

- FinalizerAgreement.FinalizerAcceptsExactly: signer identities, attempt binding and the admission payload of the finalizer are not modelled, since they look at no order or time of the log.
- DeliveryLife.NoDeliveryBeforeItsGates: the store's own gate prerequisites (`src/state/store.ts:9439-9699`) are not relied on; the runner alone keeps the gates in this model.
- DeliveryRunner.Runner.Run: a log beyond the event-scan bound is a stop (`EventScan.ReadEvents`), and so are budget refusals; approval, merge and acknowledgement phases after PR_DELIVERED and the cleanup's own work are adversarial stops.
- DeliveryAgreement.LifeIsTimely: a reconciliation's cursor is taken to be any entry since which only interruptions, resumptions, cancellations and single check results were written, as the store's tests of pending intents leave it (`src/state/store.ts:6600-6635`).
- DeliverySafety.LicensedKeeps: a licence states what the runner relies on; the store's own gate prerequisites (`src/state/store.ts:9439-9699`) are not part of it.
- BranchEffects.BranchController.EnsureBranch: `reconcilePending` is no method of its own; it repeats the observation step for each pending effect and never begins one.
- FinalDelivery.ObserveFinalDelivery: validation of the request's own shape, the digests of a single read and the transport errors behind a failed one are one failed read; case is ignored for ASCII letters, which is what repository names are of.
- PullRequestEffects.AtMostOnePullRequest: assumes one fenced owner at a time and creates settled by the next observation, as the design does; `UnsettledCreateDuplicates` shows why.
- CanonicalJson.ParseOfSerialize: number rendering is an assumed injective function into the number grammar; the inverse parser takes no white space, which no output has.
- JsonGraph.Canonicalizer.CanonicalJson: prototypes, accessors, symbols and sparse arrays are one kind of refused node.
- EventCursor.DecodeInvertsEncode: how many bytes a decoder skips at malformed UTF-8 is an arbitrary positive number.
- ToolRace.OneCallAtATime: an abort before the session starts returns early and is not part of the machine; lease checks are a bit of each step.
- ToolRace.Execution.Finish: lease, fence and protected-value checks are one bit, the model result's fixed descriptors are dropped, and turns and token limits are kept.
- ReplayFence.FenceIsExact: an envelope is taken with its signature decoded and its two timestamps parsed or unparsable; the MAC is an arbitrary function.
- CheckpointRecovery.PlanRecovery: whether resume observations prove a protected resume, the checkpoint's phase and candidate binding, and its fixed policy table are single conditions without order or state; the clock is one reading.
- Budget.TextIsRead: texts are those of `Number.prototype.toString`; other spellings that JavaScript's `Number` would read as an exponent are refused.
- CiVerdict.OutcomeMeans: the row normalisers are single conditions; a row is given as normalised or refused, with its timestamp as an instant.
- CiVerdict.OnlyOneSorting: the locale order of contexts is an arbitrary ranking with ties, and of timestamps and sources the order of their canonical texts.
- Sockets, subprocesses, Octokit requests, key files, sandboxes and clocks are parameters or steps.
- Conversion of micros back to dollars: floating-point division that is not exact for large values.
- Approval, outcome and cancellation parsing, health aggregation, control error texts and telemetry are single conditions or wiring.
