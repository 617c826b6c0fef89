/**
 The steps of the delivery runner as functions of the durable store, the runtime state and
 an adversarial answer. A call may be cut short after any of its store writes.
 */
module DeliverySteps {
  import opened ExactSets
  import opened Options
  import opened DeliveryLog

  datatype Policy = Policy(
    localChecks: seq<Name>,
    remoteContexts: seq<Name>,
    maxFixIterations: nat,
    baseSha: Sha)

  /** What a `run()` call carries between phases. */
  datatype Runtime = Runtime(
    latest: Checkpoint,
    fixIterations: nat,
    freshLocalReview: bool,
    freshPrReview: bool)

  datatype World = World(store: Store, runtime: Runtime)

  /** How a step leaves the phase loop. `Rethrow` writes nothing; the stops go through `#handleError`. */
  datatype Exit = Continue | Return | Rethrow | Stop(phase: Phase)

  /** What becomes of a terminal stop: cleanup succeeds, blocks, or leaves a retry pending. */
  datatype Disposal = Terminated | CleanupBlocked | CleanupPending

  /**
   Everything the outside world decides in one loop iteration. When `broken` is present
   the iteration performs only its first `cut` writes and leaves by that exit, which stands
   for a crash, an abort, a lost fence, a spent budget, or any refused observation.
   */
  datatype Answer = Answer(
    cut: nat,
    broken: Option<Exit>,
    disposal: Disposal,
    now: Time,
    clock: nat -> Time,
    candidateSha: Sha,
    parentSha: Sha,
    checks: seq<CheckResult>,
    verdict: Verdict,
    pullRequestNumber: nat,
    ciChecks: seq<CiCheck>,
    ciObservedAt: Time,
    finalObservedAt: Time)

  /** The writes a stage intends, the runtime it leaves, and how it ends. */
  datatype Plan = Plan(writes: seq<Write>, runtime: Runtime, exit: Exit)

  function Perform(w: World, write: Write, at: Time): World
    requires |w.store.log| > 0
  {
    var store := Apply(w.store, write, at);
    var written := write.Mark? || write.kind.Some?;
    World(store, if written then w.runtime.(latest := store.checkpoint.value) else w.runtime)
  }

  function PerformAll(w: World, writes: seq<Write>, clock: nat -> Time): (after: World)
    requires |w.store.log| > 0
    ensures |after.store.log| > 0
  {
    if |writes| == 0 then w
    else Perform(PerformAll(w, writes[..|writes| - 1], clock), writes[|writes| - 1], clock(|writes| - 1))
  }

  // ---------------------------------------------------------------- guards

  /** `#checkpointIsCurrent`. */
  predicate CheckpointIsCurrent(w: World, kind: CheckpointKind) {
    && w.runtime.latest.kind == kind
    && w.runtime.latest.eventIndex == |w.store.log| - 1
    && w.runtime.latest.phase == w.store.phase
    && w.runtime.latest.candidate == w.store.candidate
  }

  /** `#requirePriorCheckpoint`. */
  predicate PriorCheckpoint(w: World, kind: CheckpointKind) {
    w.runtime.latest.kind == kind && w.runtime.latest.candidate == w.store.candidate
  }

  /** `refuse(...)` throws a QUARANTINED stop. */
  function Refuse(w: World): Plan {
    Plan([], w.runtime, Stop(Quarantined))
  }

  /** One event, with its checkpoint when it has one. */
  function OneWrite(w: World, event: Event, to: Phase, kind: Option<CheckpointKind>): Plan {
    Plan([Append(event, to, kind)], w.runtime, Continue)
  }

  /**
   `#startFixing` after the writes of its caller. `count` is what the guard compares with the
   budget; `advance` says whether the caller passed its runtime, whose counter then moves.
   */
  function StartFixing(writes: seq<Write>, runtime: Runtime, policy: Policy, c: Sha,
                       count: nat, advance: bool): Plan
  {
    if count >= policy.maxFixIterations then Plan(writes, runtime, Stop(BudgetExhausted))
    else Plan(
      writes + [Append(FixingStarted(c, count + 1), Fixing, None)],
      if advance then runtime.(fixIterations := count + 1) else runtime,
      Continue)
  }

  // ---------------------------------------------------------------- candidate

  function CandidatePlan(w: World, policy: Policy, a: Answer): Plan {
    if w.store.phase == Fixing && w.store.candidate.None? then Refuse(w)
    else
      var starting := if w.store.phase == Fixing then w.store.candidate.value else policy.baseSha;
      if a.parentSha != starting || a.candidateSha == starting then Refuse(w)
      else OneWrite(w, CandidateCreated(a.candidateSha, a.parentSha), CandidateReady,
                    Some(CandidateCommitCreation))
  }

  // ---------------------------------------------------------------- local verification

  /** One event per check; the last one carries the checkpoint when every check passed. */
  function CheckWrites(c: Sha, checks: seq<CheckResult>, passed: bool): (writes: seq<Write>)
    ensures |writes| == |checks|
  {
    seq(|checks|, i requires 0 <= i < |checks| =>
      Append(VerificationCompleted(c, checks[i]), LocalVerify,
             if passed && i == |checks| - 1 then Some(LocalVerificationPass) else None))
  }

  predicate SomeCheck(checks: seq<CheckResult>, outcome: CheckOutcome) {
    exists i :: 0 <= i < |checks| && checks[i].outcome == outcome
  }

  function CompleteLocalVerification(w: World, policy: Policy, a: Answer, c: Sha, opening: seq<Write>): Plan {
    if !ExactSet(CheckIds(a.checks), policy.localChecks) then
      Plan(opening, w.runtime, Stop(Quarantined))
    else
      var writes := opening + CheckWrites(c, a.checks, AllPassed(a.checks));
      if SomeCheck(a.checks, CheckBlocked) then Plan(writes, w.runtime, Stop(BlockedExternal))
      else if SomeCheck(a.checks, CheckFailed) then
        StartFixing(writes, w.runtime, policy, c, w.runtime.fixIterations, true)
      else if |a.checks| == 0 then Plan(writes + [Mark(LocalVerificationPass)], w.runtime, Continue)
      else Plan(writes, w.runtime, Continue)
  }

  // ---------------------------------------------------------------- reviews

  function CompleteReview(w: World, a: Answer, c: Sha, opening: seq<Write>, local: bool): Plan {
    var completed :=
      if local then Append(ReviewCompleted(c, a.verdict), LocalReview, Some(LocalReviewFixerIteration))
      else Append(PrReviewCompleted(c, a.verdict), PrReview, Some(PrReviewFixerIteration));
    Plan(opening + [completed],
         if local then w.runtime.(freshLocalReview := false) else w.runtime.(freshPrReview := false),
         if a.verdict == ReviewBlocked then Stop(BlockedExternal) else Continue)
  }

  function LatestVerdict(log: seq<Entry>, c: Sha): (verdict: Option<Verdict>) {
    var index := Latest(log, (e: Entry) => e.event.ReviewCompleted? && e.event.sha == c);
    if index.None? then None else Some(log[index.value].event.verdict)
  }

  function LatestPrReview(log: seq<Entry>, c: Sha): (index: Option<nat>)
    ensures index.Some? ==> index.value < |log| && log[index.value].event.PrReviewCompleted?
                            && log[index.value].event.sha == c
  {
    Latest(log, (e: Entry) => e.event.PrReviewCompleted? && e.event.sha == c)
  }

  function AfterLocalReview(w: World, policy: Policy, c: Sha): Plan {
    var verdict := LatestVerdict(w.store.log, c);
    if verdict == Some(ChangesRequested) then
      StartFixing([], w.runtime, policy, c, w.runtime.fixIterations, true)
    else if verdict != Some(Approved) then Refuse(w)
    else OneWrite(w, DeliveryReadied(c), DeliveryReady, None)
  }

  // ---------------------------------------------------------------- continuous integration

  function LatestCi(log: seq<Entry>, c: Sha): (index: Option<nat>)
    ensures index.Some? ==>
      && index.value < |log|
      && (log[index.value].event.CiCompleted? || log[index.value].event.CiRecheckCompleted?)
      && log[index.value].event.sha == c
  {
    Latest(log, (e: Entry) => (e.event.CiCompleted? || e.event.CiRecheckCompleted?) && e.event.sha == c)
  }

  function LatestPullRequest(log: seq<Entry>, c: Sha): (number: Option<nat>) {
    var index := Latest(log, (e: Entry) => e.event.PullRequestOpened? && e.event.sha == c);
    if index.None? then None else Some(log[index.value].event.number)
  }

  /** `#currentCiOutcome`; None is a refusal. */
  function CurrentCiOutcome(log: seq<Entry>, policy: Policy, c: Sha): Option<CiOutcome> {
    var index := LatestCi(log, c);
    if index.None? then None
    else
      var entry := log[index.value];
      var event := entry.event;
      var review := LatestPrReview(log, c);
      if !ExactSet(Contexts(event.checks), policy.remoteContexts) then None
      else if DerivedOutcome(event.checks) != event.outcome then None
      else if event.CiRecheckCompleted?
              && (|| review.None? || LatestPullRequest(log, c).None?
                  || event.observedAt < log[review.value].at || event.observedAt > entry.at) then None
      else Some(event.outcome)
  }

  /** Whether `#observeExactHeadCi` accepts the answer's observation. */
  predicate CiObservationAccepted(w: World, policy: Policy, a: Answer, c: Sha)
    requires |w.store.log| > 0
  {
    && LatestPullRequest(w.store.log, c).Some?
    && w.store.log[IntentIndex(w.store.log)].at <= a.ciObservedAt <= a.now
    && ExactSet(Contexts(a.ciChecks), policy.remoteContexts)
  }

  function CompleteCi(w: World, policy: Policy, a: Answer, c: Sha): Plan
    requires |w.store.log| > 0
  {
    if !CiObservationAccepted(w, policy, a, c) then Refuse(w)
    else
      var outcome := DerivedOutcome(a.ciChecks);
      var writes := [Append(CiCompleted(c, outcome, a.ciChecks, a.ciObservedAt), CiWait,
                            Some(CiReconciliationSnapshot))];
      match outcome
      case CiFailed => StartFixing(writes, w.runtime, policy, c, CountFixes(w.store.log), false)
      case CiPassed => Plan(writes, w.runtime, Continue)
      case _ => Plan(writes, w.runtime, Rethrow)
  }

  /** `#durableFinalCiSnapshot` on the log's last entry, a `ci.revalidated`. */
  predicate DurableFinalCi(log: seq<Entry>, policy: Policy, c: Sha, review: nat)
    requires review < |log| && log[|log| - 1].event.CiRevalidated?
  {
    var tail := log[|log| - 1];
    && tail.phase == PrReview
    && tail.event.sha == c
    && tail.event.outcome == CiPassed
    && log[review].at <= tail.event.observedAt <= tail.at
    && (forall i :: 0 <= i < |tail.event.checks| ==> tail.event.checks[i].outcome == CiPassed)
    && ExactSet(Contexts(tail.event.checks), policy.remoteContexts)
  }

  /** The observation `#afterPullRequestReview` makes while no revalidation is the latest event. */
  function Revalidate(w: World, policy: Policy, a: Answer, c: Sha): Plan
    requires |w.store.log| > 0
  {
    if !CiObservationAccepted(w, policy, a, c) then Refuse(w)
    else
      var outcome := DerivedOutcome(a.ciChecks);
      if outcome == CiPassed then
        OneWrite(w, CiRevalidated(c, outcome, a.ciChecks, a.ciObservedAt), PrReview, Some(PrReviewFixerIteration))
      else
        Plan([Append(CiRecheckCompleted(c, outcome, a.ciChecks, a.ciObservedAt), CiWait,
                     Some(CiReconciliationSnapshot))],
             w.runtime,
             if outcome == CiFailed then Continue else Rethrow)
  }

  /** The final observation and the delivery event, once the revalidation is durable. */
  function Deliver(w: World, policy: Policy, a: Answer, c: Sha, review: nat): Plan
    requires review < |w.store.log| && w.store.log[|w.store.log| - 1].event.CiRevalidated?
  {
    var log := w.store.log;
    var tail := log[|log| - 1];
    var number := LatestPullRequest(log, c);
    if !DurableFinalCi(log, policy, c, review) || number.None? then Refuse(w)
    else if || a.finalObservedAt < log[review].at
            || a.finalObservedAt < tail.event.observedAt
            || a.finalObservedAt < tail.at
            || a.finalObservedAt > a.now then Refuse(w)
    else OneWrite(w,
      PullRequestDelivered(c, number.value, a.finalObservedAt, tail.event.checks, tail.event.observedAt),
      PrDelivered, Some(PrReviewFixerIteration))
  }

  function AfterPullRequestReview(w: World, policy: Policy, a: Answer, c: Sha): Plan
    requires |w.store.log| > 0
  {
    var log := w.store.log;
    var review := LatestPrReview(log, c);
    if review.None? then Refuse(w)
    else
      var verdict := log[review.value].event.verdict;
      if verdict == ChangesRequested then StartFixing([], w.runtime, policy, c, w.runtime.fixIterations, true)
      else if verdict != Approved then Refuse(w)
      else if log[|log| - 1].event.CiRevalidated? then Deliver(w, policy, a, c, review.value)
      else Revalidate(w, policy, a, c)
  }

  // ---------------------------------------------------------------- the phase switch

  function LocalVerifyPlan(w: World, policy: Policy, a: Answer, c: Sha): Plan {
    if !CheckpointIsCurrent(w, LocalVerificationPass) then CompleteLocalVerification(w, policy, a, c, [])
    else CompleteReview(w, a, c, [Append(ReviewStarted(c), LocalReview, None)], true)
  }

  function LocalReviewPlan(w: World, policy: Policy, a: Answer, c: Sha): Plan {
    if w.runtime.freshLocalReview || !CheckpointIsCurrent(w, LocalReviewFixerIteration) then
      CompleteReview(w, a, c, [], true)
    else AfterLocalReview(w, policy, c)
  }

  function CiWaitPlan(w: World, policy: Policy, a: Answer, c: Sha): Plan
    requires |w.store.log| > 0
  {
    if !CheckpointIsCurrent(w, CiReconciliationSnapshot) then CompleteCi(w, policy, a, c)
    else
      match CurrentCiOutcome(w.store.log, policy, c)
      case None => Refuse(w)
      case Some(CiFailed) => StartFixing([], w.runtime, policy, c, w.runtime.fixIterations, true)
      case Some(CiPassed) => CompleteReview(w, a, c, [Append(PrReviewStarted(c), PrReview, None)], false)
      case Some(_) => CompleteCi(w, policy, a, c)
  }

  function PrReviewPlan(w: World, policy: Policy, a: Answer, c: Sha): Plan
    requires |w.store.log| > 0
  {
    if w.runtime.freshPrReview || !CheckpointIsCurrent(w, PrReviewFixerIteration) then
      CompleteReview(w, a, c, [], false)
    else AfterPullRequestReview(w, policy, a, c)
  }

  /** A stage that requires its predecessor's checkpoint and writes one event. */
  function AfterCheckpoint(w: World, prior: CheckpointKind, event: Event, to: Phase, kind: CheckpointKind): Plan {
    if !PriorCheckpoint(w, prior) then Refuse(w) else OneWrite(w, event, to, Some(kind))
  }

  function CandidateStage(w: World, policy: Policy, a: Answer, c: Sha): Plan
    requires |w.store.log| > 0
  {
    match w.store.phase
    case CandidateReady =>
      if !PriorCheckpoint(w, CandidateCommitCreation) then Refuse(w)
      else CompleteLocalVerification(w, policy, a, c, [Append(VerificationStarted(c), LocalVerify, None)])
    case LocalVerify => LocalVerifyPlan(w, policy, a, c)
    case LocalReview => LocalReviewPlan(w, policy, a, c)
    case DeliveryReady =>
      AfterCheckpoint(w, LocalReviewFixerIteration, BranchPushed(c), Pushed, BranchPushIntentObservation)
    case Pushed =>
      AfterCheckpoint(w, BranchPushIntentObservation, PullRequestOpened(c, a.pullRequestNumber), PrOpen,
                      PullRequestIntentObservation)
    case PrOpen => OneWrite(w, CiWaiting(c), CiWait, None)
    case CiWait => CiWaitPlan(w, policy, a, c)
    case PrReview => PrReviewPlan(w, policy, a, c)
    case PrDelivered =>
      AfterCheckpoint(w, PrReviewFixerIteration, EvidenceWasFinalized(c), EvidenceFinalized,
                      EvidenceFinalizationAcknowledgement)
    case EvidenceFinalized =>
      AfterCheckpoint(w, EvidenceFinalizationAcknowledgement, RunCompleted(c), Completed,
                      LeaseReleaseWorkspaceCleanup)
    case _ => Refuse(w)
  }

  function StagePlan(w: World, policy: Policy, a: Answer): Plan
    requires |w.store.log| > 0
  {
    match w.store.phase
    case Admitted =>
      OneWrite(w, RepositoryLeaseAcquired, RepositoryLeased, Some(RepositoryLeaseAcquisition))
    case RepositoryLeased =>
      OneWrite(w, IdentityLeasesAcquired, IdentityReady, Some(IdentityLeaseAcquisition))
    case IdentityReady => OneWrite(w, WorkspacePrepared, WorkspaceReady, Some(WorkspaceSandboxProof))
    case WorkspaceReady => OneWrite(w, TaskPacketCreated, TaskPacketReady, Some(TaskPacketCreation))
    case TaskPacketReady => OneWrite(w, ImplementationStarted, Implementing, Some(ImplementerSessionMarker))
    case Implementing | Fixing => CandidatePlan(w, policy, a)
    case CancelRequested =>
      Plan([Append(CancellationStarted(w.store.candidate), Cancelling, None),
            Append(RunCancelled(w.store.candidate), Cancelled, Some(LeaseReleaseWorkspaceCleanup))],
           w.runtime, Return)
    case Cancelling =>
      Plan([Append(RunCancelled(w.store.candidate), Cancelled, Some(LeaseReleaseWorkspaceCleanup))],
           w.runtime, Return)
    case WaitingApproval | NeedsSpec | BlockedExternal => Plan([], w.runtime, Return)
    case Completed | Cancelled | Failed | Refused | Quarantined | BudgetExhausted => Plan([], w.runtime, Return)
    case Received => Refuse(w)
    case _ => if w.store.candidate.None? then Refuse(w) else CandidateStage(w, policy, a, w.store.candidate.value)
  }

  /** `#handleError`: the event a stop leaves behind, unless the store refuses the transition. */
  function StopWrites(store: Store, exit: Exit, disposal: Disposal): seq<Write> {
    if !exit.Stop? then []
    else if Paused(exit.phase) || (DirectStop(exit.phase) && disposal.CleanupBlocked?) then
      var to := if Paused(exit.phase) then exit.phase else BlockedExternal;
      if PhaseTransition(store.phase, to) then [Append(RunInterrupted(store.candidate), to, None)] else []
    else if DirectStop(exit.phase) && disposal.Terminated? && PhaseTransition(store.phase, exit.phase) then
      [Append(RunStopped(store.candidate), exit.phase, Some(LeaseReleaseWorkspaceCleanup))]
    else []
  }

  /** The clock readings from the k-th on. */
  function Later(clock: nat -> Time, k: nat): nat -> Time {
    (i: nat) => clock(k + i)
  }

  /** The world after one turn of the phase loop, and whether the loop goes round again. */
  datatype Turn = Turn(world: World, again: bool)

  function Leave(w: World, exit: Exit, a: Answer, used: nat): World
    requires |w.store.log| > 0
  {
    PerformAll(w, StopWrites(w.store, exit, a.disposal), Later(a.clock, used))
  }

  function Complete(w: World, plan: Plan, a: Answer): Turn
    requires |w.store.log| > 0
  {
    var done := PerformAll(w, plan.writes, a.clock);
    var kept := World(done.store, plan.runtime.(latest := done.runtime.latest));
    Turn(Leave(kept, plan.exit, a, |plan.writes|), plan.exit.Continue?)
  }

  function CutShort(w: World, plan: Plan, a: Answer, exit: Exit): Turn
    requires |w.store.log| > 0
  {
    var k := if a.cut <= |plan.writes| then a.cut else |plan.writes|;
    Turn(Leave(PerformAll(w, plan.writes[..k], a.clock), exit, a, k), false)
  }

  function Iterate(w: World, policy: Policy, a: Answer): Turn
    requires |w.store.log| > 0
  {
    var plan := StagePlan(w, policy, a);
    if a.broken.Some? then CutShort(w, plan, a, a.broken.value) else Complete(w, plan, a)
  }
}
