/**
 Every call of `run()` stops: a lexicographic measure of the fixes left and of the phase, the
 latter split by checkpoint currency and CI outcome, falls with every turn of the loop.
 */
module DeliveryTermination {
  import opened ExactSets
  import opened Options
  import opened DeliveryLog
  import opened DeliverySteps
  import opened DeliveryGates
  import opened DeliverySafety
  import opened DeliveryRunnerSafety
  import opened DeliveryLife
  import opened DeliveryFixes

  function Left(used: nat, max: nat): nat {
    if used < max then max - used else 0
  }

  /** Fixes the two guards of `#startFixing` still allow. */
  function FixesLeft(w: World, policy: Policy): nat {
    Left(w.runtime.fixIterations, policy.maxFixIterations) + Left(CountFixes(w.store.log), policy.maxFixIterations)
  }

  /** Turns of the loop still ahead, at most, without another fix. */
  function StagesLeft(w: World, policy: Policy): nat
    requires |w.store.log| > 0
  {
    match w.store.phase
    case Admitted => 24
    case RepositoryLeased => 23
    case IdentityReady => 22
    case WorkspaceReady => 21
    case TaskPacketReady => 20
    case Implementing => 19
    case Fixing => 18
    case CandidateReady => 17
    case LocalVerify => if CheckpointIsCurrent(w, LocalVerificationPass) then 15 else 16
    case LocalReview =>
      if w.runtime.freshLocalReview || !CheckpointIsCurrent(w, LocalReviewFixerIteration) then 14 else 13
    case DeliveryReady => 12
    case Pushed => 11
    case PrOpen => 10
    case CiWait =>
      if !CheckpointIsCurrent(w, CiReconciliationSnapshot) || w.store.candidate.None? then 9
      else
        var outcome := CurrentCiOutcome(w.store.log, policy, w.store.candidate.value);
        if outcome == Some(CiPassed) then 8
        else if outcome == Some(CiPending) || outcome == Some(CiNotScheduled) then 9
        else 3
    case PrReview =>
      if w.runtime.freshPrReview || !CheckpointIsCurrent(w, PrReviewFixerIteration) then 7
      else if w.store.log[|w.store.log| - 1].event.CiRevalidated? then 5 else 6
    case PrDelivered => 2
    case EvidenceFinalized => 1
    case _ => 0
  }

  function After(w: World, plan: Plan, clock: nat -> Time): (after: World)
    requires |w.store.log| > 0
    ensures |after.store.log| > 0
  {
    var done := PerformAll(w, plan.writes, clock);
    World(done.store, plan.runtime.(latest := done.runtime.latest))
  }

  lemma AgainMeansAfter(w: World, policy: Policy, a: Answer)
    requires |w.store.log| > 0 && Iterate(w, policy, a).again
    ensures StagePlan(w, policy, a).exit.Continue?
    ensures Iterate(w, policy, a).world == After(w, StagePlan(w, policy, a), a.clock)
  {
    hide StagePlan, PerformAll, Leave;
    var plan := StagePlan(w, policy, a);
    LeaveContinues(After(w, plan, a.clock), a, |plan.writes|);
  }

  // ---------------------------------------------------------------- what a stage leaves behind

  /** After a stage whose last write is an event with its checkpoint, that checkpoint is current. */
  lemma EndsWithCheckpoint(w: World, plan: Plan, writes: seq<Write>, event: Event, to: Phase, kind: CheckpointKind,
                           clock: nat -> Time)
    requires |w.store.log| > 0
    requires plan.writes == writes + [Append(event, to, Some(kind))]
    ensures var after := After(w, plan, clock);
            && after.store.phase == to
            && CheckpointIsCurrent(after, kind)
            && after.store.log[|after.store.log| - 1].event == event
            && (event.CandidateCreated? || after.store.candidate == PerformAll(w, writes, clock).store.candidate)
            && after.runtime.freshLocalReview == plan.runtime.freshLocalReview
            && after.runtime.freshPrReview == plan.runtime.freshPrReview
  {
  }

  lemma OneWriteEnds(w: World, event: Event, to: Phase, kind: CheckpointKind, clock: nat -> Time)
    requires |w.store.log| > 0
    ensures var after := After(w, OneWrite(w, event, to, Some(kind)), clock);
            && after.store.phase == to
            && CheckpointIsCurrent(after, kind)
            && after.store.log[|after.store.log| - 1].event == event
            && (event.CandidateCreated? || after.store.candidate == w.store.candidate)
  {
    assert [] + [Append(event, to, Some(kind))] == [Append(event, to, Some(kind))];
    EndsWithCheckpoint(w, OneWrite(w, event, to, Some(kind)), [], event, to, kind, clock);
  }

  lemma {:induction false} ChecksKeepCandidate(w: World, c: Sha, checks: seq<CheckResult>, passed: bool,
                                               j: nat, clock: nat -> Time)
    requires |w.store.log| > 0 && j <= |checks|
    ensures var after := PerformAll(w, CheckWrites(c, checks, passed)[..j], clock).store;
            && after.candidate == w.store.candidate
            && (w.store.phase == LocalVerify ==> after.phase == LocalVerify)
  {
    var writes := CheckWrites(c, checks, passed);
    if j > 0 {
      ChecksKeepCandidate(w, c, checks, passed, j - 1, clock);
      assert writes[..j][..j - 1] == writes[..j - 1];
    }
  }

  /** A verification that goes on without a fix leaves LOCAL_VERIFY with a current pass. */
  lemma VerificationEnds(w: World, policy: Policy, a: Answer, c: Sha, opening: seq<Write>)
    requires |w.store.log| > 0
    requires PerformAll(w, opening, a.clock).store.phase == LocalVerify
    requires var plan := CompleteLocalVerification(w, policy, a, c, opening);
             plan.exit.Continue? && Fixes(plan.writes) == 0
    ensures var after := After(w, CompleteLocalVerification(w, policy, a, c, opening), a.clock);
            after.store.phase == LocalVerify && CheckpointIsCurrent(after, LocalVerificationPass)
  {
    hide ExactSet, PerformAll, Fixes;
    var plan := CompleteLocalVerification(w, policy, a, c, opening);
    var n := |a.checks|;
    var round := CheckWrites(c, a.checks, AllPassed(a.checks));
    NoFixWasStarted(w, policy, a, c, opening);
    assert plan.writes == if n == 0 then opening + round + [Mark(LocalVerificationPass)] else opening + round;
    if n == 0 {
      assert opening + round == opening;
      PerformOneMore(w, opening, Mark(LocalVerificationPass), a.clock);
    } else {
      CheckOutcomes(a.checks);
      assert opening + round == (opening + round[..n - 1]) + [round[n - 1]];
      EndsWithCheckpoint(w, plan, opening + round[..n - 1], VerificationCompleted(c, a.checks[n - 1]), LocalVerify,
                         LocalVerificationPass, a.clock);
    }
  }

  lemma CheckOutcomes(checks: seq<CheckResult>)
    ensures SomeCheck(checks, CheckBlocked) || SomeCheck(checks, CheckFailed) || AllPassed(checks)
  {
  }

  lemma NoFixWasStarted(w: World, policy: Policy, a: Answer, c: Sha, opening: seq<Write>)
    requires var plan := CompleteLocalVerification(w, policy, a, c, opening);
             plan.exit.Continue? && Fixes(plan.writes) == 0
    ensures ExactSet(CheckIds(a.checks), policy.localChecks)
    ensures !SomeCheck(a.checks, CheckBlocked) && !SomeCheck(a.checks, CheckFailed)
  {
  }

  lemma CompletedCiReads(w: World, policy: Policy, a: Answer, c: Sha)
    requires |w.store.log| > 0 && CiObservationAccepted(w, policy, a, c)
    requires w.store.candidate == Some(c)
    requires DerivedOutcome(a.ciChecks) == CiPassed
    ensures var after := After(w, CompleteCi(w, policy, a, c), a.clock);
            && after.store.phase == CiWait && CheckpointIsCurrent(after, CiReconciliationSnapshot)
            && after.store.candidate == Some(c)
            && CurrentCiOutcome(after.store.log, policy, c) == Some(CiPassed)
  {
    hide ExactSet, DerivedOutcome, LatestPullRequest, LatestPrReview;
    OneWriteEnds(w, CiCompleted(c, CiPassed, a.ciChecks, a.ciObservedAt), CiWait, CiReconciliationSnapshot, a.clock);
  }

  /** A failed recheck steps back to CI_WAIT, where the next turn can only fix or stop. */
  lemma FailedRecheckReads(w: World, policy: Policy, a: Answer, c: Sha)
    requires |w.store.log| > 0 && CiObservationAccepted(w, policy, a, c)
    requires w.store.candidate == Some(c)
    requires DerivedOutcome(a.ciChecks) == CiFailed
    ensures var after := After(w, Revalidate(w, policy, a, c), a.clock);
            && after.store.phase == CiWait && CheckpointIsCurrent(after, CiReconciliationSnapshot)
            && after.store.candidate == Some(c)
            && (CurrentCiOutcome(after.store.log, policy, c) == Some(CiFailed)
                || CurrentCiOutcome(after.store.log, policy, c) == None)
  {
    hide ExactSet, DerivedOutcome, LatestPullRequest, LatestPrReview;
    OneWriteEnds(w, CiRecheckCompleted(c, CiFailed, a.ciChecks, a.ciObservedAt), CiWait, CiReconciliationSnapshot,
                 a.clock);
  }

  // ---------------------------------------------------------------- the measure falls

  /** A turn that goes on without a fix moves to an earlier point of the measure. */
  ghost predicate Falls(w: World, plan: Plan, policy: Policy, clock: nat -> Time)
    requires |w.store.log| > 0
  {
    plan.exit.Continue? && Fixes(plan.writes) == 0 ==>
      StagesLeft(After(w, plan, clock), policy) < StagesLeft(w, policy)
  }

  lemma FixCounted(writes: seq<Write>, c: Sha, iteration: nat)
    ensures Fixes(writes + [Append(FixingStarted(c, iteration), Fixing, None)]) > 0
  {
  }

  lemma LocalVerifyFalls(w: World, policy: Policy, a: Answer, c: Sha)
    requires |w.store.log| > 0 && w.store.phase == LocalVerify && w.store.candidate == Some(c)
    ensures Falls(w, LocalVerifyPlan(w, policy, a, c), policy, a.clock)
  {
    hide PerformAll, CompleteLocalVerification, After, Fixes;
    var plan := LocalVerifyPlan(w, policy, a, c);
    if plan.exit.Continue? && Fixes(plan.writes) == 0 {
      if CheckpointIsCurrent(w, LocalVerificationPass) {
        EndsWithCheckpoint(w, plan, [Append(ReviewStarted(c), LocalReview, None)], ReviewCompleted(c, a.verdict),
                           LocalReview, LocalReviewFixerIteration, a.clock);
      } else {
        PerformNothing(w, a.clock);
        VerificationEnds(w, policy, a, c, []);
      }
    }
  }

  lemma PerformNothing(w: World, clock: nat -> Time)
    requires |w.store.log| > 0
    ensures PerformAll(w, [], clock) == w
  {
  }

  lemma FirstVerificationFalls(w: World, policy: Policy, a: Answer, c: Sha)
    requires |w.store.log| > 0 && w.store.phase == CandidateReady && w.store.candidate == Some(c)
    ensures Falls(w, CompleteLocalVerification(w, policy, a, c, [Append(VerificationStarted(c), LocalVerify, None)]),
                  policy, a.clock)
  {
    hide CompleteLocalVerification, After, Fixes;
    var opening := [Append(VerificationStarted(c), LocalVerify, None)];
    var plan := CompleteLocalVerification(w, policy, a, c, opening);
    if plan.exit.Continue? && Fixes(plan.writes) == 0 {
      PerformOne(w, opening[0], a.clock);
      VerificationEnds(w, policy, a, c, opening);
    }
  }

  lemma LocalReviewFalls(w: World, policy: Policy, a: Answer, c: Sha)
    requires |w.store.log| > 0 && w.store.phase == LocalReview && w.store.candidate == Some(c)
    ensures Falls(w, LocalReviewPlan(w, policy, a, c), policy, a.clock)
  {
  }

  lemma CiWaitFalls(w: World, policy: Policy, a: Answer, c: Sha)
    requires |w.store.log| > 0 && w.store.phase == CiWait && w.store.candidate == Some(c)
    ensures Falls(w, CiWaitPlan(w, policy, a, c), policy, a.clock)
  {
    hide PerformAll, CurrentCiOutcome, After, Fixes, CiObservationAccepted, DerivedOutcome;
    var plan := CiWaitPlan(w, policy, a, c);
    if plan.exit.Continue? && Fixes(plan.writes) == 0 {
      var current := CheckpointIsCurrent(w, CiReconciliationSnapshot);
      var outcome := CurrentCiOutcome(w.store.log, policy, c);
      FixCounted([], c, w.runtime.fixIterations + 1);
      if current && outcome == Some(CiPassed) {
        EndsWithCheckpoint(w, plan, [Append(PrReviewStarted(c), PrReview, None)], PrReviewCompleted(c, a.verdict),
                           PrReview, PrReviewFixerIteration, a.clock);
      } else if !(current && outcome == Some(CiFailed)) {
        assert plan == CompleteCi(w, policy, a, c);
        var write := Append(CiCompleted(c, CiFailed, a.ciChecks, a.ciObservedAt), CiWait,
                            Some(CiReconciliationSnapshot));
        FixCounted([write], c, CountFixes(w.store.log) + 1);
        assert DerivedOutcome(a.ciChecks) == CiPassed;
        CompletedCiReads(w, policy, a, c);
      }
    }
  }

  lemma PrReviewFalls(w: World, policy: Policy, a: Answer, c: Sha)
    requires WorldInv(w, policy) && w.store.phase == PrReview && w.store.candidate == Some(c)
    ensures |w.store.log| > 0 && Falls(w, PrReviewPlan(w, policy, a, c), policy, a.clock)
  {
    hide PerformAll, StoreInv, After, Fixes, CiObservationAccepted, DerivedOutcome, LatestPrReview, DurableFinalCi,
         LatestPullRequest, CurrentCiOutcome;
    InvHasLog(w.store, policy);
    var plan := PrReviewPlan(w, policy, a, c);
    if plan.exit.Continue? && Fixes(plan.writes) == 0 {
      if w.runtime.freshPrReview || !CheckpointIsCurrent(w, PrReviewFixerIteration) {
        EndsWithCheckpoint(w, plan, [], PrReviewCompleted(c, a.verdict), PrReview, PrReviewFixerIteration, a.clock);
      } else {
        FixCounted([], c, w.runtime.fixIterations + 1);
        AfterPrReviewFalls(w, policy, a, c);
      }
    }
  }

  lemma AfterPrReviewFalls(w: World, policy: Policy, a: Answer, c: Sha)
    requires |w.store.log| > 0 && w.store.phase == PrReview && w.store.candidate == Some(c)
    requires CheckpointIsCurrent(w, PrReviewFixerIteration) && !w.runtime.freshPrReview
    requires var plan := AfterPullRequestReview(w, policy, a, c);
             plan.exit.Continue? && Fixes(plan.writes) == 0
    ensures StagesLeft(After(w, AfterPullRequestReview(w, policy, a, c), a.clock), policy) < StagesLeft(w, policy)
  {
    hide PerformAll, After, Fixes, CiObservationAccepted, DerivedOutcome, LatestPrReview, DurableFinalCi,
         LatestPullRequest, CurrentCiOutcome, Revalidate;
    FixCounted([], c, w.runtime.fixIterations + 1);
    var log := w.store.log;
    if log[|log| - 1].event.CiRevalidated? {
      OneWriteEnds(w, PullRequestDelivered(c, LatestPullRequest(log, c).value, a.finalObservedAt,
                                           log[|log| - 1].event.checks, log[|log| - 1].event.observedAt),
                   PrDelivered, PrReviewFixerIteration, a.clock);
    } else {
      RevalidationFalls(w, policy, a, c);
    }
  }

  lemma RevalidationFalls(w: World, policy: Policy, a: Answer, c: Sha)
    requires |w.store.log| > 0 && w.store.candidate == Some(c) && Revalidate(w, policy, a, c).exit.Continue?
    requires !w.runtime.freshPrReview
    ensures StagesLeft(After(w, Revalidate(w, policy, a, c), a.clock), policy) < 6
  {
    hide PerformAll, After, CiObservationAccepted, DerivedOutcome, CurrentCiOutcome;
    var outcome := DerivedOutcome(a.ciChecks);
    if outcome == CiPassed {
      OneWriteEnds(w, CiRevalidated(c, outcome, a.ciChecks, a.ciObservedAt), PrReview, PrReviewFixerIteration, a.clock);
      RuntimeFlags(w, Revalidate(w, policy, a, c), a.clock);
    } else {
      FailedRecheckReads(w, policy, a, c);
    }
  }

  lemma RuntimeFlags(w: World, plan: Plan, clock: nat -> Time)
    requires |w.store.log| > 0
    ensures After(w, plan, clock).runtime.freshPrReview == plan.runtime.freshPrReview
  {
  }

  lemma SimpleStageFalls(w: World, policy: Policy, event: Event, to: Phase, kind: CheckpointKind, clock: nat -> Time)
    requires |w.store.log| > 0
    requires StagesLeftFor(to) < StagesLeft(w, policy)
    ensures Falls(w, OneWrite(w, event, to, Some(kind)), policy, clock)
  {
  }

  /** The most any phase can have left, whatever its checkpoint says. */
  function StagesLeftFor(phase: Phase): nat {
    match phase
    case Admitted => 24
    case RepositoryLeased => 23
    case IdentityReady => 22
    case WorkspaceReady => 21
    case TaskPacketReady => 20
    case Implementing => 19
    case Fixing => 18
    case CandidateReady => 17
    case LocalVerify => 16
    case LocalReview => 14
    case DeliveryReady => 12
    case Pushed => 11
    case PrOpen => 10
    case CiWait => 9
    case PrReview => 7
    case PrDelivered => 2
    case EvidenceFinalized => 1
    case _ => 0
  }

  lemma CandidateStageFalls(w: World, policy: Policy, a: Answer, c: Sha)
    requires WorldInv(w, policy) && w.store.candidate == Some(c)
    ensures |w.store.log| > 0 && Falls(w, CandidateStage(w, policy, a, c), policy, a.clock)
  {
    hide StoreInv, Falls, CompleteLocalVerification, LocalVerifyPlan, LocalReviewPlan, CiWaitPlan, PrReviewPlan;
    InvHasLog(w.store, policy);
    match w.store.phase {
      case CandidateReady => FirstVerificationFalls(w, policy, a, c); NoExitFalls(w, policy, a.clock);
      case LocalVerify => LocalVerifyFalls(w, policy, a, c);
      case LocalReview => LocalReviewFalls(w, policy, a, c);
      case DeliveryReady =>
        NoExitFalls(w, policy, a.clock);
        SimpleStageFalls(w, policy, BranchPushed(c), Pushed, BranchPushIntentObservation, a.clock);
      case Pushed =>
        NoExitFalls(w, policy, a.clock);
        SimpleStageFalls(w, policy, PullRequestOpened(c, a.pullRequestNumber), PrOpen, PullRequestIntentObservation,
                         a.clock);
      case PrOpen => CiStartFalls(w, policy, c, a.clock);
      case CiWait => CiWaitFalls(w, policy, a, c);
      case PrReview => PrReviewFalls(w, policy, a, c);
      case PrDelivered =>
        NoExitFalls(w, policy, a.clock);
        SimpleStageFalls(w, policy, EvidenceWasFinalized(c), EvidenceFinalized, EvidenceFinalizationAcknowledgement,
                         a.clock);
      case EvidenceFinalized =>
        NoExitFalls(w, policy, a.clock);
        SimpleStageFalls(w, policy, RunCompleted(c), Completed, LeaseReleaseWorkspaceCleanup, a.clock);
      case _ => NoExitFalls(w, policy, a.clock);
    }
  }

  lemma NoExitFalls(w: World, policy: Policy, clock: nat -> Time)
    requires |w.store.log| > 0
    ensures Falls(w, Refuse(w), policy, clock)
  {
  }

  lemma CiStartFalls(w: World, policy: Policy, c: Sha, clock: nat -> Time)
    requires |w.store.log| > 0 && w.store.phase == PrOpen
    ensures Falls(w, OneWrite(w, CiWaiting(c), CiWait, None), policy, clock)
  {
  }

  lemma CandidateFalls(w: World, policy: Policy, a: Answer)
    requires |w.store.log| > 0
    requires w.store.phase == Implementing || w.store.phase == Fixing
    ensures Falls(w, CandidatePlan(w, policy, a), policy, a.clock)
  {
  }

  lemma StageFalls(w: World, policy: Policy, a: Answer)
    requires WorldInv(w, policy)
    ensures |w.store.log| > 0 && Falls(w, StagePlan(w, policy, a), policy, a.clock)
  {
    hide StoreInv, Falls, CandidateStage, CandidatePlan;
    InvHasLog(w.store, policy);
    NoExitFalls(w, policy, a.clock);
    match w.store.phase {
      case Admitted =>
        SimpleStageFalls(w, policy, RepositoryLeaseAcquired, RepositoryLeased, RepositoryLeaseAcquisition, a.clock);
      case RepositoryLeased =>
        SimpleStageFalls(w, policy, IdentityLeasesAcquired, IdentityReady, IdentityLeaseAcquisition, a.clock);
      case IdentityReady =>
        SimpleStageFalls(w, policy, WorkspacePrepared, WorkspaceReady, WorkspaceSandboxProof, a.clock);
      case WorkspaceReady =>
        SimpleStageFalls(w, policy, TaskPacketCreated, TaskPacketReady, TaskPacketCreation, a.clock);
      case TaskPacketReady =>
        SimpleStageFalls(w, policy, ImplementationStarted, Implementing, ImplementerSessionMarker, a.clock);
      case Implementing => CandidateFalls(w, policy, a);
      case Fixing => CandidateFalls(w, policy, a);
      case CancelRequested => ReturnFalls(w, StagePlan(w, policy, a), policy, a.clock);
      case Cancelling => ReturnFalls(w, StagePlan(w, policy, a), policy, a.clock);
      case _ =>
        if w.store.candidate.Some? {
          CandidateStageFalls(w, policy, a, w.store.candidate.value);
        }
        ReturnFalls(w, StagePlan(w, policy, a), policy, a.clock);
    }
  }

  lemma ReturnFalls(w: World, plan: Plan, policy: Policy, clock: nat -> Time)
    requires |w.store.log| > 0
    ensures !plan.exit.Continue? ==> Falls(w, plan, policy, clock)
  {
  }

  /** Each turn that goes round again lowers the measure. */
  lemma TurnFalls(w: World, policy: Policy, a: Answer)
    requires WorldInv(w, policy)
    ensures |w.store.log| > 0
    ensures var turn := Iterate(w, policy, a);
            turn.again ==>
              || FixesLeft(turn.world, policy) < FixesLeft(w, policy)
              || (FixesLeft(turn.world, policy) == FixesLeft(w, policy)
                  && StagesLeft(turn.world, policy) < StagesLeft(w, policy))
  {
    hide StoreInv, StagePlan, StagesLeft, CountFixes, After, Iterate;
    InvHasLog(w.store, policy);
    TurnCounts(w, policy, a);
    if Iterate(w, policy, a).again {
      AgainMeansAfter(w, policy, a);
      StageFalls(w, policy, a);
      AfterCounts(w, StagePlan(w, policy, a), a.clock);
    }
  }

  lemma AfterCounts(w: World, plan: Plan, clock: nat -> Time)
    requires |w.store.log| > 0
    ensures CountFixes(After(w, plan, clock).store.log) == CountFixes(w.store.log) + Fixes(plan.writes)
  {
    CountAfter(w, plan.writes, clock);
  }
}
