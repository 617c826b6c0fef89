/**
 The whole life of a run: any sequence of `run()` calls, loop turns by current or stale
 workers, crashes, reconciliations and cancellations.
 */
module DeliveryLife {
  import opened ExactSets
  import opened Options
  import opened DeliveryLog
  import opened DeliverySteps
  import opened DeliveryGates
  import opened DeliverySafety
  import opened DeliveryRunnerSafety

  datatype RecoveryAction =
    | ContinueFromCheckpoint | ContinueAfterReconciliation
    | ReplayStage | RestartImplementerFresh | ResumeImplementer | RestartReviewerFresh

  predicate ReplaysCheckpoint(action: RecoveryAction) {
    action.ReplayStage? || action.RestartImplementerFresh? || action.ResumeImplementer? || action.RestartReviewerFresh?
  }

  /** The runtime before recovery has read a checkpoint. */
  function Blank(store: Store): World {
    World(store, Runtime(if store.checkpoint.Some? then store.checkpoint.value
                         else Checkpoint(WorkOrderAdmission, 0, store.phase, None), 0, false, false))
  }

  /** `#recover`; None is a refusal. */
  function Recover(store: Store, takeover: bool, action: RecoveryAction): Option<World>
    requires |store.log| > 0
  {
    if store.checkpoint.None? then
      if store.phase != Admitted || takeover then None
      else
        var marked := Apply(store, Mark(WorkOrderAdmission), 0);
        Some(World(marked, Runtime(marked.checkpoint.value, CountFixes(store.log), false, false)))
    else
      var checkpoint := store.checkpoint.value;
      if ReplaysCheckpoint(action)
         && (checkpoint.phase != store.phase || checkpoint.eventIndex != |store.log| - 1) then None
      else
        var restarted := action.ReplayStage? || action.RestartReviewerFresh?;
        Some(World(store, Runtime(checkpoint, CountFixes(store.log),
                                  restarted && checkpoint.kind == LocalReviewFixerIteration,
                                  restarted && checkpoint.kind == PrReviewFixerIteration)))
  }

  datatype Life = Life(store: Store, workers: map<nat, Runtime>)

  /**
   `StartRun` is one `run()` call up to its phase loop, by a new owner generation. `TurnOf` is one
   turn of the loop by whichever worker still holds a runtime of that generation.
   */
  datatype LifeStep =
    | StartRun(takeover: bool, action: RecoveryAction, answer: Answer)
    | TurnOf(generation: nat, answer: Answer)
    | ResumeRun(cursor: Option<nat>, at: Time)
    | RequestCancellation(at: Time)

  function Admission(at: Time): Life {
    Life(Store([Entry(WorkOrderAdmitted, Admitted, at)], Admitted, None, None, None, 0), map[])
  }

  function StartStep(life: Life, policy: Policy, takeover: bool, action: RecoveryAction, a: Answer): Life
    requires |life.store.log| > 0
  {
    var store := life.store.(generation := life.store.generation + 1);
    if store.phase == CancelRequested || store.phase == Cancelling then
      life.(store := Iterate(Blank(store), policy, a).world.store)
    else if a.broken.Some? then
      life.(store := Leave(Blank(store), a.broken.value, a, 0).store)
    else
      match Recover(store, takeover, action)
      case None => life.(store := Leave(Blank(store), Stop(Quarantined), a, 0).store)
      case Some(world) => Life(world.store, life.workers[store.generation := world.runtime])
  }

  function TurnStep(life: Life, policy: Policy, generation: nat, a: Answer): Life
    requires |life.store.log| > 0
  {
    if generation !in life.workers then life
    else if generation != life.store.generation then life.(workers := life.workers - {generation})
    else
      var turn := Iterate(World(life.store, life.workers[generation]), policy, a);
      Life(turn.world.store,
           if turn.again then life.workers[generation := turn.world.runtime] else life.workers - {generation})
  }

  function ResumeStep(life: Life, cursor: Option<nat>, at: Time): Life
    requires |life.store.log| > 0
  {
    var store := life.store;
    if store.resume.None?
       || !EventTransition(store.phase, RunResumed(store.candidate, cursor), store.resume.value) then life
    else life.(store := Apply(store, Append(RunResumed(store.candidate, cursor), store.resume.value, None), at))
  }

  /** A request while the run is already being cancelled escalates the cancellation. */
  function Cancellation(store: Store): Event {
    if store.phase == CancelRequested || store.phase == Cancelling then CancellationEscalated(store.candidate)
    else CancellationRequested(store.candidate)
  }

  function CancelStep(life: Life, at: Time): Life
    requires |life.store.log| > 0
  {
    var store := life.store;
    var event := Cancellation(store);
    if !EventTransition(store.phase, event, CancelRequested) then life
    else
      var cancelled := Apply(store, Append(event, CancelRequested, None), at);
      life.(store := cancelled.(generation := store.generation + 1))
  }

  function Live(life: Life, policy: Policy, step: LifeStep): (after: Life)
    requires |life.store.log| > 0
    ensures |after.store.log| > 0
  {
    match step
    case StartRun(takeover, action, answer) => StartStep(life, policy, takeover, action, answer)
    case TurnOf(generation, answer) => TurnStep(life, policy, generation, answer)
    case ResumeRun(cursor, at) => ResumeStep(life, cursor, at)
    case RequestCancellation(at) => CancelStep(life, at)
  }

  function WholeLife(policy: Policy, admittedAt: Time, steps: seq<LifeStep>): (life: Life)
    ensures |life.store.log| > 0
  {
    if |steps| == 0 then Admission(admittedAt)
    else Live(WholeLife(policy, admittedAt, steps[..|steps| - 1]), policy, steps[|steps| - 1])
  }

  // ---------------------------------------------------------------- safety

  ghost predicate LifeInv(life: Life, policy: Policy) {
    && StoreInv(life.store, policy)
    && (forall g <- life.workers :: g <= life.store.generation)
    && (life.store.generation in life.workers ==>
          life.store.checkpoint == Some(life.workers[life.store.generation].latest))
  }

  lemma StageLicensed(w: World, policy: Policy, a: Answer)
    requires WorldInv(w, policy)
    ensures |w.store.log| > 0
    ensures WritesLicensed(w, StagePlan(w, policy, a).writes, a.clock, policy)
  {
    hide StoreInv, WritesLicensed, CandidateStage, CandidatePlan;
    InvHasLog(w.store, policy);
    NothingLicensed(w, a.clock, policy);
    match w.store.phase {
      case Admitted =>
        SetupLicensed(w, RepositoryLeaseAcquired, RepositoryLeased, RepositoryLeaseAcquisition, a.clock, policy);
      case RepositoryLeased =>
        SetupLicensed(w, IdentityLeasesAcquired, IdentityReady, IdentityLeaseAcquisition, a.clock, policy);
      case IdentityReady =>
        SetupLicensed(w, WorkspacePrepared, WorkspaceReady, WorkspaceSandboxProof, a.clock, policy);
      case WorkspaceReady =>
        SetupLicensed(w, TaskPacketCreated, TaskPacketReady, TaskPacketCreation, a.clock, policy);
      case TaskPacketReady =>
        SetupLicensed(w, ImplementationStarted, Implementing, ImplementerSessionMarker, a.clock, policy);
      case Implementing => CandidateLicensed(w, policy, a);
      case Fixing => CandidateLicensed(w, policy, a);
      case CancelRequested => CancelRequestedLicensed(w, a.clock, policy);
      case Cancelling => CancellingLicensed(w, a.clock, policy);
      case _ =>
        if w.store.candidate.Some? {
          CandidateStageLicensed(w, policy, a, w.store.candidate.value);
        }
    }
  }

  lemma CandidateStageLicensed(w: World, policy: Policy, a: Answer, c: Sha)
    requires WorldInv(w, policy) && w.store.candidate == Some(c)
    ensures |w.store.log| > 0
    ensures WritesLicensed(w, CandidateStage(w, policy, a, c).writes, a.clock, policy)
  {
    hide StoreInv, WritesLicensed, CompleteLocalVerification, LocalVerifyPlan, LocalReviewPlan, CiWaitPlan,
         PrReviewPlan, PriorCheckpoint;
    InvHasLog(w.store, policy);
    NothingLicensed(w, a.clock, policy);
    match w.store.phase {
      case CandidateReady => FirstVerificationLicensed(w, policy, a, c);
      case LocalVerify => LocalVerifyLicensed(w, policy, a, c);
      case LocalReview => LocalReviewStageLicensed(w, policy, a, c);
      case DeliveryReady =>
        UnguardedPlan(w, BranchPushed(c), Pushed, Some(BranchPushIntentObservation), a.clock, policy);
      case Pushed =>
        UnguardedPlan(w, PullRequestOpened(c, a.pullRequestNumber), PrOpen, Some(PullRequestIntentObservation),
                      a.clock, policy);
      case PrOpen => UnguardedPlan(w, CiWaiting(c), CiWait, None, a.clock, policy);
      case CiWait => CiWaitLicensed(w, policy, a, c);
      case PrReview => PrReviewStageLicensed(w, policy, a, c);
      case PrDelivered =>
        UnguardedPlan(w, EvidenceWasFinalized(c), EvidenceFinalized, Some(EvidenceFinalizationAcknowledgement),
                      a.clock, policy);
      case EvidenceFinalized =>
        UnguardedPlan(w, RunCompleted(c), Completed, Some(LeaseReleaseWorkspaceCleanup), a.clock, policy);
      case _ =>
    }
  }

  lemma FirstVerificationLicensed(w: World, policy: Policy, a: Answer, c: Sha)
    requires WorldInv(w, policy) && w.store.candidate == Some(c) && w.store.phase == CandidateReady
    ensures |w.store.log| > 0
    ensures WritesLicensed(w, CompleteLocalVerification(w, policy, a, c,
              [Append(VerificationStarted(c), LocalVerify, None)]).writes, a.clock, policy)
  {
    hide StoreInv, WritesLicensed, CompleteLocalVerification, PerformAll;
    InvHasLog(w.store, policy);
    var started := Append(VerificationStarted(c), LocalVerify, None);
    UnguardedPlan(w, VerificationStarted(c), LocalVerify, None, a.clock, policy);
    LicensedWritesKeep(w, [started], a.clock, policy);
    InvBindsCandidate(PerformAll(w, [started], a.clock).store, policy);
    PerformOne(w, started, a.clock);
    VerificationLicensed(w, policy, a, c, [started]);
  }

  lemma InvBindsCandidate(s: Store, policy: Policy)
    requires StoreInv(s, policy)
    ensures CandidateBound(s)
  {
  }

  lemma LocalVerifyLicensed(w: World, policy: Policy, a: Answer, c: Sha)
    requires WorldInv(w, policy) && w.store.candidate == Some(c) && w.store.phase == LocalVerify
    ensures |w.store.log| > 0
    ensures WritesLicensed(w, LocalVerifyPlan(w, policy, a, c).writes, a.clock, policy)
  {
    hide StoreInv, WritesLicensed, CompleteLocalVerification, CompleteReview;
    InvHasLog(w.store, policy);
    NothingLicensed(w, a.clock, policy);
    InvBindsCandidate(w.store, policy);
    VerificationLicensed(w, policy, a, c, []);
    if CheckpointIsCurrent(w, LocalVerificationPass) {
      StartLocalReviewLicensed(w, policy, a, c);
    }
  }

  lemma LocalReviewStageLicensed(w: World, policy: Policy, a: Answer, c: Sha)
    requires WorldInv(w, policy) && w.store.candidate == Some(c) && w.store.phase == LocalReview
    ensures |w.store.log| > 0
    ensures WritesLicensed(w, LocalReviewPlan(w, policy, a, c).writes, a.clock, policy)
  {
    hide StoreInv, WritesLicensed, CompleteReview, AfterLocalReview;
    InvHasLog(w.store, policy);
    LocalReviewLicensed(w, policy, a, c);
    if CheckpointIsCurrent(w, LocalReviewFixerIteration) {
      AfterLocalReviewLicensed(w, policy, c, a.clock);
    }
  }

  lemma StopLicensed(w: World, exit: Exit, disposal: Disposal, clock: nat -> Time, policy: Policy)
    requires |w.store.log| > 0
    ensures WritesLicensed(w, StopWrites(w.store, exit, disposal), clock, policy)
  {
    hide PhaseTransition, WritesLicensed;
    NothingLicensed(w, clock, policy);
    var writes := StopWrites(w.store, exit, disposal);
    if |writes| == 1 {
      UnguardedPlan(w, writes[0].event, writes[0].to, writes[0].kind, clock, policy);
    }
  }

  lemma LeaveKeeps(w: World, exit: Exit, a: Answer, used: nat, policy: Policy)
    requires StoreInv(w.store, policy)
    ensures |w.store.log| > 0
    ensures StoreInv(Leave(w, exit, a, used).store, policy)
    ensures w.store.checkpoint == Some(w.runtime.latest) ==> WorldInv(Leave(w, exit, a, used), policy)
    ensures w.store.log <= Leave(w, exit, a, used).store.log
  {
    hide StoreInv, WritesLicensed, StopWrites, PerformAll;
    InvHasLog(w.store, policy);
    StopLicensed(w, exit, a.disposal, Later(a.clock, used), policy);
    LicensedWritesKeep(w, StopWrites(w.store, exit, a.disposal), Later(a.clock, used), policy);
  }

  /** One turn of the phase loop keeps the invariant, wherever it is cut short. */
  lemma IterateKeeps(w: World, policy: Policy, a: Answer)
    requires WorldInv(w, policy)
    ensures |w.store.log| > 0
    ensures WorldInv(Iterate(w, policy, a).world, policy)
    ensures w.store.log <= Iterate(w, policy, a).world.store.log
  {
    hide StoreInv, WritesLicensed, StagePlan, PerformAll, Leave;
    InvHasLog(w.store, policy);
    var plan := StagePlan(w, policy, a);
    StageLicensed(w, policy, a);
    if a.broken.Some? {
      var k := if a.cut <= |plan.writes| then a.cut else |plan.writes|;
      LicensedPrefix(w, plan.writes, k, a.clock, policy);
      LicensedWritesKeep(w, plan.writes[..k], a.clock, policy);
      LeaveKeeps(PerformAll(w, plan.writes[..k], a.clock), a.broken.value, a, k, policy);
    } else {
      LicensedWritesKeep(w, plan.writes, a.clock, policy);
      var done := PerformAll(w, plan.writes, a.clock);
      var kept := World(done.store, plan.runtime.(latest := done.runtime.latest));
      LeaveKeeps(kept, plan.exit, a, |plan.writes|, policy);
    }
  }

  lemma CancellationTurnKeeps(store: Store, policy: Policy, a: Answer)
    requires StoreInv(store, policy)
    requires store.phase == CancelRequested || store.phase == Cancelling
    ensures |store.log| > 0
    ensures StoreInv(Iterate(Blank(store), policy, a).world.store, policy)
  {
    hide StoreInv, WritesLicensed, StopWrites, PerformAll, Leave, CandidateStage;
    InvHasLog(store, policy);
    var w := Blank(store);
    var plan := StagePlan(w, policy, a);
    if store.phase == CancelRequested {
      CancelRequestedLicensed(w, a.clock, policy);
    } else {
      CancellingLicensed(w, a.clock, policy);
    }
    var k := if a.broken.Some? && a.cut <= |plan.writes| then a.cut else |plan.writes|;
    LicensedPrefix(w, plan.writes, k, a.clock, policy);
    LicensedWritesKeep(w, plan.writes[..k], a.clock, policy);
    assert plan.writes[..|plan.writes|] == plan.writes;
    var done := PerformAll(w, plan.writes[..k], a.clock);
    if a.broken.Some? {
      LeaveKeeps(done, a.broken.value, a, k, policy);
    } else {
      LeaveKeeps(World(done.store, plan.runtime.(latest := done.runtime.latest)), plan.exit, a, k, policy);
    }
  }

  lemma RecoverKeeps(store: Store, takeover: bool, action: RecoveryAction, policy: Policy)
    requires StoreInv(store, policy)
    ensures |store.log| > 0
    ensures Recover(store, takeover, action).Some? ==> WorldInv(Recover(store, takeover, action).value, policy)
  {
    hide StoreInv;
    InvHasLog(store, policy);
    if store.checkpoint.None? && store.phase == Admitted {
      LicensedKeeps(store, Mark(WorkOrderAdmission), 0, policy);
    }
  }

  lemma GenerationIsNoGate(store: Store, generation: nat, policy: Policy)
    requires StoreInv(store, policy)
    ensures StoreInv(store.(generation := generation), policy)
  {
    hide Passed, Replays, AllGated, CiShape, GatesBehind, GatesSettled, BaseOf;
  }

  lemma StartKeeps(life: Life, policy: Policy, takeover: bool, action: RecoveryAction, a: Answer)
    requires LifeInv(life, policy)
    ensures |life.store.log| > 0
    ensures LifeInv(StartStep(life, policy, takeover, action, a), policy)
  {
    hide StoreInv, Iterate, Leave, Recover;
    InvHasLog(life.store, policy);
    var store := life.store.(generation := life.store.generation + 1);
    GenerationIsNoGate(life.store, store.generation, policy);
    if store.phase == CancelRequested || store.phase == Cancelling {
      CancellationTurnKeeps(store, policy, a);
      GenerationKeptByTurn(Blank(store), policy, a);
    } else if a.broken.Some? {
      LeaveKeeps(Blank(store), a.broken.value, a, 0, policy);
      GenerationKeptByLeave(Blank(store), a.broken.value, a, 0);
    } else {
      RecoverKeeps(store, takeover, action, policy);
      GenerationKeptByRecover(store, takeover, action);
      LeaveKeeps(Blank(store), Stop(Quarantined), a, 0, policy);
      GenerationKeptByLeave(Blank(store), Stop(Quarantined), a, 0);
    }
  }

  lemma {:induction false} GenerationKept(w: World, writes: seq<Write>, clock: nat -> Time)
    requires |w.store.log| > 0
    ensures PerformAll(w, writes, clock).store.generation == w.store.generation
  {
    if |writes| > 0 {
      GenerationKept(w, writes[..|writes| - 1], clock);
    }
  }

  lemma GenerationKeptByLeave(w: World, exit: Exit, a: Answer, used: nat)
    requires |w.store.log| > 0
    ensures Leave(w, exit, a, used).store.generation == w.store.generation
  {
    GenerationKept(w, StopWrites(w.store, exit, a.disposal), Later(a.clock, used));
  }

  lemma GenerationKeptByTurn(w: World, policy: Policy, a: Answer)
    requires |w.store.log| > 0
    ensures Iterate(w, policy, a).world.store.generation == w.store.generation
  {
    hide StagePlan, Leave, PerformAll;
    var plan := StagePlan(w, policy, a);
    var k := if a.broken.Some? && a.cut <= |plan.writes| then a.cut else |plan.writes|;
    GenerationKept(w, plan.writes[..k], a.clock);
    assert plan.writes[..|plan.writes|] == plan.writes;
    var done := PerformAll(w, plan.writes[..k], a.clock);
    if a.broken.Some? {
      GenerationKeptByLeave(done, a.broken.value, a, k);
    } else {
      GenerationKeptByLeave(World(done.store, plan.runtime.(latest := done.runtime.latest)), plan.exit, a, k);
    }
  }

  lemma GenerationKeptByRecover(store: Store, takeover: bool, action: RecoveryAction)
    requires |store.log| > 0
    ensures Recover(store, takeover, action).Some? ==>
      Recover(store, takeover, action).value.store.generation == store.generation
  {
  }

  lemma TurnKeeps(life: Life, policy: Policy, generation: nat, a: Answer)
    requires LifeInv(life, policy)
    ensures |life.store.log| > 0
    ensures LifeInv(TurnStep(life, policy, generation, a), policy)
  {
    hide StoreInv, Iterate;
    InvHasLog(life.store, policy);
    if generation in life.workers && generation == life.store.generation {
      var w := World(life.store, life.workers[generation]);
      IterateKeeps(w, policy, a);
      GenerationKeptByTurn(w, policy, a);
    }
  }

  lemma ResumeKeeps(life: Life, policy: Policy, cursor: Option<nat>, at: Time)
    requires LifeInv(life, policy)
    ensures |life.store.log| > 0
    ensures LifeInv(ResumeStep(life, cursor, at), policy)
  {
    hide Settled, Replays, AllGated, CandidateBound, CheckpointBound, CiShape;
    var store := life.store;
    if store.resume.Some? && EventTransition(store.phase, RunResumed(store.candidate, cursor), store.resume.value) {
      var write := Append(RunResumed(store.candidate, cursor), store.resume.value, None);
      assert Licensed(store, policy, write);
      LicensedKeeps(store, write, at, policy);
    }
  }

  lemma CancelKeeps(life: Life, policy: Policy, at: Time)
    requires LifeInv(life, policy)
    ensures |life.store.log| > 0
    ensures LifeInv(CancelStep(life, at), policy)
  {
    hide StoreInv, EventTransition, Settled;
    var store := life.store;
    InvHasLog(store, policy);
    if EventTransition(store.phase, Cancellation(store), CancelRequested) {
      var write := Append(Cancellation(store), CancelRequested, None);
      UnguardedLicence(store, write.event, write.to, write.kind, policy);
      LicensedKeeps(store, write, at, policy);
      GenerationIsNoGate(Apply(store, write, at), store.generation + 1, policy);
    }
  }

  lemma AdmissionSafe(at: Time, policy: Policy)
    ensures LifeInv(Admission(at), policy)
  {
  }

  lemma {:induction false} LifeIsSafe(policy: Policy, admittedAt: Time, steps: seq<LifeStep>)
    ensures LifeInv(WholeLife(policy, admittedAt, steps), policy)
  {
    hide LifeInv, Live;
    if |steps| == 0 {
      AdmissionSafe(admittedAt, policy);
    } else {
      var n := |steps| - 1;
      LifeIsSafe(policy, admittedAt, steps[..n]);
      LiveKeeps(WholeLife(policy, admittedAt, steps[..n]), policy, steps[n]);
    }
  }

  lemma LiveKeeps(life: Life, policy: Policy, step: LifeStep)
    requires LifeInv(life, policy)
    ensures |life.store.log| > 0
    ensures LifeInv(Live(life, policy, step), policy)
  {
    hide LifeInv, StartStep, TurnStep, ResumeStep, CancelStep;
    match step
    case StartRun(takeover, action, a) => StartKeeps(life, policy, takeover, action, a);
    case TurnOf(generation, a) => TurnKeeps(life, policy, generation, a);
    case ResumeRun(cursor, at) => ResumeKeeps(life, policy, cursor, at);
    case RequestCancellation(at) => CancelKeeps(life, policy, at);
  }

  /**
   Gate safety over every life of every run: whatever the controllers answer and wherever calls
   are cut short, every delivered candidate has its whole gate behind it, and the lifecycle
   tables accept the log from its first event on.
   */
  lemma NoDeliveryBeforeItsGates(policy: Policy, admittedAt: Time, steps: seq<LifeStep>)
    ensures var log := WholeLife(policy, admittedAt, steps).store.log;
            && Replays(log)
            && forall i :: 0 <= i < |log| && log[i].event.PullRequestDelivered? ==> Gated(log, i, policy)
  {
    hide Gated, Settled, CandidateBound, CheckpointBound, Replays, WholeLife;
    LifeIsSafe(policy, admittedAt, steps);
  }
}
