/**
 The durable side of an ASF delivery run: lifecycle phases, the append-only event log with
 its transition tables, stage checkpoints, and the fenced store row.
 */
module DeliveryLog {
  import opened ExactSets
  import opened Options

  type Sha = nat
  type Name = string
  type Time = int

  datatype Phase =
    | Received | Admitted | RepositoryLeased | IdentityReady | WorkspaceReady | TaskPacketReady
    | Implementing | CandidateReady | LocalVerify | LocalReview | Fixing
    | DeliveryReady | Pushed | PrOpen | CiWait | PrReview | PrDelivered
    | EvidenceFinalized | Completed
    | CancelRequested | Cancelling
    | WaitingApproval | NeedsSpec | BlockedExternal
    | BudgetExhausted | Refused | Quarantined | Cancelled | Failed

  datatype CheckOutcome = CheckPassed | CheckFailed | CheckBlocked
  datatype CheckResult = CheckResult(id: Name, outcome: CheckOutcome, evidence: nat)

  datatype CiOutcome = CiPassed | CiFailed | CiPending | CiNotScheduled
  datatype CiCheck = CiCheck(context: Name, outcome: CiOutcome, evidence: nat)

  datatype Verdict = Approved | ChangesRequested | ReviewBlocked

  datatype Event =
    | WorkOrderAdmitted
    | RepositoryLeaseAcquired | IdentityLeasesAcquired | WorkspacePrepared | TaskPacketCreated
    | ImplementationStarted
    | CandidateCreated(sha: Sha, parent: Sha)
    | VerificationStarted(sha: Sha)
    | VerificationCompleted(sha: Sha, check: CheckResult)
    | ReviewStarted(sha: Sha)
    | ReviewCompleted(sha: Sha, verdict: Verdict)
    | FixingStarted(sha: Sha, iteration: nat)
    | DeliveryReadied(sha: Sha)
    | BranchPushed(sha: Sha)
    | PullRequestOpened(sha: Sha, number: nat)
    | CiWaiting(sha: Sha)
    | CiCompleted(sha: Sha, outcome: CiOutcome, checks: seq<CiCheck>, observedAt: Time)
    | CiRecheckCompleted(sha: Sha, outcome: CiOutcome, checks: seq<CiCheck>, observedAt: Time)
    | PrReviewStarted(sha: Sha)
    | PrReviewCompleted(sha: Sha, verdict: Verdict)
    | CiRevalidated(sha: Sha, outcome: CiOutcome, checks: seq<CiCheck>, observedAt: Time)
    | PullRequestDelivered(sha: Sha, number: nat, observedAt: Time,
                           finalChecks: seq<CiCheck>, finalCiObservedAt: Time)
    | EvidenceWasFinalized(sha: Sha)
    | RunCompleted(sha: Sha)
    | RunInterrupted(candidate: Option<Sha>)
    | RunResumed(candidate: Option<Sha>, cursor: Option<nat>)
    | CancellationRequested(candidate: Option<Sha>)
    | CancellationEscalated(candidate: Option<Sha>)
    | CancellationStarted(candidate: Option<Sha>)
    | RunCancelled(candidate: Option<Sha>)
    | RunStopped(candidate: Option<Sha>)

  datatype Entry = Entry(event: Event, phase: Phase, at: Time)

  /** The candidate an event is bound to, if its payload names one. */
  function Subject(event: Event): Option<Sha> {
    match event
    case WorkOrderAdmitted | RepositoryLeaseAcquired | IdentityLeasesAcquired | WorkspacePrepared
       | TaskPacketCreated | ImplementationStarted => None
    case RunInterrupted(candidate) => candidate
    case RunResumed(candidate, _) => candidate
    case CancellationRequested(candidate) => candidate
    case CancellationEscalated(candidate) => candidate
    case CancellationStarted(candidate) => candidate
    case RunCancelled(candidate) => candidate
    case RunStopped(candidate) => candidate
    case _ => Some(event.sha)
  }

  // ---------------------------------------------------------------- transition tables

  predicate Terminal(phase: Phase) {
    (phase.Completed? || phase.Cancelled? || phase.Failed? || phase.Refused? || phase.Quarantined?
     || phase.BudgetExhausted?)
  }

  predicate Paused(phase: Phase) {
    (phase.WaitingApproval? || phase.NeedsSpec? || phase.BlockedExternal?)
  }

  predicate DirectStop(phase: Phase) {
    (phase.BudgetExhausted? || phase.Refused? || phase.Quarantined? || phase.Failed?)
  }

  predicate NormalSuccessor(from: Phase, to: Phase) {
    match from
    case Received => to == Admitted
    case Admitted => to == RepositoryLeased
    case RepositoryLeased => to == IdentityReady
    case IdentityReady => to == WorkspaceReady
    case WorkspaceReady => to == TaskPacketReady
    case TaskPacketReady => to == Implementing
    case Implementing => to == CandidateReady
    case CandidateReady => to == LocalVerify
    case LocalVerify => (to.LocalReview? || to.Fixing?)
    case LocalReview => (to.Fixing? || to.DeliveryReady?)
    case Fixing => to == CandidateReady
    case DeliveryReady => to == Pushed
    case Pushed => to == PrOpen
    case PrOpen => to == CiWait
    case CiWait => (to.PrReview? || to.Fixing?)
    case PrReview => (to.Fixing? || to.CiWait? || to.PrDelivered?)
    case PrDelivered => to == EvidenceFinalized
    case EvidenceFinalized => to == Completed
    case CancelRequested => to == Cancelling
    case Cancelling => to == Cancelled
    case _ => false
  }

  /** `assertRunPhaseTransition`. */
  predicate PhaseTransition(from: Phase, to: Phase) {
    && !Terminal(from)
    && (|| NormalSuccessor(from, to)
        || (from == to
            && (from.Implementing? || from.LocalVerify? || from.LocalReview? || from.Fixing? || from.CiWait?
                || from.PrReview? || from.Cancelling? || from.CancelRequested?))
        || (to != from && (to == CancelRequested || Paused(to)))
        || DirectStop(to)
        || (Paused(from) && !Terminal(to) && !Paused(to) && to != CancelRequested && to != Cancelling))
  }

  /** The phase each event type must land in. */
  predicate EventPhase(event: Event, phase: Phase) {
    match event
    case WorkOrderAdmitted => phase == Admitted
    case RepositoryLeaseAcquired => phase == RepositoryLeased
    case IdentityLeasesAcquired => phase == IdentityReady
    case WorkspacePrepared => phase == WorkspaceReady
    case TaskPacketCreated => phase == TaskPacketReady
    case ImplementationStarted => phase == Implementing
    case CandidateCreated(_, _) => phase == CandidateReady
    case VerificationStarted(_) | VerificationCompleted(_, _) => phase == LocalVerify
    case ReviewStarted(_) | ReviewCompleted(_, _) => phase == LocalReview
    case FixingStarted(_, _) => phase == Fixing
    case DeliveryReadied(_) => phase == DeliveryReady
    case BranchPushed(_) => phase == Pushed
    case PullRequestOpened(_, _) => phase == PrOpen
    case CiWaiting(_) | CiCompleted(_, _, _, _) | CiRecheckCompleted(_, _, _, _) => phase == CiWait
    case PrReviewStarted(_) | PrReviewCompleted(_, _) | CiRevalidated(_, _, _, _) => phase == PrReview
    case PullRequestDelivered(_, _, _, _, _) => phase == PrDelivered
    case EvidenceWasFinalized(_) => phase == EvidenceFinalized
    case RunCompleted(_) => phase == Completed
    case RunInterrupted(_) => Paused(phase)
    case RunResumed(_, _) => true
    case CancellationRequested(_) | CancellationEscalated(_) => phase == CancelRequested
    case CancellationStarted(_) => phase == Cancelling
    case RunCancelled(_) => phase == Cancelled
    case RunStopped(_) => DirectStop(phase)
  }

  /** The phases each event type may leave from. */
  predicate EventFrom(event: Event, from: Phase) {
    match event
    case WorkOrderAdmitted => from == Received
    case RepositoryLeaseAcquired => from == Admitted
    case IdentityLeasesAcquired => from == RepositoryLeased
    case WorkspacePrepared => from == IdentityReady
    case TaskPacketCreated => from == WorkspaceReady
    case ImplementationStarted => (from.TaskPacketReady? || from.Implementing?)
    case CandidateCreated(_, _) => (from.Implementing? || from.Fixing?)
    case VerificationStarted(_) => from == CandidateReady
    case VerificationCompleted(_, _) => from == LocalVerify
    case ReviewStarted(_) => from == LocalVerify
    case ReviewCompleted(_, _) => from == LocalReview
    case FixingStarted(_, _) => (from.LocalVerify? || from.LocalReview? || from.CiWait? || from.PrReview?)
    case DeliveryReadied(_) => from == LocalReview
    case BranchPushed(_) => from == DeliveryReady
    case PullRequestOpened(_, _) => from == Pushed
    case CiWaiting(_) => from == PrOpen
    case CiCompleted(_, _, _, _) => from == CiWait
    case CiRecheckCompleted(_, _, _, _) => from == PrReview
    case PrReviewStarted(_) => from == CiWait
    case PrReviewCompleted(_, _) | CiRevalidated(_, _, _, _) => from == PrReview
    case PullRequestDelivered(_, _, _, _, _) => from == PrReview
    case EvidenceWasFinalized(_) => from == PrDelivered
    case RunCompleted(_) => from == EvidenceFinalized
    case RunInterrupted(_) | RunStopped(_) => true
    case RunResumed(_, _) => Paused(from)
    case CancellationRequested(_) =>
      !Terminal(from) && !(from.Received? || from.CancelRequested? || from.Cancelling?)
    case CancellationEscalated(_) => from.CancelRequested? || from.Cancelling?
    case CancellationStarted(_) => from == CancelRequested
    case RunCancelled(_) => from == Cancelling
  }

  /** A reconciled cancellation goes back to its cleanup, which no other resumption may. */
  predicate ContinuesCancellation(from: Phase, event: Event, to: Phase) {
    from == BlockedExternal && event.RunResumed? && to == Cancelling
  }

  /** `assertRunEventTransition` together with the event contract's phase. */
  predicate EventTransition(from: Phase, event: Event, to: Phase) {
    && (ContinuesCancellation(from, event, to) || PhaseTransition(from, to))
    && EventPhase(event, to) && EventFrom(event, from)
  }

  // ---------------------------------------------------------------- the store row

  datatype CheckpointKind =
    | WorkOrderAdmission | RepositoryLeaseAcquisition | IdentityLeaseAcquisition
    | WorkspaceSandboxProof | TaskPacketCreation | ImplementerSessionMarker
    | CandidateCommitCreation | LocalVerificationPass | LocalReviewFixerIteration
    | BranchPushIntentObservation | PullRequestIntentObservation
    | CiReconciliationSnapshot | PrReviewFixerIteration
    | EvidenceFinalizationAcknowledgement | LeaseReleaseWorkspaceCleanup

  /** `eventIndex` is the log index of the event the checkpoint was written with. */
  datatype Checkpoint = Checkpoint(kind: CheckpointKind, eventIndex: nat, phase: Phase, candidate: Option<Sha>)

  datatype Store = Store(
    log: seq<Entry>,
    phase: Phase,
    candidate: Option<Sha>,
    checkpoint: Option<Checkpoint>,
    resume: Option<Phase>,
    generation: nat)

  /** One store write: an event with an optional atomic checkpoint, or a checkpoint alone. */
  datatype Write =
    | Append(event: Event, to: Phase, kind: Option<CheckpointKind>)
    | Mark(markKind: CheckpointKind)

  predicate Interrupts(phase: Phase) {
    Paused(phase) || phase == CancelRequested
  }

  /** A cleanup that blocks is resumed as a cleanup, whatever the cancellation interrupted. */
  predicate BlocksCleanup(from: Phase, to: Phase) {
    from == Cancelling && to == BlockedExternal
  }

  function Apply(store: Store, write: Write, at: Time): Store
    requires |store.log| > 0
  {
    match write
    case Mark(kind) =>
      store.(checkpoint := Some(Checkpoint(kind, |store.log| - 1, store.phase, store.candidate)))
    case Append(event, to, kind) =>
      var candidate := if event.CandidateCreated? then Some(event.sha) else store.candidate;
      Store(
        store.log + [Entry(event, to, at)],
        to,
        candidate,
        if kind.Some? then Some(Checkpoint(kind.value, |store.log|, to, candidate)) else store.checkpoint,
        if BlocksCleanup(store.phase, to) then Some(Cancelling)
        else if Interrupts(to) then (if store.resume.Some? then store.resume else Some(store.phase))
        else if event.RunResumed? then None
        else store.resume,
        store.generation)
  }

  /** Where the run stands once interruptions are looked through. */
  function EffectivePhase(store: Store): Phase {
    if (Interrupts(store.phase) || store.phase == Cancelling) && store.resume.Some?
    then store.resume.value else store.phase
  }

  // ---------------------------------------------------------------- reading the log

  /** The index of the latest entry that `matches`, or None. */
  function Latest(log: seq<Entry>, matches: Entry -> bool): (index: Option<nat>)
    ensures index.Some? ==> index.value < |log| && matches(log[index.value])
                            && forall j :: index.value < j < |log| ==> !matches(log[j])
    ensures index.None? ==> forall j :: 0 <= j < |log| ==> !matches(log[j])
  {
    if |log| == 0 then None
    else if matches(log[|log| - 1]) then Some(|log| - 1)
    else Latest(log[..|log| - 1], matches)
  }

  predicate OnlyInterrupts(event: Event) {
    || event.RunInterrupted? || event.RunResumed? || event.CancellationRequested? || event.CancellationEscalated?
    || event.CancellationStarted?
  }

  /**
   The entry a stage intent is created at: the latest one, or the one that was
   interrupted when a reconciliation resumed the run at an exact cursor.
   */
  function IntentIndex(log: seq<Entry>): (index: nat)
    requires |log| > 0
    ensures index < |log|
  {
    var last := log[|log| - 1].event;
    if last.RunResumed? && last.cursor.Some? && last.cursor.value < |log| then last.cursor.value
    else |log| - 1
  }

  function CountFixes(log: seq<Entry>): (count: nat)
    ensures count <= |log|
  {
    if |log| == 0 then 0
    else CountFixes(log[..|log| - 1]) + (if log[|log| - 1].event.FixingStarted? then 1 else 0)
  }

  function CheckIds(checks: seq<CheckResult>): (ids: seq<Name>)
    ensures |ids| == |checks|
  {
    seq(|checks|, i requires 0 <= i < |checks| => checks[i].id)
  }

  function Contexts(checks: seq<CiCheck>): (contexts: seq<Name>)
    ensures |contexts| == |checks|
  {
    seq(|checks|, i requires 0 <= i < |checks| => checks[i].context)
  }

  predicate AllPassed(checks: seq<CheckResult>) {
    forall i :: 0 <= i < |checks| ==> checks[i].outcome == CheckPassed
  }

  /** The outcome the runner, the store and `#currentCiOutcome` all derive from the checks. */
  function DerivedOutcome(checks: seq<CiCheck>): CiOutcome {
    if forall i :: 0 <= i < |checks| ==> checks[i].outcome == CiPassed then CiPassed
    else if exists i :: 0 <= i < |checks| && checks[i].outcome == CiFailed then CiFailed
    else if exists i :: 0 <= i < |checks| && checks[i].outcome == CiNotScheduled then CiNotScheduled
    else CiPending
  }
}
