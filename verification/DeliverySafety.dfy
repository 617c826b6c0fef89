/**
 The invariant of the durable store, and the licence each store write needs to keep it. The
 licences are the pipeline's rules written as guards on the log; the runner is proved to hold
 one for every write it makes.
 */
module DeliverySafety {
  import opened ExactSets
  import opened Options
  import opened DeliveryLog
  import opened DeliverySteps
  import opened DeliveryGates

  /** The index of the event that made the current candidate. */
  function BaseOf(log: seq<Entry>): (base: nat)
    ensures base <= |log|
  {
    if |log| == 0 then 0
    else if log[|log| - 1].event.CandidateCreated? then |log| - 1
    else BaseOf(log[..|log| - 1])
  }

  function Last(log: seq<Entry>): Entry
    requires |log| > 0
  {
    log[|log| - 1]
  }

  /** The lifecycle tables accept the log from the beginning, as the finalizer replays it. */
  ghost predicate Replays(log: seq<Entry>) {
    && |log| > 0
    && EventTransition(Received, log[0].event, log[0].phase)
    && forall i :: 0 < i < |log| ==> EventTransition(log[i - 1].phase, log[i].event, log[i].phase)
  }

  predicate HasCandidate(phase: Phase) {
    (phase.Fixing? || phase.CandidateReady? || phase.LocalVerify? || phase.LocalReview? || phase.DeliveryReady?
     || phase.Pushed? || phase.PrOpen? || phase.CiWait? || phase.PrReview? || phase.PrDelivered?
     || phase.EvidenceFinalized?)
  }

  /** The last gate a phase presupposes, counted from one; zero where there is none. */
  function GatesBehind(phase: Phase): nat {
    match phase
    case LocalReview => LOCAL_CHECKS + 1
    case DeliveryReady => LOCAL_REVIEW + 1
    case Pushed => PUSH + 1
    case PrOpen => PULL_REQUEST + 1
    case CiWait => CI_STARTED + 1
    case PrReview => INITIAL_CI + 1
    case _ => 0
  }

  /** The same for what the latest event itself has settled. */
  function GatesSettled(event: Event): nat {
    match event
    case ReviewCompleted(_, verdict) => if verdict == Approved then LOCAL_REVIEW + 1 else 0
    case CiCompleted(_, outcome, _, _) => if outcome == CiPassed then INITIAL_CI + 1 else 0
    case PrReviewCompleted(_, verdict) => if verdict == Approved then PR_REVIEW + 1 else 0
    case CiRevalidated(_, _, _, _) => PR_REVIEW + 1
    case _ => 0
  }

  ghost predicate Settled(s: Store, gates: nat, policy: Policy) {
    gates > 0 ==>
      && s.candidate.Some?
      && Passed(s.log, BaseOf(s.log), s.candidate.value, policy, gates - 1, |s.log|)
  }

  ghost predicate CandidateBound(s: Store) {
    && (s.candidate.Some? ==>
          var b := BaseOf(s.log);
          && b < |s.log|
          && EventAt(s, b).CandidateCreated? && EventAt(s, b).sha == s.candidate.value
          && forall j :: b < j < |s.log| ==>
               && !s.log[j].event.CandidateCreated?
               && (Subject(s.log[j].event).None? || Subject(s.log[j].event) == s.candidate))
    && (s.candidate.None? ==> forall j :: 0 <= j < |s.log| ==> !s.log[j].event.CandidateCreated?)
    && (HasCandidate(EffectivePhase(s)) ==> s.candidate.Some?)
  }

  ghost function EventAt(s: Store, i: nat): Event
    requires i < |s.log|
  {
    s.log[i].event
  }

  ghost predicate ResumeBound(s: Store) {
    && s.phase != Received
    && (Interrupts(s.phase) ==> s.resume.Some?)
    && (s.resume.Some? && !Terminal(s.phase) ==> Interrupts(s.phase) || s.phase == Cancelling)
    && (s.resume.Some? ==> !Interrupts(s.resume.value) && !Terminal(s.resume.value) && s.resume.value != Received)
  }

  /** Where a checkpoint was written with the latest event, its kind says what that event was. */
  predicate KindFits(kind: CheckpointKind, event: Event) {
    match kind
    case LocalVerificationPass => event.VerificationCompleted?
    case LocalReviewFixerIteration => event.ReviewCompleted?
    case CiReconciliationSnapshot => event.CiCompleted? || event.CiRecheckCompleted?
    case PrReviewFixerIteration => event.PrReviewCompleted? || event.CiRevalidated? || event.PullRequestDelivered?
    case _ => true
  }

  ghost predicate CheckpointBound(s: Store, policy: Policy) {
    s.checkpoint.Some? ==>
      var ck := s.checkpoint.value;
      && ck.eventIndex < |s.log|
      && (ck.eventIndex == |s.log| - 1 ==>
            if ck.kind == LocalVerificationPass then
              s.phase == LocalVerify && Settled(s, LOCAL_CHECKS + 1, policy)
            else KindFits(ck.kind, Last(s.log).event))
  }

  /** A CI event carries exactly the required contexts and the outcome they derive. */
  ghost predicate CiShape(event: Event, policy: Policy) {
    match event
    case CiCompleted(_, outcome, checks, _) =>
      ExactSet(Contexts(checks), policy.remoteContexts) && outcome == DerivedOutcome(checks)
    case CiRecheckCompleted(_, outcome, checks, _) =>
      ExactSet(Contexts(checks), policy.remoteContexts) && outcome == DerivedOutcome(checks) && outcome != CiPassed
    case CiRevalidated(_, outcome, checks, _) => outcome == CiPassed && PassingCi(checks, policy)
    case _ => true
  }

  ghost predicate AllGated(log: seq<Entry>, policy: Policy) {
    forall i :: 0 <= i < |log| && log[i].event.PullRequestDelivered? ==> Gated(log, i, policy)
  }

  ghost predicate StoreInv(s: Store, policy: Policy) {
    && |s.log| > 0
    && Replays(s.log)
    && Last(s.log).phase == s.phase
    && CandidateBound(s)
    && ResumeBound(s)
    && Settled(s, GatesBehind(EffectivePhase(s)), policy)
    && Settled(s, GatesSettled(Last(s.log).event), policy)
    && CiShape(Last(s.log).event, policy)
    && CheckpointBound(s, policy)
    && AllGated(s.log, policy)
  }

  // ---------------------------------------------------------------- licences

  ghost predicate EventLicensed(s: Store, policy: Policy, event: Event, to: Phase)
    requires |s.log| > 0
  {
    match event
    case ReviewStarted(_) => Settled(s, LOCAL_CHECKS + 1, policy)
    case DeliveryReadied(_) => Settled(s, LOCAL_REVIEW + 1, policy)
    case PrReviewStarted(_) => Settled(s, INITIAL_CI + 1, policy)
    case CiCompleted(_, _, _, _) => CiShape(event, policy)
    case CiRecheckCompleted(_, _, _, _) => CiShape(event, policy)
    case CiRevalidated(_, _, _, _) => CiShape(event, policy) && Settled(s, PR_REVIEW + 1, policy)
    case PullRequestDelivered(c, _, _, checks, observedAt) =>
      && Last(s.log).event.CiRevalidated?
      && checks == Last(s.log).event.checks && observedAt == Last(s.log).event.observedAt
    case RunResumed(_, _) => s.resume == Some(to)
    case _ => true
  }

  ghost predicate Licensed(s: Store, policy: Policy, write: Write)
    requires |s.log| > 0
  {
    match write
    case Mark(kind) =>
      && (kind == LocalVerificationPass ==> s.phase == LocalVerify && Settled(s, LOCAL_CHECKS + 1, policy))
      && (kind != LocalVerificationPass ==> KindFits(kind, Last(s.log).event))
    case Append(event, to, kind) =>
      && EventTransition(s.phase, event, to)
      && (event.CandidateCreated? || Subject(event).None? || Subject(event) == s.candidate)
      && EventLicensed(s, policy, event, to)
      && (kind.Some? ==> KindFits(kind.value, event))
      && (kind == Some(LocalVerificationPass) ==> Settled(Apply(s, write, 0), LOCAL_CHECKS + 1, policy))
  }

  // ---------------------------------------------------------------- a licensed write keeps the invariant

  lemma BaseAfter(log: seq<Entry>, entry: Entry)
    ensures BaseOf(log + [entry]) == if entry.event.CandidateCreated? then |log| else BaseOf(log)
  {
  }

  lemma SettledLower(s: Store, gates: nat, lower: nat, policy: Policy)
    requires Settled(s, gates, policy)
    requires 0 < lower <= gates
    ensures Settled(s, lower, policy)
    decreases gates
  {
    hide Passed, BaseOf;
    if lower < gates {
      PassedBelow(s.log, BaseOf(s.log), s.candidate.value, policy, gates - 1, |s.log|);
      SettledLower(s, gates - 1, lower, policy);
    }
  }

  /** An event of a later gate, or of none, keeps what is settled. */
  lemma SettledCarries(s: Store, event: Event, to: Phase, kind: Option<CheckpointKind>, at: Time,
                       gates: nat, policy: Policy)
    requires |s.log| > 0
    requires Settled(s, gates, policy)
    requires !event.CandidateCreated?
    requires gates > 0 ==> Rank(event) >= gates
    ensures Settled(Apply(s, Append(event, to, kind), at), gates, policy)
  {
    hide Passed, BaseOf, Rank;
    if gates > 0 {
      var after := Apply(s, Append(event, to, kind), at);
      BaseAfter(s.log, Entry(event, to, at));
      PassedInLongerLog(s.log, after.log, BaseOf(s.log), s.candidate.value, policy, gates - 1, |s.log|);
      PassedLater(after.log, BaseOf(s.log), s.candidate.value, policy, gates - 1, |s.log|, |after.log|);
    }
  }

  /** The next gate's event settles the next gate. */
  lemma SettledRises(s: Store, event: Event, to: Phase, kind: Option<CheckpointKind>, at: Time,
                     gates: nat, policy: Policy)
    requires |s.log| > 0
    requires 0 < gates <= PR_REVIEW && Settled(s, gates, policy)
    requires s.candidate.Some? && CandidateBound(s)
    requires Passes(gates, event, s.candidate.value, policy)
    ensures Settled(Apply(s, Append(event, to, kind), at), gates + 1, policy)
  {
    hide Passed, BaseOf, PassingCi;
    var after := Apply(s, Append(event, to, kind), at);
    BaseAfter(s.log, Entry(event, to, at));
    PassedInLongerLog(s.log, after.log, BaseOf(s.log), s.candidate.value, policy, gates - 1, |s.log|);
    PassedStep(after.log, BaseOf(s.log), s.candidate.value, policy, gates, |s.log|);
  }

  /** Interruptions are looked through; a blocked cleanup forgets what its cancellation interrupted. */
  function EffectiveAfter(s: Store, event: Event, to: Phase): Phase {
    if !OnlyInterrupts(event) then to
    else if BlocksCleanup(s.phase, to) then Cancelling
    else EffectivePhase(s)
  }

  lemma ResumeKept(s: Store, event: Event, to: Phase, kind: Option<CheckpointKind>, at: Time)
    requires |s.log| > 0 && ResumeBound(s)
    requires EventTransition(s.phase, event, to)
    requires event.RunResumed? ==> s.resume == Some(to)
    ensures var after := Apply(s, Append(event, to, kind), at);
            ResumeBound(after) && EffectivePhase(after) == EffectiveAfter(s, event, to)
  {
    hide EventTransition, ResumeBound, EffectiveAfter;
    ResumeStaysBound(s, event, to, kind, at);
    EffectiveMoves(s, event, to, kind, at);
  }

  lemma ResumeStaysBound(s: Store, event: Event, to: Phase, kind: Option<CheckpointKind>, at: Time)
    requires |s.log| > 0 && ResumeBound(s)
    requires EventTransition(s.phase, event, to)
    requires event.RunResumed? ==> s.resume == Some(to)
    ensures ResumeBound(Apply(s, Append(event, to, kind), at))
  {
  }

  lemma EffectiveMoves(s: Store, event: Event, to: Phase, kind: Option<CheckpointKind>, at: Time)
    requires |s.log| > 0 && ResumeBound(s)
    requires EventTransition(s.phase, event, to)
    requires event.RunResumed? ==> s.resume == Some(to)
    ensures EffectivePhase(Apply(s, Append(event, to, kind), at)) == EffectiveAfter(s, event, to)
  {
    hide EventTransition;
    InterruptTable(s.phase, event, to);
  }

  /** Which phases an interruption leads to, and which everything else. */
  lemma InterruptTable(from: Phase, event: Event, to: Phase)
    requires EventTransition(from, event, to)
    ensures !OnlyInterrupts(event) ==> !Interrupts(to) && to != Cancelling
    ensures OnlyInterrupts(event) && !event.RunResumed? ==> Interrupts(to) || to == Cancelling
    ensures event.RunResumed? || event.CancellationStarted? ==> Interrupts(from)
    ensures to == Cancelling ==> event.RunResumed? || event.CancellationStarted?
    ensures !Terminal(from)
  {
    hide PhaseTransition, EventPhase, EventFrom;
    LeavesNoTerminal(from, event, to);
    PhaseOfInterruption(event, to);
    if event.RunResumed? || event.CancellationStarted? {
      LeavesAnInterruption(from, event);
    }
  }

  lemma PhaseOfInterruption(event: Event, to: Phase)
    requires EventPhase(event, to)
    ensures !OnlyInterrupts(event) ==> !Interrupts(to) && to != Cancelling
    ensures OnlyInterrupts(event) && !event.RunResumed? ==> (Interrupts(to) <==> !event.CancellationStarted?)
    ensures OnlyInterrupts(event) && !event.RunResumed? ==> (to == Cancelling <==> event.CancellationStarted?)
  {
  }

  lemma LeavesAnInterruption(from: Phase, event: Event)
    requires EventFrom(event, from)
    requires event.RunResumed? || event.CancellationStarted?
    ensures Interrupts(from)
  {
  }

  lemma LeavesNoTerminal(from: Phase, event: Event, to: Phase)
    requires EventTransition(from, event, to)
    ensures !Terminal(from)
  {
    hide EventPhase, EventFrom, NormalSuccessor;
  }

  lemma GatedInLongerLog(log: seq<Entry>, more: seq<Entry>, policy: Policy)
    requires log <= more && AllGated(log, policy)
    ensures forall i :: 0 <= i < |log| && more[i].event.PullRequestDelivered? ==> Gated(more, i, policy)
  {
    hide Passed, PassingCi;
    forall i | 0 <= i < |log| && more[i].event.PullRequestDelivered?
      ensures Gated(more, i, policy)
    {
      assert Gated(log, i, policy);
      var c := log[i].event.sha;
      var base :| Delivers(log, base, i, c, policy);
      PassedInLongerLog(log, more, base, c, policy, PR_REVIEW, i - 1);
      assert OnlyCandidate(more, base, i, c);
      assert Delivers(more, base, i, c, policy);
    }
  }

  lemma CandidateKept(s: Store, event: Event, to: Phase, kind: Option<CheckpointKind>, at: Time)
    requires |s.log| > 0 && CandidateBound(s)
    requires event.CandidateCreated? || Subject(event).None? || Subject(event) == s.candidate
    ensures var after := Apply(s, Append(event, to, kind), at);
            && (HasCandidate(EffectivePhase(after)) && after.candidate.Some? ==> CandidateBound(after))
            && (!HasCandidate(EffectivePhase(after)) ==> CandidateBound(after))
    ensures !event.CandidateCreated? && s.candidate.Some? ==>
      OnlyCandidate(Apply(s, Append(event, to, kind), at).log, BaseOf(s.log), |s.log|, s.candidate.value)
  {
  }

  /** A licensed delivery has its whole gate behind it. */
  lemma DeliveryIsGated(s: Store, event: Event, to: Phase, kind: Option<CheckpointKind>, at: Time, policy: Policy)
    requires StoreInv(s, policy) && Licensed(s, policy, Append(event, to, kind))
    requires event.PullRequestDelivered?
    ensures Gated(Apply(s, Append(event, to, kind), at).log, |s.log|, policy)
  {
    hide Passed, PassingCi, Replays, AllGated, PhaseTransition, GatesBehind, EffectivePhase, ExactSet, BaseOf,
         CheckpointBound, ResumeBound, OnlyCandidate, EventPhase, CandidateBound;
    var n := |s.log|;
    assert n > 0 by { DeliveryHasPast(s, policy); }
    var after := Apply(s, Append(event, to, kind), at);
    assert Settled(s, PR_REVIEW + 1, policy);
    var c := s.candidate.value;
    var base := BaseOf(s.log);
    RevalidationWasNoGate(s, policy);
    PassedInLongerLog(s.log, after.log, base, c, policy, PR_REVIEW, n - 1);
    CandidateKept(s, event, to, kind, at);
    assert Last(s.log) == after.log[n - 1];
    DeliveryHasPast(s, policy);
    assert Delivers(after.log, base, n, c, policy);
  }

  lemma DeliveryHasPast(s: Store, policy: Policy)
    requires StoreInv(s, policy)
    ensures |s.log| > 0
    ensures Last(s.log).event.CiRevalidated? && s.candidate.Some? ==> Last(s.log).event.sha == s.candidate.value
  {
  }

  lemma LastIsNotBase(s: Store)
    requires |s.log| > 0 && !Last(s.log).event.CandidateCreated?
    requires s.candidate.Some? && CandidateBound(s)
    ensures Subject(Last(s.log).event).None? || Subject(Last(s.log).event) == s.candidate
  {
  }

  /** The revalidation itself is no gate event, so the review gate was passed before it. */
  lemma RevalidationWasNoGate(s: Store, policy: Policy)
    requires |s.log| > 0 && Settled(s, PR_REVIEW + 1, policy)
    requires Last(s.log).event.CiRevalidated?
    ensures Passed(s.log, BaseOf(s.log), s.candidate.value, policy, PR_REVIEW, |s.log| - 1)
  {
    hide Passed, PassingCi, BaseOf;
    var n := |s.log|;
    var k := PassedIsLatest(s.log, BaseOf(s.log), s.candidate.value, policy, PR_REVIEW, n);
    PassedStep(s.log, BaseOf(s.log), s.candidate.value, policy, PR_REVIEW, k);
    assert NoneUpTo(s.log, k + 1, n - 1, PR_REVIEW);
    PassedLater(s.log, BaseOf(s.log), s.candidate.value, policy, PR_REVIEW, k + 1, n - 1);
  }

  lemma SettledReaches(s: Store, event: Event, to: Phase, kind: Option<CheckpointKind>, at: Time,
                       have: nat, need: nat, policy: Policy)
    requires |s.log| > 0
    requires Settled(s, have, policy) && need <= have
    requires need > 0 ==> !event.CandidateCreated? && Rank(event) >= need
    ensures Settled(Apply(s, Append(event, to, kind), at), need, policy)
  {
    hide Rank, Passed;
    if need > 0 {
      SettledLower(s, have, need, policy);
      SettledCarries(s, event, to, kind, at, need, policy);
    }
  }

  /** What is settled when an event is licensed: its own licence, or what its phase presupposes. */
  function GatesHad(event: Event, from: Phase): nat {
    match event
    case ReviewStarted(_) => LOCAL_CHECKS + 1
    case DeliveryReadied(_) => LOCAL_REVIEW + 1
    case PrReviewStarted(_) => INITIAL_CI + 1
    case CiRevalidated(_, _, _, _) => PR_REVIEW + 1
    case _ => GatesBehind(from)
  }

  /** `want` is already settled and the event leaves it alone, or the event is the gate that settles it. */
  predicate Reaches(event: Event, have: nat, want: nat) {
    want > 0 ==> !event.CandidateCreated? && (if want <= have then Rank(event) >= want
                                              else want == have + 1 && 0 < have <= PR_REVIEW && Rank(event) == have)
  }

  /** The phases with gates behind them are entered by these events only. */
  lemma GatedPhaseEntry(event: Event, to: Phase)
    requires EventPhase(event, to) && GatesBehind(to) > 0
    ensures || event.ReviewStarted? || event.ReviewCompleted? || event.DeliveryReadied? || event.BranchPushed?
            || event.PullRequestOpened? || event.CiWaiting? || event.CiCompleted? || event.CiRecheckCompleted?
            || event.PrReviewStarted? || event.PrReviewCompleted? || event.CiRevalidated? || event.RunResumed?
  {
  }

  /** The lifecycle tables never let a phase be entered before the gates behind it are settled. */
  lemma PhaseGateTable(from: Phase, event: Event, to: Phase)
    requires EventPhase(event, to) && EventFrom(event, from)
    requires !OnlyInterrupts(event)
    ensures Reaches(event, GatesHad(event, from), GatesBehind(to))
  {
    if GatesBehind(to) > 0 {
      GatedPhaseEntry(event, to);
      if event.ReviewStarted? {
      } else if event.ReviewCompleted? {
      } else if event.DeliveryReadied? {
      } else if event.BranchPushed? {
      } else if event.PullRequestOpened? {
      } else if event.CiWaiting? {
      } else if event.CiCompleted? {
      } else if event.CiRecheckCompleted? {
      } else if event.PrReviewStarted? {
      } else if event.PrReviewCompleted? {
      } else if event.CiRevalidated? {
      }
    }
  }

  /** Nor is a gate settled out of order. */
  lemma EventGateTable(from: Phase, event: Event)
    requires EventFrom(event, from)
    ensures Reaches(event, GatesHad(event, from), GatesSettled(event))
  {
  }

  lemma LicenceHolds(s: Store, event: Event, to: Phase, kind: Option<CheckpointKind>, policy: Policy)
    requires StoreInv(s, policy) && Licensed(s, policy, Append(event, to, kind))
    requires !OnlyInterrupts(event) && EffectivePhase(s) == s.phase
    ensures Settled(s, GatesHad(event, s.phase), policy)
  {
    hide Settled, Replays, AllGated, CheckpointBound, PassingCi, ExactSet, EventTransition, EffectivePhase,
         CandidateBound, ResumeBound, CiShape;
  }

  lemma GateEventPasses(s: Store, event: Event, to: Phase, kind: Option<CheckpointKind>, want: nat, policy: Policy)
    requires |s.log| > 0 && Licensed(s, policy, Append(event, to, kind))
    requires s.candidate.Some? && !event.CandidateCreated?
    requires 0 < GatesHad(event, s.phase) < want
    requires Reaches(event, GatesHad(event, s.phase), want)
    requires want == GatesBehind(to) || want == GatesSettled(event)
    ensures Passes(GatesHad(event, s.phase), event, s.candidate.value, policy)
  {
  }

  lemma GateReached(s: Store, event: Event, to: Phase, kind: Option<CheckpointKind>, at: Time,
                    have: nat, want: nat, policy: Policy)
    requires |s.log| > 0 && CandidateBound(s)
    requires Settled(s, have, policy) && Reaches(event, have, want)
    requires have < want ==> s.candidate.Some? && Passes(have, event, s.candidate.value, policy)
    ensures Settled(Apply(s, Append(event, to, kind), at), want, policy)
  {
    hide Settled, Apply, Passes, Rank, CandidateBound;
    if want <= have {
      SettledReaches(s, event, to, kind, at, have, want, policy);
    } else {
      SettledRises(s, event, to, kind, at, have, policy);
    }
  }

  lemma PhaseGatesKept(s: Store, event: Event, to: Phase, kind: Option<CheckpointKind>, at: Time, policy: Policy)
    requires StoreInv(s, policy) && Licensed(s, policy, Append(event, to, kind))
    requires !OnlyInterrupts(event) && EffectivePhase(s) == s.phase
    ensures Settled(Apply(s, Append(event, to, kind), at), GatesBehind(to), policy)
  {
    assert |s.log| > 0;
    hide Settled, Apply, Replays, AllGated, CheckpointBound, PassingCi, Passes, PhaseTransition, EventFrom,
         EventPhase, GatesSettled, GatesBehind, GatesHad, CiShape, EventLicensed, EffectivePhase, Rank,
         CandidateBound, ResumeBound;
    var have := GatesHad(event, s.phase);
    LicenceHolds(s, event, to, kind, policy);
    assert Reaches(event, have, GatesBehind(to)) by { PhaseGateTable(s.phase, event, to); }
    if have < GatesBehind(to) {
      SettledHasCandidate(s, have, policy);
      GateEventPasses(s, event, to, kind, GatesBehind(to), policy);
    }
    GateReached(s, event, to, kind, at, have, GatesBehind(to), policy);
  }

  lemma EventGatesKept(s: Store, event: Event, to: Phase, kind: Option<CheckpointKind>, at: Time, policy: Policy)
    requires StoreInv(s, policy) && Licensed(s, policy, Append(event, to, kind))
    requires !OnlyInterrupts(event) && EffectivePhase(s) == s.phase
    ensures Settled(Apply(s, Append(event, to, kind), at), GatesSettled(event), policy)
  {
    assert |s.log| > 0;
    hide Settled, Apply, Replays, AllGated, CheckpointBound, PassingCi, Passes, PhaseTransition, EventFrom,
         EventPhase, GatesSettled, GatesBehind, GatesHad, CiShape, EventLicensed, EffectivePhase, Rank,
         CandidateBound, ResumeBound;
    var have := GatesHad(event, s.phase);
    LicenceHolds(s, event, to, kind, policy);
    assert Reaches(event, have, GatesSettled(event)) by { EventGateTable(s.phase, event); }
    if have < GatesSettled(event) {
      SettledHasCandidate(s, have, policy);
      GateEventPasses(s, event, to, kind, GatesSettled(event), policy);
    }
    GateReached(s, event, to, kind, at, have, GatesSettled(event), policy);
  }

  lemma SettledHasCandidate(s: Store, gates: nat, policy: Policy)
    requires gates > 0 && Settled(s, gates, policy)
    ensures s.candidate.Some?
  {
  }

  lemma SettledNothing(s: Store, policy: Policy)
    ensures Settled(s, 0, policy)
  {
  }

  lemma CheckpointKept(s: Store, event: Event, to: Phase, kind: Option<CheckpointKind>, at: Time, policy: Policy)
    requires StoreInv(s, policy) && Licensed(s, policy, Append(event, to, kind))
    ensures CheckpointBound(Apply(s, Append(event, to, kind), at), policy)
  {
    hide Passed, Replays, AllGated, PhaseTransition, EffectivePhase, CandidateBound, ResumeBound, EventLicensed,
         EventFrom, BaseOf;
    var after := Apply(s, Append(event, to, kind), at);
    assert Last(after.log).event == event;
    if kind == Some(LocalVerificationPass) {
      assert event.VerificationCompleted? && to == LocalVerify;
      assert Settled(after, LOCAL_CHECKS + 1, policy) by { ClockIsNoGate(s, event, to, kind, at, policy); }
    }
  }

  /** Gates do not depend on when the latest event was written. */
  lemma ClockIsNoGate(s: Store, event: Event, to: Phase, kind: Option<CheckpointKind>, at: Time, policy: Policy)
    requires |s.log| > 0
    requires Settled(Apply(s, Append(event, to, kind), 0), LOCAL_CHECKS + 1, policy)
    ensures Settled(Apply(s, Append(event, to, kind), at), LOCAL_CHECKS + 1, policy)
  {
    hide ExactSet, Subject, EffectivePhase, HasCandidate, Rank;
    var one := Apply(s, Append(event, to, kind), 0);
    var two := Apply(s, Append(event, to, kind), at);
    BaseAfter(s.log, Entry(event, to, 0));
    BaseAfter(s.log, Entry(event, to, at));
    var base, n, c := BaseOf(one.log), |one.log|, one.candidate.value;
    var from, to' :| base < from <= to' <= n && Round(one.log, from, to', c, policy)
                     && NoneUpTo(one.log, to', n, LOCAL_CHECKS);
    assert forall j :: 0 <= j < n ==> one.log[j].event == two.log[j].event;
    assert RoundIds(one.log, from, to') == RoundIds(two.log, from, to');
    assert Round(two.log, from, to', c, policy) && NoneUpTo(two.log, to', n, LOCAL_CHECKS);
  }

  lemma ShapeKept(s: Store, event: Event, to: Phase, kind: Option<CheckpointKind>, policy: Policy)
    requires |s.log| > 0 && Licensed(s, policy, Append(event, to, kind))
    ensures CiShape(event, policy)
  {
  }

  /** A phase that needs a candidate is entered from one that had it, or by the event that makes it. */
  lemma CandidateTable(from: Phase, event: Event, to: Phase)
    requires EventPhase(event, to) && EventFrom(event, from)
    requires HasCandidate(to) && !event.CandidateCreated? && !OnlyInterrupts(event)
    ensures HasCandidate(from)
  {
  }

  lemma CandidateAppears(s: Store, event: Event, to: Phase, kind: Option<CheckpointKind>, at: Time, policy: Policy)
    requires StoreInv(s, policy) && Licensed(s, policy, Append(event, to, kind))
    requires EffectivePhase(Apply(s, Append(event, to, kind), at)) == EffectiveAfter(s, event, to)
    ensures CandidateBound(Apply(s, Append(event, to, kind), at))
  {
    hide Settled, Replays, AllGated, CheckpointBound, EventLicensed, ResumeBound, PhaseTransition, BaseOf, EventFrom,
         EventPhase, Subject, OnlyInterrupts, CandidateBound, HasCandidate;
    CandidateKept(s, event, to, kind, at);
    if HasCandidate(to) && !event.CandidateCreated? && !OnlyInterrupts(event) {
      CandidateTable(s.phase, event, to);
      NotInterrupted(s.phase);
    }
    PhaseHasCandidate(s);
    CleanupHasNoGates();
  }

  lemma PhaseHasCandidate(s: Store)
    requires CandidateBound(s)
    ensures HasCandidate(EffectivePhase(s)) ==> s.candidate.Some?
  {
  }

  lemma NotInterrupted(phase: Phase)
    requires HasCandidate(phase)
    ensures !Interrupts(phase) && phase != Cancelling
  {
  }

  lemma HistoryKept(s: Store, event: Event, to: Phase, kind: Option<CheckpointKind>, at: Time, policy: Policy)
    requires StoreInv(s, policy) && Licensed(s, policy, Append(event, to, kind))
    ensures var after := Apply(s, Append(event, to, kind), at);
            && Replays(after.log) && Last(after.log).phase == after.phase && AllGated(after.log, policy)
  {
    hide Settled, CandidateBound, CheckpointBound, ResumeBound, EventTransition, EventLicensed, Gated;
    var after := Apply(s, Append(event, to, kind), at);
    GatedInLongerLog(s.log, after.log, policy);
    if event.PullRequestDelivered? {
      DeliveryIsGated(s, event, to, kind, at, policy);
    }
  }

  /** The step of every induction over runs. */
  lemma LicensedKeeps(s: Store, write: Write, at: Time, policy: Policy)
    requires StoreInv(s, policy) && Licensed(s, policy, write)
    ensures StoreInv(Apply(s, write, at), policy)
  {
    hide Settled, CandidateBound, CheckpointBound, Replays, AllGated, CiShape, EventLicensed,
         GatesBehind, GatesSettled, OnlyInterrupts, ResumeBound, PhaseTransition, EventFrom, EventPhase, EffectivePhase;
    match write
    case Mark(kind) => MarkKeeps(s, kind, at, policy);
    case Append(event, to, kind) =>
      HistoryKept(s, event, to, kind, at, policy);
      LicensedResume(s, event, to, kind, policy);
      ResumeKept(s, event, to, kind, at);
      CandidateAppears(s, event, to, kind, at, policy);
      CheckpointKept(s, event, to, kind, at, policy);
      ShapeKept(s, event, to, kind, policy);
      AllGatesKept(s, event, to, kind, at, policy);
  }

  lemma LicensedResume(s: Store, event: Event, to: Phase, kind: Option<CheckpointKind>, policy: Policy)
    requires |s.log| > 0 && Licensed(s, policy, Append(event, to, kind))
    ensures event.RunResumed? ==> s.resume == Some(to)
  {
  }

  lemma AllGatesKept(s: Store, event: Event, to: Phase, kind: Option<CheckpointKind>, at: Time, policy: Policy)
    requires StoreInv(s, policy) && Licensed(s, policy, Append(event, to, kind))
    requires EffectivePhase(Apply(s, Append(event, to, kind), at)) == EffectiveAfter(s, event, to)
    ensures var after := Apply(s, Append(event, to, kind), at);
            && Settled(after, GatesBehind(EffectivePhase(after)), policy)
            && Settled(after, GatesSettled(event), policy)
  {
    hide Settled, Apply, Replays, AllGated, CheckpointBound, PhaseTransition, EventFrom, EventPhase, GatesBehind,
         CiShape, EventLicensed, CandidateBound;
    assert |s.log| > 0 by { DeliveryHasPast(s, policy); }
    if OnlyInterrupts(event) {
      var behind, still := GatesBehind(EffectivePhase(s)), GatesBehind(EffectiveAfter(s, event, to));
      InterruptsOutrank(event, EffectivePhase(s));
      assert still <= behind by { CleanupHasNoGates(); }
      SettledReaches(s, event, to, kind, at, behind, still, policy);
      SettledNothing(Apply(s, Append(event, to, kind), at), policy);
    } else if event.RunStopped? || event.RunCancelled? {
      StopsHaveNoGates(event, to);
      SettledNothing(Apply(s, Append(event, to, kind), at), policy);
    } else {
      NormalPhase(s.phase, s.resume, event);
      PhaseGatesKept(s, event, to, kind, at, policy);
      EventGatesKept(s, event, to, kind, at, policy);
    }
  }

  lemma CleanupHasNoGates()
    ensures GatesBehind(Cancelling) == 0 && !HasCandidate(Cancelling)
  {
  }

  lemma StopsHaveNoGates(event: Event, to: Phase)
    requires (event.RunStopped? || event.RunCancelled?) && EventPhase(event, to)
    ensures GatesBehind(to) == 0 && GatesSettled(event) == 0
  {
  }

  lemma NormalPhase(phase: Phase, resume: Option<Phase>, event: Event)
    requires !OnlyInterrupts(event) && !event.RunStopped? && !event.RunCancelled?
    requires EventFrom(event, phase)
    ensures !Interrupts(phase) && phase != Cancelling
  {
  }

  lemma MarkKeeps(s: Store, kind: CheckpointKind, at: Time, policy: Policy)
    requires StoreInv(s, policy) && Licensed(s, policy, Mark(kind))
    ensures StoreInv(Apply(s, Mark(kind), at), policy)
  {
    hide Passed, CiShape, EventTransition, GatesBehind, GatesSettled, AllGated;
  }

  lemma InterruptsOutrank(event: Event, phase: Phase)
    requires OnlyInterrupts(event)
    ensures Rank(event) >= GatesBehind(phase) && !event.CandidateCreated? && GatesSettled(event) == 0
  {
  }
}
