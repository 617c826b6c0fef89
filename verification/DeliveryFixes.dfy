/**
 How often a run may go back to fixing, and why every call of `run()` stops.
 */
module DeliveryFixes {
  import opened ExactSets
  import opened Options
  import opened DeliveryLog
  import opened DeliverySteps
  import opened DeliveryGates
  import opened DeliverySafety
  import opened DeliveryRunnerSafety
  import opened DeliveryLife

  // ---------------------------------------------------------------- counting

  predicate StartsFixing(write: Write) {
    write.Append? && write.event.FixingStarted?
  }

  function Fixes(writes: seq<Write>): (count: nat) {
    if |writes| == 0 then 0
    else Fixes(writes[..|writes| - 1]) + (if StartsFixing(writes[|writes| - 1]) then 1 else 0)
  }

  lemma {:induction false} CountAfter(w: World, writes: seq<Write>, clock: nat -> Time)
    requires |w.store.log| > 0
    ensures CountFixes(PerformAll(w, writes, clock).store.log) == CountFixes(w.store.log) + Fixes(writes)
  {
    if |writes| > 0 {
      var n := |writes| - 1;
      CountAfter(w, writes[..n], clock);
      var before := PerformAll(w, writes[..n], clock);
      var after := Perform(before, writes[n], clock(n));
      if writes[n].Append? {
        assert after.store.log[..|after.store.log| - 1] == before.store.log;
      }
    }
  }

  lemma {:induction false} NoFixes(writes: seq<Write>)
    requires forall i :: 0 <= i < |writes| ==> !StartsFixing(writes[i])
    ensures Fixes(writes) == 0
  {
    if |writes| > 0 {
      NoFixes(writes[..|writes| - 1]);
    }
  }

  lemma FixesOneMore(writes: seq<Write>, write: Write)
    ensures Fixes(writes + [write]) == Fixes(writes) + if StartsFixing(write) then 1 else 0
  {
  }

  /** Only the last write of a plan can start fixing, and only within one of the two counts. */
  ghost predicate FixPlan(w: World, plan: Plan, policy: Policy) {
    var n := |plan.writes|;
    var r, d := w.runtime.fixIterations, CountFixes(w.store.log);
    && (forall i :: 0 <= i < n - 1 ==> !StartsFixing(plan.writes[i]))
    && (if n > 0 && StartsFixing(plan.writes[n - 1]) then
          || (r < policy.maxFixIterations && plan.runtime.fixIterations == r + 1)
          || (w.store.phase == CiWait && d < policy.maxFixIterations && plan.runtime.fixIterations == r)
        else plan.runtime.fixIterations == r)
  }

  /**
   Whether this turn reaches the call of `#startFixing` that is given no runtime: an accepted observation of
   failed CI.
   */
  predicate FixesOnDurableCount(w: World, policy: Policy, a: Answer)
    requires |w.store.log| > 0
  {
    && w.store.phase == CiWait
    && w.store.candidate.Some?
    && (!CheckpointIsCurrent(w, CiReconciliationSnapshot)
        || (var outcome := CurrentCiOutcome(w.store.log, policy, w.store.candidate.value);
            outcome == Some(CiPending) || outcome == Some(CiNotScheduled)))
    && CiObservationAccepted(w, policy, a, w.store.candidate.value)
    && DerivedOutcome(a.ciChecks) == CiFailed
  }

  lemma StartFixingPlan(w: World, writes: seq<Write>, policy: Policy, c: Sha, runtime: Runtime, count: nat,
                        advance: bool)
    requires forall i :: 0 <= i < |writes| ==> !StartsFixing(writes[i])
    requires runtime.fixIterations == w.runtime.fixIterations
    requires if advance then count == w.runtime.fixIterations
             else w.store.phase == CiWait && count == CountFixes(w.store.log)
    ensures FixPlan(w, StartFixing(writes, runtime, policy, c, count, advance), policy)
    ensures var plan := StartFixing(writes, runtime, policy, c, count, advance);
            advance && plan.writes != writes ==> plan.runtime.fixIterations == w.runtime.fixIterations + 1
  {
  }

  lemma VerificationFixPlan(w: World, policy: Policy, a: Answer, c: Sha, opening: seq<Write>)
    requires forall i :: 0 <= i < |opening| ==> !StartsFixing(opening[i])
    ensures var plan := CompleteLocalVerification(w, policy, a, c, opening);
            && FixPlan(w, plan, policy)
            && (Fixes(plan.writes) > 0 ==> plan.runtime.fixIterations == w.runtime.fixIterations + 1)
  {
    hide ExactSet, AllPassed, SomeCheck, CheckIds, FixPlan, Fixes;
    var writes := opening + CheckWrites(c, a.checks, AllPassed(a.checks));
    CheckWritesFixNothing(c, a.checks, AllPassed(a.checks));
    StartFixingPlan(w, writes, policy, c, w.runtime, w.runtime.fixIterations, true);
    PlainPlan(w, opening, w.runtime, Stop(Quarantined), policy);
    PlainPlan(w, writes, w.runtime, Stop(BlockedExternal), policy);
    PlainPlan(w, writes, w.runtime, Continue, policy);
    PlainPlan(w, writes + [Mark(LocalVerificationPass)], w.runtime, Continue, policy);
    NoFixes(writes);
    hide StartFixing, CheckWrites;
  }

  lemma CheckWritesFixNothing(c: Sha, checks: seq<CheckResult>, passed: bool)
    ensures forall i :: 0 <= i < |CheckWrites(c, checks, passed)| ==> !StartsFixing(CheckWrites(c, checks, passed)[i])
  {
  }

  /** A plan that starts no fix and keeps the count. */
  lemma PlainPlan(w: World, writes: seq<Write>, runtime: Runtime, exit: Exit, policy: Policy)
    requires forall i :: 0 <= i < |writes| ==> !StartsFixing(writes[i])
    requires runtime.fixIterations == w.runtime.fixIterations
    ensures FixPlan(w, Plan(writes, runtime, exit), policy) && Fixes(writes) == 0
  {
    NoFixes(writes);
  }

  lemma {:induction false} LastFixCounts(writes: seq<Write>)
    requires forall i :: 0 <= i < |writes| - 1 ==> !StartsFixing(writes[i])
    ensures Fixes(writes) == if |writes| > 0 && StartsFixing(writes[|writes| - 1]) then 1 else 0
  {
    if |writes| > 0 {
      NoFixes(writes[..|writes| - 1]);
    }
  }

  /** Every stage keeps to the fixing discipline; off the durable-count call the runtime count always moves. */
  lemma StageFixPlan(w: World, policy: Policy, a: Answer)
    requires |w.store.log| > 0
    ensures FixPlan(w, StagePlan(w, policy, a), policy)
    ensures !FixesOnDurableCount(w, policy, a) && Fixes(StagePlan(w, policy, a).writes) > 0 ==>
      StagePlan(w, policy, a).runtime.fixIterations == w.runtime.fixIterations + 1
    ensures (w.store.phase == CancelRequested || w.store.phase == Cancelling)
              ==> Fixes(StagePlan(w, policy, a).writes) == 0
  {
    hide CountFixes, CandidateStage, FixesOnDurableCount;
    var plan := StagePlan(w, policy, a);
    if w.store.candidate.Some? {
      CandidateStageFixPlan(w, policy, a, w.store.candidate.value);
    }
    if !HasCandidate(w.store.phase) || w.store.phase == Fixing {
      LastFixCounts(plan.writes);
    }
  }

  lemma CandidateStageFixPlan(w: World, policy: Policy, a: Answer, c: Sha)
    requires |w.store.log| > 0 && w.store.candidate == Some(c)
    ensures var plan := CandidateStage(w, policy, a, c);
            && FixPlan(w, plan, policy)
            && (!FixesOnDurableCount(w, policy, a) && Fixes(plan.writes) > 0 ==>
                  plan.runtime.fixIterations == w.runtime.fixIterations + 1)
  {
    hide CountFixes, CompleteLocalVerification, CiWaitPlan, PrReviewPlan, LocalVerifyPlan, LocalReviewPlan, Fixes,
         FixesOnDurableCount;
    match w.store.phase {
      case CandidateReady =>
        VerificationFixPlan(w, policy, a, c, [Append(VerificationStarted(c), LocalVerify, None)]);
        LastFixCounts(CandidateStage(w, policy, a, c).writes);
      case LocalVerify => LocalVerifyFixPlan(w, policy, a, c);
      case LocalReview => LocalReviewFixPlan(w, policy, a, c);
      case CiWait => CiWaitFixPlan(w, policy, a, c);
      case PrReview => PrReviewFixPlan(w, policy, a, c);
      case _ => LastFixCounts(CandidateStage(w, policy, a, c).writes);
    }
  }

  lemma LocalVerifyFixPlan(w: World, policy: Policy, a: Answer, c: Sha)
    ensures var plan := LocalVerifyPlan(w, policy, a, c);
            && FixPlan(w, plan, policy)
            && (Fixes(plan.writes) > 0 ==> plan.runtime.fixIterations == w.runtime.fixIterations + 1)
  {
    hide CountFixes, CompleteLocalVerification, CheckpointIsCurrent;
    VerificationFixPlan(w, policy, a, c, []);
    LastFixCounts(LocalVerifyPlan(w, policy, a, c).writes);
  }

  lemma LocalReviewFixPlan(w: World, policy: Policy, a: Answer, c: Sha)
    ensures var plan := LocalReviewPlan(w, policy, a, c);
            && FixPlan(w, plan, policy)
            && (Fixes(plan.writes) > 0 ==> plan.runtime.fixIterations == w.runtime.fixIterations + 1)
  {
    hide CountFixes, LatestVerdict, CheckpointIsCurrent;
    LastFixCounts(LocalReviewPlan(w, policy, a, c).writes);
  }

  lemma CompleteCiFixPlan(w: World, policy: Policy, a: Answer, c: Sha)
    requires |w.store.log| > 0 && w.store.phase == CiWait
    ensures FixPlan(w, CompleteCi(w, policy, a, c), policy)
    ensures !CiObservationAccepted(w, policy, a, c) || DerivedOutcome(a.ciChecks) != CiFailed ==>
              Fixes(CompleteCi(w, policy, a, c).writes) == 0
  {
    hide CiObservationAccepted, DerivedOutcome, FixPlan, Fixes, CountFixes;
    var outcome := DerivedOutcome(a.ciChecks);
    var writes := [Append(CiCompleted(c, outcome, a.ciChecks, a.ciObservedAt), CiWait, Some(CiReconciliationSnapshot))];
    StartFixingPlan(w, writes, policy, c, w.runtime, CountFixes(w.store.log), false);
    PlainPlan(w, [], w.runtime, Stop(Quarantined), policy);
    PlainPlan(w, writes, w.runtime, Continue, policy);
    PlainPlan(w, writes, w.runtime, Rethrow, policy);
    hide StartFixing;
  }

  lemma CiWaitFixPlan(w: World, policy: Policy, a: Answer, c: Sha)
    requires |w.store.log| > 0 && w.store.phase == CiWait && w.store.candidate == Some(c)
    ensures var plan := CiWaitPlan(w, policy, a, c);
            && FixPlan(w, plan, policy)
            && (!FixesOnDurableCount(w, policy, a) && Fixes(plan.writes) > 0 ==>
                  plan.runtime.fixIterations == w.runtime.fixIterations + 1)
  {
    hide CountFixes, CurrentCiOutcome, CheckpointIsCurrent, DerivedOutcome, CiObservationAccepted, CompleteCi,
         FixPlan, Fixes;
    var started := [Append(PrReviewStarted(c), PrReview, None)];
    CompleteCiFixPlan(w, policy, a, c);
    NoFixes([]);
    StartFixingPlan(w, [], policy, c, w.runtime, w.runtime.fixIterations, true);
    PlainPlan(w, [], w.runtime, Stop(Quarantined), policy);
    ReviewFixPlan(w, policy, a, c, started, false);
    hide StartFixing, CompleteReview;
  }

  lemma ReviewFixPlan(w: World, policy: Policy, a: Answer, c: Sha, opening: seq<Write>, local: bool)
    requires forall i :: 0 <= i < |opening| ==> !StartsFixing(opening[i])
    ensures var plan := CompleteReview(w, a, c, opening, local); FixPlan(w, plan, policy) && Fixes(plan.writes) == 0
  {
    var plan := CompleteReview(w, a, c, opening, local);
    PlainPlan(w, plan.writes, plan.runtime, plan.exit, policy);
  }

  lemma PrReviewFixPlan(w: World, policy: Policy, a: Answer, c: Sha)
    requires |w.store.log| > 0
    ensures var plan := PrReviewPlan(w, policy, a, c);
            && FixPlan(w, plan, policy)
            && (Fixes(plan.writes) > 0 ==> plan.runtime.fixIterations == w.runtime.fixIterations + 1)
  {
    hide CountFixes, LatestPrReview, CheckpointIsCurrent, DerivedOutcome, CiObservationAccepted, DurableFinalCi,
         LatestPullRequest;
    LastFixCounts(PrReviewPlan(w, policy, a, c).writes);
  }

  // ---------------------------------------------------------------- the bound over a whole life

  /** A worker's counter `r` against the durable count `d`. */
  predicate CountsSound(r: nat, d: nat, max: nat) {
    r <= d && d - r <= max && (r <= max || d == r)
  }

  ghost predicate FixInv(life: Life, policy: Policy) {
    var d := CountFixes(life.store.log);
    && d <= 2 * policy.maxFixIterations
    && (life.store.generation in life.workers ==>
          CountsSound(life.workers[life.store.generation].fixIterations, d, policy.maxFixIterations))
  }

  lemma StopFixes(store: Store, exit: Exit, disposal: Disposal)
    ensures Fixes(StopWrites(store, exit, disposal)) == 0
  {
  }

  lemma LeaveFixes(w: World, exit: Exit, a: Answer, used: nat)
    requires |w.store.log| > 0
    ensures CountFixes(Leave(w, exit, a, used).store.log) == CountFixes(w.store.log)
  {
    hide CountFixes, StopWrites, PerformAll;
    StopFixes(w.store, exit, a.disposal);
    CountAfter(w, StopWrites(w.store, exit, a.disposal), Later(a.clock, used));
  }

  lemma {:induction false} RuntimeKept(w: World, writes: seq<Write>, clock: nat -> Time)
    requires |w.store.log| > 0
    ensures PerformAll(w, writes, clock).runtime.fixIterations == w.runtime.fixIterations
  {
    if |writes| > 0 {
      RuntimeKept(w, writes[..|writes| - 1], clock);
    }
  }

  lemma {:induction false} FixesMonotone(writes: seq<Write>, k: nat)
    requires k <= |writes|
    ensures Fixes(writes[..k]) <= Fixes(writes)
    decreases |writes|
  {
    if k < |writes| {
      assert writes[..|writes| - 1][..k] == writes[..k];
      FixesMonotone(writes[..|writes| - 1], k);
    } else {
      assert writes[..k] == writes;
    }
  }

  /** What one turn does to the two counters. */
  lemma TurnCounts(w: World, policy: Policy, a: Answer)
    requires |w.store.log| > 0
    ensures var turn, d, r := Iterate(w, policy, a), CountFixes(w.store.log), w.runtime.fixIterations;
            var d', r' := CountFixes(turn.world.store.log), turn.world.runtime.fixIterations;
            && d <= d' <= d + 1
            && (d' == d + 1 ==> r < policy.maxFixIterations || d < policy.maxFixIterations)
            && (turn.again ==>
                  || (d' == d && r' == r)
                  || (d' == d + 1 && r' == r + 1 && r < policy.maxFixIterations)
                  || (d' == d + 1 && r' == r && d < policy.maxFixIterations))
            && (!FixesOnDurableCount(w, policy, a) ==>
                  && (d' == d + 1 ==> r < policy.maxFixIterations)
                  && (turn.again ==> d' - d == r' - r))
            && (w.store.phase == CancelRequested || w.store.phase == Cancelling ==> d' == d)
  {
    hide CountFixes, StagePlan, Leave, PerformAll, FixesOnDurableCount;
    var plan := StagePlan(w, policy, a);
    StageFixPlan(w, policy, a);
    LastFixCounts(plan.writes);
    var k := if a.broken.Some? && a.cut <= |plan.writes| then a.cut else |plan.writes|;
    CountAfter(w, plan.writes[..k], a.clock);
    FixesMonotone(plan.writes, k);
    assert plan.writes[..|plan.writes|] == plan.writes;
    var done := PerformAll(w, plan.writes[..k], a.clock);
    if a.broken.Some? {
      LeaveFixes(done, a.broken.value, a, k);
    } else {
      var kept := World(done.store, plan.runtime.(latest := done.runtime.latest));
      LeaveFixes(kept, plan.exit, a, k);
      LeaveContinues(kept, a, k);
    }
  }

  lemma LeaveContinues(w: World, a: Answer, used: nat)
    requires |w.store.log| > 0
    ensures Leave(w, Continue, a, used) == w
  {
  }

  lemma WriteFixes(s: Store, write: Write, at: Time)
    requires |s.log| > 0 && !StartsFixing(write)
    ensures CountFixes(Apply(s, write, at).log) == CountFixes(s.log)
  {
  }

  lemma StartFixInv(life: Life, policy: Policy, takeover: bool, action: RecoveryAction, a: Answer)
    requires LifeInv(life, policy) && FixInv(life, policy)
    ensures |life.store.log| > 0
    ensures FixInv(StartStep(life, policy, takeover, action, a), policy)
  {
    hide StoreInv, CountFixes, Iterate, Leave;
    InvHasLog(life.store, policy);
    var store := life.store.(generation := life.store.generation + 1);
    var w := Blank(store);
    if store.phase == CancelRequested || store.phase == Cancelling {
      TurnCounts(w, policy, a);
      GenerationKeptByTurn(w, policy, a);
    } else if a.broken.Some? {
      LeaveFixes(w, a.broken.value, a, 0);
      GenerationKeptByLeave(w, a.broken.value, a, 0);
    } else {
      LeaveFixes(w, Stop(Quarantined), a, 0);
      GenerationKeptByLeave(w, Stop(Quarantined), a, 0);
      WriteFixes(store, Mark(WorkOrderAdmission), 0);
    }
  }

  lemma TurnFixInv(life: Life, policy: Policy, generation: nat, a: Answer)
    requires LifeInv(life, policy) && FixInv(life, policy)
    ensures |life.store.log| > 0
    ensures FixInv(TurnStep(life, policy, generation, a), policy)
  {
    hide StoreInv, CountFixes, Iterate;
    InvHasLog(life.store, policy);
    if generation in life.workers && generation == life.store.generation {
      var w := World(life.store, life.workers[generation]);
      TurnCounts(w, policy, a);
      GenerationKeptByTurn(w, policy, a);
    }
  }

  lemma LiveFixInv(life: Life, policy: Policy, step: LifeStep)
    requires LifeInv(life, policy) && FixInv(life, policy)
    ensures |life.store.log| > 0
    ensures FixInv(Live(life, policy, step), policy)
  {
    hide StoreInv, CountFixes, StartStep, TurnStep, EventTransition;
    InvHasLog(life.store, policy);
    match step
    case StartRun(takeover, action, a) => StartFixInv(life, policy, takeover, action, a);
    case TurnOf(generation, a) => TurnFixInv(life, policy, generation, a);
    case ResumeRun(cursor, at) =>
      var store := life.store;
      if store.resume.Some? {
        WriteFixes(store, Append(RunResumed(store.candidate, cursor), store.resume.value, None), at);
      }
    case RequestCancellation(at) =>
      WriteFixes(life.store, Append(Cancellation(life.store), CancelRequested, None), at);
  }

  lemma {:induction false} LifeFixInv(policy: Policy, admittedAt: Time, steps: seq<LifeStep>)
    ensures FixInv(WholeLife(policy, admittedAt, steps), policy)
  {
    hide LifeInv, Live, FixInv;
    if |steps| == 0 {
      AdmissionCounts(admittedAt, policy);
    } else {
      var n := |steps| - 1;
      LifeFixInv(policy, admittedAt, steps[..n]);
      LifeIsSafe(policy, admittedAt, steps[..n]);
      LiveFixInv(WholeLife(policy, admittedAt, steps[..n]), policy, steps[n]);
    }
  }

  lemma AdmissionCounts(at: Time, policy: Policy)
    ensures FixInv(Admission(at), policy)
    ensures CountFixes(Admission(at).store.log) == 0
  {
  }

  /**
   Over a run's whole life, restarts and crashes included, fixing starts at most twice the
   admitted budget: one of the callers of the guard compares the durable count but leaves the
   runtime's count behind.
   */
  lemma FixingIsBounded(policy: Policy, admittedAt: Time, steps: seq<LifeStep>)
    ensures CountFixes(WholeLife(policy, admittedAt, steps).store.log) <= 2 * policy.maxFixIterations
  {
    hide CountFixes, WholeLife;
    LifeFixInv(policy, admittedAt, steps);
  }

  // ---------------------------------------------------------------- exactly when the budget is passed

  /**
   The turn at `i` starts fixing although the durable count has reached the budget: it is compared with the
   runtime's own count, which an earlier start on the durable count has left behind.
   */
  ghost predicate StartsPastBudget(policy: Policy, admittedAt: Time, steps: seq<LifeStep>, i: nat)
    requires i < |steps|
  {
    var life, step := WholeLife(policy, admittedAt, steps[..i]), steps[i];
    && step.TurnOf? && step.generation in life.workers && step.generation == life.store.generation
    && CountFixes(Live(life, policy, step).store.log) == CountFixes(life.store.log) + 1
    && life.workers[step.generation].fixIterations < policy.maxFixIterations <= CountFixes(life.store.log)
  }

  lemma StartCounts(life: Life, policy: Policy, step: LifeStep)
    requires |life.store.log| > 0 && step.StartRun?
    ensures CountFixes(Live(life, policy, step).store.log) == CountFixes(life.store.log)
  {
    hide CountFixes, Iterate, Leave, EventTransition;
    var store := life.store.(generation := life.store.generation + 1);
    var w := Blank(store);
    TurnCounts(w, policy, step.answer);
    LeaveFixes(w, Stop(Quarantined), step.answer, 0);
    WriteFixes(store, Mark(WorkOrderAdmission), 0);
    if step.answer.broken.Some? {
      LeaveFixes(w, step.answer.broken.value, step.answer, 0);
    }
  }

  /** No step loses a start of fixing, and only a turn of the current worker adds one. */
  lemma LiveCounts(life: Life, policy: Policy, step: LifeStep)
    requires |life.store.log| > 0
    ensures var d, d' := CountFixes(life.store.log), CountFixes(Live(life, policy, step).store.log);
            && d <= d' <= d + 1
            && (d' == d + 1 ==>
                  && step.TurnOf? && step.generation in life.workers && step.generation == life.store.generation
                  && (life.workers[step.generation].fixIterations < policy.maxFixIterations
                      || d < policy.maxFixIterations))
  {
    hide CountFixes, Iterate, Leave, EventTransition;
    match step
    case StartRun(takeover, action, a) =>
      StartCounts(life, policy, step);
    case TurnOf(generation, a) =>
      if generation in life.workers && generation == life.store.generation {
        TurnCounts(World(life.store, life.workers[generation]), policy, a);
      }
    case ResumeRun(cursor, at) =>
      var store := life.store;
      if store.resume.Some? {
        WriteFixes(store, Append(RunResumed(store.candidate, cursor), store.resume.value, None), at);
      }
    case RequestCancellation(at) =>
      WriteFixes(life.store, Append(Cancellation(life.store), CancelRequested, None), at);
  }

  /** A start past the budget leaves the count above it for the rest of the life. */
  lemma {:induction false} PastBudgetStays(policy: Policy, admittedAt: Time, steps: seq<LifeStep>, i: nat)
    requires i < |steps| && StartsPastBudget(policy, admittedAt, steps, i)
    ensures CountFixes(WholeLife(policy, admittedAt, steps).store.log) > policy.maxFixIterations
    decreases |steps|
  {
    hide CountFixes, Live;
    var n := |steps| - 1;
    LiveCounts(WholeLife(policy, admittedAt, steps[..n]), policy, steps[n]);
    if i < n {
      assert steps[..n][..i] == steps[..i];
      PastBudgetStays(policy, admittedAt, steps[..n], i);
    }
  }

  /** The step that first brings the count above the budget. */
  lemma {:induction false} CrossingStep(policy: Policy, admittedAt: Time, steps: seq<LifeStep>) returns (i: nat)
    requires CountFixes(WholeLife(policy, admittedAt, steps).store.log) > policy.maxFixIterations
    ensures i < |steps| && StartsPastBudget(policy, admittedAt, steps, i)
    decreases |steps|
  {
    hide CountFixes, Live;
    AdmissionCounts(admittedAt, policy);
    var n := |steps| - 1;
    var before := WholeLife(policy, admittedAt, steps[..n]);
    LiveCounts(before, policy, steps[n]);
    if CountFixes(before.store.log) > policy.maxFixIterations {
      i := CrossingStep(policy, admittedAt, steps[..n]);
      assert steps[..n][..i] == steps[..i];
    } else {
      i := n;
    }
  }

  /**
   A life starts fixing more often than admitted if and only if some turn of it starts fixing with the
   runtime's count still below the budget and the durable count no longer.
   */
  lemma BudgetIsPassedExactly(policy: Policy, admittedAt: Time, steps: seq<LifeStep>)
    ensures CountFixes(WholeLife(policy, admittedAt, steps).store.log) > policy.maxFixIterations
            <==> exists i :: 0 <= i < |steps| && StartsPastBudget(policy, admittedAt, steps, i)
  {
    hide CountFixes, WholeLife, StartsPastBudget;
    if CountFixes(WholeLife(policy, admittedAt, steps).store.log) > policy.maxFixIterations {
      var i := CrossingStep(policy, admittedAt, steps);
    }
    if i :| 0 <= i < |steps| && StartsPastBudget(policy, admittedAt, steps, i) {
      PastBudgetStays(policy, admittedAt, steps, i);
    }
  }

  /** No turn of this life reaches the call that is given no runtime. */
  ghost predicate NeverOnDurableCount(policy: Policy, admittedAt: Time, steps: seq<LifeStep>) {
    forall i :: 0 <= i < |steps| && steps[i].TurnOf? ==>
      var life := WholeLife(policy, admittedAt, steps[..i]);
      steps[i].generation in life.workers && steps[i].generation == life.store.generation ==>
        !FixesOnDurableCount(World(life.store, life.workers[steps[i].generation]), policy, steps[i].answer)
  }

  ghost predicate ExactFixInv(life: Life, policy: Policy) {
    life.store.generation in life.workers ==>
      life.workers[life.store.generation].fixIterations == CountFixes(life.store.log)
  }

  lemma LiveExactFixInv(life: Life, policy: Policy, step: LifeStep)
    requires LifeInv(life, policy) && ExactFixInv(life, policy)
    requires |life.store.log| > 0
    requires step.TurnOf? && step.generation in life.workers && step.generation == life.store.generation ==>
               !FixesOnDurableCount(World(life.store, life.workers[step.generation]), policy, step.answer)
    ensures ExactFixInv(Live(life, policy, step), policy)
  {
    hide StoreInv, CountFixes, Iterate, Leave, EventTransition, FixesOnDurableCount;
    match step
    case StartRun(takeover, action, a) =>
      var store := life.store.(generation := life.store.generation + 1);
      var w := Blank(store);
      TurnCounts(w, policy, a);
      GenerationKeptByTurn(w, policy, a);
      LeaveFixes(w, Stop(Quarantined), a, 0);
      GenerationKeptByLeave(w, Stop(Quarantined), a, 0);
      WriteFixes(store, Mark(WorkOrderAdmission), 0);
      if a.broken.Some? {
        LeaveFixes(w, a.broken.value, a, 0);
        GenerationKeptByLeave(w, a.broken.value, a, 0);
      }
    case TurnOf(generation, a) =>
      if generation in life.workers && generation == life.store.generation {
        var w := World(life.store, life.workers[generation]);
        TurnCounts(w, policy, a);
        GenerationKeptByTurn(w, policy, a);
      }
    case ResumeRun(cursor, at) =>
      var store := life.store;
      if store.resume.Some? {
        WriteFixes(store, Append(RunResumed(store.candidate, cursor), store.resume.value, None), at);
      }
    case RequestCancellation(at) =>
      WriteFixes(life.store, Append(Cancellation(life.store), CancelRequested, None), at);
  }

  lemma {:induction false} LifeExactFixInv(policy: Policy, admittedAt: Time, steps: seq<LifeStep>)
    requires NeverOnDurableCount(policy, admittedAt, steps)
    ensures ExactFixInv(WholeLife(policy, admittedAt, steps), policy)
  {
    hide LifeInv, Live, FixesOnDurableCount, CountFixes;
    if |steps| == 0 {
      AdmissionCounts(admittedAt, policy);
    } else {
      var n := |steps| - 1;
      forall i | 0 <= i < n ensures steps[..n][..i] == steps[..i] {
      }
      LifeExactFixInv(policy, admittedAt, steps[..n]);
      LifeIsSafe(policy, admittedAt, steps[..n]);
      LiveExactFixInv(WholeLife(policy, admittedAt, steps[..n]), policy, steps[n]);
    }
  }

  /** Lives that never take that call keep to the admitted budget itself: their counts never part. */
  lemma FixingIsWithinBudget(policy: Policy, admittedAt: Time, steps: seq<LifeStep>)
    requires NeverOnDurableCount(policy, admittedAt, steps)
    ensures CountFixes(WholeLife(policy, admittedAt, steps).store.log) <= policy.maxFixIterations
  {
    hide CountFixes, WholeLife, FixesOnDurableCount, Live;
    BudgetIsPassedExactly(policy, admittedAt, steps);
    forall i | 0 <= i < |steps| ensures !StartsPastBudget(policy, admittedAt, steps, i) {
      forall j | 0 <= j < i ensures steps[..i][..j] == steps[..j] {
      }
      LifeExactFixInv(policy, admittedAt, steps[..i]);
    }
  }
}
