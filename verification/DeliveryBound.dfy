/**
 The doubled bound on fixing is the exact one: for every admitted budget there is a life that
 starts fixing exactly twice as often, in a single uninterrupted call.
 */
module DeliveryBound {
  import opened ExactSets
  import opened Options
  import opened DeliveryLog
  import opened DeliverySteps
  import opened DeliverySafety
  import opened DeliveryRunnerSafety
  import opened DeliveryLife
  import opened DeliveryFixes
  import opened DeliveryTermination
  import opened DeliveryPaths

  function FailedCi(contexts: seq<Name>): (checks: seq<CiCheck>)
    ensures Contexts(checks) == contexts
    ensures |checks| == |contexts| && forall i :: 0 <= i < |checks| ==> checks[i].outcome == CiFailed
  {
    seq(|contexts|, i requires 0 <= i < |contexts| => CiCheck(contexts[i], CiFailed, 0))
  }

  /** CI can be observed, and can fail: its contexts are named once each, and there is one. */
  ghost predicate CiCanFail(policy: Policy) {
    Distinct(policy.remoteContexts) && |policy.remoteContexts| > 0
  }

  /** Besides, a candidate can pass its verification at all. */
  ghost predicate CanFail(policy: Policy) {
    Distinct(policy.localChecks) && CiCanFail(policy)
  }

  /** A review that asks for changes. */
  lemma AskForChanges(w: World, policy: Policy, c: Sha, r: nat, d: nat) returns (a: Answer, next: World)
    requires At(w, LocalVerify, c, r, d) && CheckpointIsCurrent(w, LocalVerificationPass)
    ensures Turns(w, policy, [a], next) && At(next, LocalReview, c, r, d)
    ensures CheckpointIsCurrent(next, LocalReviewFixerIteration)
    ensures LatestVerdict(next.store.log, c) == Some(ChangesRequested)
  {
    hide Turns, CountFixes, PerformAll, Iterate, Fixes, LatestVerdict, CheckpointIsCurrent, CiWaitPlan, PrReviewPlan,
         CompleteLocalVerification, LocalReviewPlan;
    a := Plain(0, 0, 0, [], []).(verdict := ChangesRequested);
    var plan := StagePlan(w, policy, a);
    var started := Append(ReviewStarted(c), LocalReview, None);
    var completed := Append(ReviewCompleted(c, ChangesRequested), LocalReview, Some(LocalReviewFixerIteration));
    assert plan.writes == [started] + [completed];
    next := After(w, plan, a.clock);
    EndsWithCheckpoint(w, plan, [started], completed.event, LocalReview, LocalReviewFixerIteration, a.clock);
    LastReviewReads(next.store.log, c, ChangesRequested);
    PerformOne(w, started, a.clock);
    AfterCounts(w, plan, a.clock);
    NoFixes(plan.writes);
    PlanTaken(w, policy, a);
    OneTurnTaken(w, policy, a, next);
  }

  /** One more fix on both counters. */
  lemma FixReview(w: World, policy: Policy, c: Sha, r: nat, d: nat) returns (a: Answer, next: World)
    requires At(w, LocalReview, c, r, d) && CheckpointIsCurrent(w, LocalReviewFixerIteration)
    requires LatestVerdict(w.store.log, c) == Some(ChangesRequested) && r < policy.maxFixIterations
    ensures Turns(w, policy, [a], next) && At(next, Fixing, c, r + 1, d + 1)
  {
    hide Turns, CountFixes, PerformAll, Iterate, Fixes, LatestVerdict, CiWaitPlan, PrReviewPlan,
         CompleteLocalVerification, CompleteReview;
    a := Plain(0, 0, 0, [], []);
    var plan := StagePlan(w, policy, a);
    var fixing := Append(FixingStarted(c, r + 1), Fixing, None);
    assert plan.writes == [] + [fixing] && plan.exit == Continue;
    next := After(w, plan, a.clock);
    assert plan.writes == [fixing];
    PerformOne(w, fixing, a.clock);
    AfterCounts(w, plan, a.clock);
    NoFixes([]);
    FixesOneMore([], fixing);
    PlanTaken(w, policy, a);
    OneTurnTaken(w, policy, a, next);
  }

  /** A failed exact-head observation: one more fix on the durable count alone. */
  lemma FailCi(w: World, policy: Policy, c: Sha, r: nat, d: nat) returns (a: Answer, next: World)
    requires CanFail(policy) && At(w, CiWait, c, r, d) && !CheckpointIsCurrent(w, CiReconciliationSnapshot)
    requires LatestPullRequest(w.store.log, c).Some? && d < policy.maxFixIterations
    ensures Turns(w, policy, [a], next) && At(next, Fixing, c, r, d + 1)
  {
    hide Turns, CountFixes, ExactSet, PerformAll, Iterate, Fixes, LatestPullRequest, IntentIndex;
    var checks := FailedCi(policy.remoteContexts);
    var at := w.store.log[IntentIndex(w.store.log)].at;
    a := Plain(at, 0, 0, [], checks);
    ExactSetMeans(Contexts(checks), policy.remoteContexts);
    assert checks[0].outcome == CiFailed;
    assert DerivedOutcome(checks) == CiFailed;
    var plan := StagePlan(w, policy, a);
    var completed := Append(CiCompleted(c, CiFailed, checks, at), CiWait, Some(CiReconciliationSnapshot));
    var fixing := Append(FixingStarted(c, d + 1), Fixing, None);
    assert plan.writes == [completed] + [fixing] && plan.exit == Continue;
    next := After(w, plan, a.clock);
    PerformOne(w, completed, a.clock);
    PerformOneMore(w, [completed], fixing, a.clock);
    AfterCounts(w, plan, a.clock);
    NoFixes([completed]);
    FixesOneMore([completed], fixing);
    PlanTaken(w, policy, a);
    OneTurnTaken(w, policy, a, next);
  }

  // ---------------------------------------------------------------- the two fix cycles

  lemma ReviewCycle(w: World, policy: Policy, r: nat, d: nat) returns (answers: seq<Answer>, next: World)
    requires CanFail(policy) && Working(w, r, d) && r < policy.maxFixIterations
    ensures Turns(w, policy, answers, next) && Working(next, r + 1, d + 1)
  {
    hide Turns, CountFixes, Iterate, CheckpointIsCurrent, LatestVerdict;
    var a1, w1, c := NewCandidate(w, policy, 0, r, d);
    var a2, w2 := PassVerification(w1, policy, 0, c, r, d);
    TurnsJoin(w, policy, [a1], w1, [a2], w2);
    var a3, w3 := AskForChanges(w2, policy, c, r, d);
    TurnsJoin(w, policy, [a1] + [a2], w2, [a3], w3);
    var a4, w4 := FixReview(w3, policy, c, r, d);
    TurnsJoin(w, policy, [a1] + [a2] + [a3], w3, [a4], w4);
    answers, next := [a1] + [a2] + [a3] + [a4], w4;
  }

  lemma CiCycle(w: World, policy: Policy, r: nat, d: nat) returns (answers: seq<Answer>, next: World)
    requires CanFail(policy) && Working(w, r, d) && d < policy.maxFixIterations
    ensures Turns(w, policy, answers, next) && Working(next, r, d + 1)
  {
    hide Turns, CountFixes, Iterate, CheckpointIsCurrent, LatestVerdict, LatestPullRequest;
    var a1, w1, c := NewCandidate(w, policy, 0, r, d);
    var a2, w2 := PassVerification(w1, policy, 0, c, r, d);
    TurnsJoin(w, policy, [a1], w1, [a2], w2);
    var a3, w3 := ApproveReview(w2, policy, 0, c, r, d);
    TurnsJoin(w, policy, [a1] + [a2], w2, [a3], w3);
    var a4, w4 := ReadyDelivery(w3, policy, 0, c, r, d);
    TurnsJoin(w, policy, [a1] + [a2] + [a3], w3, [a4], w4);
    var a5, w5 := Push(w4, policy, 0, c, r, d);
    TurnsJoin(w, policy, [a1] + [a2] + [a3] + [a4], w4, [a5], w5);
    var front := [a1] + [a2] + [a3] + [a4] + [a5];
    var a6, w6 := OpenPullRequest(w5, policy, 0, c, r, d);
    TurnsJoin(w, policy, front, w5, [a6], w6);
    var a7, w7 := WaitForCi(w6, policy, 0, c, r, d);
    TurnsJoin(w, policy, front + [a6], w6, [a7], w7);
    var a8, w8 := FailCi(w7, policy, c, r, d);
    TurnsJoin(w, policy, front + [a6] + [a7], w7, [a8], w8);
    answers, next := front + [a6] + [a7] + [a8], w8;
  }

  lemma {:induction false} ManyCiCycles(w: World, policy: Policy, n: nat) returns (answers: seq<Answer>, next: World)
    requires CanFail(policy) && Working(w, 0, 0) && n <= policy.maxFixIterations
    ensures Turns(w, policy, answers, next) && Working(next, 0, n)
  {
    hide Turns, Iterate, Working;
    if n == 0 {
      WorkingHasLog(w, 0, 0);
      NoTurns(w, policy);
      answers, next := [], w;
    } else {
      var first, middle := ManyCiCycles(w, policy, n - 1);
      var second, last := CiCycle(middle, policy, 0, n - 1);
      TurnsJoin(w, policy, first, middle, second, last);
      answers, next := first + second, last;
    }
  }

  lemma WorkingHasLog(w: World, r: nat, d: nat)
    requires Working(w, r, d)
    ensures |w.store.log| > 0
  {
  }

  lemma NoTurns(w: World, policy: Policy)
    requires |w.store.log| > 0
    ensures Turns(w, policy, [], w)
  {
  }

  lemma {:induction false} ManyReviewCycles(w: World, policy: Policy, n: nat, d: nat)
    returns (answers: seq<Answer>, next: World)
    requires CanFail(policy) && Working(w, 0, d) && n <= policy.maxFixIterations
    ensures Turns(w, policy, answers, next) && Working(next, n, d + n)
  {
    hide Turns, Iterate, Working;
    if n == 0 {
      WorkingHasLog(w, 0, d);
      NoTurns(w, policy);
      answers, next := [], w;
    } else {
      var first, middle := ManyReviewCycles(w, policy, n - 1, d);
      var second, last := ReviewCycle(middle, policy, n - 1, d + n - 1);
      TurnsJoin(w, policy, first, middle, second, last);
      answers, next := first + second, last;
    }
  }

  // ---------------------------------------------------------------- the life that does it

  /**
   The bound of `FixingIsBounded` is attained for every budget: CI failures first, each
   checked against the durable count and leaving the runtime's at zero, then as many requested
   changes checked against the runtime's.
   */
  lemma FixBoundIsAttained(policy: Policy, admittedAt: Time) returns (steps: seq<LifeStep>)
    requires CanFail(policy)
    ensures CountFixes(WholeLife(policy, admittedAt, steps).store.log) == 2 * policy.maxFixIterations
  {
    hide Turns, CountFixes, WholeLife, Iterate, CanFail, Steps;
    var start, w := FirstStart(policy, admittedAt);
    var a0, w0 := SetUp(w, policy, 0);
    var a1, w1 := ManyCiCycles(w0, policy, policy.maxFixIterations);
    TurnsJoin(w, policy, a0, w0, a1, w1);
    var a2, w2 := ManyReviewCycles(w1, policy, policy.maxFixIterations, policy.maxFixIterations);
    TurnsJoin(w, policy, a0 + a1, w1, a2, w2);
    TurnsInLife(policy, admittedAt, [start], 1, w, a0 + a1 + a2, w2);
    steps := [start] + Steps(1, a0 + a1 + a2);
  }

  /** Where CI cannot fail, every life keeps to its budget. */
  lemma OnlyFailingCiOverruns(policy: Policy, admittedAt: Time, steps: seq<LifeStep>)
    requires !CiCanFail(policy)
    ensures CountFixes(WholeLife(policy, admittedAt, steps).store.log) <= policy.maxFixIterations
  {
    hide CountFixes, WholeLife;
    assert NeverOnDurableCount(policy, admittedAt, steps) by {
      forall w: World, a: Answer | |w.store.log| > 0 ensures !FixesOnDurableCount(w, policy, a) {
        NoFailingObservation(w, policy, a);
      }
    }
    FixingIsWithinBudget(policy, admittedAt, steps);
  }

  lemma NoFailingObservation(w: World, policy: Policy, a: Answer)
    requires |w.store.log| > 0 && !CiCanFail(policy)
    ensures !FixesOnDurableCount(w, policy, a)
  {
    ExactSetMeans(Contexts(a.ciChecks), policy.remoteContexts);
  }

  /** With a budget, and checks a candidate can pass: some life passes the budget if and only if CI can fail. */
  lemma BudgetCanBePassed(policy: Policy, admittedAt: Time)
    requires policy.maxFixIterations > 0 && Distinct(policy.localChecks)
    ensures (exists steps :: CountFixes(WholeLife(policy, admittedAt, steps).store.log) > policy.maxFixIterations)
            <==> CiCanFail(policy)
  {
    hide CountFixes, WholeLife;
    if CiCanFail(policy) {
      var steps := FixBoundIsAttained(policy, admittedAt);
    } else {
      forall steps ensures CountFixes(WholeLife(policy, admittedAt, steps).store.log) <= policy.maxFixIterations {
        OnlyFailingCiOverruns(policy, admittedAt, steps);
      }
    }
  }
}
