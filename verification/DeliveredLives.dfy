/**
 Lives that are delivered: one the finalizer accepts, and one of each kind that it refuses.
 */
module DeliveredLives {
  import opened ExactSets
  import opened Options
  import opened DeliveryLog
  import opened DeliverySteps
  import opened DeliverySafety
  import opened DeliveryRunnerSafety
  import opened DeliveryLife
  import opened DeliveryFixes
  import opened DeliveryTermination
  import opened DeliveryPaths
  import opened EvidenceFinalizer
  import opened DeliveryAgreement
  import opened FinalizerAgreement

  /** Policies whose checks and contexts are named once each, so that exactly they can be reported. */
  ghost predicate CanDeliver(policy: Policy) {
    Distinct(policy.localChecks) && Distinct(policy.remoteContexts)
  }

  // ---------------------------------------------------------------- lives at a single moment

  ghost predicate Steady(log: seq<Entry>, at: Time) {
    forall i :: 0 <= i < |log| ==> log[i].at == at
  }

  ghost predicate SteadyStep(step: LifeStep, at: Time) {
    match step
    case StartRun(_, _, a) => AnswerAt(a, at)
    case TurnOf(_, a) => AnswerAt(a, at)
    case ResumeRun(cursor, t) => cursor.None? && t == at
    case RequestCancellation(t) => t == at
  }

  lemma {:induction false} WritesSteady(w: World, writes: seq<Write>, clock: nat -> Time, at: Time)
    requires |w.store.log| > 0 && Steady(w.store.log, at) && forall i: nat :: clock(i) == at
    ensures Steady(PerformAll(w, writes, clock).store.log, at)
  {
    if |writes| > 0 {
      WritesSteady(w, writes[..|writes| - 1], clock, at);
    }
  }

  lemma LeaveSteady(w: World, exit: Exit, a: Answer, used: nat, at: Time)
    requires |w.store.log| > 0 && Steady(w.store.log, at) && AnswerAt(a, at)
    ensures Steady(Leave(w, exit, a, used).store.log, at)
  {
    hide PerformAll, StopWrites;
    WritesSteady(w, StopWrites(w.store, exit, a.disposal), Later(a.clock, used), at);
  }

  lemma TurnSteady(w: World, policy: Policy, a: Answer, at: Time)
    requires |w.store.log| > 0 && Steady(w.store.log, at) && AnswerAt(a, at)
    ensures Steady(Iterate(w, policy, a).world.store.log, at)
  {
    hide PerformAll, StagePlan, Leave, Steady;
    var plan := StagePlan(w, policy, a);
    var k := if a.broken.Some? && a.cut <= |plan.writes| then a.cut else |plan.writes|;
    WritesSteady(w, plan.writes[..k], a.clock, at);
    assert plan.writes[..|plan.writes|] == plan.writes;
    var done := PerformAll(w, plan.writes[..k], a.clock);
    if a.broken.Some? {
      LeaveSteady(done, a.broken.value, a, k, at);
    } else {
      LeaveSteady(World(done.store, plan.runtime.(latest := done.runtime.latest)), plan.exit, a, k, at);
    }
  }

  lemma LiveSteady(life: Life, policy: Policy, step: LifeStep, at: Time)
    requires |life.store.log| > 0 && Steady(life.store.log, at) && SteadyStep(step, at)
    ensures Steady(Live(life, policy, step).store.log, at) && StepMonotone(life.store, step)
  {
    hide Iterate, Leave, EventTransition;
    var store := life.store;
    match step
    case StartRun(takeover, action, a) =>
      var w := Blank(store.(generation := store.generation + 1));
      TurnSteady(w, policy, a, at);
      LeaveSteady(w, Stop(Quarantined), a, 0, at);
      if a.broken.Some? {
        LeaveSteady(w, a.broken.value, a, 0, at);
      }
    case TurnOf(generation, a) =>
      if generation in life.workers && generation == store.generation {
        TurnSteady(World(store, life.workers[generation]), policy, a, at);
      }
    case ResumeRun(cursor, t) =>
    case RequestCancellation(t) =>
  }

  ghost predicate SteadySteps(steps: seq<LifeStep>, at: Time) {
    forall i :: 0 <= i < |steps| ==> SteadyStep(steps[i], at)
  }

  /** A life lived at one moment has a clock that never goes back. */
  lemma {:induction false} SteadyLife(policy: Policy, at: Time, steps: seq<LifeStep>)
    requires SteadySteps(steps, at)
    ensures MonotoneLife(policy, at, steps) && Steady(WholeLife(policy, at, steps).store.log, at)
  {
    hide Live, StepMonotone, SteadyStep;
    if |steps| > 0 {
      var n := |steps| - 1;
      SteadyLife(policy, at, steps[..n]);
      LiveSteady(WholeLife(policy, at, steps[..n]), policy, steps[n], at);
      forall i | 0 <= i < |steps| ensures StepMonotone(WholeLife(policy, at, steps[..i]).store, steps[i]) {
        if i < n {
          assert steps[..n][..i] == steps[..i] && steps[..n][i] == steps[i];
        }
      }
    }
  }

  // ---------------------------------------------------------------- what the log tells of the candidate

  /** `c` was made at `b` and is the last candidate; nothing was checked before, and `k` results came since. */
  ghost predicate Told(log: seq<Entry>, b: nat, c: Sha, k: nat) {
    && b < |log| && IsCandidate(log[b], c)
    && (forall j :: b < j < |log| ==> !log[j].event.CandidateCreated?)
    && (forall j :: 0 <= j <= b ==> !log[j].event.VerificationCompleted?)
    && |VerificationIds(log[b + 1..], c)| == k
  }

  predicate IsResult(event: Event, c: Sha) {
    event.VerificationCompleted? && event.sha == c
  }

  lemma ToldOneMore(log: seq<Entry>, entry: Entry, b: nat, c: Sha, k: nat)
    requires Told(log, b, c, k) && !entry.event.CandidateCreated?
    ensures Told(log + [entry], b, c, k + if IsResult(entry.event, c) then 1 else 0)
  {
    var more := log + [entry];
    assert more[b + 1..] == log[b + 1..] + [entry];
    assert more[b + 1..][..|more| - b - 2] == log[b + 1..];
  }

  function Results(writes: seq<Write>, c: Sha): nat {
    if |writes| == 0 then 0
    else
      var last := writes[|writes| - 1];
      Results(writes[..|writes| - 1], c) + if last.Append? && IsResult(last.event, c) then 1 else 0
  }

  lemma {:induction false} WritesTell(w: World, writes: seq<Write>, clock: nat -> Time, b: nat, c: Sha, k: nat)
    requires |w.store.log| > 0 && Told(w.store.log, b, c, k)
    requires forall i :: 0 <= i < |writes| && writes[i].Append? ==> !writes[i].event.CandidateCreated?
    ensures Told(PerformAll(w, writes, clock).store.log, b, c, k + Results(writes, c))
  {
    hide Told, IsResult, Perform;
    if |writes| > 0 {
      var n := |writes| - 1;
      WritesTell(w, writes[..n], clock, b, c, k);
      OneWriteTells(PerformAll(w, writes[..n], clock), writes[n], clock(n), b, c, k + Results(writes[..n], c));
    }
  }

  lemma OneWriteTells(w: World, write: Write, at: Time, b: nat, c: Sha, k: nat)
    requires |w.store.log| > 0 && Told(w.store.log, b, c, k)
    requires write.Append? ==> !write.event.CandidateCreated?
    ensures Told(Perform(w, write, at).store.log, b, c, k + if write.Append? && IsResult(write.event, c) then 1 else 0)
  {
    hide Told, IsResult;
    if write.Append? {
      ToldOneMore(w.store.log, Entry(write.event, write.to, at), b, c, k);
    }
  }

  /** A write that neither makes a candidate nor reports a check. */
  predicate Quiet(write: Write) {
    write.Append? ==> !write.event.CandidateCreated? && !write.event.VerificationCompleted?
  }

  ghost predicate AllQuiet(writes: seq<Write>) {
    forall i :: 0 <= i < |writes| ==> Quiet(writes[i])
  }

  lemma {:induction false} QuietTells(writes: seq<Write>, c: Sha)
    requires AllQuiet(writes)
    ensures Results(writes, c) == 0
  {
    if |writes| > 0 {
      QuietTells(writes[..|writes| - 1], c);
    }
  }

  /** Past its local checks a run is quiet. */
  predicate PastChecks(w: World) {
    || w.store.phase.LocalReview? || w.store.phase.DeliveryReady? || w.store.phase.Pushed? || w.store.phase.PrOpen?
    || w.store.phase.CiWait? || w.store.phase.PrReview?
    || (w.store.phase.LocalVerify? && CheckpointIsCurrent(w, LocalVerificationPass))
  }

  lemma StageIsQuiet(w: World, policy: Policy, a: Answer)
    requires |w.store.log| > 0 && PastChecks(w)
    ensures AllQuiet(StagePlan(w, policy, a).writes)
  {
    hide CompleteLocalVerification, LatestVerdict, LatestPrReview, LatestPullRequest, CurrentCiOutcome, CountFixes,
         DerivedOutcome, CiObservationAccepted, DurableFinalCi, ExactSet;
  }

  /** A turn taken in full, past the checks. */
  lemma QuietTurn(w: World, policy: Policy, a: Answer, next: World, at: Time, b: nat, c: Sha, k: nat)
    requires |w.store.log| > 0 && PastChecks(w) && Turns(w, policy, [a], next)
    requires Told(w.store.log, b, c, k) && Steady(w.store.log, at) && AnswerAt(a, at)
    ensures Told(next.store.log, b, c, k) && Steady(next.store.log, at)
  {
    hide StagePlan, PerformAll, Told, Steady, PastChecks;
    OneTurnIs(w, policy, a, next);
    StageIsQuiet(w, policy, a);
    QuietTells(StagePlan(w, policy, a).writes, c);
    WritesTell(w, StagePlan(w, policy, a).writes, a.clock, b, c, k);
    TurnSteady(w, policy, a, at);
    TurnTaken(w, policy, a);
  }

  lemma OneTurnIs(w: World, policy: Policy, a: Answer, next: World)
    requires Turns(w, policy, [a], next)
    ensures |w.store.log| > 0 && Iterate(w, policy, a) == Turn(next, true)
  {
    hide Iterate;
    assert [a][1..] == [];
  }

  /** A turn that goes round again performed its whole plan and nothing else. */
  lemma TurnTaken(w: World, policy: Policy, a: Answer)
    requires |w.store.log| > 0 && Iterate(w, policy, a).again
    ensures Iterate(w, policy, a).world.store == PerformAll(w, StagePlan(w, policy, a).writes, a.clock).store
  {
    hide StagePlan, PerformAll, Leave;
    var plan := StagePlan(w, policy, a);
    var done := PerformAll(w, plan.writes, a.clock);
    LeaveContinues(World(done.store, plan.runtime.(latest := done.runtime.latest)), a, |plan.writes|);
  }

  // ---------------------------------------------------------------- from the checks to the delivery

  function PassedCi(contexts: seq<Name>): (checks: seq<CiCheck>)
    ensures Contexts(checks) == contexts
    ensures |checks| == |contexts| && forall i :: 0 <= i < |checks| ==> checks[i].outcome == CiPassed
  {
    seq(|contexts|, i requires 0 <= i < |contexts| => CiCheck(contexts[i], CiPassed, 0))
  }

  lemma OtherEventsKeepIt(log: seq<Entry>, entry: Entry, c: Sha)
    requires !entry.event.PullRequestOpened?
    ensures LatestPullRequest(log + [entry], c) == LatestPullRequest(log, c)
  {
    var more := log + [entry];
    assert more[..|log|] == log;
    assert forall j :: 0 <= j < |log| ==> more[j] == log[j];
  }

  lemma Observed(w: World, policy: Policy, at: Time, c: Sha)
    requires |w.store.log| > 0 && Distinct(policy.remoteContexts) && Steady(w.store.log, at)
    requires LatestPullRequest(w.store.log, c).Some?
    ensures CiObservationAccepted(w, policy, Plain(at, 0, 0, [], PassedCi(policy.remoteContexts)), c)
    ensures DerivedOutcome(PassedCi(policy.remoteContexts)) == CiPassed
  {
    hide LatestPullRequest, IntentIndex;
    ExactSetMeans(policy.remoteContexts, policy.remoteContexts);
  }

  lemma PassCi(w: World, policy: Policy, at: Time, c: Sha, r: nat, d: nat) returns (a: Answer, next: World)
    requires Distinct(policy.remoteContexts) && Steady(w.store.log, at)
    requires At(w, CiWait, c, r, d) && !CheckpointIsCurrent(w, CiReconciliationSnapshot)
    requires LatestPullRequest(w.store.log, c).Some?
    ensures Turns(w, policy, [a], next) && At(next, CiWait, c, r, d) && AnswerAt(a, at)
    ensures CheckpointIsCurrent(next, CiReconciliationSnapshot)
    ensures LatestPullRequest(next.store.log, c).Some?
    ensures CurrentCiOutcome(next.store.log, policy, c) == Some(CiPassed)
  {
    hide Turns, CountFixes, LatestPullRequest, CiObservationAccepted, DerivedOutcome, CurrentCiOutcome;
    var checks := PassedCi(policy.remoteContexts);
    a := Plain(at, 0, 0, [], checks);
    Observed(w, policy, at, c);
    var event := CiCompleted(c, CiPassed, checks, at);
    next := OneTurn(w, policy, a, event, CiWait, Some(CiReconciliationSnapshot));
    OtherEventsKeepIt(w.store.log, Entry(event, CiWait, at), c);
    CiReads(next.store.log, policy, c, checks, at);
  }

  lemma CiReads(log: seq<Entry>, policy: Policy, c: Sha, checks: seq<CiCheck>, at: Time)
    requires |log| > 0 && log[|log| - 1].event == CiCompleted(c, CiPassed, checks, at)
    requires Distinct(policy.remoteContexts) && checks == PassedCi(policy.remoteContexts)
    ensures CurrentCiOutcome(log, policy, c) == Some(CiPassed)
  {
    hide LatestPrReview, LatestPullRequest;
    ExactSetMeans(policy.remoteContexts, policy.remoteContexts);
  }

  /** The two writes of an approved pull-request review, and what they leave readable. */
  lemma ReviewWrites(w: World, writes: seq<Write>, clock: nat -> Time, c: Sha)
    requires |w.store.log| > 0 && LatestPullRequest(w.store.log, c).Some?
    requires writes == [Append(PrReviewStarted(c), PrReview, None)]
                       + [Append(PrReviewCompleted(c, Approved), PrReview, Some(PrReviewFixerIteration))]
    ensures var after := PerformAll(w, writes, clock);
            && LatestPullRequest(after.store.log, c).Some? && after.store.candidate == w.store.candidate
    ensures Fixes(writes) == 0
  {
    hide LatestPullRequest, PerformAll, Fixes;
    var first, second := writes[0], writes[1];
    PerformOne(w, first, clock);
    PerformOneMore(w, [first], second, clock);
    NoFixes(writes);
    OtherEventsKeepIt(w.store.log, Entry(first.event, PrReview, clock(0)), c);
    OtherEventsKeepIt(w.store.log + [Entry(first.event, PrReview, clock(0))], Entry(second.event, PrReview, clock(1)),
                      c);
  }

  lemma ReviewPlan(w: World, policy: Policy, a: Answer, c: Sha)
    requires |w.store.log| > 0 && w.store.phase == CiWait && w.store.candidate == Some(c) && a.verdict == Approved
    requires CheckpointIsCurrent(w, CiReconciliationSnapshot)
    requires CurrentCiOutcome(w.store.log, policy, c) == Some(CiPassed)
    ensures StagePlan(w, policy, a) ==
            Plan([Append(PrReviewStarted(c), PrReview, None)]
                 + [Append(PrReviewCompleted(c, Approved), PrReview, Some(PrReviewFixerIteration))],
                 w.runtime.(freshPrReview := false), Continue)
  {
    hide CurrentCiOutcome, CheckpointIsCurrent, CompleteCi;
  }

  lemma ApprovePullRequest(w: World, policy: Policy, at: Time, c: Sha, r: nat, d: nat) returns (a: Answer, next: World)
    requires At(w, CiWait, c, r, d) && CheckpointIsCurrent(w, CiReconciliationSnapshot)
    requires CurrentCiOutcome(w.store.log, policy, c) == Some(CiPassed) && LatestPullRequest(w.store.log, c).Some?
    ensures Turns(w, policy, [a], next) && At(next, PrReview, c, r, d) && AnswerAt(a, at)
    ensures CheckpointIsCurrent(next, PrReviewFixerIteration) && LatestPullRequest(next.store.log, c).Some?
    ensures next.store.log[|next.store.log| - 1].event == PrReviewCompleted(c, Approved)
  {
    hide Turns, CountFixes, PerformAll, Iterate, Fixes, LatestPullRequest, CheckpointIsCurrent, CurrentCiOutcome,
         StagePlan;
    a := Plain(at, 0, 0, [], []);
    var plan := StagePlan(w, policy, a);
    ReviewPlan(w, policy, a, c);
    next := After(w, plan, a.clock);
    EndsWithCheckpoint(w, plan, [Append(PrReviewStarted(c), PrReview, None)], PrReviewCompleted(c, Approved), PrReview,
                       PrReviewFixerIteration, a.clock);
    ReviewWrites(w, plan.writes, a.clock, c);
    AfterCounts(w, plan, a.clock);
    PlanTaken(w, policy, a);
    OneTurnTaken(w, policy, a, next);
  }

  lemma ReviewReads(log: seq<Entry>, c: Sha, i: nat)
    requires i < |log| && log[i].event == PrReviewCompleted(c, Approved)
    requires forall j :: i < j < |log| ==> !log[j].event.PrReviewCompleted?
    ensures LatestPrReview(log, c) == Some(i)
  {
    var latest := LatestPrReview(log, c);
    assert latest.Some? ==> latest.value <= i && i <= latest.value;
  }

  lemma RevalidatePassed(w: World, policy: Policy, at: Time, c: Sha, r: nat, d: nat) returns (a: Answer, next: World)
    requires Distinct(policy.remoteContexts) && Steady(w.store.log, at)
    requires At(w, PrReview, c, r, d) && CheckpointIsCurrent(w, PrReviewFixerIteration)
    requires LatestPullRequest(w.store.log, c).Some?
    requires w.store.log[|w.store.log| - 1].event == PrReviewCompleted(c, Approved)
    ensures Turns(w, policy, [a], next) && At(next, PrReview, c, r, d) && AnswerAt(a, at)
    ensures CheckpointIsCurrent(next, PrReviewFixerIteration) && LatestPullRequest(next.store.log, c).Some?
    ensures |next.store.log| == |w.store.log| + 1 && next.store.log[|w.store.log| - 1] == w.store.log[|w.store.log| - 1]
    ensures next.store.log[|w.store.log|].event == CiRevalidated(c, CiPassed, PassedCi(policy.remoteContexts), at)
    ensures next.store.log[|w.store.log|].phase == PrReview
  {
    hide Turns, CountFixes, LatestPullRequest, CiObservationAccepted, DerivedOutcome, LatestPrReview;
    var checks := PassedCi(policy.remoteContexts);
    a := Plain(at, 0, 0, [], checks);
    Observed(w, policy, at, c);
    ReviewReads(w.store.log, c, |w.store.log| - 1);
    var event := CiRevalidated(c, CiPassed, checks, at);
    next := OneTurn(w, policy, a, event, PrReview, Some(PrReviewFixerIteration));
    OtherEventsKeepIt(w.store.log, Entry(event, PrReview, at), c);
  }

  lemma DeliverPlan(w: World, policy: Policy, at: Time, c: Sha)
    requires Distinct(policy.remoteContexts) && Steady(w.store.log, at)
    requires |w.store.log| > 1 && w.store.phase == PrReview && w.store.candidate == Some(c) && !w.runtime.freshPrReview
    requires CheckpointIsCurrent(w, PrReviewFixerIteration) && LatestPullRequest(w.store.log, c).Some?
    requires w.store.log[|w.store.log| - 2].event == PrReviewCompleted(c, Approved)
    requires w.store.log[|w.store.log| - 1].event == CiRevalidated(c, CiPassed, PassedCi(policy.remoteContexts), at)
    requires w.store.log[|w.store.log| - 1].phase == PrReview
    ensures StagePlan(w, policy, Plain(at, 0, 0, [], [])) ==
            OneWrite(w,
                     PullRequestDelivered(c, LatestPullRequest(w.store.log, c).value, at,
                                          PassedCi(policy.remoteContexts), at),
                     PrDelivered, Some(PrReviewFixerIteration))
  {
    hide CheckpointIsCurrent, LatestPullRequest, LatestPrReview, Revalidate, CompleteReview;
    var review := |w.store.log| - 2;
    ReviewReads(w.store.log, c, review);
    ExactSetMeans(policy.remoteContexts, policy.remoteContexts);
    assert DurableFinalCi(w.store.log, policy, c, review);
    hide DurableFinalCi, ExactSet;
  }

  lemma DeliverNow(w: World, policy: Policy, at: Time, c: Sha, r: nat, d: nat) returns (a: Answer, next: World)
    requires Distinct(policy.remoteContexts) && Steady(w.store.log, at)
    requires At(w, PrReview, c, r, d) && CheckpointIsCurrent(w, PrReviewFixerIteration)
    requires LatestPullRequest(w.store.log, c).Some? && |w.store.log| > 1
    requires w.store.log[|w.store.log| - 2].event == PrReviewCompleted(c, Approved)
    requires w.store.log[|w.store.log| - 1].event == CiRevalidated(c, CiPassed, PassedCi(policy.remoteContexts), at)
    requires w.store.log[|w.store.log| - 1].phase == PrReview
    ensures Turns(w, policy, [a], next) && At(next, PrDelivered, c, r, d) && AnswerAt(a, at)
    ensures next.store.log[|next.store.log| - 1].event.PullRequestDelivered?
    ensures next.store.log[|next.store.log| - 1].event.sha == c
  {
    hide Turns, CountFixes, LatestPullRequest, StagePlan, Iterate;
    a := Plain(at, 0, 0, [], []);
    DeliverPlan(w, policy, at, c);
    next := OneTurn(w, policy, a, PullRequestDelivered(c, LatestPullRequest(w.store.log, c).value, at,
                                                       PassedCi(policy.remoteContexts), at),
                    PrDelivered, Some(PrReviewFixerIteration));
  }

  ghost predicate AnswersAt(answers: seq<Answer>, at: Time) {
    forall i :: 0 <= i < |answers| ==> AnswerAt(answers[i], at)
  }

  /** From a candidate whose checks have passed to its delivery. */
  lemma DeliverFromChecks(w: World, policy: Policy, at: Time, c: Sha, b: nat, k: nat)
    returns (answers: seq<Answer>, last: World)
    requires Distinct(policy.remoteContexts) && At(w, LocalVerify, c, 0, 0)
    requires CheckpointIsCurrent(w, LocalVerificationPass) && Told(w.store.log, b, c, k) && Steady(w.store.log, at)
    ensures Turns(w, policy, answers, last) && AnswersAt(answers, at)
    ensures Told(last.store.log, b, c, k) && |last.store.log| > 0 && last.store.phase == PrDelivered
    ensures Last(last.store.log).event.PullRequestDelivered? && Last(last.store.log).event.sha == c
  {
    hide Turns, Told, Steady, CountFixes, LatestVerdict, LatestPullRequest, CurrentCiOutcome, AnswerAt;
    var a1, w1 := ApproveReview(w, policy, at, c, 0, 0);
    QuietTurn(w, policy, a1, w1, at, b, c, k);
    var a2, w2 := ReadyDelivery(w1, policy, at, c, 0, 0);
    QuietTurn(w1, policy, a2, w2, at, b, c, k);
    TurnsJoin(w, policy, [a1], w1, [a2], w2);
    var a3, w3 := Push(w2, policy, at, c, 0, 0);
    QuietTurn(w2, policy, a3, w3, at, b, c, k);
    TurnsJoin(w, policy, [a1] + [a2], w2, [a3], w3);
    var a4, w4 := OpenPullRequest(w3, policy, at, c, 0, 0);
    QuietTurn(w3, policy, a4, w4, at, b, c, k);
    TurnsJoin(w, policy, [a1] + [a2] + [a3], w3, [a4], w4);
    var a5, w5 := WaitForCi(w4, policy, at, c, 0, 0);
    QuietTurn(w4, policy, a5, w5, at, b, c, k);
    var front := [a1] + [a2] + [a3] + [a4];
    TurnsJoin(w, policy, front, w4, [a5], w5);
    var rest;
    rest, last := DeliverFromCi(w5, policy, at, c, b, k);
    TurnsJoin(w, policy, front + [a5], w5, rest, last);
    answers := front + [a5] + rest;
  }

  lemma DeliverFromCi(w: World, policy: Policy, at: Time, c: Sha, b: nat, k: nat)
    returns (answers: seq<Answer>, last: World)
    requires Distinct(policy.remoteContexts) && At(w, CiWait, c, 0, 0)
    requires !CheckpointIsCurrent(w, CiReconciliationSnapshot) && LatestPullRequest(w.store.log, c).Some?
    requires Told(w.store.log, b, c, k) && Steady(w.store.log, at)
    ensures Turns(w, policy, answers, last) && AnswersAt(answers, at)
    ensures Told(last.store.log, b, c, k) && |last.store.log| > 0 && last.store.phase == PrDelivered
    ensures Last(last.store.log).event.PullRequestDelivered? && Last(last.store.log).event.sha == c
  {
    hide Turns, Told, Steady, CountFixes, LatestPullRequest, CurrentCiOutcome, AnswerAt;
    var a1, w1 := PassCi(w, policy, at, c, 0, 0);
    QuietTurn(w, policy, a1, w1, at, b, c, k);
    var a2, w2 := ApprovePullRequest(w1, policy, at, c, 0, 0);
    QuietTurn(w1, policy, a2, w2, at, b, c, k);
    TurnsJoin(w, policy, [a1], w1, [a2], w2);
    var a3, w3 := RevalidatePassed(w2, policy, at, c, 0, 0);
    QuietTurn(w2, policy, a3, w3, at, b, c, k);
    TurnsJoin(w, policy, [a1] + [a2], w2, [a3], w3);
    var a4, w4 := DeliverNow(w3, policy, at, c, 0, 0);
    QuietTurn(w3, policy, a4, w4, at, b, c, k);
    TurnsJoin(w, policy, [a1] + [a2] + [a3], w3, [a4], w4);
    answers, last := [a1] + [a2] + [a3] + [a4], w4;
  }

  // ---------------------------------------------------------------- up to the candidate

  /** The run's first owner, up to its first candidate. */
  lemma FirstCandidate(policy: Policy, at: Time)
    returns (start: LifeStep, w: World, answers: seq<Answer>, last: World, c: Sha, b: nat)
    ensures SteadyStep(start, at) && Works(WholeLife(policy, at, [start]), 1, w)
    ensures Turns(w, policy, answers, last) && AnswersAt(answers, at)
    ensures At(last, CandidateReady, c, 0, 0) && CheckpointIsCurrent(last, CandidateCommitCreation)
    ensures last.store.checkpoint == Some(last.runtime.latest)
    ensures Told(last.store.log, b, c, 0) && Steady(last.store.log, at)
  {
    hide Turns, CountFixes, WholeLife, AnswerAt;
    var first, a0, w0, a1;
    first, w := FirstStart(policy, at);
    start := first;
    a0, w0 := SetUp(w, policy, at);
    a1, last, c := NewCandidate(w0, policy, at, 0, 0);
    TurnsJoin(w, policy, a0, w0, [a1], last);
    answers := a0 + [a1];
    b := |w0.store.log|;
    assert last.store.log[b + 1..] == [];
    forall j | 0 <= j <= b ensures !last.store.log[j].event.VerificationCompleted? {
      assert j < b ==> last.store.log[j] == w0.store.log[j];
    }
    StepsSteady([start], 1, answers, at);
    TurnsInLife(policy, at, [start], 1, w, answers, last);
    SteadyLife(policy, at, [start] + Steps(1, answers));
    WorksMeans(WholeLife(policy, at, [start] + Steps(1, answers)), 1, last);
  }

  lemma WorksMeans(life: Life, generation: nat, w: World)
    requires Works(life, generation, w)
    ensures life.store == w.store
  {
  }

  lemma StepsSteady(before: seq<LifeStep>, generation: nat, answers: seq<Answer>, at: Time)
    requires SteadySteps(before, at) && AnswersAt(answers, at)
    ensures SteadySteps(before + Steps(generation, answers), at)
  {
    hide AnswerAt;
    var all := before + Steps(generation, answers);
    forall i | 0 <= i < |all| ensures SteadyStep(all[i], at) {
      if i >= |before| {
        assert all[i] == TurnOf(generation, answers[i - |before|]);
      }
    }
  }

  lemma {:induction false} RoundResults(c: Sha, checks: seq<CheckResult>, n: nat)
    requires n <= |checks|
    ensures Results(CheckWrites(c, checks, true)[..n], c) == n
  {
    if n > 0 {
      RoundResults(c, checks, n - 1);
      assert CheckWrites(c, checks, true)[..n][..n - 1] == CheckWrites(c, checks, true)[..n - 1];
    }
  }

  lemma {:induction false} ResultsJoin(first: seq<Write>, second: seq<Write>, c: Sha)
    ensures Results(first + second, c) == Results(first, c) + Results(second, c)
  {
    if |second| == 0 {
      assert first + second == first;
    } else {
      var n := |second| - 1;
      assert (first + second)[..|first + second| - 1] == first + second[..n];
      ResultsJoin(first, second[..n], c);
    }
  }

  /** A passed verification reports each check once. */
  lemma VerifiedResults(opening: seq<Write>, c: Sha, checks: seq<CheckResult>)
    requires AllQuiet(opening)
    ensures Results(Verified(opening, c, checks), c) == |checks|
    ensures forall i :: 0 <= i < |Verified(opening, c, checks)| && Verified(opening, c, checks)[i].Append? ==>
              !Verified(opening, c, checks)[i].event.CandidateCreated?
  {
    var round := CheckWrites(c, checks, true);
    var mark := if |checks| == 0 then [Mark(LocalVerificationPass)] else [];
    assert round[..|checks|] == round;
    RoundResults(c, checks, |checks|);
    QuietTells(opening, c);
    QuietTells(mark, c);
    ResultsJoin(opening, round, c);
    ResultsJoin(opening + round, mark, c);
  }

  /** The turn that verifies reports each check once. */
  lemma VerifiedTells(w: World, policy: Policy, a: Answer, next: World, opening: seq<Write>, at: Time, b: nat, c: Sha,
                      k: nat)
    requires |w.store.log| > 0 && Turns(w, policy, [a], next) && AllQuiet(opening)
    requires StagePlan(w, policy, a).writes == Verified(opening, c, a.checks)
    requires Told(w.store.log, b, c, k) && Steady(w.store.log, at) && AnswerAt(a, at)
    ensures Told(next.store.log, b, c, k + |a.checks|) && Steady(next.store.log, at)
  {
    hide StagePlan, PerformAll, Told, Steady, Verified, AnswerAt;
    OneTurnIs(w, policy, a, next);
    VerifiedResults(opening, c, a.checks);
    WritesTell(w, Verified(opening, c, a.checks), a.clock, b, c, k);
    TurnSteady(w, policy, a, at);
    TurnTaken(w, policy, a);
  }

  // ---------------------------------------------------------------- the verdict on a told log

  /** A log told to its delivery: the finalizer's count is a matter of `k`. */
  lemma ToldCount(store: Store, policy: Policy, b: nat, c: Sha, k: nat, i: nat)
    requires Told(store.log, b, c, k) && DeliveredAt(store.log, i) && store.log[i].event.sha == c
    ensures Find(store.log, (e: Entry) => IsCandidate(e, c)) == b
    ensures VerifiedOnce(store.log, b, c, policy) <==> k == |policy.localChecks|
  {
    var found := Find(store.log, (e: Entry) => IsCandidate(e, c));
    assert b <= found && !(found > b);
  }

  lemma ToldVerdict(policy: Policy, at: Time, steps: seq<LifeStep>, b: nat, c: Sha, k: nat, i: nat, now: Time)
    requires MonotoneLife(policy, at, steps)
    requires var log := WholeLife(policy, at, steps).store.log;
             && Told(log, b, c, k) && DeliveredAt(log, i) && log[i].event.sha == c && Last(log).at <= now
    ensures var store := WholeLife(policy, at, steps).store;
            FinalizerAccepts(store, i, policy, now)
            <==> k == |policy.localChecks| && store.log[IntentIndex(store.log)].at == Last(store.log).at
  {
    hide WholeLife, MonotoneLife, Told, FinalizerAccepts, VerifiedOnce, DeliveredAt, Find, IntentIndex;
    FinalizerAcceptsExactly(policy, at, steps, i, now);
    ToldCount(WholeLife(policy, at, steps).store, policy, b, c, k, i);
  }

  // ---------------------------------------------------------------- the lives

  /** A run that goes straight through, told to its delivery. */
  lemma StraightLife(policy: Policy, at: Time) returns (steps: seq<LifeStep>, last: World, b: nat, c: Sha)
    requires CanDeliver(policy)
    ensures SteadySteps(steps, at) && Works(WholeLife(policy, at, steps), 1, last)
    ensures Told(last.store.log, b, c, |policy.localChecks|) && last.store.phase == PrDelivered
    ensures Last(last.store.log).event.PullRequestDelivered? && Last(last.store.log).event.sha == c
  {
    hide Turns, CountFixes, WholeLife, Told, Steady, AnswerAt, Works, Iterate, StagePlan;
    var start, w, a0, w0;
    start, w, a0, w0, c, b := FirstCandidate(policy, at);
    var a1, w1 := PassVerification(w0, policy, at, c, 0, 0);
    PlainAt(a1, at);
    VerifiedTells(w0, policy, a1, w1, [Append(VerificationStarted(c), LocalVerify, None)], at, b, c, 0);
    TurnsJoin(w, policy, a0, w0, [a1], w1);
    var a2;
    a2, last := DeliverFromChecks(w1, policy, at, c, b, |policy.localChecks|);
    TurnsJoin(w, policy, a0 + [a1], w1, a2, last);
    var answers := a0 + [a1] + a2;
    TurnsInLife(policy, at, [start], 1, w, answers, last);
    StepsSteady([start], 1, answers, at);
    steps := [start] + Steps(1, answers);
  }

  lemma PlainAt(a: Answer, at: Time)
    ensures forall sha, parent, checks, ci :: a == Plain(at, sha, parent, checks, ci) ==> AnswerAt(a, at)
  {
  }

  /** Every policy that can deliver has a life that is delivered and accepted. */
  lemma DeliveredAndAccepted(policy: Policy, at: Time) returns (steps: seq<LifeStep>, i: nat)
    requires CanDeliver(policy)
    ensures MonotoneLife(policy, at, steps) && DeliveredAt(WholeLife(policy, at, steps).store.log, i)
    ensures FinalizerAccepts(WholeLife(policy, at, steps).store, i, policy, at)
  {
    hide WholeLife, MonotoneLife, Told, FinalizerAccepts, CanDeliver, SteadySteps;
    var last, b, c;
    steps, last, b, c := StraightLife(policy, at);
    SteadyLife(policy, at, steps);
    WorksMeans(WholeLife(policy, at, steps), 1, last);
    i := |last.store.log| - 1;
    ToldVerdict(policy, at, steps, b, c, |policy.localChecks|, i, at);
  }

  // ---------------------------------------------------------------- an interrupted and repeated round

  /** The verification that is cut after its first check. */
  function CutAnswer(policy: Policy, at: Time): Answer {
    Plain(at, 0, 0, ChecksOf(policy.localChecks, CheckPassed), []).(broken := Some(Rethrow), cut := 2)
  }

  lemma CutWrites(w: World, policy: Policy, at: Time, c: Sha)
    requires |policy.localChecks| >= 2 && Distinct(policy.localChecks)
    requires At(w, CandidateReady, c, 0, 0) && CheckpointIsCurrent(w, CandidateCommitCreation)
    ensures var a := CutAnswer(policy, at);
            var writes := StagePlan(w, policy, a).writes;
            |writes| >= 2
            && writes[..2] == [Append(VerificationStarted(c), LocalVerify, None),
                               Append(VerificationCompleted(c, a.checks[0]), LocalVerify, None)]
  {
    hide ExactSet, CountFixes;
    var a := CutAnswer(policy, at);
    ExactSetMeans(CheckIds(a.checks), policy.localChecks);
    AllChecksPassed(a.checks);
    assert CompleteLocalVerification(w, policy, a, c, [Append(VerificationStarted(c), LocalVerify, None)]).writes
           == [Append(VerificationStarted(c), LocalVerify, None)] + CheckWrites(c, a.checks, true);
  }

  /** What such a turn leaves behind: one result, and the checkpoint of the candidate still the latest. */
  lemma CutShortTurn(w: World, policy: Policy, at: Time, c: Sha, b: nat)
    requires |policy.localChecks| >= 2 && Distinct(policy.localChecks)
    requires At(w, CandidateReady, c, 0, 0) && CheckpointIsCurrent(w, CandidateCommitCreation)
    requires Told(w.store.log, b, c, 0)
    ensures var turn := Iterate(w, policy, CutAnswer(policy, at));
            var store := turn.world.store;
            && !turn.again && |store.log| > 0 && Told(store.log, b, c, 1)
            && store.phase == LocalVerify && store.candidate == Some(c) && store.checkpoint == w.store.checkpoint
            && CountFixes(store.log) == 0 && store.generation == w.store.generation
  {
    hide StagePlan, Told, CountFixes, PerformAll, CheckpointIsCurrent;
    var a := CutAnswer(policy, at);
    CutWrites(w, policy, at, c);
    var first, second := Append(VerificationStarted(c), LocalVerify, None),
                         Append(VerificationCompleted(c, a.checks[0]), LocalVerify, None);
    assert StagePlan(w, policy, a).writes[..2] == [first] + [second];
    PerformOneMore(w, [first], second, a.clock);
    PerformOne(w, first, a.clock);
    TwoWritesTell(first, second, c);
    WritesTell(w, [first] + [second], a.clock, b, c, 0);
    CountAfter(w, [first] + [second], a.clock);
    NoFixes([first] + [second]);
    RethrowLeaves(PerformAll(w, [first] + [second], a.clock), a, 2);
  }

  lemma RethrowLeaves(w: World, a: Answer, used: nat)
    requires |w.store.log| > 0
    ensures Leave(w, Rethrow, a, used) == w
  {
  }

  lemma TwoWritesTell(first: Write, second: Write, c: Sha)
    requires first == Append(VerificationStarted(c), LocalVerify, None)
    requires second.Append? && IsResult(second.event, c)
    ensures Results([first] + [second], c) == 1
  {
    assert ([first] + [second])[..1] == [first] && [first][..0] == [];
    assert Results([first][..0], c) == 0;
    assert Results([first], c) == 0;
  }

  /** The next owner takes the run up at the candidate's checkpoint. */
  lemma TakenUp(life: Life, policy: Policy, at: Time, c: Sha) returns (w: World)
    requires |life.store.log| > 0 && life.store.phase == LocalVerify && life.store.candidate == Some(c)
    requires life.store.checkpoint.Some? && life.store.checkpoint.value.kind == CandidateCommitCreation
    requires CountFixes(life.store.log) == 0
    ensures Works(Live(life, policy, StartRun(false, ContinueFromCheckpoint, Plain(at, 0, 0, [], []))),
                  life.store.generation + 1, w)
    ensures At(w, LocalVerify, c, 0, 0) && w.store.log == life.store.log
    ensures w.runtime.latest.kind == CandidateCommitCreation
  {
    hide CountFixes;
    var store := life.store.(generation := life.store.generation + 1);
    w := World(store, Runtime(store.checkpoint.value, 0, false, false));
  }

  lemma VerifyAgain(w: World, policy: Policy, at: Time, c: Sha, b: nat, k: nat) returns (a: Answer, next: World)
    requires Distinct(policy.localChecks) && At(w, LocalVerify, c, 0, 0)
    requires w.runtime.latest.kind == CandidateCommitCreation
    requires Told(w.store.log, b, c, k) && Steady(w.store.log, at)
    ensures Turns(w, policy, [a], next) && AnswerAt(a, at) && At(next, LocalVerify, c, 0, 0)
    ensures CheckpointIsCurrent(next, LocalVerificationPass)
    ensures Told(next.store.log, b, c, k + |policy.localChecks|) && Steady(next.store.log, at)
  {
    hide Told, Steady, Turns, CountFixes, CompleteLocalVerification, Iterate;
    a := Plain(at, 0, 0, ChecksOf(policy.localChecks, CheckPassed), []);
    assert StagePlan(w, policy, a) == CompleteLocalVerification(w, policy, a, c, []);
    hide StagePlan;
    next := Verify(w, policy, c, a, []);
    VerifiedTells(w, policy, a, next, [], at, b, c, k);
  }

  lemma {:induction false} OneStepLater(policy: Policy, at: Time, steps: seq<LifeStep>, step: LifeStep)
    ensures WholeLife(policy, at, steps + [step]) == Live(WholeLife(policy, at, steps), policy, step)
  {
    assert (steps + [step])[..|steps|] == steps;
  }

  /** The first owner's round is cut, the second owner repeats it from the start. */
  lemma RepeatedRound(policy: Policy, at: Time) returns (steps: seq<LifeStep>, w: World, b: nat, c: Sha)
    requires |policy.localChecks| >= 2 && Distinct(policy.localChecks)
    ensures SteadySteps(steps, at) && Works(WholeLife(policy, at, steps), 2, w)
    ensures At(w, LocalVerify, c, 0, 0) && w.runtime.latest.kind == CandidateCommitCreation
    ensures Told(w.store.log, b, c, 1) && Steady(w.store.log, at)
  {
    hide Turns, CountFixes, WholeLife, Told, Steady, AnswerAt, Live, Iterate, SteadySteps;
    var start, w0, a0, w1;
    start, w0, a0, w1, c, b := FirstCandidate(policy, at);
    var before := [start] + Steps(1, a0);
    TurnsInLife(policy, at, [start], 1, w0, a0, w1);
    OneStepSteady(start, at);
    StepsSteady([start], 1, a0, at);
    var cut := TurnOf(1, CutAnswer(policy, at));
    var life := WholeLife(policy, at, before + [cut]);
    OneStepLater(policy, at, before, cut);
    CutShortTurn(w1, policy, at, c, b);
    TurnEndsWork(WholeLife(policy, at, before), policy, 1, w1, CutAnswer(policy, at));
    var again := StartRun(false, ContinueFromCheckpoint, Plain(at, 0, 0, [], []));
    CutIsSteady(policy, at);
    w := TakenUp(life, policy, at, c);
    OneStepLater(policy, at, before + [cut], again);
    steps := before + [cut] + [again];
    OneMoreSteady(before, cut, at);
    OneMoreSteady(before + [cut], again, at);
    SteadyLife(policy, at, steps);
    WorksMeans(WholeLife(policy, at, steps), 2, w);
  }

  lemma OneStepSteady(step: LifeStep, at: Time)
    requires SteadyStep(step, at)
    ensures SteadySteps([step], at)
  {
  }

  lemma OneMoreSteady(steps: seq<LifeStep>, step: LifeStep, at: Time)
    requires SteadySteps(steps, at) && SteadyStep(step, at)
    ensures SteadySteps(steps + [step], at)
  {
    hide SteadyStep;
  }

  lemma CutIsSteady(policy: Policy, at: Time)
    ensures SteadyStep(TurnOf(1, CutAnswer(policy, at)), at)
    ensures SteadyStep(StartRun(false, ContinueFromCheckpoint, Plain(at, 0, 0, [], [])), at)
  {
  }

  /** A turn that does not go round again leaves the store and no worker. */
  lemma TurnEndsWork(life: Life, policy: Policy, generation: nat, w: World, a: Answer)
    requires |life.store.log| > 0 && Works(life, generation, w) && !Iterate(w, policy, a).again
    ensures Live(life, policy, TurnOf(generation, a)).store == Iterate(w, policy, a).world.store
  {
    hide Iterate, Recover;
  }

  /**
   Every policy with two checks or more has a life, its clock never going back, that is delivered and refused: one
   whose verification round was interrupted between two checks and repeated.
   */
  lemma RepeatedRoundIsRefused(policy: Policy, at: Time) returns (steps: seq<LifeStep>, i: nat)
    requires CanDeliver(policy) && |policy.localChecks| >= 2
    ensures MonotoneLife(policy, at, steps) && DeliveredAt(WholeLife(policy, at, steps).store.log, i)
    ensures forall now :: at <= now ==> !FinalizerAccepts(WholeLife(policy, at, steps).store, i, policy, now)
  {
    hide WholeLife, MonotoneLife, Told, FinalizerAccepts, SteadySteps, Turns, Steady, CountFixes, AnswerAt, Works,
         Distinct;
    var before, w, b, c := RepeatedRound(policy, at);
    var a1, w1 := VerifyAgain(w, policy, at, c, b, 1);
    var k := 1 + |policy.localChecks|;
    var a2, last := DeliverFromChecks(w1, policy, at, c, b, k);
    TurnsJoin(w, policy, [a1], w1, a2, last);
    var answers := [a1] + a2;
    TurnsInLife(policy, at, before, 2, w, answers, last);
    StepsSteady(before, 2, answers, at);
    steps := before + Steps(2, answers);
    SteadyLife(policy, at, steps);
    WorksMeans(WholeLife(policy, at, steps), 2, last);
    i := |last.store.log| - 1;
    SteadyEnds(last.store.log, at);
    forall now | at <= now ensures !FinalizerAccepts(WholeLife(policy, at, steps).store, i, policy, now) {
      ToldVerdict(policy, at, steps, b, c, k, i, now);
    }
  }

  lemma SteadyEnds(log: seq<Entry>, at: Time)
    ensures Steady(log, at) && |log| > 0 ==> Last(log).at == at
  {
  }

  // ---------------------------------------------------------------- a delivery resumed at an older intent

  function BlockedAnswer(at: Time): Answer {
    Plain(at, 0, 0, [], []).(broken := Some(Stop(BlockedExternal)), cut := 0)
  }

  /** The delivered run stops for something external before its evidence is finalized. */
  lemma BlockedTurn(w: World, policy: Policy, at: Time)
    requires |w.store.log| > 0 && w.store.phase == PrDelivered && w.store.resume.None?
    ensures var turn := Iterate(w, policy, BlockedAnswer(at));
            var store := turn.world.store;
            && !turn.again
            && store.log == w.store.log + [Entry(RunInterrupted(w.store.candidate), BlockedExternal, at)]
            && store.phase == BlockedExternal && store.resume == Some(PrDelivered)
  {
    hide StagePlan;
    var a := BlockedAnswer(at);
    assert PerformAll(w, StagePlan(w, policy, a).writes[..0], a.clock) == w;
    var write := Append(RunInterrupted(w.store.candidate), BlockedExternal, None);
    assert StopWrites(w.store, Stop(BlockedExternal), a.disposal) == [write];
    PerformOne(w, write, Later(a.clock, 0));
  }

  lemma ResumedAtCursor(life: Life, policy: Policy, cursor: nat, at: Time)
    requires |life.store.log| > 0 && life.store.phase == BlockedExternal && life.store.resume == Some(PrDelivered)
    ensures var after := Live(life, policy, ResumeRun(Some(cursor), at)).store;
            after.log == life.store.log + [Entry(RunResumed(life.store.candidate, Some(cursor)), PrDelivered, at)]
  {
  }

  /** The log of a delivery that was interrupted, and resumed at a later time at the delivery's own entry. */
  lemma ResumedLog(log: seq<Entry>, more: seq<Entry>, b: nat, c: Sha, k: nat, i: nat, at: Time, candidate: Option<Sha>)
    requires Told(log, b, c, k) && i == |log| - 1 && log[i].event.PullRequestDelivered? && log[i].at == at
    requires more == log + [Entry(RunInterrupted(candidate), BlockedExternal, at)]
                         + [Entry(RunResumed(candidate, Some(i)), PrDelivered, at + 1)]
    ensures Told(more, b, c, k) && DeliveredAt(more, i) && more[i] == log[i]
    ensures more[IntentIndex(more)].at == at && Last(more).at == at + 1
  {
    ToldOneMore(log, Entry(RunInterrupted(candidate), BlockedExternal, at), b, c, k);
    ToldOneMore(log + [Entry(RunInterrupted(candidate), BlockedExternal, at)],
                Entry(RunResumed(candidate, Some(i)), PrDelivered, at + 1), b, c, k);
    hide Told;
  }

  lemma NothingToResume(policy: Policy, at: Time, steps: seq<LifeStep>)
    requires WholeLife(policy, at, steps).store.phase == PrDelivered
    ensures WholeLife(policy, at, steps).store.resume.None?
  {
    hide WholeLife, Settled, Replays, CandidateBound, CheckpointBound, AllGated;
    LifeIsSafe(policy, at, steps);
  }

  lemma LastStepMonotone(policy: Policy, at: Time, steps: seq<LifeStep>, step: LifeStep)
    requires MonotoneLife(policy, at, steps) && StepMonotone(WholeLife(policy, at, steps).store, step)
    ensures MonotoneLife(policy, at, steps + [step])
  {
    hide StepMonotone, WholeLife;
    var all := steps + [step];
    forall i | 0 <= i < |all| ensures StepMonotone(WholeLife(policy, at, all[..i]).store, all[i]) {
      if i < |steps| {
        assert all[..i] == steps[..i] && all[i] == steps[i];
      } else {
        assert all[..i] == steps;
      }
    }
  }

  /**
   And every policy that can deliver has one that is delivered and refused although each check was reported once:
   interrupted after its delivery and resumed, later, at the delivery's own entry.
   */
  lemma OlderIntentIsRefused(policy: Policy, at: Time) returns (steps: seq<LifeStep>, i: nat)
    requires CanDeliver(policy)
    ensures MonotoneLife(policy, at, steps) && DeliveredAt(WholeLife(policy, at, steps).store.log, i)
    ensures forall now :: at < now ==> !FinalizerAccepts(WholeLife(policy, at, steps).store, i, policy, now)
  {
    hide WholeLife, MonotoneLife, Told, FinalizerAccepts, CanDeliver, SteadySteps, Iterate, Live, StepMonotone,
         DeliveredAt, IntentIndex, AnswerAt;
    var before, last, b, c := StraightLife(policy, at);
    SteadyLife(policy, at, before);
    var life := WholeLife(policy, at, before);
    WorksMeans(life, 1, last);
    NothingToResume(policy, at, before);
    i := |last.store.log| - 1;
    var blocked := TurnOf(1, BlockedAnswer(at));
    var middle := before + [blocked];
    BlockedTurn(last, policy, at);
    TurnEndsWork(life, policy, 1, last, BlockedAnswer(at));
    OneStepLater(policy, at, before, blocked);
    BlockedIsSteady(at);
    OneMoreSteady(before, blocked, at);
    SteadyLife(policy, at, middle);
    var resumed := ResumeRun(Some(i), at + 1);
    var paused := WholeLife(policy, at, middle);
    ResumedAtCursor(paused, policy, i, at + 1);
    OneStepLater(policy, at, middle, resumed);
    CandidateOfPaused(last, policy, at);
    IntentIsPending(paused.store, last.store.log, i, at);
    LastStepMonotone(policy, at, middle, resumed);
    steps := middle + [resumed];
    ResumedLog(last.store.log, WholeLife(policy, at, steps).store.log, b, c, |policy.localChecks|, i, at,
               paused.store.candidate);
    forall now | at < now ensures !FinalizerAccepts(WholeLife(policy, at, steps).store, i, policy, now) {
      ToldVerdict(policy, at, steps, b, c, |policy.localChecks|, i, now);
    }
  }

  lemma CandidateOfPaused(w: World, policy: Policy, at: Time)
    requires |w.store.log| > 0 && w.store.phase == PrDelivered && w.store.resume.None?
    ensures Iterate(w, policy, BlockedAnswer(at)).world.store.candidate == w.store.candidate
  {
    hide StagePlan;
    var a := BlockedAnswer(at);
    assert PerformAll(w, StagePlan(w, policy, a).writes[..0], a.clock) == w;
    var write := Append(RunInterrupted(w.store.candidate), BlockedExternal, None);
    PerformOne(w, write, Later(a.clock, 0));
  }

  lemma BlockedIsSteady(at: Time)
    ensures SteadyStep(TurnOf(1, BlockedAnswer(at)), at)
  {
  }

  lemma IntentIsPending(s: Store, log: seq<Entry>, i: nat, at: Time)
    requires |log| > 0 && i == |log| - 1 && Steady(s.log, at)
    requires s.log == log + [Entry(RunInterrupted(s.candidate), BlockedExternal, at)]
    ensures StepMonotone(s, ResumeRun(Some(i), at + 1))
    ensures log[i].at == at
  {
    assert s.log[i] == log[i];
  }
}
