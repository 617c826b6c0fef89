/**
 Single turns of the delivery runner with every answer a good one, strung together into lives.
 */
module DeliveryPaths {
  import opened ExactSets
  import opened Options
  import opened DeliveryLog
  import opened DeliverySteps
  import opened DeliverySafety
  import opened DeliveryRunnerSafety
  import opened DeliveryLife
  import opened DeliveryFixes
  import opened DeliveryTermination

  /** The loop goes from `w` to `last` by these answers without leaving. */
  ghost predicate Turns(w: World, policy: Policy, answers: seq<Answer>, last: World)
    decreases |answers|
  {
    && |w.store.log| > 0
    && if |answers| == 0 then w == last
       else
         var turn := Iterate(w, policy, answers[0]);
         turn.again && Turns(turn.world, policy, answers[1..], last)
  }

  lemma {:induction false} TurnsJoin(w: World, policy: Policy, first: seq<Answer>, middle: World,
                                     second: seq<Answer>, last: World)
    requires Turns(w, policy, first, middle) && Turns(middle, policy, second, last)
    ensures Turns(w, policy, first + second, last)
    decreases |first|
  {
    hide Iterate;
    if |first| == 0 {
      assert first + second == second;
    } else {
      TurnsJoin(Iterate(w, policy, first[0]).world, policy, first[1..], middle, second, last);
      assert (first + second)[1..] == first[1..] + second;
    }
  }

  /** Lasting facts about a worker between turns. */
  ghost predicate At(w: World, phase: Phase, c: Sha, r: nat, d: nat) {
    && |w.store.log| > 0
    && w.store.phase == phase && w.store.candidate == Some(c)
    && w.runtime.fixIterations == r && CountFixes(w.store.log) == d
    && !w.runtime.freshLocalReview && !w.runtime.freshPrReview
  }

  function Plain(at: Time, sha: Sha, parent: Sha, checks: seq<CheckResult>, ci: seq<CiCheck>): Answer {
    Answer(0, None, Terminated, at, (i: nat) => at, sha, parent, checks, Approved, 1, ci, at, at)
  }

  /** Every clock reading of the answer is `at`. */
  ghost predicate AnswerAt(a: Answer, at: Time) {
    a.now == at && forall i: nat :: a.clock(i) == at
  }

  /** A turn whose plan ends in `Continue` is taken in full. */
  lemma PlanTaken(w: World, policy: Policy, a: Answer)
    requires |w.store.log| > 0 && a.broken.None? && StagePlan(w, policy, a).exit.Continue?
    ensures Iterate(w, policy, a) == Turn(After(w, StagePlan(w, policy, a), a.clock), true)
  {
  }

  lemma OneTurn(w: World, policy: Policy, a: Answer, event: Event, to: Phase, kind: Option<CheckpointKind>)
    returns (next: World)
    requires |w.store.log| > 0 && a.broken.None?
    requires StagePlan(w, policy, a) == OneWrite(w, event, to, kind) && !event.FixingStarted?
    ensures Turns(w, policy, [a], next)
    ensures next.store.log == w.store.log + [Entry(event, to, a.clock(0))] && next.store.phase == to
    ensures next.store.candidate == if event.CandidateCreated? then Some(event.sha) else w.store.candidate
    ensures kind.Some? ==> CheckpointIsCurrent(next, kind.value)
    ensures kind.None? ==> next.runtime.latest == w.runtime.latest && next.store.checkpoint == w.store.checkpoint
    ensures kind.Some? ==> next.store.checkpoint == Some(next.runtime.latest)
    ensures next.runtime.fixIterations == w.runtime.fixIterations
    ensures CountFixes(next.store.log) == CountFixes(w.store.log)
    ensures next.runtime.freshLocalReview == w.runtime.freshLocalReview
    ensures next.runtime.freshPrReview == w.runtime.freshPrReview
  {
    hide StagePlan, Iterate;
    PlanTaken(w, policy, a);
    var plan := StagePlan(w, policy, a);
    next := After(w, plan, a.clock);
    PerformOne(w, plan.writes[0], a.clock);
    AfterCounts(w, plan, a.clock);
    NoFixes(plan.writes);
    assert [a][1..] == [];
  }

  lemma NewCandidate(w: World, policy: Policy, at: Time, r: nat, d: nat) returns (a: Answer, next: World, c: Sha)
    requires |w.store.log| > 0
    requires w.store.phase == Implementing || (w.store.phase == Fixing && w.store.candidate.Some?)
    requires w.runtime.fixIterations == r && CountFixes(w.store.log) == d
    requires !w.runtime.freshLocalReview && !w.runtime.freshPrReview
    ensures Turns(w, policy, [a], next) && At(next, CandidateReady, c, r, d)
    ensures CheckpointIsCurrent(next, CandidateCommitCreation) && AnswerAt(a, at)
    ensures |next.store.log| == |w.store.log| + 1 && next.store.log[..|w.store.log|] == w.store.log
    ensures next.store.log[|w.store.log|].event.CandidateCreated? && next.store.log[|w.store.log|].event.sha == c
    ensures next.store.checkpoint == Some(next.runtime.latest)
  {
    hide Turns;
    var starting := if w.store.phase == Fixing then w.store.candidate.value else policy.baseSha;
    c := starting + 1;
    a := Plain(at, c, starting, [], []);
    next := OneTurn(w, policy, a, CandidateCreated(c, starting), CandidateReady, Some(CandidateCommitCreation));
  }

  function ChecksOf(ids: seq<Name>, outcome: CheckOutcome): (checks: seq<CheckResult>)
    ensures CheckIds(checks) == ids
    ensures |checks| == |ids| && forall i :: 0 <= i < |checks| ==> checks[i].outcome == outcome
  {
    seq(|ids|, i requires 0 <= i < |ids| => CheckResult(ids[i], outcome, 0))
  }

  lemma OneTurnTaken(w: World, policy: Policy, a: Answer, next: World)
    requires |w.store.log| > 0 && Iterate(w, policy, a) == Turn(next, true) && |next.store.log| > 0
    ensures Turns(w, policy, [a], next)
  {
  }

  lemma PassVerification(w: World, policy: Policy, at: Time, c: Sha, r: nat, d: nat) returns (a: Answer, next: World)
    requires Distinct(policy.localChecks)
    requires At(w, CandidateReady, c, r, d) && CheckpointIsCurrent(w, CandidateCommitCreation)
    ensures Turns(w, policy, [a], next) && At(next, LocalVerify, c, r, d)
    ensures CheckpointIsCurrent(next, LocalVerificationPass)
    ensures a == Plain(at, 0, 0, ChecksOf(policy.localChecks, CheckPassed), [])
    ensures Iterate(w, policy, a).again
    ensures StagePlan(w, policy, a).writes == Verified([Append(VerificationStarted(c), LocalVerify, None)], c, a.checks)
  {
    hide Turns, CountFixes, ExactSet, PerformAll, Iterate, Fixes;
    a := Plain(at, 0, 0, ChecksOf(policy.localChecks, CheckPassed), []);
    var opening := [Append(VerificationStarted(c), LocalVerify, None)];
    assert StagePlan(w, policy, a) == CompleteLocalVerification(w, policy, a, c, opening);
    PerformOne(w, opening[0], a.clock);
    next := Verify(w, policy, c, a, opening);
  }

  /** The writes of a passed verification. */
  function Verified(opening: seq<Write>, c: Sha, checks: seq<CheckResult>): seq<Write> {
    opening + CheckWrites(c, checks, true) + if |checks| == 0 then [Mark(LocalVerificationPass)] else []
  }

  lemma Verify(w: World, policy: Policy, c: Sha, a: Answer, opening: seq<Write>) returns (next: World)
    requires |w.store.log| > 0 && Distinct(policy.localChecks) && a.broken.None?
    requires a.checks == ChecksOf(policy.localChecks, CheckPassed)
    requires StagePlan(w, policy, a) == CompleteLocalVerification(w, policy, a, c, opening)
    requires |opening| == 0 || opening == [Append(VerificationStarted(c), LocalVerify, None)]
    requires PerformAll(w, opening, a.clock).store.phase == LocalVerify
    requires !w.runtime.freshLocalReview && !w.runtime.freshPrReview && w.store.candidate == Some(c)
    ensures Turns(w, policy, [a], next) && Iterate(w, policy, a) == Turn(next, true)
    ensures At(next, LocalVerify, c, w.runtime.fixIterations, CountFixes(w.store.log))
    ensures CheckpointIsCurrent(next, LocalVerificationPass)
    ensures StagePlan(w, policy, a).writes == Verified(opening, c, a.checks)
  {
    hide Turns, CountFixes, ExactSet, PerformAll, Iterate, Fixes, StagePlan;
    ExactSetMeans(CheckIds(a.checks), policy.localChecks);
    var plan := CompleteLocalVerification(w, policy, a, c, opening);
    AllChecksPassed(a.checks);
    assert plan.exit == Continue && plan.writes == Verified(opening, c, a.checks);
    next := After(w, plan, a.clock);
    NoFixes(plan.writes);
    AfterCounts(w, plan, a.clock);
    VerificationEnds(w, policy, a, c, opening);
    CandidateStays(w, plan.writes, a.clock);
    PlanTaken(w, policy, a);
    OneTurnTaken(w, policy, a, next);
  }

  lemma AllChecksPassed(checks: seq<CheckResult>)
    requires forall i :: 0 <= i < |checks| ==> checks[i].outcome == CheckPassed
    ensures AllPassed(checks) && !SomeCheck(checks, CheckBlocked) && !SomeCheck(checks, CheckFailed)
  {
  }

  lemma {:induction false} CandidateStays(w: World, writes: seq<Write>, clock: nat -> Time)
    requires |w.store.log| > 0
    requires forall i :: 0 <= i < |writes| && writes[i].Append? ==> !writes[i].event.CandidateCreated?
    ensures PerformAll(w, writes, clock).store.candidate == w.store.candidate
  {
    if |writes| > 0 {
      CandidateStays(w, writes[..|writes| - 1], clock);
    }
  }

  lemma LastReviewReads(log: seq<Entry>, c: Sha, verdict: Verdict)
    requires |log| > 0 && log[|log| - 1].event == ReviewCompleted(c, verdict)
    ensures LatestVerdict(log, c) == Some(verdict)
  {
  }

  lemma ApproveReview(w: World, policy: Policy, at: Time, c: Sha, r: nat, d: nat) returns (a: Answer, next: World)
    requires At(w, LocalVerify, c, r, d) && CheckpointIsCurrent(w, LocalVerificationPass)
    ensures Turns(w, policy, [a], next) && At(next, LocalReview, c, r, d)
    ensures CheckpointIsCurrent(next, LocalReviewFixerIteration)
    ensures LatestVerdict(next.store.log, c) == Some(Approved) && AnswerAt(a, at)
  {
    hide Turns, CountFixes, PerformAll, Iterate, Fixes, LatestVerdict, CheckpointIsCurrent, CiWaitPlan, PrReviewPlan,
         CompleteLocalVerification, LocalReviewPlan;
    a := Plain(at, 0, 0, [], []);
    var plan := StagePlan(w, policy, a);
    var started := Append(ReviewStarted(c), LocalReview, None);
    var completed := Append(ReviewCompleted(c, Approved), LocalReview, Some(LocalReviewFixerIteration));
    assert plan.writes == [started] + [completed];
    next := After(w, plan, a.clock);
    EndsWithCheckpoint(w, plan, [started], completed.event, LocalReview, LocalReviewFixerIteration, a.clock);
    LastReviewReads(next.store.log, c, Approved);
    PerformOne(w, started, a.clock);
    AfterCounts(w, plan, a.clock);
    NoFixes(plan.writes);
    PlanTaken(w, policy, a);
    OneTurnTaken(w, policy, a, next);
  }

  lemma ReadyDelivery(w: World, policy: Policy, at: Time, c: Sha, r: nat, d: nat) returns (a: Answer, next: World)
    requires At(w, LocalReview, c, r, d) && CheckpointIsCurrent(w, LocalReviewFixerIteration)
    requires LatestVerdict(w.store.log, c) == Some(Approved)
    ensures Turns(w, policy, [a], next) && At(next, DeliveryReady, c, r, d)
    ensures PriorCheckpoint(next, LocalReviewFixerIteration) && AnswerAt(a, at)
  {
    hide Turns, CountFixes, LatestVerdict;
    a := Plain(at, 0, 0, [], []);
    next := OneTurn(w, policy, a, DeliveryReadied(c), DeliveryReady, None);
  }

  lemma Push(w: World, policy: Policy, at: Time, c: Sha, r: nat, d: nat) returns (a: Answer, next: World)
    requires At(w, DeliveryReady, c, r, d) && PriorCheckpoint(w, LocalReviewFixerIteration)
    ensures Turns(w, policy, [a], next) && At(next, Pushed, c, r, d)
    ensures CheckpointIsCurrent(next, BranchPushIntentObservation) && AnswerAt(a, at)
  {
    hide Turns, CountFixes;
    a := Plain(at, 0, 0, [], []);
    next := OneTurn(w, policy, a, BranchPushed(c), Pushed, Some(BranchPushIntentObservation));
  }

  lemma OpenPullRequest(w: World, policy: Policy, at: Time, c: Sha, r: nat, d: nat) returns (a: Answer, next: World)
    requires At(w, Pushed, c, r, d) && CheckpointIsCurrent(w, BranchPushIntentObservation)
    ensures Turns(w, policy, [a], next) && At(next, PrOpen, c, r, d)
    ensures CheckpointIsCurrent(next, PullRequestIntentObservation) && AnswerAt(a, at)
    ensures next.store.log[|next.store.log| - 1].event == PullRequestOpened(c, 1)
  {
    hide Turns, CountFixes;
    a := Plain(at, 0, 0, [], []);
    next := OneTurn(w, policy, a, PullRequestOpened(c, 1), PrOpen, Some(PullRequestIntentObservation));
  }

  lemma WaitForCi(w: World, policy: Policy, at: Time, c: Sha, r: nat, d: nat) returns (a: Answer, next: World)
    requires At(w, PrOpen, c, r, d) && CheckpointIsCurrent(w, PullRequestIntentObservation)
    requires w.store.log[|w.store.log| - 1].event == PullRequestOpened(c, 1)
    ensures Turns(w, policy, [a], next) && At(next, CiWait, c, r, d)
    ensures !CheckpointIsCurrent(next, CiReconciliationSnapshot) && AnswerAt(a, at)
    ensures LatestPullRequest(next.store.log, c).Some?
  {
    hide Turns, CountFixes;
    a := Plain(at, 0, 0, [], []);
    next := OneTurn(w, policy, a, CiWaiting(c), CiWait, None);
    assert next.store.log[|w.store.log| - 1].event == PullRequestOpened(c, 1);
  }

  ghost predicate Working(w: World, r: nat, d: nat) {
    && |w.store.log| > 0
    && (w.store.phase == Implementing || (w.store.phase == Fixing && w.store.candidate.Some?))
    && w.runtime.fixIterations == r && CountFixes(w.store.log) == d
    && !w.runtime.freshLocalReview && !w.runtime.freshPrReview
  }

  // ---------------------------------------------------------------- whole lives

  lemma SetUp(w: World, policy: Policy, at: Time) returns (answers: seq<Answer>, next: World)
    requires |w.store.log| > 0 && w.store.phase == Admitted
    requires w.runtime.fixIterations == 0 && CountFixes(w.store.log) == 0
    requires !w.runtime.freshLocalReview && !w.runtime.freshPrReview
    ensures Turns(w, policy, answers, next) && Working(next, 0, 0)
    ensures forall i :: 0 <= i < |answers| ==> AnswerAt(answers[i], at)
    ensures |next.store.log| == |w.store.log| + 5 && next.store.log[..|w.store.log|] == w.store.log
    ensures forall j :: |w.store.log| <= j < |next.store.log| ==> !next.store.log[j].event.VerificationCompleted?
  {
    hide Turns, CountFixes, Iterate;
    var a := Plain(at, 0, 0, [], []);
    var w1 := OneTurn(w, policy, a, RepositoryLeaseAcquired, RepositoryLeased, Some(RepositoryLeaseAcquisition));
    var w2 := OneTurn(w1, policy, a, IdentityLeasesAcquired, IdentityReady, Some(IdentityLeaseAcquisition));
    TurnsJoin(w, policy, [a], w1, [a], w2);
    var w3 := OneTurn(w2, policy, a, WorkspacePrepared, WorkspaceReady, Some(WorkspaceSandboxProof));
    TurnsJoin(w, policy, [a] + [a], w2, [a], w3);
    var w4 := OneTurn(w3, policy, a, TaskPacketCreated, TaskPacketReady, Some(TaskPacketCreation));
    TurnsJoin(w, policy, [a] + [a] + [a], w3, [a], w4);
    next := OneTurn(w4, policy, a, ImplementationStarted, Implementing, Some(ImplementerSessionMarker));
    TurnsJoin(w, policy, [a] + [a] + [a] + [a], w4, [a], next);
    answers := [a] + [a] + [a] + [a] + [a];
  }

  function Steps(generation: nat, answers: seq<Answer>): (steps: seq<LifeStep>)
    ensures |steps| == |answers|
  {
    seq(|answers|, i requires 0 <= i < |answers| => TurnOf(generation, answers[i]))
  }

  /** The life's current worker stands at `w`. */
  ghost predicate Works(life: Life, generation: nat, w: World) {
    && |w.store.log| > 0
    && life.store == w.store && life.store.generation == generation
    && generation in life.workers && life.workers[generation] == w.runtime
  }

  lemma TurnInLife(life: Life, policy: Policy, generation: nat, w: World, a: Answer)
    requires Works(life, generation, w) && Iterate(w, policy, a).again && |Iterate(w, policy, a).world.store.log| > 0
    ensures Works(Live(life, policy, TurnOf(generation, a)), generation, Iterate(w, policy, a).world)
  {
    hide Iterate, Recover;
    GenerationKeptByTurn(w, policy, a);
  }

  /** A life whose current worker takes these turns. */
  lemma {:induction false} TurnsInLife(policy: Policy, admittedAt: Time, before: seq<LifeStep>, generation: nat,
                                       w: World, answers: seq<Answer>, last: World)
    requires Works(WholeLife(policy, admittedAt, before), generation, w)
    requires Turns(w, policy, answers, last)
    ensures Works(WholeLife(policy, admittedAt, before + Steps(generation, answers)), generation, last)
    decreases |answers|
  {
    hide Iterate, Live, Works;
    if |answers| == 0 {
      assert before + Steps(generation, answers) == before;
    } else {
      var step := TurnOf(generation, answers[0]);
      var longer := before + [step];
      assert longer[..|before|] == before;
      TurnsHaveLog(Iterate(w, policy, answers[0]).world, policy, answers[1..], last);
      TurnInLife(WholeLife(policy, admittedAt, before), policy, generation, w, answers[0]);
      TurnsInLife(policy, admittedAt, longer, generation, Iterate(w, policy, answers[0]).world, answers[1..], last);
      assert before + Steps(generation, answers) == longer + Steps(generation, answers[1..]);
    }
  }

  lemma TurnsHaveLog(w: World, policy: Policy, answers: seq<Answer>, last: World)
    requires Turns(w, policy, answers, last)
    ensures |w.store.log| > 0
  {
  }

  lemma FirstStart(policy: Policy, admittedAt: Time) returns (start: LifeStep, w: World)
    ensures Works(WholeLife(policy, admittedAt, [start]), 1, w) && w.store.phase == Admitted
    ensures w.runtime.fixIterations == 0 && CountFixes(w.store.log) == 0
    ensures !w.runtime.freshLocalReview && !w.runtime.freshPrReview
    ensures start.StartRun? && AnswerAt(start.answer, admittedAt)
    ensures w.store.log == [Entry(WorkOrderAdmitted, Admitted, admittedAt)]
  {
    start := StartRun(false, ContinueFromCheckpoint, Plain(admittedAt, 0, 0, [], []));
    AdmissionCounts(admittedAt, policy);
    assert [start][..0] == [];
    var life := Live(Admission(admittedAt), policy, start);
    assert WholeLife(policy, admittedAt, [start]) == life;
    w := World(life.store, life.workers[1]);
  }
}
