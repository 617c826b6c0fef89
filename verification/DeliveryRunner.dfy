/**
 The delivery runner in the form the source gives it: an object whose stage methods write to the
 durable store one transition at a time and update its runtime fields, driven by a phase loop.
 Each method is proved against the step functions, so what is proved of those holds of the object.
 */
module DeliveryRunner {
  import opened ExactSets
  import opened Options
  import opened DeliveryLog
  import opened DeliverySteps
  import opened DeliverySafety
  import opened DeliveryRunnerSafety
  import opened DeliveryLife
  import opened DeliveryFixes
  import opened DeliveryTermination

  /** The world after `n` turns of the loop, each answered in order. */
  function AfterTurns(w: World, policy: Policy, answers: nat -> Answer, n: nat): (after: World)
    requires |w.store.log| > 0
    ensures |after.store.log| > 0
  {
    if n == 0 then w
    else
      var before := AfterTurns(w, policy, answers, n - 1);
      var after := Iterate(before, policy, answers(n - 1)).world;
      if |after.store.log| > 0 then after else before
  }

  /** Turns that can still follow, counting every fix as a whole pass through the stages. */
  function TurnsLeft(w: World, policy: Policy): nat
    requires |w.store.log| > 0
  {
    25 * FixesLeft(w, policy) + StagesLeft(w, policy)
  }

  lemma TurnsLeftFall(w: World, policy: Policy, a: Answer)
    requires WorldInv(w, policy)
    ensures |w.store.log| > 0
    ensures var turn := Iterate(w, policy, a);
            && |turn.world.store.log| > 0
            && WorldInv(turn.world, policy)
            && (turn.again ==> TurnsLeft(turn.world, policy) < TurnsLeft(w, policy))
  {
    hide StoreInv, Iterate, FixesLeft, StagesLeft;
    IterateKeeps(w, policy, a);
    InvHasLog(Iterate(w, policy, a).world.store, policy);
    TurnFalls(w, policy, a);
    StagesLeftSmall(Iterate(w, policy, a).world, policy);
  }

  lemma StagesLeftSmall(w: World, policy: Policy)
    requires |w.store.log| > 0
    ensures StagesLeft(w, policy) <= 24
  {
    hide CurrentCiOutcome, CheckpointIsCurrent;
  }

  class Runner {
    const policy: Policy
    var store: Store
    var latestCheckpoint: Checkpoint
    var fixIterations: nat
    var forceFreshLocalReview: bool
    var forceFreshPullRequestReview: bool
    /** Writes made since the current turn of the loop began. */
    var written: nat

    ghost function Current(): World
      reads this
    {
      World(store, Runtime(latestCheckpoint, fixIterations, forceFreshLocalReview, forceFreshPullRequestReview))
    }

    /** The writes `done` of a turn that began in `w` have been performed, and the turn is not cut yet. */
    ghost predicate Progress(w: World, done: seq<Write>, a: Answer)
      reads this
    {
      && |w.store.log| > 0 && |store.log| > 0
      && Current() == PerformAll(w, done, a.clock)
      && written == |done|
      && (a.broken.Some? ==> |done| <= a.cut)
    }

    /** The stage carried out `plan`, or was cut short at the answer's point. */
    ghost predicate Finished(w: World, plan: Plan, a: Answer, ok: bool, exit: Exit)
      reads this
    {
      && |w.store.log| > 0 && |store.log| > 0
      && (ok <==> !(a.broken.Some? && a.cut < |plan.writes|))
      && (ok ==> exit == plan.exit && Current() == After(w, plan, a.clock) && written == |plan.writes|)
      && (!ok ==> written == a.cut && store == PerformAll(w, plan.writes[..a.cut], a.clock).store)
    }

    /** `#transition` and `#transitionWithCheckpoint`: one fenced write, unless the call dies before it. */
    method Transition(write: Write, a: Answer, ghost w: World, ghost done: seq<Write>) returns (ok: bool)
      requires Progress(w, done, a)
      modifies this
      ensures ok <==> !(a.broken.Some? && a.cut == |done|)
      ensures Progress(w, if ok then done + [write] else done, a)
    {
      PerformOneMore(w, done, write, a.clock);
      ok := !(a.broken.Some? && a.cut == written);
      if ok {
        store := Apply(store, write, a.clock(written));
        written := written + 1;
        if write.Mark? || write.kind.Some? {
          latestCheckpoint := store.checkpoint.value;
        }
      }
    }

    method OneEvent(event: Event, to: Phase, kind: Option<CheckpointKind>, a: Answer) returns (ok: bool, exit: Exit)
      requires |store.log| > 0 && written == 0
      modifies this
      ensures Finished(old(Current()), OneWrite(old(Current()), event, to, kind), a, ok, exit)
    {
      ghost var w := Current();
      ghost var write := Append(event, to, kind);
      ok := Transition(Append(event, to, kind), a, w, []);
      exit := Continue;
      assert [] + [write] == [write];
      if !ok { assert [write][..0] == []; }
    }

    /** `#startFixing`, after the `done` writes of its caller. */
    method StartFixing(c: Sha, count: nat, advance: bool, a: Answer, ghost w: World, ghost done: seq<Write>)
      returns (ok: bool, exit: Exit)
      requires Progress(w, done, a)
      modifies this
      ensures Finished(w, DeliverySteps.StartFixing(done, w.runtime, policy, c, count, advance), a, ok, exit)
    {
      hide PerformAll, Apply;
      RuntimeUntouched(w, done, a.clock);
      if count >= policy.maxFixIterations {
        return true, Stop(BudgetExhausted);
      }
      ghost var fixing := Append(FixingStarted(c, count + 1), Fixing, None);
      ok := Transition(Append(FixingStarted(c, count + 1), Fixing, None), a, w, done);
      exit := Continue;
      if ok {
        RuntimeUntouched(w, done + [fixing], a.clock);
        if advance {
          fixIterations := count + 1;
        }
      } else {
        assert (done + [fixing])[..a.cut] == done;
      }
    }

    /** `#candidate`. */
    method Candidate(a: Answer) returns (ok: bool, exit: Exit)
      requires |store.log| > 0 && written == 0 && (store.phase == Implementing || store.phase == Fixing)
      modifies this
      ensures Finished(old(Current()), StagePlan(old(Current()), policy, a), a, ok, exit)
    {
      hide PerformAll, Apply;
      ghost var w := Current();
      NothingPerformed(w, a.clock);
      var starting := policy.baseSha;
      if store.phase == Fixing {
        if store.candidate.None? { return true, Stop(Quarantined); }
        starting := store.candidate.value;
      }
      if a.parentSha != starting || a.candidateSha == starting {
        return true, Stop(Quarantined);
      }
      ok, exit := OneEvent(CandidateCreated(a.candidateSha, a.parentSha), CandidateReady,
                           Some(CandidateCommitCreation), a);
    }

    lemma NothingPerformed(w: World, clock: nat -> Time)
      requires |w.store.log| > 0
      ensures PerformAll(w, [], clock) == w
    {
    }

    lemma RuntimeUntouched(w: World, writes: seq<Write>, clock: nat -> Time)
      requires |w.store.log| > 0
      ensures PerformAll(w, writes, clock).runtime == w.runtime.(latest := PerformAll(w, writes, clock).runtime.latest)
    {
      RuntimeKept(w, writes, clock);
      FlagsKept(w, writes, clock);
    }

    lemma {:induction false} FlagsKept(w: World, writes: seq<Write>, clock: nat -> Time)
      requires |w.store.log| > 0
      ensures PerformAll(w, writes, clock).runtime.freshLocalReview == w.runtime.freshLocalReview
      ensures PerformAll(w, writes, clock).runtime.freshPrReview == w.runtime.freshPrReview
    {
      if |writes| > 0 {
        FlagsKept(w, writes[..|writes| - 1], clock);
      }
    }

    /** `#completeLocalVerification`: one event per check, in the controller's order. */
    method CompleteLocalVerification(c: Sha, a: Answer, ghost w: World, ghost opening: seq<Write>)
      returns (ok: bool, exit: Exit)
      requires Progress(w, opening, a)
      modifies this
      ensures Finished(w, DeliverySteps.CompleteLocalVerification(w, policy, a, c, opening), a, ok, exit)
    {
      hide PerformAll, Apply, ExactSet, After;
      AfterNothing(w, Plan(opening, w.runtime, Stop(Quarantined)), a.clock);
      if !ExactSet(CheckIds(a.checks), policy.localChecks) {
        return true, Stop(Quarantined);
      }
      var passed, failed, blocked := true, false, false;
      for i := 0 to |a.checks|
        invariant Progress(w, opening, a)
        invariant passed == AllPassed(a.checks[..i])
        invariant failed == SomeCheck(a.checks[..i], CheckFailed)
        invariant blocked == SomeCheck(a.checks[..i], CheckBlocked)
      {
        OutcomesGrow(a.checks, i);
        passed := passed && a.checks[i].outcome == CheckPassed;
        failed := failed || a.checks[i].outcome == CheckFailed;
        blocked := blocked || a.checks[i].outcome == CheckBlocked;
      }
      assert a.checks[..|a.checks|] == a.checks;
      ghost var round := CheckWrites(c, a.checks, passed);
      ghost var plan := DeliverySteps.CompleteLocalVerification(w, policy, a, c, opening);
      assert opening + round[..0] == opening;
      for i := 0 to |a.checks|
        invariant Progress(w, opening + round[..i], a)
      {
        ok := Transition(Append(VerificationCompleted(c, a.checks[i]), LocalVerify,
                                if passed && i == |a.checks| - 1 then Some(LocalVerificationPass) else None),
                         a, w, opening + round[..i]);
        assert round[..i + 1] == round[..i] + [round[i]];
        assert opening + round[..i] + [round[i]] == opening + round[..i + 1];
        if !ok {
          assert plan.writes[..a.cut] == opening + round[..i];
          return false, Rethrow;
        }
      }
      assert round[..|a.checks|] == round;
      if blocked {
        AfterNothing(w, plan, a.clock);
        return true, Stop(BlockedExternal);
      }
      if failed {
        RuntimeUntouched(w, opening + round, a.clock);
        ok, exit := StartFixing(c, fixIterations, true, a, w, opening + round);
        return;
      }
      if |a.checks| == 0 {
        ok := Transition(Mark(LocalVerificationPass), a, w, opening + round);
        if !ok {
          assert plan.writes[..a.cut] == opening + round;
          return false, Rethrow;
        }
      }
      AfterNothing(w, plan, a.clock);
      return true, Continue;
    }

    /** A plan that leaves the runtime's own fields alone ends where its writes end. */
    lemma AfterNothing(w: World, plan: Plan, clock: nat -> Time)
      requires |w.store.log| > 0 && plan.runtime == w.runtime
      ensures After(w, plan, clock) == PerformAll(w, plan.writes, clock)
    {
      RuntimeUntouched(w, plan.writes, clock);
    }

    lemma OutcomesGrow(checks: seq<CheckResult>, i: nat)
      requires i < |checks|
      ensures AllPassed(checks[..i + 1]) == (AllPassed(checks[..i]) && checks[i].outcome == CheckPassed)
      ensures SomeCheck(checks[..i + 1], CheckFailed)
              == (SomeCheck(checks[..i], CheckFailed) || checks[i].outcome == CheckFailed)
      ensures SomeCheck(checks[..i + 1], CheckBlocked)
              == (SomeCheck(checks[..i], CheckBlocked) || checks[i].outcome == CheckBlocked)
    {
      assert checks[..i + 1] == checks[..i] + [checks[i]];
      forall outcome: CheckOutcome
        ensures SomeCheck(checks[..i + 1], outcome) == (SomeCheck(checks[..i], outcome) || checks[i].outcome == outcome)
      {
        if SomeCheck(checks[..i], outcome) {
          var j :| 0 <= j < i && checks[..i][j].outcome == outcome;
          assert checks[..i + 1][j].outcome == outcome;
        }
        if checks[i].outcome == outcome {
          assert checks[..i + 1][i].outcome == outcome;
        }
      }
    }

    /** `#review`, for the local or the pull-request reviewer, and the flag its caller clears. */
    method CompleteReview(c: Sha, local: bool, a: Answer, ghost w: World, ghost opening: seq<Write>)
      returns (ok: bool, exit: Exit)
      requires Progress(w, opening, a)
      modifies this
      ensures Finished(w, DeliverySteps.CompleteReview(w, a, c, opening, local), a, ok, exit)
    {
      hide PerformAll, Apply;
      ghost var plan := DeliverySteps.CompleteReview(w, a, c, opening, local);
      if local {
        ok := Transition(Append(ReviewCompleted(c, a.verdict), LocalReview, Some(LocalReviewFixerIteration)),
                         a, w, opening);
      } else {
        ok := Transition(Append(PrReviewCompleted(c, a.verdict), PrReview, Some(PrReviewFixerIteration)),
                         a, w, opening);
      }
      if !ok {
        assert plan.writes[..a.cut] == opening;
        return false, Rethrow;
      }
      RuntimeUntouched(w, plan.writes, a.clock);
      if local {
        forceFreshLocalReview := false;
      } else {
        forceFreshPullRequestReview := false;
      }
      exit := if a.verdict == ReviewBlocked then Stop(BlockedExternal) else Continue;
    }

    /** A stage that opens with a started event and then completes its review. */
    method StartReview(c: Sha, local: bool, a: Answer) returns (ok: bool, exit: Exit)
      requires |store.log| > 0 && written == 0
      modifies this
      ensures Finished(old(Current()), DeliverySteps.CompleteReview(old(Current()), a, c,
                [if local then Append(ReviewStarted(c), LocalReview, None)
                 else Append(PrReviewStarted(c), PrReview, None)],
                local), a, ok, exit)
    {
      hide PerformAll, Apply;
      ghost var w := Current();
      ghost var started := if local then Append(ReviewStarted(c), LocalReview, None)
                           else Append(PrReviewStarted(c), PrReview, None);
      NothingPerformed(w, a.clock);
      assert [] + [started] == [started];
      ok := Transition(if local then Append(ReviewStarted(c), LocalReview, None)
                       else Append(PrReviewStarted(c), PrReview, None), a, w, []);
      if !ok {
        assert DeliverySteps.CompleteReview(w, a, c, [started], local).writes[..0] == [];
        return false, Rethrow;
      }
      ok, exit := CompleteReview(c, local, a, w, [started]);
    }

    /** `#localVerification`. */
    method LocalVerification(c: Sha, a: Answer) returns (ok: bool, exit: Exit)
      requires |store.log| > 0 && written == 0 && store.phase == CandidateReady && store.candidate == Some(c)
      modifies this
      ensures Finished(old(Current()), CandidateStage(old(Current()), policy, a, c), a, ok, exit)
    {
      hide PerformAll, Apply, DeliverySteps.CompleteLocalVerification;
      ghost var w := Current();
      NothingPerformed(w, a.clock);
      if latestCheckpoint.kind != CandidateCommitCreation || latestCheckpoint.candidate != store.candidate {
        return true, Stop(Quarantined);
      }
      ghost var started := Append(VerificationStarted(c), LocalVerify, None);
      assert [] + [started] == [started];
      ok := Transition(Append(VerificationStarted(c), LocalVerify, None), a, w, []);
      if !ok {
        VerificationOpens(w, a, c, [started]);
        return false, Rethrow;
      }
      ok, exit := CompleteLocalVerification(c, a, w, [started]);
    }

    lemma VerificationOpens(w: World, a: Answer, c: Sha, opening: seq<Write>)
      ensures var plan := DeliverySteps.CompleteLocalVerification(w, policy, a, c, opening);
              |opening| <= |plan.writes| && plan.writes[..0] == []
    {
      hide ExactSet;
    }

    /** `#checkpointIsCurrent`. */
    method IsCurrent(kind: CheckpointKind) returns (current: bool)
      ensures current == CheckpointIsCurrent(Current(), kind)
    {
      current := && latestCheckpoint.kind == kind
                 && latestCheckpoint.eventIndex == |store.log| - 1
                 && latestCheckpoint.phase == store.phase
                 && latestCheckpoint.candidate == store.candidate;
    }

    /** `#afterLocalReview`. */
    method AfterLocalReview(c: Sha, a: Answer) returns (ok: bool, exit: Exit)
      requires |store.log| > 0 && written == 0
      modifies this
      ensures Finished(old(Current()), DeliverySteps.AfterLocalReview(old(Current()), policy, c), a, ok, exit)
    {
      hide PerformAll, Apply, LatestVerdict;
      ghost var w := Current();
      NothingPerformed(w, a.clock);
      var verdict := LatestVerdict(store.log, c);
      if verdict == Some(ChangesRequested) {
        ok, exit := StartFixing(c, fixIterations, true, a, w, []);
      } else if verdict != Some(Approved) {
        return true, Stop(Quarantined);
      } else {
        ok, exit := OneEvent(DeliveryReadied(c), DeliveryReady, None, a);
      }
    }

    /** `#completeCi`: the failure path counts the durable log and passes no runtime. */
    method CompleteCi(c: Sha, a: Answer) returns (ok: bool, exit: Exit)
      requires |store.log| > 0 && written == 0
      modifies this
      ensures Finished(old(Current()), DeliverySteps.CompleteCi(old(Current()), policy, a, c), a, ok, exit)
    {
      hide PerformAll, Apply, CiObservationAccepted, DerivedOutcome, CountFixes, After;
      ghost var w := Current();
      NothingPerformed(w, a.clock);
      AfterNothing(w, Refuse(w), a.clock);
      if !CiObservationAccepted(World(store, Runtime(latestCheckpoint, fixIterations, forceFreshLocalReview,
                                                     forceFreshPullRequestReview)), policy, a, c) {
        return true, Stop(Quarantined);
      }
      var outcome := DerivedOutcome(a.ciChecks);
      ghost var write := Append(CiCompleted(c, outcome, a.ciChecks, a.ciObservedAt), CiWait,
                                Some(CiReconciliationSnapshot));
      ghost var plan := DeliverySteps.CompleteCi(w, policy, a, c);
      assert [] + [write] == [write];
      ok := Transition(Append(CiCompleted(c, outcome, a.ciChecks, a.ciObservedAt), CiWait,
                              Some(CiReconciliationSnapshot)), a, w, []);
      if !ok {
        assert plan.writes[..0] == [];
        return false, Rethrow;
      }
      match outcome
      case CiFailed =>
        SnapshotIsNoFix(w, write, a.clock);
        ok, exit := StartFixing(c, CountFixes(store.log), false, a, w, [write]);
      case CiPassed =>
        AfterNothing(w, plan, a.clock);
        return true, Continue;
      case _ =>
        AfterNothing(w, plan, a.clock);
        return true, Rethrow;
    }

    lemma SnapshotIsNoFix(w: World, write: Write, clock: nat -> Time)
      requires |w.store.log| > 0 && !StartsFixing(write)
      ensures CountFixes(PerformAll(w, [write], clock).store.log) == CountFixes(w.store.log)
    {
      CountAfter(w, [write], clock);
      NoFixes([write]);
    }

    /** `#afterPullRequestReview`. */
    method AfterPullRequestReview(c: Sha, a: Answer) returns (ok: bool, exit: Exit)
      requires |store.log| > 0 && written == 0
      modifies this
      ensures Finished(old(Current()), DeliverySteps.AfterPullRequestReview(old(Current()), policy, a, c), a, ok, exit)
    {
      hide PerformAll, Apply, CiObservationAccepted, DerivedOutcome, LatestPrReview, LatestPullRequest, DurableFinalCi,
           After;
      ghost var w := Current();
      NothingPerformed(w, a.clock);
      AfterNothing(w, Refuse(w), a.clock);
      var review := LatestPrReview(store.log, c);
      if review.None? {
        return true, Stop(Quarantined);
      }
      var verdict := store.log[review.value].event.verdict;
      if verdict == ChangesRequested {
        ok, exit := StartFixing(c, fixIterations, true, a, w, []);
        return;
      }
      if verdict != Approved {
        return true, Stop(Quarantined);
      }
      if store.log[|store.log| - 1].event.CiRevalidated? {
        ok, exit := DeliverNow(c, review.value, a);
      } else {
        ok, exit := RevalidateCi(c, a);
      }
    }

    method DeliverNow(c: Sha, review: nat, a: Answer) returns (ok: bool, exit: Exit)
      requires |store.log| > 0 && written == 0
      requires review < |store.log| && store.log[|store.log| - 1].event.CiRevalidated?
      modifies this
      ensures Finished(old(Current()), Deliver(old(Current()), policy, a, c, review), a, ok, exit)
    {
      hide PerformAll, Apply, LatestPullRequest, DurableFinalCi, After;
      ghost var w := Current();
      NothingPerformed(w, a.clock);
      AfterNothing(w, Refuse(w), a.clock);
      var tail := store.log[|store.log| - 1];
      var number := LatestPullRequest(store.log, c);
      if !DurableFinalCi(store.log, policy, c, review) || number.None? {
        return true, Stop(Quarantined);
      }
      if || a.finalObservedAt < store.log[review].at || a.finalObservedAt < tail.event.observedAt
         || a.finalObservedAt < tail.at || a.finalObservedAt > a.now {
        return true, Stop(Quarantined);
      }
      ok, exit := OneEvent(PullRequestDelivered(c, number.value, a.finalObservedAt, tail.event.checks,
                                                tail.event.observedAt),
                           PrDelivered, Some(PrReviewFixerIteration), a);
    }

    method RevalidateCi(c: Sha, a: Answer) returns (ok: bool, exit: Exit)
      requires |store.log| > 0 && written == 0
      modifies this
      ensures Finished(old(Current()), Revalidate(old(Current()), policy, a, c), a, ok, exit)
    {
      hide PerformAll, Apply, CiObservationAccepted, DerivedOutcome, After;
      ghost var w := Current();
      NothingPerformed(w, a.clock);
      AfterNothing(w, Refuse(w), a.clock);
      if !CiObservationAccepted(World(store, Runtime(latestCheckpoint, fixIterations, forceFreshLocalReview,
                                                     forceFreshPullRequestReview)), policy, a, c) {
        return true, Stop(Quarantined);
      }
      var outcome := DerivedOutcome(a.ciChecks);
      if outcome == CiPassed {
        ok, exit := OneEvent(CiRevalidated(c, outcome, a.ciChecks, a.ciObservedAt), PrReview,
                             Some(PrReviewFixerIteration), a);
        return;
      }
      ok, exit := OneEvent(CiRecheckCompleted(c, outcome, a.ciChecks, a.ciObservedAt), CiWait,
                           Some(CiReconciliationSnapshot), a);
      SamePlanAfter(w, Revalidate(w, policy, a, c),
                    OneWrite(w, CiRecheckCompleted(c, outcome, a.ciChecks, a.ciObservedAt), CiWait,
                             Some(CiReconciliationSnapshot)), a.clock);
      if outcome != CiFailed {
        exit := Rethrow;
      }
    }

    lemma SamePlanAfter(w: World, one: Plan, other: Plan, clock: nat -> Time)
      requires |w.store.log| > 0 && one.writes == other.writes && one.runtime == other.runtime
      ensures After(w, one, clock) == After(w, other, clock)
    {
    }

    /** The phases that act on a bound candidate. */
    method CandidatePhase(c: Sha, a: Answer) returns (ok: bool, exit: Exit)
      requires |store.log| > 0 && written == 0 && store.candidate == Some(c)
      modifies this
      ensures Finished(old(Current()), CandidateStage(old(Current()), policy, a, c), a, ok, exit)
    {
      hide PerformAll, Apply, DeliverySteps.CompleteLocalVerification, DeliverySteps.CompleteReview,
           DeliverySteps.AfterLocalReview, DeliverySteps.CompleteCi, DeliverySteps.AfterPullRequestReview,
           CurrentCiOutcome, After;
      ghost var w := Current();
      NothingPerformed(w, a.clock);
      AfterNothing(w, Refuse(w), a.clock);
      match store.phase
      case CandidateReady => ok, exit := LocalVerification(c, a);
      case LocalVerify =>
        var current := IsCurrent(LocalVerificationPass);
        if current {
          ok, exit := StartReview(c, true, a);
        } else {
          ok, exit := CompleteLocalVerification(c, a, w, []);
        }
      case LocalReview =>
        var current := IsCurrent(LocalReviewFixerIteration);
        if forceFreshLocalReview || !current {
          ok, exit := CompleteReview(c, true, a, w, []);
        } else {
          ok, exit := AfterLocalReview(c, a);
        }
      case DeliveryReady =>
        ok, exit := AfterPrior(LocalReviewFixerIteration, BranchPushed(c), Pushed, BranchPushIntentObservation, a);
      case Pushed =>
        ok, exit := AfterPrior(BranchPushIntentObservation, PullRequestOpened(c, a.pullRequestNumber), PrOpen,
                               PullRequestIntentObservation, a);
      case PrOpen => ok, exit := OneEvent(CiWaiting(c), CiWait, None, a);
      case CiWait => ok, exit := CiWaitPhase(c, a);
      case PrReview =>
        var current := IsCurrent(PrReviewFixerIteration);
        if forceFreshPullRequestReview || !current {
          ok, exit := CompleteReview(c, false, a, w, []);
        } else {
          ok, exit := AfterPullRequestReview(c, a);
        }
      case PrDelivered =>
        ok, exit := AfterPrior(PrReviewFixerIteration, EvidenceWasFinalized(c), EvidenceFinalized,
                               EvidenceFinalizationAcknowledgement, a);
      case EvidenceFinalized =>
        ok, exit := AfterPrior(EvidenceFinalizationAcknowledgement, RunCompleted(c), Completed,
                               LeaseReleaseWorkspaceCleanup, a);
      case _ => return true, Stop(Quarantined);
    }

    method CiWaitPhase(c: Sha, a: Answer) returns (ok: bool, exit: Exit)
      requires |store.log| > 0 && written == 0
      modifies this
      ensures Finished(old(Current()), CiWaitPlan(old(Current()), policy, a, c), a, ok, exit)
    {
      hide PerformAll, Apply, DeliverySteps.CompleteReview, DeliverySteps.CompleteCi, CurrentCiOutcome, After;
      ghost var w := Current();
      NothingPerformed(w, a.clock);
      AfterNothing(w, Refuse(w), a.clock);
      var current := IsCurrent(CiReconciliationSnapshot);
      if !current {
        ok, exit := CompleteCi(c, a);
        return;
      }
      match CurrentCiOutcome(store.log, policy, c)
      case None => return true, Stop(Quarantined);
      case Some(CiFailed) => ok, exit := StartFixing(c, fixIterations, true, a, w, []);
      case Some(CiPassed) => ok, exit := StartReview(c, false, a);
      case Some(_) => ok, exit := CompleteCi(c, a);
    }

    method AfterPrior(prior: CheckpointKind, event: Event, to: Phase, kind: CheckpointKind, a: Answer)
      returns (ok: bool, exit: Exit)
      requires |store.log| > 0 && written == 0
      modifies this
      ensures Finished(old(Current()), AfterCheckpoint(old(Current()), prior, event, to, kind), a, ok, exit)
    {
      hide PerformAll, Apply;
      ghost var w := Current();
      NothingPerformed(w, a.clock);
      if latestCheckpoint.kind != prior || latestCheckpoint.candidate != store.candidate {
        return true, Stop(Quarantined);
      }
      ok, exit := OneEvent(event, to, Some(kind), a);
    }

    /** `#finishCancellation`. */
    method FinishCancellation(a: Answer) returns (ok: bool, exit: Exit)
      requires |store.log| > 0 && written == 0 && (store.phase == CancelRequested || store.phase == Cancelling)
      modifies this
      ensures Finished(old(Current()), StagePlan(old(Current()), policy, a), a, ok, exit)
    {
      hide PerformAll, Apply;
      ghost var w := Current();
      NothingPerformed(w, a.clock);
      ghost var plan := StagePlan(w, policy, a);
      AfterNothing(w, plan, a.clock);
      ghost var done := [];
      var candidate := store.candidate;
      if store.phase == CancelRequested {
        ok := Transition(Append(CancellationStarted(candidate), Cancelling, None), a, w, []);
        if !ok { return false, Rethrow; }
        done := [Append(CancellationStarted(candidate), Cancelling, None)];
        assert [] + done == done;
      }
      ok := Transition(Append(RunCancelled(candidate), Cancelled, Some(LeaseReleaseWorkspaceCleanup)), a, w, done);
      assert done + [Append(RunCancelled(candidate), Cancelled, Some(LeaseReleaseWorkspaceCleanup))] == plan.writes;
      if !ok {
        assert plan.writes[..a.cut] == done;
        return false, Rethrow;
      }
      return true, Return;
    }

    /** The switch of the phase loop. */
    method Stage(a: Answer) returns (ok: bool, exit: Exit)
      requires |store.log| > 0 && written == 0
      modifies this
      ensures Finished(old(Current()), StagePlan(old(Current()), policy, a), a, ok, exit)
    {
      hide PerformAll, Apply, CandidateStage, CandidatePlan, After;
      ghost var w := Current();
      NothingPerformed(w, a.clock);
      AfterNothing(w, Refuse(w), a.clock);
      AfterNothing(w, Plan([], w.runtime, Return), a.clock);
      match store.phase
      case Admitted =>
        ok, exit := OneEvent(RepositoryLeaseAcquired, RepositoryLeased, Some(RepositoryLeaseAcquisition), a);
      case RepositoryLeased =>
        ok, exit := OneEvent(IdentityLeasesAcquired, IdentityReady, Some(IdentityLeaseAcquisition), a);
      case IdentityReady => ok, exit := OneEvent(WorkspacePrepared, WorkspaceReady, Some(WorkspaceSandboxProof), a);
      case WorkspaceReady => ok, exit := OneEvent(TaskPacketCreated, TaskPacketReady, Some(TaskPacketCreation), a);
      case TaskPacketReady =>
        ok, exit := OneEvent(ImplementationStarted, Implementing, Some(ImplementerSessionMarker), a);
      case Implementing => ok, exit := Candidate(a);
      case Fixing => ok, exit := Candidate(a);
      case CancelRequested => ok, exit := FinishCancellation(a);
      case Cancelling => ok, exit := FinishCancellation(a);
      case WaitingApproval => return true, Return;
      case NeedsSpec => return true, Return;
      case BlockedExternal => return true, Return;
      case Completed => return true, Return;
      case Cancelled => return true, Return;
      case Failed => return true, Return;
      case Refused => return true, Return;
      case Quarantined => return true, Return;
      case BudgetExhausted => return true, Return;
      case Received => return true, Stop(Quarantined);
      case _ =>
        if store.candidate.None? { return true, Stop(Quarantined); }
        ok, exit := CandidatePhase(store.candidate.value, a);
    }

    /** `#handleError`: leave the event a stop calls for, if the store admits it. */
    method HandleError(exit: Exit, a: Answer, used: nat)
      requires |store.log| > 0
      modifies this
      ensures store == Leave(old(Current()), exit, a, used).store
      ensures StopWrites(old(store), exit, a.disposal) == [] ==> Current() == old(Current())
    {
      ghost var w := Current();
      var writes := StopWrites(store, exit, a.disposal);
      if |writes| > 0 {
        PerformOne(w, writes[0], Later(a.clock, used));
        store := Apply(store, writes[0], a.clock(used));
      }
    }

    /** One turn of the loop. */
    method Turn(a: Answer) returns (again: bool)
      requires |store.log| > 0
      modifies this
      ensures |store.log| > 0
      ensures var turn := Iterate(old(Current()), policy, a);
              && store == turn.world.store && again == turn.again
              && (again ==> Current() == turn.world)
    {
      hide PerformAll, Apply, StagePlan, StopWrites, Leave;
      ghost var w := Current();
      ghost var plan := StagePlan(w, policy, a);
      written := 0;
      var ok, exit := Stage(a);
      assert plan.writes[..|plan.writes|] == plan.writes;
      if a.broken.Some? {
        LeaveStore(Current(),
                   PerformAll(w, plan.writes[..if a.cut <= |plan.writes| then a.cut else |plan.writes|], a.clock),
                   a.broken.value, a, written);
        HandleError(a.broken.value, a, written);
        again := false;
      } else {
        ContinueWritesNothing(store, a.disposal);
        LeaveContinues(Current(), a, written);
        HandleError(exit, a, written);
        again := exit == Continue;
      }
      LeaveHasLog(w, policy, a);
    }

    lemma ContinueWritesNothing(s: Store, disposal: Disposal)
      ensures StopWrites(s, Continue, disposal) == []
    {
    }

    lemma LeaveStore(w: World, other: World, exit: Exit, a: Answer, used: nat)
      requires |w.store.log| > 0 && w.store == other.store
      ensures Leave(w, exit, a, used).store == Leave(other, exit, a, used).store
    {
      var writes := StopWrites(w.store, exit, a.disposal);
      if |writes| > 0 {
        PerformOne(w, writes[0], Later(a.clock, used));
        PerformOne(other, writes[0], Later(a.clock, used));
      }
    }

    lemma LeaveHasLog(w: World, policy: Policy, a: Answer)
      requires |w.store.log| > 0
      ensures |Iterate(w, policy, a).world.store.log| > 0
    {
    }

    /** The `for (;;)` of `run()`. It stops whatever the controllers answer, and how soon is bounded. */
    method PhaseLoop(answers: nat -> Answer) returns (turns: nat)
      requires WorldInv(Current(), policy)
      modifies this
      ensures |old(store).log| > 0
      ensures StoreInv(store, policy)
      ensures store == AfterTurns(old(Current()), policy, answers, turns).store
      ensures turns <= TurnsLeft(old(Current()), policy) + 1
    {
      hide StoreInv, Iterate, TurnsLeft;
      ghost var w := Current();
      InvHasLog(store, policy);
      turns := 0;
      var again := true;
      while again
        invariant |store.log| > 0 && StoreInv(store, policy)
        invariant store == AfterTurns(w, policy, answers, turns).store
        invariant again ==> Current() == AfterTurns(w, policy, answers, turns)
        invariant again ==> WorldInv(Current(), policy) && turns + TurnsLeft(Current(), policy) <= TurnsLeft(w, policy)
        invariant turns <= TurnsLeft(w, policy) + 1
        decreases again, if again then TurnsLeft(Current(), policy) else 0
      {
        TurnsLeftFall(Current(), policy, answers(turns));
        again := Turn(answers(turns));
        turns := turns + 1;
      }
    }

    /** `#recover`. */
    method RecoverRuntime(takeover: bool, action: RecoveryAction) returns (ok: bool)
      requires |store.log| > 0
      modifies this
      ensures |store.log| > 0
      ensures ok == Recover(old(store), takeover, action).Some?
      ensures ok ==> Current() == Recover(old(store), takeover, action).value
      ensures !ok ==> Current() == old(Current())
    {
      if store.checkpoint.None? {
        if store.phase != Admitted || takeover { return false; }
        store := Apply(store, Mark(WorkOrderAdmission), 0);
        forceFreshLocalReview, forceFreshPullRequestReview := false, false;
      } else {
        var checkpoint := store.checkpoint.value;
        if ReplaysCheckpoint(action) && (checkpoint.phase != store.phase || checkpoint.eventIndex != |store.log| - 1) {
          return false;
        }
        var restarted := action.ReplayStage? || action.RestartReviewerFresh?;
        forceFreshLocalReview := restarted && checkpoint.kind == LocalReviewFixerIteration;
        forceFreshPullRequestReview := restarted && checkpoint.kind == PrReviewFixerIteration;
      }
      latestCheckpoint := store.checkpoint.value;
      fixIterations := CountFixes(store.log);
      return true;
    }

    /**
     One whole `run()` call by a new owner generation: the claim, recovery, and the loop. From any store
     that keeps the invariant it stops after a bounded number of turns and keeps the invariant.
     */
    method Run(takeover: bool, action: RecoveryAction, first: Answer, answers: nat -> Answer) returns (turns: nat)
      requires StoreInv(store, policy)
      modifies this
      ensures StoreInv(store, policy) && |old(store).log| > 0
      ensures var life := StartStep(Life(old(store), map[]), policy, takeover, action, first);
              var g := life.store.generation;
              if g in life.workers then
                && |life.store.log| > 0
                && store == AfterTurns(World(life.store, life.workers[g]), policy, answers, turns).store
                && turns <= 50 * policy.maxFixIterations + 25
              else turns == 0 && store == life.store
    {
      hide StoreInv, Iterate, Leave, Recover, TurnsLeft;
      InvHasLog(store, policy);
      ghost var before := Life(store, map[]);
      EmptyLife(store, policy);
      StartKeeps(before, policy, takeover, action, first);
      store := store.(generation := store.generation + 1);
      latestCheckpoint := Blank(store).runtime.latest;
      fixIterations, forceFreshLocalReview, forceFreshPullRequestReview := 0, false, false;
      ghost var claimed := store;
      turns := 0;
      if store.phase == CancelRequested || store.phase == Cancelling {
        var again := Turn(first);
      } else if first.broken.Some? {
        HandleError(first.broken.value, first, 0);
      } else {
        var ok := RecoverRuntime(takeover, action);
        if !ok {
          HandleError(Stop(Quarantined), first, 0);
        } else {
          GenerationKeptByRecover(claimed, takeover, action);
          RecoverKeeps(claimed, takeover, action, policy) by {
            GenerationIsNoGate(old(store), claimed.generation, policy);
          }
          AllTurns(Current(), policy);
          turns := PhaseLoop(answers);
        }
      }
    }

    lemma EmptyLife(s: Store, policy: Policy)
      requires StoreInv(s, policy)
      ensures LifeInv(Life(s, map[]), policy)
    {
    }

    lemma AllTurns(w: World, policy: Policy)
      requires |w.store.log| > 0
      ensures TurnsLeft(w, policy) <= 50 * policy.maxFixIterations + 24
    {
      StagesLeftSmall(w, policy);
    }
  }
}
