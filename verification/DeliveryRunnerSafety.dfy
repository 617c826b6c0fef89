/**
 Every write the runner makes is licensed, so every reachable store keeps the invariant: over
 any number of calls, crashes, restarts, takeovers, pauses and cancellations, no candidate is
 delivered before its gates.
 */
module DeliveryRunnerSafety {
  import opened ExactSets
  import opened Options
  import opened DeliveryLog
  import opened DeliverySteps
  import opened DeliveryGates
  import opened DeliverySafety

  ghost predicate WorldInv(w: World, policy: Policy) {
    StoreInv(w.store, policy) && w.store.checkpoint == Some(w.runtime.latest)
  }

  ghost predicate WritesLicensed(w: World, writes: seq<Write>, clock: nat -> Time, policy: Policy)
    requires |w.store.log| > 0
  {
    forall i :: 0 <= i < |writes| ==> Licensed(PerformAll(w, writes[..i], clock).store, policy, writes[i])
  }

  // ---------------------------------------------------------------- sequences of writes

  lemma PerformOneMore(w: World, writes: seq<Write>, write: Write, clock: nat -> Time)
    requires |w.store.log| > 0
    ensures PerformAll(w, writes + [write], clock) == Perform(PerformAll(w, writes, clock), write, clock(|writes|))
  {
  }

  lemma {:induction false} PerformConcat(w: World, first: seq<Write>, second: seq<Write>, clock: nat -> Time)
    requires |w.store.log| > 0
    ensures PerformAll(w, first + second, clock)
            == PerformAll(PerformAll(w, first, clock), second, Later(clock, |first|))
  {
    hide Perform;
    if |second| == 0 {
      assert first + second == first;
    } else {
      var n := |second| - 1;
      PerformConcat(w, first, second[..n], clock);
      assert first + second == first + second[..n] + [second[n]];
      PerformOneMore(w, first + second[..n], second[n], clock);
    }
  }

  lemma LicensedOneMore(w: World, writes: seq<Write>, write: Write, clock: nat -> Time, policy: Policy)
    requires |w.store.log| > 0
    requires WritesLicensed(w, writes, clock, policy)
    requires Licensed(PerformAll(w, writes, clock).store, policy, write)
    ensures WritesLicensed(w, writes + [write], clock, policy)
  {
    hide Licensed, PerformAll;
    forall i | 0 <= i <= |writes|
      ensures Licensed(PerformAll(w, (writes + [write])[..i], clock).store, policy, (writes + [write])[i])
    {
      assert (writes + [write])[..i] == writes[..i];
      assert writes[..|writes|] == writes;
    }
  }

  lemma LicensedConcat(w: World, first: seq<Write>, second: seq<Write>, clock: nat -> Time, policy: Policy)
    requires |w.store.log| > 0
    requires WritesLicensed(w, first, clock, policy)
    requires WritesLicensed(PerformAll(w, first, clock), second, Later(clock, |first|), policy)
    ensures WritesLicensed(w, first + second, clock, policy)
  {
    hide Licensed, PerformAll;
    var all := first + second;
    forall i | 0 <= i < |all|
      ensures Licensed(PerformAll(w, all[..i], clock).store, policy, all[i])
    {
      if i < |first| {
        assert all[..i] == first[..i];
      } else {
        assert all[..i] == first + second[..i - |first|];
        PerformConcat(w, first, second[..i - |first|], clock);
      }
    }
  }

  lemma LicensedPrefix(w: World, writes: seq<Write>, k: nat, clock: nat -> Time, policy: Policy)
    requires |w.store.log| > 0 && k <= |writes|
    requires WritesLicensed(w, writes, clock, policy)
    ensures WritesLicensed(w, writes[..k], clock, policy)
  {
    hide Licensed, PerformAll;
    forall i | 0 <= i < k
      ensures Licensed(PerformAll(w, writes[..k][..i], clock).store, policy, writes[..k][i])
    {
      assert writes[..k][..i] == writes[..i];
    }
  }

  lemma {:induction false} LicensedWritesKeep(w: World, writes: seq<Write>, clock: nat -> Time, policy: Policy)
    requires |w.store.log| > 0
    requires StoreInv(w.store, policy) && WritesLicensed(w, writes, clock, policy)
    ensures StoreInv(PerformAll(w, writes, clock).store, policy)
    ensures WorldInv(w, policy) ==> WorldInv(PerformAll(w, writes, clock), policy)
    ensures w.store.log <= PerformAll(w, writes, clock).store.log
  {
    hide Licensed, StoreInv;
    if |writes| > 0 {
      var n := |writes| - 1;
      InvHasLog(w.store, policy);
      LicensedPrefix(w, writes, n, clock, policy);
      LicensedWritesKeep(w, writes[..n], clock, policy);
      LicensedKeeps(PerformAll(w, writes[..n], clock).store, writes[n], clock(n), policy);
    }
  }

  lemma InvHasLog(s: Store, policy: Policy)
    requires StoreInv(s, policy)
    ensures |s.log| > 0
  {
  }

  lemma LicensedOne(w: World, write: Write, clock: nat -> Time, policy: Policy)
    requires |w.store.log| > 0
    requires Licensed(w.store, policy, write)
    ensures WritesLicensed(w, [write], clock, policy)
  {
  }

  // ---------------------------------------------------------------- simple licences

  /** Events that need nothing beyond the lifecycle tables. */
  predicate Unguarded(event: Event) {
    !(event.ReviewStarted? || event.DeliveryReadied? || event.PrReviewStarted? || event.CiCompleted?
      || event.CiRecheckCompleted? || event.CiRevalidated? || event.PullRequestDelivered? || event.RunResumed?)
  }

  lemma UnguardedLicence(s: Store, event: Event, to: Phase, kind: Option<CheckpointKind>, policy: Policy)
    requires |s.log| > 0
    requires EventTransition(s.phase, event, to)
    requires Unguarded(event)
    requires event.CandidateCreated? || Subject(event).None? || Subject(event) == s.candidate
    requires kind.Some? ==> KindFits(kind.value, event) && kind != Some(LocalVerificationPass)
    ensures Licensed(s, policy, Append(event, to, kind))
  {
  }

  /** A plan of one unguarded event. */
  lemma UnguardedPlan(w: World, event: Event, to: Phase, kind: Option<CheckpointKind>, clock: nat -> Time,
                      policy: Policy)
    requires |w.store.log| > 0
    requires EventTransition(w.store.phase, event, to)
    requires Unguarded(event)
    requires event.CandidateCreated? || Subject(event).None? || Subject(event) == w.store.candidate
    requires kind.Some? ==> KindFits(kind.value, event) && kind != Some(LocalVerificationPass)
    ensures WritesLicensed(w, [Append(event, to, kind)], clock, policy)
  {
  }

  lemma CancellingLicensed(w: World, clock: nat -> Time, policy: Policy)
    requires |w.store.log| > 0 && w.store.phase == Cancelling
    ensures WritesLicensed(w, [Append(RunCancelled(w.store.candidate), Cancelled, Some(LeaseReleaseWorkspaceCleanup))],
                           clock, policy)
  {
  }

  lemma CancelRequestedLicensed(w: World, clock: nat -> Time, policy: Policy)
    requires |w.store.log| > 0 && w.store.phase == CancelRequested
    ensures WritesLicensed(w, [Append(CancellationStarted(w.store.candidate), Cancelling, None),
                               Append(RunCancelled(w.store.candidate), Cancelled, Some(LeaseReleaseWorkspaceCleanup))],
                           clock, policy)
  {
    hide WritesLicensed, PerformAll, Licensed;
    var c := w.store.candidate;
    var started := Append(CancellationStarted(c), Cancelling, None);
    var cancelled := Append(RunCancelled(c), Cancelled, Some(LeaseReleaseWorkspaceCleanup));
    UnguardedPlan(w, CancellationStarted(c), Cancelling, None, clock, policy);
    var w1 := PerformAll(w, [started], clock);
    assert w1.store.phase == Cancelling && w1.store.candidate == c by { PerformOne(w, started, clock); }
    CancellingLicensed(w1, Later(clock, 1), policy);
    LicensedConcat(w, [started], [cancelled], clock, policy);
    assert [started] + [cancelled] == [started, cancelled];
  }

  lemma PerformOne(w: World, write: Write, clock: nat -> Time)
    requires |w.store.log| > 0
    ensures PerformAll(w, [write], clock) == Perform(w, write, clock(0))
  {
  }

  lemma SetupLicensed(w: World, event: Event, to: Phase, kind: CheckpointKind, clock: nat -> Time, policy: Policy)
    requires |w.store.log| > 0
    requires || (w.store.phase == Admitted && event == RepositoryLeaseAcquired && to == RepositoryLeased
                 && kind == RepositoryLeaseAcquisition)
             || (w.store.phase == RepositoryLeased && event == IdentityLeasesAcquired && to == IdentityReady
                 && kind == IdentityLeaseAcquisition)
             || (w.store.phase == IdentityReady && event == WorkspacePrepared && to == WorkspaceReady
                 && kind == WorkspaceSandboxProof)
             || (w.store.phase == WorkspaceReady && event == TaskPacketCreated && to == TaskPacketReady
                 && kind == TaskPacketCreation)
             || (w.store.phase == TaskPacketReady && event == ImplementationStarted && to == Implementing
                 && kind == ImplementerSessionMarker)
    ensures WritesLicensed(w, [Append(event, to, Some(kind))], clock, policy)
  {
  }

  lemma CandidateLicensed(w: World, policy: Policy, a: Answer)
    requires |w.store.log| > 0
    requires w.store.phase == Implementing || w.store.phase == Fixing
    ensures WritesLicensed(w, CandidatePlan(w, policy, a).writes, a.clock, policy)
  {
  }

  /** The fixing event after writes that leave the run in a phase it may be left from. */
  lemma FixingLicensed(w: World, writes: seq<Write>, runtime: Runtime, c: Sha, count: nat, advance: bool,
                       clock: nat -> Time, policy: Policy)
    requires |w.store.log| > 0
    requires WritesLicensed(w, writes, clock, policy)
    requires var s := PerformAll(w, writes, clock).store;
             (s.phase.LocalVerify? || s.phase.LocalReview? || s.phase.CiWait? || s.phase.PrReview?)
             && s.candidate == Some(c)
    ensures WritesLicensed(w, StartFixing(writes, runtime, policy, c, count, advance).writes, clock, policy)
  {
    hide Licensed, WritesLicensed, PerformAll;
    if count < policy.maxFixIterations {
      UnguardedLicence(PerformAll(w, writes, clock).store, FixingStarted(c, count + 1), Fixing, None, policy);
      LicensedOneMore(w, writes, Append(FixingStarted(c, count + 1), Fixing, None), clock, policy);
    }
  }

  // ---------------------------------------------------------------- local verification

  /** The store after the first `j` checks of a round. */
  ghost predicate RoundSoFar(before: Store, after: Store, c: Sha, checks: seq<CheckResult>, j: nat)
    requires j <= |checks|
  {
    && after.phase == LocalVerify && after.candidate == Some(c)
    && |after.log| == |before.log| + j
    && after.log[..|before.log|] == before.log
    && forall i :: 0 <= i < j ==> after.log[|before.log| + i].event == VerificationCompleted(c, checks[i])
  }

  lemma RoundSettles(before: Store, after: Store, c: Sha, checks: seq<CheckResult>, policy: Policy)
    requires |before.log| > 0 && before.candidate == Some(c) && CandidateBound(before)
    requires RoundSoFar(before, after, c, checks, |checks|)
    requires AllPassed(checks) && ExactSet(CheckIds(checks), policy.localChecks)
    ensures Settled(after, LOCAL_CHECKS + 1, policy)
  {
    hide ExactSet, Subject, EffectivePhase, HasCandidate, Round, AllPassed, CheckIds;
    var from, to := |before.log|, |after.log|;
    RoundIsWritten(before, after, c, checks, policy);
    BaseOfRound(before.log, after.log);
    assert Round(after.log, from, to, c, policy) && NoneUpTo(after.log, to, to, LOCAL_CHECKS);
  }

  lemma RoundIsWritten(before: Store, after: Store, c: Sha, checks: seq<CheckResult>, policy: Policy)
    requires RoundSoFar(before, after, c, checks, |checks|)
    requires AllPassed(checks) && ExactSet(CheckIds(checks), policy.localChecks)
    ensures Round(after.log, |before.log|, |after.log|, c, policy)
    ensures forall j :: |before.log| <= j < |after.log| ==> after.log[j].event.VerificationCompleted?
  {
    hide ExactSet;
    var from, to := |before.log|, |after.log|;
    assert forall j :: from <= j < to ==> after.log[j].event == VerificationCompleted(c, checks[j - from]) by {
      assert forall j :: from <= j < to ==> after.log[from + (j - from)] == after.log[j];
    }
    assert RoundIds(after.log, from, to) == CheckIds(checks);
  }

  lemma {:induction false} BaseOfRound(before: seq<Entry>, after: seq<Entry>)
    requires |before| <= |after| && after[..|before|] == before
    requires forall i :: |before| <= i < |after| ==> !after[i].event.CandidateCreated?
    ensures BaseOf(after) == BaseOf(before)
  {
    if |after| > |before| {
      var shorter := after[..|after| - 1];
      assert shorter[..|before|] == before;
      BaseOfRound(before, shorter);
    } else {
      assert after == before;
    }
  }

  lemma {:induction false} ChecksLicensed(w: World, policy: Policy, c: Sha, checks: seq<CheckResult>, passed: bool,
                                          j: nat, clock: nat -> Time)
    requires |w.store.log| > 0 && CandidateBound(w.store)
    requires w.store.phase == LocalVerify && w.store.candidate == Some(c)
    requires passed ==> AllPassed(checks) && ExactSet(CheckIds(checks), policy.localChecks)
    requires j <= |checks|
    ensures var writes := CheckWrites(c, checks, passed)[..j];
            && WritesLicensed(w, writes, clock, policy)
            && RoundSoFar(w.store, PerformAll(w, writes, clock).store, c, checks, j)
  {
    hide ExactSet, CandidateBound, Licensed, AllPassed, WritesLicensed;
    var writes := CheckWrites(c, checks, passed);
    if j == 0 {
      assert writes[..0] == [];
      NothingLicensed(w, clock, policy);
    } else {
      ChecksLicensed(w, policy, c, checks, passed, j - 1, clock);
      assert writes[..j] == writes[..j - 1] + [writes[j - 1]];
      PerformOneMore(w, writes[..j - 1], writes[j - 1], clock);
      var s := PerformAll(w, writes[..j - 1], clock).store;
      CheckRoundGrows(w.store, s, writes[j - 1], c, checks, j, clock(j - 1));
      CheckLicensed(w, s, policy, c, checks, passed, j);
      LicensedOneMore(w, writes[..j - 1], writes[j - 1], clock, policy);
    }
  }

  lemma NothingLicensed(w: World, clock: nat -> Time, policy: Policy)
    requires |w.store.log| > 0
    ensures WritesLicensed(w, [], clock, policy)
  {
  }

  lemma CheckRoundGrows(before: Store, s: Store, write: Write, c: Sha, checks: seq<CheckResult>, j: nat, at: Time)
    requires |before.log| > 0 && 0 < j <= |checks|
    requires RoundSoFar(before, s, c, checks, j - 1)
    requires write.Append? && write.event == VerificationCompleted(c, checks[j - 1]) && write.to == LocalVerify
    ensures RoundSoFar(before, Apply(s, write, at), c, checks, j)
  {
  }

  lemma CheckLicensed(w: World, s: Store, policy: Policy, c: Sha, checks: seq<CheckResult>, passed: bool, j: nat)
    requires |w.store.log| > 0 && CandidateBound(w.store) && w.store.candidate == Some(c)
    requires passed ==> AllPassed(checks) && ExactSet(CheckIds(checks), policy.localChecks)
    requires 0 < j <= |checks| && RoundSoFar(w.store, s, c, checks, j - 1)
    ensures Licensed(s, policy, CheckWrites(c, checks, passed)[j - 1])
  {
    hide ExactSet, CandidateBound, AllPassed, Settled;
    var write := CheckWrites(c, checks, passed)[j - 1];
    if passed && j == |checks| {
      CheckRoundGrows(w.store, s, write, c, checks, j, 0);
      RoundSettles(w.store, Apply(s, write, 0), c, checks, policy);
    }
  }

  /** The whole stage after its opening writes, whatever the checks said. */
  lemma VerificationLicensed(w: World, policy: Policy, a: Answer, c: Sha, opening: seq<Write>)
    requires |w.store.log| > 0
    requires WritesLicensed(w, opening, a.clock, policy)
    requires var s := PerformAll(w, opening, a.clock).store;
             CandidateBound(s) && s.phase == LocalVerify && s.candidate == Some(c)
    ensures WritesLicensed(w, CompleteLocalVerification(w, policy, a, c, opening).writes, a.clock, policy)
  {
    hide ExactSet, CandidateBound, Licensed, WritesLicensed, PerformAll, CheckWrites, AllPassed, RoundSoFar;
    if ExactSet(CheckIds(a.checks), policy.localChecks) {
      var n := |a.checks|;
      var passed := AllPassed(a.checks);
      var round := CheckWrites(c, a.checks, passed);
      var w1 := PerformAll(w, opening, a.clock);
      ChecksLicensed(w1, policy, c, a.checks, passed, n, Later(a.clock, |opening|));
      assert round[..n] == round;
      LicensedConcat(w, opening, round, a.clock, policy);
      PerformConcat(w, opening, round, a.clock);
      var s := PerformAll(w, opening + round, a.clock).store;
      assert RoundSoFar(w1.store, s, c, a.checks, n);
      assert s.phase == LocalVerify && s.candidate == Some(c) && |s.log| > 0 by {
        RoundPhase(w1.store, s, c, a.checks);
      }
      FixingLicensed(w, opening + round, w.runtime, c, w.runtime.fixIterations, true, a.clock, policy);
      if n == 0 {
        EmptyRoundPasses(a.checks);
        RoundSettles(w1.store, s, c, a.checks, policy);
        MarkLicensed(s, policy);
        LicensedOneMore(w, opening + round, Mark(LocalVerificationPass), a.clock, policy);
      }
    }
  }

  lemma RoundPhase(before: Store, s: Store, c: Sha, checks: seq<CheckResult>)
    requires |before.log| > 0 && RoundSoFar(before, s, c, checks, |checks|)
    ensures s.phase == LocalVerify && s.candidate == Some(c) && |s.log| > 0
  {
  }

  lemma EmptyRoundPasses(checks: seq<CheckResult>)
    requires |checks| == 0
    ensures AllPassed(checks)
  {
  }

  lemma MarkLicensed(s: Store, policy: Policy)
    requires |s.log| > 0 && s.phase == LocalVerify && Settled(s, LOCAL_CHECKS + 1, policy)
    ensures Licensed(s, policy, Mark(LocalVerificationPass))
  {
  }

  // ---------------------------------------------------------------- reviews

  lemma LocalReviewLicensed(w: World, policy: Policy, a: Answer, c: Sha)
    requires WorldInv(w, policy) && w.store.candidate == Some(c)
    requires w.store.phase == LocalReview
    ensures WritesLicensed(w, CompleteReview(w, a, c, [], true).writes, a.clock, policy)
  {
    hide StoreInv, WritesLicensed;
    InvHasLog(w.store, policy);
    var write := Append(ReviewCompleted(c, a.verdict), LocalReview, Some(LocalReviewFixerIteration));
    UnguardedPlan(w, write.event, LocalReview, write.kind, a.clock, policy);
    assert [] + [write] == [write];
  }

  lemma PrReviewLicensed(w: World, policy: Policy, a: Answer, c: Sha, clock: nat -> Time)
    requires |w.store.log| > 0 && w.store.candidate == Some(c)
    requires w.store.phase == PrReview
    ensures WritesLicensed(w, CompleteReview(w, a, c, [], false).writes, clock, policy)
  {
  }

  lemma StartLocalReviewLicensed(w: World, policy: Policy, a: Answer, c: Sha)
    requires WorldInv(w, policy) && w.store.candidate == Some(c)
    requires w.store.phase == LocalVerify && CheckpointIsCurrent(w, LocalVerificationPass)
    ensures WritesLicensed(w, CompleteReview(w, a, c, [Append(ReviewStarted(c), LocalReview, None)], true).writes,
                           a.clock, policy)
  {
    hide WritesLicensed, Settled, Licensed;
    InvHasLog(w.store, policy);
    var started := Append(ReviewStarted(c), LocalReview, None);
    var completed := Append(ReviewCompleted(c, a.verdict), LocalReview, Some(LocalReviewFixerIteration));
    ReviewStartLicence(w, c, policy);
    LicensedOne(w, started, a.clock, policy);
    PerformOne(w, started, a.clock);
    var w1 := PerformAll(w, [started], a.clock);
    UnguardedLicence(w1.store, completed.event, LocalReview, completed.kind, policy);
    LicensedOneMore(w, [started], completed, a.clock, policy);
  }

  lemma ReviewStartLicence(w: World, c: Sha, policy: Policy)
    requires WorldInv(w, policy) && w.store.candidate == Some(c)
    requires w.store.phase == LocalVerify && CheckpointIsCurrent(w, LocalVerificationPass)
    ensures Licensed(w.store, policy, Append(ReviewStarted(c), LocalReview, None))
  {
    hide Settled, Replays, AllGated;
  }

  /** A verdict read back from the log, when the latest event is one, is that event's. */
  lemma LatestVerdictIsLast(s: Store, policy: Policy, c: Sha)
    requires StoreInv(s, policy) && s.candidate == Some(c)
    requires Last(s.log).event.ReviewCompleted?
    ensures LatestVerdict(s.log, c) == Some(Last(s.log).event.verdict)
  {
    hide Settled, Replays, AllGated, CheckpointBound, Gated, EventTransition;
    LastIsNotBase(s);
  }

  lemma AfterLocalReviewLicensed(w: World, policy: Policy, c: Sha, clock: nat -> Time)
    requires WorldInv(w, policy) && w.store.candidate == Some(c)
    requires w.store.phase == LocalReview && CheckpointIsCurrent(w, LocalReviewFixerIteration)
    ensures WritesLicensed(w, AfterLocalReview(w, policy, c).writes, clock, policy)
  {
    hide WritesLicensed, Settled, Licensed, LatestVerdict;
    InvHasLog(w.store, policy);
    ReviewIsLast(w, policy);
    LatestVerdictIsLast(w.store, policy, c);
    NothingLicensed(w, clock, policy);
    FixingLicensed(w, [], w.runtime, c, w.runtime.fixIterations, true, clock, policy);
    if LatestVerdict(w.store.log, c) == Some(Approved) {
      DeliveryReadyLicence(w.store, c, policy);
      LicensedOne(w, Append(DeliveryReadied(c), DeliveryReady, None), clock, policy);
    }
  }

  lemma ReviewIsLast(w: World, policy: Policy)
    requires WorldInv(w, policy) && CheckpointIsCurrent(w, LocalReviewFixerIteration)
    ensures |w.store.log| > 0 && Last(w.store.log).event.ReviewCompleted?
  {
  }

  lemma DeliveryReadyLicence(s: Store, c: Sha, policy: Policy)
    requires StoreInv(s, policy) && s.candidate == Some(c) && s.phase == LocalReview
    requires Last(s.log).event.ReviewCompleted? && Last(s.log).event.verdict == Approved
    ensures Licensed(s, policy, Append(DeliveryReadied(c), DeliveryReady, None))
  {
    hide Passed, Replays, AllGated, CandidateBound, ResumeBound, CiShape, CheckpointBound;
  }

  // ---------------------------------------------------------------- continuous integration

  lemma CompleteCiLicensed(w: World, policy: Policy, a: Answer, c: Sha)
    requires WorldInv(w, policy) && w.store.candidate == Some(c)
    requires w.store.phase == CiWait
    ensures WritesLicensed(w, CompleteCi(w, policy, a, c).writes, a.clock, policy)
  {
    hide WritesLicensed, Licensed, ExactSet, StoreInv, CiObservationAccepted;
    InvHasLog(w.store, policy);
    NothingLicensed(w, a.clock, policy);
    if CiObservationAccepted(w, policy, a, c) {
      var write := Append(CiCompleted(c, DerivedOutcome(a.ciChecks), a.ciChecks, a.ciObservedAt), CiWait,
                          Some(CiReconciliationSnapshot));
      CiLicence(w, policy, a, c);
      LicensedOne(w, write, a.clock, policy);
      PerformOne(w, write, a.clock);
      FixingLicensed(w, [write], w.runtime, c, CountFixes(w.store.log), false, a.clock, policy);
    }
  }

  lemma CiLicence(w: World, policy: Policy, a: Answer, c: Sha)
    requires |w.store.log| > 0 && w.store.candidate == Some(c)
    requires w.store.phase == CiWait && CiObservationAccepted(w, policy, a, c)
    ensures Licensed(w.store, policy, Append(CiCompleted(c, DerivedOutcome(a.ciChecks), a.ciChecks, a.ciObservedAt),
                                             CiWait, Some(CiReconciliationSnapshot)))
  {
  }

  lemma RevalidateLicensed(w: World, policy: Policy, a: Answer, c: Sha)
    requires WorldInv(w, policy) && w.store.candidate == Some(c)
    requires w.store.phase == PrReview
    requires Settled(w.store, PR_REVIEW + 1, policy)
    ensures WritesLicensed(w, Revalidate(w, policy, a, c).writes, a.clock, policy)
  {
    hide WritesLicensed, Licensed, Settled, DerivedOutcome, StoreInv, CiObservationAccepted;
    InvHasLog(w.store, policy);
    NothingLicensed(w, a.clock, policy);
    if CiObservationAccepted(w, policy, a, c) {
      RecheckLicence(w, policy, a, c);
      LicensedOne(w, Revalidate(w, policy, a, c).writes[0], a.clock, policy);
    }
  }

  lemma RecheckLicence(w: World, policy: Policy, a: Answer, c: Sha)
    requires |w.store.log| > 0 && w.store.candidate == Some(c)
    requires w.store.phase == PrReview && CiObservationAccepted(w, policy, a, c)
    requires Settled(w.store, PR_REVIEW + 1, policy)
    ensures |Revalidate(w, policy, a, c).writes| == 1
    ensures Licensed(w.store, policy, Revalidate(w, policy, a, c).writes[0])
  {
    hide ExactSet, LatestPullRequest, IntentIndex, Settled;
  }

  /** In CI_WAIT with a current snapshot, the snapshot is the latest event. */
  lemma CiIsLast(w: World, policy: Policy, c: Sha)
    requires WorldInv(w, policy) && w.store.candidate == Some(c)
    requires w.store.phase == CiWait && CheckpointIsCurrent(w, CiReconciliationSnapshot)
    ensures |w.store.log| > 0
    ensures LatestCi(w.store.log, c) == Some(|w.store.log| - 1)
    ensures CurrentCiOutcome(w.store.log, policy, c) == Some(CiPassed) ==> Settled(w.store, INITIAL_CI + 1, policy)
  {
    hide Settled, Replays, AllGated, ResumeBound, ExactSet, DerivedOutcome, LatestPrReview, LatestPullRequest,
         EffectivePhase;
    assert Last(w.store.log).event.CiCompleted? || Last(w.store.log).event.CiRecheckCompleted?;
    LastIsNotBase(w.store);
  }

  lemma StartPrReviewLicensed(w: World, policy: Policy, a: Answer, c: Sha)
    requires WorldInv(w, policy) && w.store.candidate == Some(c)
    requires w.store.phase == CiWait && Settled(w.store, INITIAL_CI + 1, policy)
    ensures WritesLicensed(w, CompleteReview(w, a, c, [Append(PrReviewStarted(c), PrReview, None)], false).writes,
                           a.clock, policy)
  {
    hide WritesLicensed, Licensed, StoreInv, Settled, CheckpointIsCurrent;
    InvHasLog(w.store, policy);
    var started := Append(PrReviewStarted(c), PrReview, None);
    var completed := Append(PrReviewCompleted(c, a.verdict), PrReview, Some(PrReviewFixerIteration));
    PrReviewStartLicence(w.store, c, policy);
    LicensedOne(w, started, a.clock, policy);
    PerformOne(w, started, a.clock);
    var w1 := PerformAll(w, [started], a.clock);
    UnguardedLicence(w1.store, completed.event, PrReview, completed.kind, policy);
    LicensedOneMore(w, [started], completed, a.clock, policy);
  }

  lemma PrReviewStartLicence(s: Store, c: Sha, policy: Policy)
    requires |s.log| > 0 && s.candidate == Some(c) && s.phase == CiWait
    requires Settled(s, INITIAL_CI + 1, policy)
    ensures Licensed(s, policy, Append(PrReviewStarted(c), PrReview, None))
  {
    hide Settled;
  }

  lemma CiWaitLicensed(w: World, policy: Policy, a: Answer, c: Sha)
    requires WorldInv(w, policy) && w.store.candidate == Some(c) && w.store.phase == CiWait
    ensures WritesLicensed(w, CiWaitPlan(w, policy, a, c).writes, a.clock, policy)
  {
    hide WritesLicensed, Licensed, StoreInv, CurrentCiOutcome, CompleteCi, CompleteReview, Settled;
    InvHasLog(w.store, policy);
    NothingLicensed(w, a.clock, policy);
    CompleteCiLicensed(w, policy, a, c);
    if CheckpointIsCurrent(w, CiReconciliationSnapshot) {
      CiIsLast(w, policy, c);
      FixingLicensed(w, [], w.runtime, c, w.runtime.fixIterations, true, a.clock, policy);
      if CurrentCiOutcome(w.store.log, policy, c) == Some(CiPassed) {
        StartPrReviewLicensed(w, policy, a, c);
      }
    }
  }

  // ---------------------------------------------------------------- pull-request review and delivery

  lemma PrReviewIsLast(w: World, policy: Policy, c: Sha)
    requires WorldInv(w, policy) && w.store.candidate == Some(c)
    requires w.store.phase == PrReview && CheckpointIsCurrent(w, PrReviewFixerIteration)
    ensures |w.store.log| > 0
    ensures Last(w.store.log).event.PrReviewCompleted? || Last(w.store.log).event.CiRevalidated?
    ensures Last(w.store.log).event.sha == c
    ensures Last(w.store.log).event.PrReviewCompleted? ==>
      && LatestPrReview(w.store.log, c) == Some(|w.store.log| - 1)
      && (Last(w.store.log).event.verdict == Approved ==> Settled(w.store, PR_REVIEW + 1, policy))
  {
    hide Settled, AllGated, ResumeBound, CiShape, EffectivePhase;
    LastPhase(w.store, policy);
    LastIsNotBase(w.store);
  }

  lemma LastPhase(s: Store, policy: Policy)
    requires StoreInv(s, policy)
    ensures EventPhase(Last(s.log).event, s.phase)
  {
    hide Settled, AllGated, ResumeBound, CiShape, CheckpointBound, CandidateBound, PhaseTransition, EventFrom,
         EventPhase;
    var i := |s.log| - 1;
    if i > 0 {
      assert EventTransition(s.log[i - 1].phase, s.log[i].event, s.log[i].phase);
    }
  }

  lemma DeliverLicensed(w: World, policy: Policy, a: Answer, c: Sha, review: nat)
    requires WorldInv(w, policy) && w.store.candidate == Some(c) && w.store.phase == PrReview
    requires review < |w.store.log| && Last(w.store.log).event.CiRevalidated?
    ensures WritesLicensed(w, Deliver(w, policy, a, c, review).writes, a.clock, policy)
  {
    hide WritesLicensed, StoreInv, DurableFinalCi, LatestPullRequest, Licensed;
    NothingLicensed(w, a.clock, policy);
    var plan := Deliver(w, policy, a, c, review);
    if |plan.writes| == 1 {
      DeliveryLicence(w.store, plan.writes[0], c, policy);
      LicensedOne(w, plan.writes[0], a.clock, policy);
    }
  }

  lemma DeliveryLicence(s: Store, write: Write, c: Sha, policy: Policy)
    requires |s.log| > 0 && s.candidate == Some(c) && s.phase == PrReview
    requires Last(s.log).event.CiRevalidated?
    requires write.Append? && write.to == PrDelivered && write.kind == Some(PrReviewFixerIteration)
    requires write.event.PullRequestDelivered? && write.event.sha == c
    requires write.event.finalChecks == Last(s.log).event.checks
    requires write.event.finalCiObservedAt == Last(s.log).event.observedAt
    ensures Licensed(s, policy, write)
  {
  }

  lemma PrReviewStageLicensed(w: World, policy: Policy, a: Answer, c: Sha)
    requires WorldInv(w, policy) && w.store.candidate == Some(c) && w.store.phase == PrReview
    ensures WritesLicensed(w, PrReviewPlan(w, policy, a, c).writes, a.clock, policy)
  {
    hide WritesLicensed, Licensed, StoreInv, CompleteReview, Settled, Deliver, Revalidate, LatestPrReview;
    InvHasLog(w.store, policy);
    NothingLicensed(w, a.clock, policy);
    PrReviewLicensed(w, policy, a, c, a.clock);
    if CheckpointIsCurrent(w, PrReviewFixerIteration) {
      PrReviewIsLast(w, policy, c);
      FixingLicensed(w, [], w.runtime, c, w.runtime.fixIterations, true, a.clock, policy);
      var review := LatestPrReview(w.store.log, c);
      if review.Some? {
        if Last(w.store.log).event.CiRevalidated? {
          DeliverLicensed(w, policy, a, c, review.value);
        } else if Last(w.store.log).event.verdict == Approved {
          RevalidateLicensed(w, policy, a, c);
        }
      }
    }
  }
}
