/**
 What "this candidate has passed its gates, in order" means on the event log alone. Nothing
 here mentions the runner.
 */
module DeliveryGates {
  import opened ExactSets
  import opened Options
  import opened DeliveryLog
  import opened DeliverySteps

  const LOCAL_CHECKS: nat := 0
  const LOCAL_REVIEW: nat := 1
  const PUSH: nat := 2
  const PULL_REQUEST: nat := 3
  const CI_STARTED: nat := 4
  const INITIAL_CI: nat := 5
  const PR_REVIEW: nat := 6

  /** The gate an event's type belongs to; events of no gate rank above all of them. */
  function Rank(event: Event): nat {
    match event
    case VerificationCompleted(_, _) => LOCAL_CHECKS
    case ReviewCompleted(_, _) => LOCAL_REVIEW
    case BranchPushed(_) => PUSH
    case PullRequestOpened(_, _) => PULL_REQUEST
    case CiWaiting(_) => CI_STARTED
    case CiCompleted(_, _, _, _) => INITIAL_CI
    case PrReviewCompleted(_, _) => PR_REVIEW
    case _ => PR_REVIEW + 1
  }

  /** An observation of exactly the required remote contexts, every one of them passed. */
  ghost predicate PassingCi(checks: seq<CiCheck>, policy: Policy) {
    && ExactSet(Contexts(checks), policy.remoteContexts)
    && forall i :: 0 <= i < |checks| ==> checks[i].outcome == CiPassed
  }

  /** The event that passes a gate after the local checks. */
  ghost predicate Passes(gate: nat, event: Event, c: Sha, policy: Policy) {
    && Subject(event) == Some(c)
    && Rank(event) == gate
    && match event
       case ReviewCompleted(_, verdict) => verdict == Approved
       case CiCompleted(_, outcome, checks, _) => outcome == CiPassed && PassingCi(checks, policy)
       case PrReviewCompleted(_, verdict) => verdict == Approved
       case _ => true
  }

  function RoundIds(log: seq<Entry>, from: nat, to: nat): (ids: seq<Name>)
    requires from <= to <= |log|
    ensures |ids| == to - from
  {
    seq(to - from, i requires 0 <= i < to - from =>
      if log[from + i].event.VerificationCompleted? then log[from + i].event.check.id else "")
  }

  /** One uninterrupted verification round of `c`: exactly the required checks, all passed. */
  ghost predicate Round(log: seq<Entry>, from: nat, to: nat, c: Sha, policy: Policy) {
    && from <= to <= |log|
    && (forall j :: from <= j < to ==>
          && log[j].event.VerificationCompleted?
          && log[j].event.sha == c
          && log[j].event.check.outcome == CheckPassed)
    && ExactSet(RoundIds(log, from, to), policy.localChecks)
  }

  ghost predicate NoneUpTo(log: seq<Entry>, from: nat, to: nat, gate: nat) {
    forall j :: from <= j < to && j < |log| ==> Rank(log[j].event) > gate
  }

  /**
   Within the first `n` entries and after entry `base`, candidate `c` has passed `gate`
   and, before it and in order, every earlier gate; and since each of these events no
   event of its gate or an earlier one has occurred, so each is the latest of its kind.
   */
  ghost predicate Passed(log: seq<Entry>, base: nat, c: Sha, policy: Policy, gate: nat, n: nat)
    decreases gate
  {
    && n <= |log|
    && if gate == LOCAL_CHECKS then
         exists from, to ::
           base < from <= to <= n && Round(log, from, to, c, policy) && NoneUpTo(log, to, n, gate)
       else
         exists k ::
           && base < k < n
           && Passes(gate, log[k].event, c, policy)
           && Passed(log, base, c, policy, gate - 1, k)
           && NoneUpTo(log, k + 1, n, gate)
  }

  /** Entry `base` made `c` the candidate, and no entry up to `i` made or names another. */
  ghost predicate OnlyCandidate(log: seq<Entry>, base: nat, i: nat, c: Sha) {
    && base < i < |log|
    && log[base].event.CandidateCreated? && log[base].event.sha == c
    && forall j :: base < j <= i ==>
         !log[j].event.CandidateCreated? && (Subject(log[j].event).None? || Subject(log[j].event) == Some(c))
  }

  /**
   The whole gate a delivery must have behind it: every gate up to the approved pull-request
   review passed since the candidate was created, and a fully passed revalidation of the exact
   required contexts as the entry just before.
   */
  ghost predicate Gated(log: seq<Entry>, i: nat, policy: Policy) {
    && 0 < i < |log|
    && log[i].event.PullRequestDelivered?
    && var c := log[i].event.sha;
       exists base :: Delivers(log, base, i, c, policy)
  }

  ghost predicate Delivers(log: seq<Entry>, base: nat, i: nat, c: Sha, policy: Policy) {
    && OnlyCandidate(log, base, i, c)
    && Passed(log, base, c, policy, PR_REVIEW, i - 1)
    && log[i - 1].event.CiRevalidated?
    && log[i - 1].event.sha == c
    && log[i - 1].event.outcome == CiPassed
    && PassingCi(log[i - 1].event.checks, policy)
    && log[i].event.PullRequestDelivered?
    && log[i].event.sha == c
    && log[i].event.finalChecks == log[i - 1].event.checks
    && log[i].event.finalCiObservedAt == log[i - 1].event.observedAt
  }

  // ---------------------------------------------------------------- how gates move along the log

  lemma {:induction false} PassedInLongerLog(log: seq<Entry>, more: seq<Entry>, base: nat, c: Sha, policy: Policy,
                                             gate: nat, n: nat)
    requires n <= |log| && log <= more
    requires Passed(log, base, c, policy, gate, n)
    ensures Passed(more, base, c, policy, gate, n)
    decreases gate
  {
    hide ExactSet, Rank, Subject, Passes;
    if gate == LOCAL_CHECKS {
      var from, to :| base < from <= to <= n && Round(log, from, to, c, policy) && NoneUpTo(log, to, n, gate);
      assert RoundIds(more, from, to) == RoundIds(log, from, to);
      assert Round(more, from, to, c, policy);
      assert NoneUpTo(more, to, n, gate);
    } else {
      var k :| && base < k < n
               && Passes(gate, log[k].event, c, policy)
               && Passed(log, base, c, policy, gate - 1, k)
               && NoneUpTo(log, k + 1, n, gate);
      PassedInLongerLog(log, more, base, c, policy, gate - 1, k);
      assert more[k] == log[k];
      assert NoneUpTo(more, k + 1, n, gate);
    }
  }

  /** Entries of later gates, or of none, leave a passed gate passed. */
  lemma {:induction false} PassedLater(log: seq<Entry>, base: nat, c: Sha, policy: Policy, gate: nat, n: nat, m: nat)
    requires n <= m <= |log|
    requires Passed(log, base, c, policy, gate, n)
    requires NoneUpTo(log, n, m, gate)
    ensures Passed(log, base, c, policy, gate, m)
  {
    hide ExactSet, Rank, Subject, Passes;
    if gate == LOCAL_CHECKS {
      var from, to :| base < from <= to <= n && Round(log, from, to, c, policy) && NoneUpTo(log, to, n, gate);
      assert NoneUpTo(log, to, m, gate);
    } else {
      var k :| && base < k < n
               && Passes(gate, log[k].event, c, policy)
               && Passed(log, base, c, policy, gate - 1, k)
               && NoneUpTo(log, k + 1, n, gate);
      assert NoneUpTo(log, k + 1, m, gate);
    }
  }

  /** A passed gate has every earlier gate still passed: none of their events came after it. */
  lemma {:induction false} PassedBelow(log: seq<Entry>, base: nat, c: Sha, policy: Policy, gate: nat, n: nat)
    requires gate > 0
    requires Passed(log, base, c, policy, gate, n)
    ensures Passed(log, base, c, policy, gate - 1, n)
  {
    hide ExactSet, Rank, Subject;
    var k :| && base < k < n
             && Passes(gate, log[k].event, c, policy)
             && Passed(log, base, c, policy, gate - 1, k)
             && NoneUpTo(log, k + 1, n, gate);
    assert NoneUpTo(log, k, n, gate - 1);
    PassedLater(log, base, c, policy, gate - 1, k, n);
  }

  /** The next gate's event right after the earlier gates passes the next gate. */
  lemma PassedStep(log: seq<Entry>, base: nat, c: Sha, policy: Policy, gate: nat, n: nat)
    requires gate > 0
    requires base < n < |log|
    requires Passed(log, base, c, policy, gate - 1, n)
    requires Passes(gate, log[n].event, c, policy)
    ensures Passed(log, base, c, policy, gate, n + 1)
  {
    hide Passes, Rank;
    assert NoneUpTo(log, n + 1, n + 1, gate);
  }

  /** The latest event that `Passes` a gate is the latest event of that gate's kind. */
  lemma PassedIsLatest(log: seq<Entry>, base: nat, c: Sha, policy: Policy, gate: nat, n: nat) returns (k: nat)
    requires 0 < gate
    requires Passed(log, base, c, policy, gate, n)
    ensures base < k < n <= |log|
    ensures Passes(gate, log[k].event, c, policy)
    ensures Passed(log, base, c, policy, gate - 1, k)
    ensures forall j :: k < j < n ==> Rank(log[j].event) > gate
  {
    hide Passes, Rank;
    k :| && base < k < n
         && Passes(gate, log[k].event, c, policy)
         && Passed(log, base, c, policy, gate - 1, k)
         && NoneUpTo(log, k + 1, n, gate);
  }
}
