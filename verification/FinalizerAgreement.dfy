/**
 Producer and consumer agree: which delivered logs the evidence finalizer accepts, exactly.
 */
module FinalizerAgreement {
  import opened ExactSets
  import opened Options
  import opened DeliveryLog
  import opened DeliverySteps
  import opened DeliveryGates
  import opened DeliverySafety
  import opened DeliveryRunnerSafety
  import opened DeliveryLife
  import opened EvidenceFinalizer
  import opened DeliveryAgreement

  /** The run was delivered at entry `i`, and nothing but interruptions has been logged since. */
  ghost predicate DeliveredAt(log: seq<Entry>, i: nat) {
    && i < |log|
    && log[i].event.PullRequestDelivered?
    && forall j :: i < j < |log| ==> OnlyInterrupts(log[j].event)
  }

  /**
   `k[g - 1]` is the entry that passed gate `g`, the latest of its kind in the whole log, for the
   first `|k|` gates after the local checks; all lie before entry `n`.
   */
  ghost predicate Entries(log: seq<Entry>, base: nat, from: nat, to: nat, k: seq<nat>, n: nat, c: Sha, policy: Policy) {
    && base < from <= to <= n <= |log|
    && Round(log, from, to, c, policy)
    && (forall j :: to <= j < |log| ==> Rank(log[j].event) > LOCAL_CHECKS)
    && (forall g :: 0 <= g < |k| ==> to <= k[g] < n && Passes(g + 1, log[k[g]].event, c, policy))
    && (forall g :: 0 < g < |k| ==> k[g - 1] < k[g])
    && (forall g, j :: 0 <= g < |k| && k[g] < j < |log| ==> Rank(log[j].event) > g + 1)
  }

  ghost predicate GateEntries(log: seq<Entry>, base: nat, from: nat, to: nat, k: seq<nat>, i: nat, c: Sha,
                              policy: Policy) {
    |k| == 6 && 0 < i < |log| && Entries(log, base, from, to, k, i - 1, c, policy)
  }

  lemma LaterOutrank(log: seq<Entry>, gate: nat, k: nat, n: nat)
    requires k < n <= |log|
    requires forall j :: k < j < n ==> Rank(log[j].event) > gate
    requires forall j :: n <= j < |log| ==> Rank(log[j].event) > gate
    ensures forall j :: k < j < |log| ==> Rank(log[j].event) > gate
  {
  }

  lemma AfterDeliveryOutranks(log: seq<Entry>, i: nat)
    requires 0 < i && DeliveredAt(log, i) && log[i - 1].event.CiRevalidated?
    ensures forall j :: i - 1 <= j < |log| ==> Rank(log[j].event) > PR_REVIEW
  {
  }

  /** Unwinding the gates, latest first. */
  lemma FindGateEntries(log: seq<Entry>, base: nat, i: nat, c: Sha, policy: Policy)
    returns (from: nat, to: nat, k: seq<nat>)
    requires DeliveredAt(log, i) && 0 < i && Delivers(log, base, i, c, policy)
    ensures GateEntries(log, base, from, to, k, i, c, policy)
  {
    hide Passes, Rank, Round, OnlyInterrupts, PassingCi, Passed, OnlyCandidate, Entries, Subject;
    AfterDeliveryOutranks(log, i);
    from, to, k := Unwind(log, base, c, policy, PR_REVIEW, i - 1);
  }

  lemma {:induction false} Unwind(log: seq<Entry>, base: nat, c: Sha, policy: Policy, gate: nat, n: nat)
    returns (from: nat, to: nat, k: seq<nat>)
    requires n <= |log| && Passed(log, base, c, policy, gate, n)
    requires forall j :: n <= j < |log| ==> Rank(log[j].event) > gate
    ensures |k| == gate && Entries(log, base, from, to, k, n, c, policy)
    decreases gate
  {
    hide Passes, Rank, Round;
    if gate == LOCAL_CHECKS {
      from, to := FindRound(log, base, c, policy, n);
      k := [];
    } else {
      var last := PassedIsLatest(log, base, c, policy, gate, n);
      PassesRank(log[last].event, gate, c, policy);
      LaterOutrank(log, gate, last, n);
      var rest: seq<nat>;
      from, to, rest := Unwind(log, base, c, policy, gate - 1, last);
      k := rest + [last];
    }
  }

  lemma PassesRank(event: Event, gate: nat, c: Sha, policy: Policy)
    requires Passes(gate, event, c, policy)
    ensures Rank(event) == gate
  {
  }

  lemma FindRound(log: seq<Entry>, base: nat, c: Sha, policy: Policy, n: nat) returns (from: nat, to: nat)
    requires n <= |log| && Passed(log, base, c, policy, LOCAL_CHECKS, n)
    requires forall j :: n <= j < |log| ==> Rank(log[j].event) > LOCAL_CHECKS
    ensures base < from <= to <= n && Round(log, from, to, c, policy)
    ensures forall j :: to <= j < |log| ==> Rank(log[j].event) > LOCAL_CHECKS
  {
    hide Rank, Round;
    from, to :| base < from <= to <= n && Round(log, from, to, c, policy) && NoneUpTo(log, to, n, LOCAL_CHECKS);
  }

  // ---------------------------------------------------------------- the evidence the finalizer gathers

  lemma FindIs(log: seq<Entry>, matches: Entry -> bool, k: nat)
    requires k < |log| && matches(log[k])
    requires forall j :: k < j < |log| ==> !matches(log[j])
    ensures Find(log, matches) == k
  {
  }

  lemma GatherFinds(log: seq<Entry>, base: nat, from: nat, to: nat, k: seq<nat>, i: nat, c: Sha, policy: Policy)
    requires DeliveredAt(log, i) && OnlyCandidate(log, base, i, c) && log[i].event.sha == c
    requires GateEntries(log, base, from, to, k, i, c, policy)
    ensures Gather(log, c) == Some(Evidence(base, k[0], k[5], k[1], k[2], k[3], k[4], i))
    ensures Located(log, c, Gather(log, c).value)
  {
    hide Find, Round, PassingCi, Subject;
    CandidateFound(log, base, i, c);
    DeliveryFound(log, i, c);
    GateFound(log, base, from, to, k, i, c, policy, 0);
    GateFound(log, base, from, to, k, i, c, policy, 1);
    GateFound(log, base, from, to, k, i, c, policy, 2);
    GateFound(log, base, from, to, k, i, c, policy, 3);
    GateFound(log, base, from, to, k, i, c, policy, 4);
    GateFound(log, base, from, to, k, i, c, policy, 5);
    GatherLocates(log, c);
  }

  lemma CandidateFound(log: seq<Entry>, base: nat, i: nat, c: Sha)
    requires DeliveredAt(log, i) && OnlyCandidate(log, base, i, c)
    ensures Find(log, (e: Entry) => IsCandidate(e, c)) == base
  {
  }

  lemma DeliveryFound(log: seq<Entry>, i: nat, c: Sha)
    requires DeliveredAt(log, i) && log[i].event.sha == c
    ensures Find(log, (e: Entry) => IsDelivered(e, c)) == i
  {
  }

  /** The kind of entry gate `g + 1` is looked up by. */
  predicate IsGate(e: Entry, g: nat, c: Sha) {
    if g == 0 then IsReview(e, c)
    else if g == 1 then IsPush(e, c)
    else if g == 2 then IsOpened(e, c)
    else if g == 3 then IsCiWaiting(e, c)
    else if g == 4 then IsCi(e, c)
    else IsPrReview(e, c)
  }

  lemma GateRank(e: Entry, g: nat, c: Sha, policy: Policy)
    requires g < 6
    ensures Passes(g + 1, e.event, c, policy) ==> IsGate(e, g, c)
    ensures IsGate(e, g, c) ==> Rank(e.event) == g + 1
  {
  }

  lemma GateFound(log: seq<Entry>, base: nat, from: nat, to: nat, k: seq<nat>, i: nat, c: Sha, policy: Policy, g: nat)
    requires g < 6 && GateEntries(log, base, from, to, k, i, c, policy)
    ensures match g
            case 0 => Find(log, (e: Entry) => IsReview(e, c)) == k[0]
            case 1 => Find(log, (e: Entry) => IsPush(e, c)) == k[1]
            case 2 => Find(log, (e: Entry) => IsOpened(e, c)) == k[2]
            case 3 => Find(log, (e: Entry) => IsCiWaiting(e, c)) == k[3]
            case 4 => Find(log, (e: Entry) => IsCi(e, c)) == k[4]
            case _ => Find(log, (e: Entry) => IsPrReview(e, c)) == k[5]
  {
    hide Find, Round, Passes, Rank, IsReview, IsPush, IsOpened, IsCiWaiting, IsCi, IsPrReview;
    GateRank(log[k[g]], g, c, policy);
    forall j | k[g] < j < |log| ensures !IsGate(log[j], g, c) {
      GateRank(log[j], g, c, policy);
    }
    match g
    case 0 => FindIs(log, (e: Entry) => IsReview(e, c), k[0]);
    case 1 => FindIs(log, (e: Entry) => IsPush(e, c), k[1]);
    case 2 => FindIs(log, (e: Entry) => IsOpened(e, c), k[2]);
    case 3 => FindIs(log, (e: Entry) => IsCiWaiting(e, c), k[3]);
    case 4 => FindIs(log, (e: Entry) => IsCi(e, c), k[4]);
    case _ => FindIs(log, (e: Entry) => IsPrReview(e, c), k[5]);
  }

  // ---------------------------------------------------------------- verification, counted

  lemma {:induction false} IdsConcat(a: seq<Entry>, b: seq<Entry>, c: Sha)
    ensures VerificationIds(a + b, c) == VerificationIds(a, c) + VerificationIds(b, c)
  {
    if |b| == 0 {
      assert a + b == a;
    } else {
      var n := |b| - 1;
      assert (a + b)[..|a + b| - 1] == a + b[..n];
      IdsConcat(a, b[..n], c);
    }
  }

  lemma {:induction false} NoIds(events: seq<Entry>, c: Sha)
    ensures VerificationIds(events, c) == []
            <==> forall j :: 0 <= j < |events| ==> !(events[j].event.VerificationCompleted? && events[j].event.sha == c)
  {
    if |events| > 0 {
      NoIds(events[..|events| - 1], c);
    }
  }

  lemma {:induction false} RoundIdsAreIds(log: seq<Entry>, from: nat, to: nat, c: Sha)
    requires from <= to <= |log|
    requires forall j :: from <= j < to ==> log[j].event.VerificationCompleted? && log[j].event.sha == c
    ensures VerificationIds(log[from..to], c) == RoundIds(log, from, to)
    decreases (to - from)
  {
    if from < to {
      RoundIdsAreIds(log, from, to - 1, c);
      assert log[from..to][..to - from - 1] == log[from..to - 1];
    }
  }

  /**
   Whether the candidate's verification was never repeated: as many results since the candidate
   was created as there are required checks, and none that failed before.
   */
  ghost predicate VerifiedOnce(log: seq<Entry>, candidate: nat, c: Sha, policy: Policy) {
    && candidate < |log|
    && |VerificationIds(log[candidate + 1..], c)| == |policy.localChecks|
    && forall j :: 0 <= j < candidate && log[j].event.VerificationCompleted? && log[j].event.sha == c ==>
         log[j].event.check.outcome == CheckPassed
  }

  /** The ids since the candidate end with the round's; with no more of them than required, the round's are all. */
  lemma IdsEndWithRound(log: seq<Entry>, base: nat, from: nat, to: nat, c: Sha, policy: Policy)
    requires base < from <= to <= |log| && Round(log, from, to, c, policy)
    requires forall j :: to <= j < |log| ==> Rank(log[j].event) > LOCAL_CHECKS
    ensures VerificationIds(log[base + 1..], c) == VerificationIds(log[base + 1..from], c) + RoundIds(log, from, to)
    ensures SameValues(VerificationIds(log[base + 1..], c), policy.localChecks)
            <==> |VerificationIds(log[base + 1..], c)| == |policy.localChecks|
  {
    hide Rank, VerificationIds, RoundIds, ExactSet, Distinct, Values;
    var before, round, later := log[base + 1..from], log[from..to], log[to..];
    var ids := VerificationIds(log[base + 1..], c);
    assert log[base + 1..] == before + round + later;
    IdsConcat(before + round, later, c);
    IdsConcat(before, round, c);
    RoundIdsAreIds(log, from, to, c);
    LaterHasNoIds(log, to, c);
    assert ids == VerificationIds(before, c) + RoundIds(log, from, to);
    ExactSetMeans(RoundIds(log, from, to), policy.localChecks);
    DistinctSize(policy.localChecks);
    DistinctSize(ids);
    SameSize(log, from, to, c, policy);
    if |ids| == |policy.localChecks| {
      assert ids == RoundIds(log, from, to);
    }
  }

  /** Where only the round follows the candidate, a failure can only be older than the candidate. */
  lemma FailuresAreOlder(log: seq<Entry>, base: nat, from: nat, to: nat, c: Sha, policy: Policy)
    requires base < from <= to <= |log| && Round(log, from, to, c, policy)
    requires forall j :: to <= j < |log| ==> Rank(log[j].event) > LOCAL_CHECKS
    requires log[base].event.CandidateCreated? && VerificationIds(log[base + 1..from], c) == []
    ensures (forall j :: 0 <= j < |log| && log[j].event.VerificationCompleted? && log[j].event.sha == c ==>
               log[j].event.check.outcome == CheckPassed)
            <==> forall j :: 0 <= j < base && log[j].event.VerificationCompleted? && log[j].event.sha == c ==>
               log[j].event.check.outcome == CheckPassed
  {
    hide VerificationIds, RoundIds, ExactSet;
    NoIds(log[base + 1..from], c);
    assert forall j :: base < j < from ==> log[j] == log[base + 1..from][j - base - 1];
  }

  /** With a passed round as the latest results, the finalizer's set comparison is a count. */
  lemma VerificationIsACount(log: seq<Entry>, base: nat, from: nat, to: nat, c: Sha, policy: Policy)
    requires base < from <= to <= |log| && Round(log, from, to, c, policy)
    requires forall j :: to <= j < |log| ==> Rank(log[j].event) > LOCAL_CHECKS
    requires log[base].event.CandidateCreated?
    ensures VerificationAccepted(log, base, c, policy) <==> VerifiedOnce(log, base, c, policy)
  {
    hide Rank, VerificationIds, SameValues;
    IdsEndWithRound(log, base, from, to, c, policy);
    SameSize(log, from, to, c, policy);
    if |VerificationIds(log[base + 1..], c)| == |policy.localChecks| {
      FailuresAreOlder(log, base, from, to, c, policy);
    }
  }

  lemma SameSize(log: seq<Entry>, from: nat, to: nat, c: Sha, policy: Policy)
    requires Round(log, from, to, c, policy)
    ensures |RoundIds(log, from, to)| == |policy.localChecks|
  {
  }

  lemma LaterHasNoIds(log: seq<Entry>, to: nat, c: Sha)
    requires to <= |log| && forall j :: to <= j < |log| ==> Rank(log[j].event) > LOCAL_CHECKS
    ensures VerificationIds(log[to..], c) == []
  {
    NoIds(log[to..], c);
  }

  // ---------------------------------------------------------------- chronology

  lemma {:induction false} TimesSorted(log: seq<Entry>, i: nat, j: nat)
    requires AllTimely(log) && i <= j < |log|
    ensures log[i].at <= log[j].at
    decreases j
  {
    if i < j {
      TimesSorted(log, i, j - 1);
      NextTime(log, j);
    }
  }

  lemma NextTime(log: seq<Entry>, j: nat)
    requires AllTimely(log) && 0 < j < |log|
    ensures log[j - 1].at <= log[j].at
    ensures !log[j].event.WorkOrderAdmitted?
  {
  }

  lemma History(log: seq<Entry>, now: Time)
    requires |log| > 0 && AllTimely(log) && Last(log).at <= now
    ensures Chronological(log, now)
    ensures forall j :: 0 < j < |log| ==> !log[j].event.WorkOrderAdmitted?
    ensures log[IntentIndex(log)].at <= Last(log).at
  {
    hide AllTimely, IntentIndex;
    forall j | 0 < j < |log| ensures log[j - 1].at <= log[j].at && !log[j].event.WorkOrderAdmitted? {
      NextTime(log, j);
    }
    forall j | 0 <= j < |log| ensures log[j].at <= now {
      TimesSorted(log, j, |log| - 1);
    }
    TimesSorted(log, IntentIndex(log), |log| - 1);
  }

  /**
   An entry that is neither an interruption nor a check result is not later than the intent of an observation
   after it.
   */
  lemma ObservedAfter(log: seq<Entry>, early: nat, k: nat)
    requires early < k < |log| && AllTimely(log)
    requires !OnlyInterrupts(log[early].event) && !log[early].event.VerificationCompleted?
    ensures log[early].at <= log[IntentIndex(log[..k])].at
  {
    hide Timely, OnlyInterrupts, IntentIndex;
    PrefixTimely(log, k);
    IntentStands(log[..k]);
    var intent := IntentIndex(log[..k]);
    assert log[..k][early] == log[early];
    TimesSorted(log, early, intent);
  }

  lemma ExactCi(checks: seq<CiCheck>, policy: Policy)
    requires PassingCi(checks, policy)
    ensures ExactPassedCi(checks, policy)
  {
    ExactSetMeans(Contexts(checks), policy.remoteContexts);
  }

  lemma InitialCiHolds(log: seq<Entry>, e: Evidence, c: Sha, policy: Policy)
    requires AllTimely(log) && Located(log, c, e)
    requires e.ciWaiting < e.ci < e.prReview
    requires Passes(INITIAL_CI, log[e.ci].event, c, policy)
    ensures InitialCiAccepted(log, e, c, policy)
  {
    hide PassingCi, ExactPassedCi, AllTimely;
    ExactCi(log[e.ci].event.checks, policy);
    ObservedAfter(log, e.ciWaiting, e.ci);
    CiObserved(log, e.ci);
    TimesSorted(log, e.ci, e.prReview);
  }

  lemma CiObserved(log: seq<Entry>, k: nat)
    requires k < |log| && AllTimely(log) && log[k].event.CiCompleted?
    ensures k > 0 && log[IntentIndex(log[..k])].at <= log[k].event.observedAt <= log[k].at
  {
  }

  /** What the runner read from the log before delivering is what the finalizer reads after. */
  lemma SameLookups(log: seq<Entry>, e: Evidence, c: Sha)
    requires e.pullRequest < e.delivered && e.prReview < e.delivered && e.delivered < |log|
    requires IsOpened(log[e.pullRequest], c) && forall j :: e.pullRequest < j < e.delivered ==> !IsOpened(log[j], c)
    requires IsPrReview(log[e.prReview], c) && forall j :: e.prReview < j < e.delivered ==> !IsPrReview(log[j], c)
    ensures LatestPullRequest(log[..e.delivered], c) == Some(log[e.pullRequest].event.number)
    ensures LatestPrReview(log[..e.delivered], c) == Some(e.prReview)
  {
  }

  lemma FinalCiHolds(log: seq<Entry>, e: Evidence, base: nat, c: Sha, policy: Policy)
    requires AllTimely(log) && Located(log, c, e) && Replays(log)
    requires Delivers(log, base, e.delivered, c, policy)
    requires LatestPullRequest(log[..e.delivered], c) == Some(log[e.pullRequest].event.number)
    requires LatestPrReview(log[..e.delivered], c) == Some(e.prReview)
    ensures FinalCiAccepted(log, e, c, policy)
  {
    hide PassingCi, ExactPassedCi, Passed, OnlyCandidate, LatestPullRequest, LatestPrReview, Replays, AllTimely, Timely,
         IsCandidate, IsReview, IsPush, IsCiWaiting, IsCi, IsOpened, IsPrReview;
    var i := e.delivered;
    var prefix := log[..i];
    DeliveryWasTimely(log, i);
    assert Last(prefix) == log[i - 1] && prefix[e.prReview] == log[e.prReview];
    ExactCi(log[i].event.finalChecks, policy);
    RevalidationPhase(log, i - 1);
  }

  lemma DeliveryWasTimely(log: seq<Entry>, i: nat)
    requires AllTimely(log) && i < |log| && log[i].event.PullRequestDelivered?
    ensures DeliveredInTime(log[..i], log[i].event.sha, log[i].event.number, log[i].event.observedAt, log[i].at)
  {
  }

  lemma RevalidationPhase(log: seq<Entry>, i: nat)
    requires Replays(log) && i < |log| && log[i].event.CiRevalidated?
    ensures log[i].phase == PrReview
  {
    hide PhaseTransition, EventFrom;
    if i == 0 {
      assert EventTransition(Received, log[0].event, log[0].phase);
    } else {
      assert EventTransition(log[i - 1].phase, log[i].event, log[i].phase);
    }
  }

  // ---------------------------------------------------------------- agreement

  lemma CandidateOfDelivery(s: Store, base: nat, i: nat, c: Sha, policy: Policy)
    requires StoreInv(s, policy) && DeliveredAt(s.log, i) && OnlyCandidate(s.log, base, i, c)
    ensures NoStaleCandidate(s.log, base, c)
  {
    hide Settled, CheckpointBound, ResumeBound, Replays, AllGated, CiShape, EffectivePhase, Subject, HasCandidate;
    BaseIs(s.log, base, i);
  }

  lemma {:induction false} BaseIs(log: seq<Entry>, base: nat, i: nat)
    requires base < i < |log| && log[base].event.CandidateCreated?
    requires forall j :: base < j <= i ==> !log[j].event.CandidateCreated?
    requires forall j :: i < j < |log| ==> OnlyInterrupts(log[j].event)
    ensures BaseOf(log) == base
    decreases |log|
  {
    var n := |log| - 1;
    if n > i {
      BaseIs(log[..n], base, i);
    } else {
      BaseWithin(log, base);
    }
  }

  lemma {:induction false} BaseWithin(log: seq<Entry>, base: nat)
    requires base < |log| && log[base].event.CandidateCreated?
    requires forall j :: base < j < |log| ==> !log[j].event.CandidateCreated?
    ensures BaseOf(log) == base
    decreases |log|
  {
    if base < |log| - 1 {
      BaseWithin(log[..|log| - 1], base);
    }
  }

  /** Every check the finalizer makes, apart from the intent's time and the verification count, holds. */
  lemma DeliveredLogHolds(s: Store, i: nat, policy: Policy, now: Time) returns (e: Evidence)
    requires StoreInv(s, policy) && AllTimely(s.log) && DeliveredAt(s.log, i)
    requires |s.log| > 0 && Last(s.log).at <= now
    ensures var log, c := s.log, s.log[i].event.sha;
            && Gather(log, c) == Some(e) && Located(log, c, e)
            && Chronological(log, now)
            && (forall j :: 0 < j < |log| ==> !log[j].event.WorkOrderAdmitted?)
            && NoStaleCandidate(log, e.candidate, c)
            && log[e.review].event.verdict == Approved && log[e.prReview].event.verdict == Approved
            && InitialCiAccepted(log, e, c, policy) && FinalCiAccepted(log, e, c, policy)
            && (VerificationAccepted(log, e.candidate, c, policy) <==> VerifiedOnce(log, e.candidate, c, policy))
            && log[IntentIndex(log)].at <= Last(log).at
  {
    hide AllTimely, DeliveredAt, Delivers, GateEntries, Entries, Located, Gather, Passes, Chronological, IntentIndex,
         NoStaleCandidate, VerificationAccepted, VerifiedOnce, InitialCiAccepted, FinalCiAccepted, OnlyCandidate,
         StoreInv;
    var log := s.log;
    DeliveryAt(s, i, policy);
    var c := log[i].event.sha;
    var base :| Delivers(log, base, i, c, policy);
    DeliversMeans(log, base, i, c, policy);
    var from, to, k := FindGateEntries(log, base, i, c, policy);
    GatherFinds(log, base, from, to, k, i, c, policy);
    e := Gather(log, c).value;
    History(log, now);
    CandidateOfDelivery(s, base, i, c, policy);
    EvidenceHolds(log, e, base, from, to, k, i, c, policy);
  }

  lemma DeliveryAt(s: Store, i: nat, policy: Policy)
    requires StoreInv(s, policy) && DeliveredAt(s.log, i)
    ensures 0 < i < |s.log| && s.log[i].event.PullRequestDelivered?
    ensures Replays(s.log)
    ensures exists base :: Delivers(s.log, base, i, s.log[i].event.sha, policy)
  {
    hide Settled, CheckpointBound, ResumeBound, Replays, CiShape, CandidateBound, Delivers, OnlyInterrupts;
    assert Gated(s.log, i, policy);
  }

  lemma DeliversMeans(log: seq<Entry>, base: nat, i: nat, c: Sha, policy: Policy)
    requires Delivers(log, base, i, c, policy)
    ensures OnlyCandidate(log, base, i, c) && log[base].event.CandidateCreated?
  {
    hide Passed, PassingCi, Subject;
  }

  lemma EvidenceHolds(log: seq<Entry>, e: Evidence, base: nat, from: nat, to: nat, k: seq<nat>, i: nat, c: Sha,
                      policy: Policy)
    requires AllTimely(log) && Replays(log) && Located(log, c, e)
    requires Delivers(log, base, i, c, policy) && GateEntries(log, base, from, to, k, i, c, policy)
    requires e == Evidence(base, k[0], k[5], k[1], k[2], k[3], k[4], i)
    requires log[base].event.CandidateCreated?
    ensures log[e.review].event.verdict == Approved && log[e.prReview].event.verdict == Approved
    ensures InitialCiAccepted(log, e, c, policy) && FinalCiAccepted(log, e, c, policy)
    ensures VerificationAccepted(log, e.candidate, c, policy) <==> VerifiedOnce(log, e.candidate, c, policy)
  {
    hide AllTimely, Replays, Delivers, Located, Round, Passes, Rank, VerificationAccepted, VerifiedOnce,
         InitialCiAccepted, FinalCiAccepted, LatestPullRequest, LatestPrReview, Subject;
    VerificationIsACount(log, base, from, to, c, policy);
    ApprovedReview(log[k[0]].event, c, policy);
    ApprovedReview(log[k[5]].event, c, policy);
    InitialCiHolds(log, e, c, policy);
    forall j | k[2] < j < i ensures !IsOpened(log[j], c) {
      GateRank(log[j], 2, c, policy);
    }
    forall j | k[5] < j < i ensures !IsPrReview(log[j], c) {
      GateRank(log[j], 5, c, policy);
    }
    LocatedLookups(log, e, c);
    SameLookups(log, e, c);
    FinalCiHolds(log, e, base, c, policy);
  }

  lemma LocatedLookups(log: seq<Entry>, e: Evidence, c: Sha)
    requires Located(log, c, e)
    ensures IsOpened(log[e.pullRequest], c) && IsPrReview(log[e.prReview], c)
  {
  }

  lemma ApprovedReview(event: Event, c: Sha, policy: Policy)
    ensures Passes(LOCAL_REVIEW, event, c, policy) ==> event.ReviewCompleted? && event.verdict == Approved
    ensures Passes(PR_REVIEW, event, c, policy) ==> event.PrReviewCompleted? && event.verdict == Approved
  {
  }

  /** The finalizer's verdict on a delivered store, its evidence intent made at the log's intent entry. */
  ghost predicate FinalizerAccepts(s: Store, i: nat, policy: Policy, now: Time)
    requires DeliveredAt(s.log, i)
  {
    Accepts(s.log, s.phase, policy, s.log[i].event.sha, s.log[IntentIndex(s.log)].at, now)
  }

  /** The evidence intent is as late as the log, and the delivered candidate was verified exactly once. */
  ghost predicate DeliveredOnce(s: Store, i: nat, policy: Policy)
    requires DeliveredAt(s.log, i)
  {
    var c := s.log[i].event.sha;
    && s.log[IntentIndex(s.log)].at == Last(s.log).at
    && var candidate := Find(s.log, (e: Entry) => IsCandidate(e, c));
       candidate >= 0 && VerifiedOnce(s.log, candidate, c, policy)
  }

  lemma StoreAcceptance(s: Store, i: nat, policy: Policy, now: Time)
    requires StoreInv(s, policy) && AllTimely(s.log) && DeliveredAt(s.log, i)
    requires |s.log| > 0 && Last(s.log).at <= now
    ensures FinalizerAccepts(s, i, policy, now) <==> DeliveredOnce(s, i, policy)
  {
    hide AllTimely, Located, Chronological, IntentIndex, StoreInv, Find, Replays,
         NoStaleCandidate, VerificationAccepted, VerifiedOnce, InitialCiAccepted, FinalCiAccepted;
    var e := DeliveredLogHolds(s, i, policy, now);
    InvFacts(s, policy);
  }

  /**
   For every life with a clock that never goes back, and every log it brings to PR_DELIVERED: the
   finalizer accepts if and only if the evidence intent is not older than the latest entry, and the
   delivered candidate was verified exactly once. An interrupted and repeated verification round,
   or a delivery resumed at an older intent, is all it ever rejects.
   */
  lemma FinalizerAcceptsExactly(policy: Policy, admittedAt: Time, steps: seq<LifeStep>, i: nat, now: Time)
    requires MonotoneLife(policy, admittedAt, steps)
    requires DeliveredAt(WholeLife(policy, admittedAt, steps).store.log, i)
    requires Last(WholeLife(policy, admittedAt, steps).store.log).at <= now
    ensures var store := WholeLife(policy, admittedAt, steps).store;
            FinalizerAccepts(store, i, policy, now) <==> DeliveredOnce(store, i, policy)
  {
    hide WholeLife, MonotoneLife, AllTimely, DeliveredAt, StoreInv, FinalizerAccepts, DeliveredOnce;
    LifeIsSafe(policy, admittedAt, steps);
    LifeIsTimely(policy, admittedAt, steps);
    StoreAcceptance(WholeLife(policy, admittedAt, steps).store, i, policy, now);
  }

  lemma InvFacts(s: Store, policy: Policy)
    requires StoreInv(s, policy)
    ensures |s.log| > 0 && Replays(s.log) && Last(s.log).phase == s.phase
  {
  }
}
