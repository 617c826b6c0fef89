/**
 The event checks of the evidence finalizer, which re-reads the whole log of a delivered run
 before signing anything about it.
 */
module EvidenceFinalizer {
  import opened ExactSets
  import opened Options
  import opened DeliveryLog
  import opened DeliverySteps
  import opened DeliveryGates
  import opened DeliverySafety

  // ---------------------------------------------------------------- what acceptance means

  /** The entries are ordered in time and none is in the future. */
  ghost predicate Chronological(log: seq<Entry>, now: Time) {
    && (forall i :: 0 < i < |log| ==> log[i - 1].at <= log[i].at)
    && (forall i :: 0 <= i < |log| ==> log[i].at <= now)
  }

  /** The check ids of the candidate's verification results, in log order. */
  function VerificationIds(events: seq<Entry>, c: Sha): (ids: seq<Name>) {
    if |events| == 0 then []
    else
      var last := events[|events| - 1].event;
      VerificationIds(events[..|events| - 1], c)
        + if last.VerificationCompleted? && last.sha == c then [last.check.id] else []
  }

  ghost predicate SameValues(actual: seq<Name>, expected: seq<Name>) {
    Distinct(actual) && Distinct(expected) && Values(actual) == Values(expected)
  }

  /** `exactPassedCiEvidence`: each context once, all passed, exactly the required ones. */
  ghost predicate ExactPassedCi(checks: seq<CiCheck>, policy: Policy) {
    && (forall i :: 0 <= i < |checks| ==> checks[i].outcome == CiPassed)
    && SameValues(Contexts(checks), policy.remoteContexts)
  }

  predicate IsCandidate(e: Entry, c: Sha) { e.event.CandidateCreated? && e.event.sha == c }
  predicate IsReview(e: Entry, c: Sha) { e.event.ReviewCompleted? && e.event.sha == c }
  predicate IsPrReview(e: Entry, c: Sha) { e.event.PrReviewCompleted? && e.event.sha == c }
  predicate IsPush(e: Entry, c: Sha) { e.event.BranchPushed? && e.event.sha == c }
  predicate IsOpened(e: Entry, c: Sha) { e.event.PullRequestOpened? && e.event.sha == c }
  predicate IsCiWaiting(e: Entry, c: Sha) { e.event.CiWaiting? && e.event.sha == c }
  predicate IsCi(e: Entry, c: Sha) { e.event.CiCompleted? && e.event.sha == c }
  predicate IsDelivered(e: Entry, c: Sha) { e.event.PullRequestDelivered? && e.event.sha == c }

  /** The latest entries the finalizer looks up; None where one is missing. */
  datatype Evidence = Evidence(candidate: nat, review: nat, prReview: nat, push: nat, pullRequest: nat, ciWaiting: nat,
                               ci: nat, delivered: nat)

  function Find(log: seq<Entry>, matches: Entry -> bool): (index: int)
    ensures -1 <= index < |log|
    ensures index >= 0 ==> matches(log[index])
    ensures forall j :: index < j < |log| && j >= 0 ==> !matches(log[j])
  {
    var latest := Latest(log, matches);
    if latest.Some? then latest.value else -1
  }

  function Gather(log: seq<Entry>, c: Sha): (found: Option<Evidence>) {
    var candidate := Find(log, (e: Entry) => IsCandidate(e, c));
    var review := Find(log, (e: Entry) => IsReview(e, c));
    var prReview := Find(log, (e: Entry) => IsPrReview(e, c));
    var push := Find(log, (e: Entry) => IsPush(e, c));
    var pullRequest := Find(log, (e: Entry) => IsOpened(e, c));
    var ciWaiting := Find(log, (e: Entry) => IsCiWaiting(e, c));
    var ci := Find(log, (e: Entry) => IsCi(e, c));
    var delivered := Find(log, (e: Entry) => IsDelivered(e, c));
    if candidate < 0 || review < 0 || prReview < 0 || push < 0 || pullRequest < 0 || ciWaiting < 0 || ci < 0
       || delivered < 0
    then None
    else Some(Evidence(candidate, review, prReview, push, pullRequest, ciWaiting, ci, delivered))
  }

  /** Indices in range and of the right kind, as `Gather` returns them. */
  ghost predicate Located(log: seq<Entry>, c: Sha, e: Evidence) {
    && e.candidate < |log| && IsCandidate(log[e.candidate], c)
    && e.review < |log| && IsReview(log[e.review], c)
    && e.prReview < |log| && IsPrReview(log[e.prReview], c)
    && e.push < |log| && IsPush(log[e.push], c)
    && e.pullRequest < |log| && IsOpened(log[e.pullRequest], c)
    && e.ciWaiting < |log| && IsCiWaiting(log[e.ciWaiting], c)
    && e.ci < |log| && IsCi(log[e.ci], c)
    && e.delivered < |log| && IsDelivered(log[e.delivered], c)
  }

  lemma GatherLocates(log: seq<Entry>, c: Sha)
    ensures Gather(log, c).Some? ==> Located(log, c, Gather(log, c).value)
  {
  }

  /** No entry after the candidate's names another one. */
  ghost predicate NoStaleCandidate(log: seq<Entry>, candidate: nat, c: Sha) {
    forall j :: candidate < j < |log| ==> Subject(log[j].event).None? || Subject(log[j].event) == Some(c)
  }

  ghost predicate VerificationAccepted(log: seq<Entry>, candidate: nat, c: Sha, policy: Policy)
    requires candidate < |log|
  {
    && SameValues(VerificationIds(log[candidate + 1..], c), policy.localChecks)
    && forall j :: 0 <= j < |log| && log[j].event.VerificationCompleted? && log[j].event.sha == c ==>
         log[j].event.check.outcome == CheckPassed
  }

  ghost predicate InitialCiAccepted(log: seq<Entry>, e: Evidence, c: Sha, policy: Policy)
    requires Located(log, c, e)
  {
    var ci := log[e.ci];
    && ExactPassedCi(ci.event.checks, policy)
    && ci.event.outcome == CiPassed
    && log[e.ciWaiting].at <= ci.event.observedAt <= ci.at <= log[e.prReview].at
  }

  ghost predicate FinalCiAccepted(log: seq<Entry>, e: Evidence, c: Sha, policy: Policy)
    requires Located(log, c, e)
  {
    var delivered := log[e.delivered];
    && delivered.event.number == log[e.pullRequest].event.number
    && ExactPassedCi(delivered.event.finalChecks, policy)
    && e.delivered > 0
    && var final := log[e.delivered - 1];
       && final.event.CiRevalidated? && final.phase == PrReview
       && final.event.sha == c && final.event.outcome == CiPassed
       && final.event.checks == delivered.event.finalChecks
       && final.event.observedAt == delivered.event.finalCiObservedAt
       && log[e.prReview].at <= final.event.observedAt <= final.at <= delivered.event.observedAt
       && final.event.observedAt <= delivered.event.observedAt <= delivered.at
       && final.event.observedAt <= delivered.at
       && log[e.prReview].at <= delivered.event.observedAt
  }

  /** Everything `assertEvents` asks of the log of a run in `phase`. */
  ghost predicate Accepts(log: seq<Entry>, phase: Phase, policy: Policy, c: Sha, intentAt: Time, now: Time) {
    && Replays(log)
    && Chronological(log, now)
    && log[|log| - 1].phase == phase
    && log[|log| - 1].at <= intentAt <= now
    && (forall i :: 0 < i < |log| ==> !log[i].event.WorkOrderAdmitted?)
    && Gather(log, c).Some?
    && Located(log, c, Gather(log, c).value)
    && var e := Gather(log, c).value;
       && NoStaleCandidate(log, e.candidate, c)
       && VerificationAccepted(log, e.candidate, c, policy)
       && log[e.review].event.verdict == Approved
       && log[e.prReview].event.verdict == Approved
       && InitialCiAccepted(log, e, c, policy)
       && FinalCiAccepted(log, e, c, policy)
  }

  // ---------------------------------------------------------------- the finalizer's own loops

  /** `assertSameValues`: sizes of the two sets against the lengths, then containment. */
  method AssertSameValues(actual: seq<Name>, expected: seq<Name>) returns (ok: bool)
    ensures ok == SameValues(actual, expected)
  {
    DistinctSize(actual);
    DistinctSize(expected);
    var actualValues, expectedValues := Values(actual), Values(expected);
    if |actualValues| != |actual| || |expectedValues| != |expected| || |actualValues| != |expectedValues| {
      return false;
    }
    ok := true;
    for i := 0 to |expected|
      invariant ok == forall j :: 0 <= j < i ==> expected[j] in actualValues
    {
      ok := ok && expected[i] in actualValues;
    }
    if ok {
      SubsetOfEqualSize(expectedValues, actualValues);
    }
  }

  /** `exactEventMap`: None where a check id appears twice. */
  method ExactEventMap(events: seq<Entry>, c: Sha) returns (evidence: Option<map<Name, nat>>)
    ensures evidence.Some? == Distinct(VerificationIds(events, c))
    ensures evidence.Some? ==> evidence.value.Keys == Values(VerificationIds(events, c))
  {
    var result: map<Name, nat> := map[];
    for i := 0 to |events|
      invariant Distinct(VerificationIds(events[..i], c))
      invariant result.Keys == Values(VerificationIds(events[..i], c))
    {
      assert events[..i + 1][..i] == events[..i];
      var event := events[i].event;
      if event.VerificationCompleted? && event.sha == c {
        ghost var ids := VerificationIds(events[..i], c);
        if event.check.id in result {
          RepeatedIsNotDistinct(events, c, i);
          return None;
        }
        assert VerificationIds(events[..i + 1], c) == ids + [event.check.id];
        result := result[event.check.id := event.check.evidence];
      }
    }
    assert events[..|events|] == events;
    return Some(result);
  }

  lemma {:induction false} RepeatedIsNotDistinct(events: seq<Entry>, c: Sha, i: nat)
    requires i < |events|
    requires events[i].event.VerificationCompleted? && events[i].event.sha == c
    requires events[i].event.check.id in VerificationIds(events[..i], c)
    ensures !Distinct(VerificationIds(events, c))
    decreases |events|
  {
    var n := |events| - 1;
    if i < n {
      assert events[..n][..i] == events[..i];
      RepeatedIsNotDistinct(events[..n], c, i);
      var ids := VerificationIds(events[..n], c);
      var j, k :| 0 <= j < k < |ids| && ids[j] == ids[k];
      assert VerificationIds(events, c)[j] == VerificationIds(events, c)[k];
    } else {
      var ids := VerificationIds(events[..i], c);
      var j :| 0 <= j < |ids| && ids[j] == events[i].event.check.id;
      assert VerificationIds(events, c)[j] == VerificationIds(events, c)[|ids|];
    }
  }

  /** `exactPassedCiEvidence`. */
  method ExactPassedCiEvidence(checks: seq<CiCheck>, policy: Policy) returns (ok: bool)
    ensures ok == ExactPassedCi(checks, policy)
  {
    var seen: set<Name> := {};
    for i := 0 to |checks|
      invariant forall j :: 0 <= j < i ==> checks[j].outcome == CiPassed
      invariant seen == set j | 0 <= j < i :: checks[j].context
      invariant Distinct(Contexts(checks[..i]))
    {
      if checks[i].outcome != CiPassed || checks[i].context in seen {
        if checks[i].context in seen {
          var j :| 0 <= j < i && checks[j].context == checks[i].context;
          assert Contexts(checks)[j] == Contexts(checks)[i];
        }
        return false;
      }
      assert Contexts(checks[..i + 1]) == Contexts(checks[..i]) + [checks[i].context];
      seen := seen + {checks[i].context};
    }
    assert checks[..|checks|] == checks;
    ok := AssertSameValues(Contexts(checks), policy.remoteContexts);
  }

  /** The replay and chronology loop. */
  method AssertHistory(log: seq<Entry>, now: Time) returns (ok: bool)
    requires |log| > 0
    ensures ok == (Replays(log) && Chronological(log, now))
  {
    hide EventTransition;
    var priorPhase, priorTime := Received, log[0].at;
    for i := 0 to |log|
      invariant priorPhase == if i == 0 then Received else log[i - 1].phase
      invariant priorTime == if i == 0 then log[0].at else log[i - 1].at
      invariant forall j :: 0 <= j < i ==> log[j].at <= now && (j > 0 ==> log[j - 1].at <= log[j].at)
      invariant i > 0 ==> EventTransition(Received, log[0].event, log[0].phase)
      invariant forall j :: 0 < j < i ==> EventTransition(log[j - 1].phase, log[j].event, log[j].phase)
    {
      if !EventTransition(priorPhase, log[i].event, log[i].phase) { return false; }
      if log[i].at < priorTime || log[i].at > now { return false; }
      priorPhase, priorTime := log[i].phase, log[i].at;
    }
    return true;
  }

  /** The candidate, verification and admission scans. */
  method AssertCandidate(log: seq<Entry>, candidate: nat, c: Sha, policy: Policy) returns (ok: bool)
    requires candidate < |log|
    ensures ok == (NoStaleCandidate(log, candidate, c) && VerificationAccepted(log, candidate, c, policy))
  {
    hide Subject;
    for j := candidate + 1 to |log|
      invariant forall k :: candidate < k < j ==> Subject(log[k].event).None? || Subject(log[k].event) == Some(c)
    {
      if Subject(log[j].event).Some? && Subject(log[j].event) != Some(c) { return false; }
    }
    var evidence := ExactEventMap(log[candidate + 1..], c);
    if evidence.None? { return false; }
    var same := SameKeys(evidence.value, policy.localChecks);
    if !same { return false; }
    for j := 0 to |log|
      invariant forall k :: 0 <= k < j && log[k].event.VerificationCompleted? && log[k].event.sha == c ==>
                  log[k].event.check.outcome == CheckPassed
    {
      var event := log[j].event;
      if event.VerificationCompleted? && event.sha == c && event.check.outcome != CheckPassed { return false; }
    }
    return true;
  }

  /** `assertSameValues` on a map's keys, which are distinct already. */
  method SameKeys(evidence: map<Name, nat>, expected: seq<Name>) returns (same: bool)
    ensures same == (Distinct(expected) && evidence.Keys == Values(expected))
  {
    DistinctSize(expected);
    same := |Values(expected)| == |expected| && evidence.Keys == Values(expected);
  }

  /** The initial gate: passed, observed since CI was awaited, and earlier than the review. */
  method AssertInitialCi(log: seq<Entry>, e: Evidence, c: Sha, policy: Policy) returns (ok: bool)
    requires Located(log, c, e)
    ensures ok == InitialCiAccepted(log, e, c, policy)
  {
    hide ExactPassedCi;
    var ci := log[e.ci];
    ok := ExactPassedCiEvidence(ci.event.checks, policy);
    if || !ok || ci.event.outcome != CiPassed || ci.event.observedAt < log[e.ciWaiting].at
       || ci.event.observedAt > ci.at || ci.at > log[e.prReview].at { return false; }
  }

  /** The final gate: the delivery against the revalidation just before it. */
  method AssertFinalCi(log: seq<Entry>, e: Evidence, c: Sha, policy: Policy) returns (ok: bool)
    requires Located(log, c, e)
    ensures ok == FinalCiAccepted(log, e, c, policy)
  {
    hide ExactPassedCi;
    var delivered := log[e.delivered];
    ok := ExactPassedCiEvidence(delivered.event.finalChecks, policy);
    if !ok || e.delivered == 0 || delivered.event.number != log[e.pullRequest].event.number { return false; }
    var final := log[e.delivered - 1];
    return && final.event.CiRevalidated? && final.phase == PrReview
           && final.event.sha == c && final.event.outcome == CiPassed
           && final.event.checks == delivered.event.finalChecks
           && final.event.observedAt == delivered.event.finalCiObservedAt
           && log[e.prReview].at <= final.event.observedAt <= final.at <= delivered.event.observedAt
           && final.event.observedAt <= delivered.event.observedAt <= delivered.at
           && final.event.observedAt <= delivered.at
           && log[e.prReview].at <= delivered.event.observedAt;
  }

  /** `assertEvents`. */
  method AssertEvents(log: seq<Entry>, phase: Phase, policy: Policy, c: Sha, intentAt: Time, now: Time)
    returns (ok: bool)
    ensures ok == Accepts(log, phase, policy, c, intentAt, now)
  {
    hide Replays, Chronological, Gather, VerificationAccepted, NoStaleCandidate, InitialCiAccepted, FinalCiAccepted;
    if |log| == 0 {
      assert !Replays(log) by { EmptyDoesNotReplay(log); }
      return false;
    }
    ok := AssertHistory(log, now);
    if !ok || log[|log| - 1].phase != phase || intentAt < log[|log| - 1].at || intentAt > now { return false; }
    for i := 1 to |log|
      invariant forall k :: 0 < k < i ==> !log[k].event.WorkOrderAdmitted?
    {
      if log[i].event.WorkOrderAdmitted? { return false; }
    }
    GatherLocates(log, c);
    var found := Gather(log, c);
    if found.None? { return false; }
    var e := found.value;
    ok := AssertCandidate(log, e.candidate, c, policy);
    if !ok || log[e.review].event.verdict != Approved || log[e.prReview].event.verdict != Approved { return false; }
    ok := AssertInitialCi(log, e, c, policy);
    if !ok { return false; }
    ok := AssertFinalCi(log, e, c, policy);
  }

  lemma EmptyDoesNotReplay(log: seq<Entry>)
    requires |log| == 0
    ensures !Replays(log)
  {
  }
}
