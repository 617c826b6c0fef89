/**
 Producer and consumer agree. With a clock that never goes back, the finalizer accepts a
 delivered log exactly when the delivered candidate's verification was never repeated.
 */
module DeliveryAgreement {
  import opened ExactSets
  import opened Options
  import opened DeliveryLog
  import opened DeliverySteps
  import opened DeliveryGates
  import opened DeliverySafety
  import opened DeliveryRunnerSafety
  import opened DeliveryLife
  import opened EvidenceFinalizer

  // ---------------------------------------------------------------- what each entry owes to the clock

  /** What holds of an entry and the log it was appended to, when the clock never goes back. */
  ghost predicate Timely(prefix: seq<Entry>, entry: Entry) {
    && (|prefix| > 0 ==> Last(prefix).at <= entry.at)
    && (|prefix| > 0 ==> !entry.event.WorkOrderAdmitted?)
    && match entry.event
       case CiCompleted(_, _, _, observedAt) => ObservedInTime(prefix, observedAt, entry.at)
       case CiRecheckCompleted(_, _, _, observedAt) => ObservedInTime(prefix, observedAt, entry.at)
       case CiRevalidated(_, _, _, observedAt) => ObservedInTime(prefix, observedAt, entry.at)
       case RunResumed(_, cursor) => cursor.Some? ==> StandsSince(prefix, cursor.value)
       case PullRequestDelivered(c, number, observedAt, _, _) =>
         DeliveredInTime(prefix, c, number, observedAt, entry.at)
       case _ => true
  }

  ghost predicate ObservedInTime(prefix: seq<Entry>, observedAt: Time, at: Time) {
    |prefix| > 0 && prefix[IntentIndex(prefix)].at <= observedAt <= at
  }

  /** The intent made at `index` is still pending: since then there were interruptions and single check results only. */
  ghost predicate StandsSince(log: seq<Entry>, index: nat) {
    && index < |log|
    && forall j :: index < j < |log| ==> OnlyInterrupts(log[j].event) || log[j].event.VerificationCompleted?
  }

  ghost predicate DeliveredInTime(prefix: seq<Entry>, c: Sha, number: nat, observedAt: Time, at: Time) {
    && |prefix| > 0
    && Last(prefix).event.CiRevalidated?
    && LatestPullRequest(prefix, c) == Some(number)
    && LatestPrReview(prefix, c).Some?
    && var review := prefix[LatestPrReview(prefix, c).value];
       && review.at <= Last(prefix).event.observedAt <= Last(prefix).at
       && review.at <= observedAt && Last(prefix).at <= observedAt && Last(prefix).event.observedAt <= observedAt
       && observedAt <= at
  }

  ghost predicate AllTimely(log: seq<Entry>) {
    forall k :: 0 <= k < |log| ==> Timely(log[..k], log[k])
  }

  lemma OneMoreTimely(log: seq<Entry>, entry: Entry)
    requires AllTimely(log) && Timely(log, entry)
    ensures AllTimely(log + [entry])
  {
    hide Timely;
    var more := log + [entry];
    forall k | 0 <= k < |more| ensures Timely(more[..k], more[k]) {
      if k < |log| {
        assert more[..k] == log[..k];
      } else {
        assert more[..k] == log;
      }
    }
  }

  lemma ResumedIntentStands(prefix: seq<Entry>, entry: Entry)
    requires Timely(prefix, entry) && entry.event.RunResumed? && entry.event.cursor.Some?
    ensures StandsSince(prefix, entry.event.cursor.value)
  {
  }

  lemma ResumptionIsAnInterrupt(log: seq<Entry>, index: nat)
    requires |log| > 0 && log[|log| - 1].event.RunResumed? && StandsSince(log[..|log| - 1], index)
    ensures StandsSince(log, index)
  {
  }

  /** Whatever entry an intent is made at, it still stands. */
  lemma IntentStands(log: seq<Entry>)
    requires |log| > 0 && AllTimely(log)
    ensures StandsSince(log, IntentIndex(log))
  {
    hide Timely;
    var n := |log| - 1;
    assert Timely(log[..n], log[n]);
    var last := log[n].event;
    if last.RunResumed? && last.cursor.Some? && last.cursor.value < |log| {
      hide StandsSince, AllTimely;
      ResumedIntentStands(log[..n], log[n]);
      ResumptionIsAnInterrupt(log, last.cursor.value);
    }
  }

  lemma PrefixTimely(log: seq<Entry>, n: nat)
    requires AllTimely(log) && n <= |log|
    ensures AllTimely(log[..n])
  {
    hide Timely;
    forall k | 0 <= k < n ensures Timely(log[..n][..k], log[..n][k]) {
      assert log[..n][..k] == log[..k];
    }
  }

  // ---------------------------------------------------------------- the runner's writes are timely

  /** The clock of an answer: readings never go back, and none is before the latest entry. */
  ghost predicate Monotone(a: Answer, latest: Time) {
    && latest <= a.now <= a.clock(0)
    && forall i: nat, j: nat :: i <= j ==> a.clock(i) <= a.clock(j)
  }

  /** Events whose timeliness needs more than the clock. */
  predicate Dated(event: Event) {
    event.CiCompleted? || event.CiRecheckCompleted? || event.CiRevalidated? || event.PullRequestDelivered?
    || event.RunResumed? || event.WorkOrderAdmitted?
  }

  lemma UndatedIsTimely(prefix: seq<Entry>, entry: Entry)
    requires |prefix| > 0 && Last(prefix).at <= entry.at && !Dated(entry.event)
    ensures Timely(prefix, entry)
  {
  }

  /** Writes none of which is dated, except perhaps the first. */
  ghost predicate DatedFirst(writes: seq<Write>) {
    forall i :: 0 < i < |writes| ==> writes[i].Append? ==> !Dated(writes[i].event)
  }

  lemma {:induction false} WritesTimely(w: World, writes: seq<Write>, clock: nat -> Time)
    requires |w.store.log| > 0 && AllTimely(w.store.log)
    requires Last(w.store.log).at <= clock(0)
    requires forall i: nat, j: nat :: i <= j ==> clock(i) <= clock(j)
    requires DatedFirst(writes)
    requires |writes| > 0 && writes[0].Append? ==>
               Timely(w.store.log, Entry(writes[0].event, writes[0].to, clock(0)))
    ensures var after := PerformAll(w, writes, clock).store.log;
            && |after| > 0 && AllTimely(after)
            && Last(after).at <= clock(if |writes| > 0 then |writes| - 1 else 0)
  {
    hide Timely, AllTimely;
    if |writes| > 0 {
      var n := |writes| - 1;
      WritesTimely(w, writes[..n], clock);
      var before := PerformAll(w, writes[..n], clock);
      if writes[n].Append? {
        var entry := Entry(writes[n].event, writes[n].to, clock(n));
        if n > 0 {
          assert clock(n - 1) <= clock(n);
          UndatedIsTimely(before.store.log, entry);
        } else {
          assert writes[..0] == [];
        }
        OneMoreTimely(before.store.log, entry);
      }
    }
  }

  /** What `WritesTimely` asks of a plan. */
  ghost predicate PlanTimely(w: World, plan: Plan, clock: nat -> Time) {
    && DatedFirst(plan.writes)
    && (|plan.writes| > 0 && plan.writes[0].Append? ==>
          Timely(w.store.log, Entry(plan.writes[0].event, plan.writes[0].to, clock(0))))
  }

  lemma UndatedPlan(w: World, plan: Plan, clock: nat -> Time)
    requires |w.store.log| > 0 && Last(w.store.log).at <= clock(0)
    requires forall i :: 0 <= i < |plan.writes| && plan.writes[i].Append? ==> !Dated(plan.writes[i].event)
    ensures PlanTimely(w, plan, clock)
  {
  }

  lemma CompleteCiTimely(w: World, policy: Policy, a: Answer, c: Sha)
    requires |w.store.log| > 0 && Monotone(a, Last(w.store.log).at)
    ensures PlanTimely(w, CompleteCi(w, policy, a, c), a.clock)
  {
  }

  lemma PrReviewTimely(w: World, policy: Policy, a: Answer, c: Sha)
    requires |w.store.log| > 0 && Monotone(a, Last(w.store.log).at)
    ensures PlanTimely(w, PrReviewPlan(w, policy, a, c), a.clock)
  {
  }

  lemma CiWaitTimely(w: World, policy: Policy, a: Answer, c: Sha)
    requires |w.store.log| > 0 && Monotone(a, Last(w.store.log).at)
    ensures PlanTimely(w, CiWaitPlan(w, policy, a, c), a.clock)
  {
    hide PlanTimely, CurrentCiOutcome, CompleteCi;
    var plan := CiWaitPlan(w, policy, a, c);
    CompleteCiTimely(w, policy, a, c);
    if forall i :: 0 <= i < |plan.writes| && plan.writes[i].Append? ==> !Dated(plan.writes[i].event) {
      UndatedPlan(w, plan, a.clock);
    }
  }

  lemma VerificationUndated(w: World, policy: Policy, a: Answer, c: Sha, opening: seq<Write>)
    requires forall i :: 0 <= i < |opening| && opening[i].Append? ==> !Dated(opening[i].event)
    ensures var writes := CompleteLocalVerification(w, policy, a, c, opening).writes;
            forall i :: 0 <= i < |writes| && writes[i].Append? ==> !Dated(writes[i].event)
  {
  }

  lemma StageTimely(w: World, policy: Policy, a: Answer)
    requires |w.store.log| > 0 && Monotone(a, Last(w.store.log).at)
    ensures PlanTimely(w, StagePlan(w, policy, a), a.clock)
  {
    hide PlanTimely, CandidateStage;
    var plan := StagePlan(w, policy, a);
    if w.store.candidate.Some? {
      CandidateStageTimely(w, policy, a, w.store.candidate.value);
    }
    if forall i :: 0 <= i < |plan.writes| && plan.writes[i].Append? ==> !Dated(plan.writes[i].event) {
      UndatedPlan(w, plan, a.clock);
    }
  }

  lemma CandidateStageTimely(w: World, policy: Policy, a: Answer, c: Sha)
    requires |w.store.log| > 0 && Monotone(a, Last(w.store.log).at)
    ensures PlanTimely(w, CandidateStage(w, policy, a, c), a.clock)
  {
    hide PlanTimely, CompleteLocalVerification, CiWaitPlan, PrReviewPlan;
    var plan := CandidateStage(w, policy, a, c);
    match w.store.phase {
      case CandidateReady =>
        VerificationUndated(w, policy, a, c, [Append(VerificationStarted(c), LocalVerify, None)]);
        UndatedPlan(w, plan, a.clock);
      case LocalVerify =>
        VerificationUndated(w, policy, a, c, []);
        UndatedPlan(w, plan, a.clock);
      case CiWait => CiWaitTimely(w, policy, a, c);
      case PrReview => PrReviewTimely(w, policy, a, c);
      case LocalReview => LocalReviewUndated(w, policy, a, c); UndatedPlan(w, plan, a.clock);
      case _ => UndatedPlan(w, plan, a.clock);
    }
  }

  lemma LocalReviewUndated(w: World, policy: Policy, a: Answer, c: Sha)
    ensures var writes := LocalReviewPlan(w, policy, a, c).writes;
            forall i :: 0 <= i < |writes| && writes[i].Append? ==> !Dated(writes[i].event)
  {
  }

  lemma LeaveTimely(w: World, exit: Exit, a: Answer, used: nat)
    requires |w.store.log| > 0 && AllTimely(w.store.log)
    requires Last(w.store.log).at <= a.clock(used)
    requires forall i: nat, j: nat :: i <= j ==> a.clock(i) <= a.clock(j)
    ensures |Leave(w, exit, a, used).store.log| > 0 && AllTimely(Leave(w, exit, a, used).store.log)
  {
    hide Timely, AllTimely, PhaseTransition;
    var writes := StopWrites(w.store, exit, a.disposal);
    var clock := Later(a.clock, used);
    UndatedPlan(w, Plan(writes, w.runtime, exit), clock);
    WritesTimely(w, writes, clock);
  }

  lemma TurnTimely(w: World, policy: Policy, a: Answer)
    requires |w.store.log| > 0 && AllTimely(w.store.log) && Monotone(a, Last(w.store.log).at)
    ensures |Iterate(w, policy, a).world.store.log| > 0 && AllTimely(Iterate(w, policy, a).world.store.log)
  {
    hide Timely, AllTimely, StagePlan, PerformAll, Leave;
    var plan := StagePlan(w, policy, a);
    StageTimely(w, policy, a);
    var k := if a.broken.Some? && a.cut <= |plan.writes| then a.cut else |plan.writes|;
    assert plan.writes[..|plan.writes|] == plan.writes;
    WritesTimely(w, plan.writes[..k], a.clock);
    var done := PerformAll(w, plan.writes[..k], a.clock);
    assert Last(done.store.log).at <= a.clock(k);
    if a.broken.Some? {
      LeaveTimely(done, a.broken.value, a, k);
    } else {
      LeaveTimely(World(done.store, plan.runtime.(latest := done.runtime.latest)), plan.exit, a, k);
    }
  }

  // ---------------------------------------------------------------- lives with a clock that never goes back

  ghost predicate StepMonotone(store: Store, step: LifeStep)
    requires |store.log| > 0
  {
    match step
    case StartRun(_, _, a) => Monotone(a, Last(store.log).at)
    case TurnOf(_, a) => Monotone(a, Last(store.log).at)
    case ResumeRun(cursor, at) =>
      Last(store.log).at <= at && (cursor.Some? ==> StandsSince(store.log, cursor.value))
    case RequestCancellation(at) => Last(store.log).at <= at
  }

  ghost predicate MonotoneLife(policy: Policy, admittedAt: Time, steps: seq<LifeStep>) {
    forall i :: 0 <= i < |steps| ==> StepMonotone(WholeLife(policy, admittedAt, steps[..i]).store, steps[i])
  }

  lemma LiveTimely(life: Life, policy: Policy, step: LifeStep)
    requires |life.store.log| > 0 && AllTimely(life.store.log) && StepMonotone(life.store, step)
    ensures AllTimely(Live(life, policy, step).store.log)
  {
    hide Timely, AllTimely, Iterate, Leave, EventTransition;
    var store := life.store;
    match step
    case StartRun(takeover, action, a) =>
      var w := Blank(store.(generation := store.generation + 1));
      TurnTimely(w, policy, a);
      LeaveTimely(w, Stop(Quarantined), a, 0);
      if a.broken.Some? {
        LeaveTimely(w, a.broken.value, a, 0);
      }
    case TurnOf(generation, a) =>
      if generation in life.workers && generation == store.generation {
        TurnTimely(World(store, life.workers[generation]), policy, a);
      }
    case ResumeRun(cursor, at) =>
      if store.resume.Some? {
        var entry := Entry(RunResumed(store.candidate, cursor), store.resume.value, at);
        ResumeIsTimely(store.log, entry);
        OneMoreTimely(store.log, entry);
      }
    case RequestCancellation(at) =>
      var entry := Entry(Cancellation(store), CancelRequested, at);
      UndatedIsTimely(store.log, entry);
      OneMoreTimely(store.log, entry);
  }

  lemma ResumeIsTimely(log: seq<Entry>, entry: Entry)
    requires |log| > 0 && Last(log).at <= entry.at && entry.event.RunResumed?
    requires entry.event.cursor.Some? ==> StandsSince(log, entry.event.cursor.value)
    ensures Timely(log, entry)
  {
  }

  lemma {:induction false} LifeIsTimely(policy: Policy, admittedAt: Time, steps: seq<LifeStep>)
    requires MonotoneLife(policy, admittedAt, steps)
    ensures AllTimely(WholeLife(policy, admittedAt, steps).store.log)
  {
    hide Live, StepMonotone;
    if |steps| > 0 {
      var n := |steps| - 1;
      forall i | 0 <= i < n ensures steps[..n][..i] == steps[..i] {
      }
      LifeIsTimely(policy, admittedAt, steps[..n]);
      LiveTimely(WholeLife(policy, admittedAt, steps[..n]), policy, steps[n]);
    }
  }
}
