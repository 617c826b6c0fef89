/**
 The plan for taking a run up again at a checkpoint: which external effects are known to have happened,
 which are known not to have, and what may be done about it.
 */
module CheckpointRecovery {
  import opened Options
  import opened ExactSets

  datatype Observation =
    | IdentityLeaseState | ProviderSessionState | GithubBranchState | GithubPullRequestState | GithubCiState
    | GithubMergeQueueState | GithubMergeState | AsfAcknowledgementState | RepositoryLeaseState

  datatype State = Confirmed | NotApplied | Ambiguous | Unknown | Contradictory

  /** The run, work order, attempt, policy and candidate a record is about. */
  datatype Binding = Binding(run: nat, workOrder: nat, attempt: nat, policy: nat, candidate: Option<nat>)

  datatype Remote = Remote(observation: Observation, state: State, binding: Binding, marker: nat, observedAt: int,
                           validUntil: int)

  datatype Marker = Marker(observation: Observation, marker: nat)

  datatype Role = OrchestratorRole | ImplementerRole | LocalReviewerRole | PrReviewerRole

  /** `facts` are the resume observations an implementer brings; whether they prove the resume is one bit here. */
  datatype Facts = Facts(proven: bool)

  datatype Actor =
    | Orchestrator
    | Implementer(resume: bool, facts: Option<Facts>)
    | LocalReviewer(resume: bool)
    | PrReviewer(resume: bool)
  {
    function Role(): Role {
      match this
      case Orchestrator => OrchestratorRole
      case Implementer(_, _) => ImplementerRole
      case LocalReviewer(_) => LocalReviewerRole
      case PrReviewer(_) => PrReviewerRole
    }

    predicate Reviews() {
      LocalReviewer? || PrReviewer?
    }
  }

  datatype ReplayPolicy = Replayable | ReconcileFirst | FreshContext | NotReplayable

  datatype Policy = Policy(required: seq<Observation>, roles: set<Role>, replay: ReplayPolicy, invalidates: seq<nat>)

  datatype Checkpoint = Checkpoint(binding: Binding, generation: nat, digest: nat, markers: seq<Marker>)

  datatype Window = Window(observedAt: int, validUntil: int)

  datatype Ownership = Ownership(current: bool, run: nat, workOrder: nat, attempt: nat, worker: nat, generation: nat,
                                 window: Window)

  /** `sealed` is the checkpoint's own digest, recomputed. */
  datatype Request = Request(worker: nat, checkpoint: Checkpoint, sealed: nat, verified: bool, verifiedDigest: nat,
                             verification: Window, ownership: Ownership, remote: seq<Remote>, replay: bool,
                             actor: Actor)

  datatype Refusal =
    | CheckpointPolicyMismatch | CheckpointIntegrityUnproven | StaleObservation | OwnershipUnproven
    | RecoveryRoleForbidden | ReviewerResumeForbidden | RemoteReconciliationRequired | RemoteBindingMismatch
    | RemoteOutcomeUnresolved | ImplementerResumeUnproven

  datatype Action =
    | ContinueFromCheckpoint | ContinueAfterReconciliation | RestartReviewerFresh | ResumeImplementer
    | RestartImplementerFresh | ReplayStage
  {
    predicate Replays() {
      ReplayStage? || RestartImplementerFresh? || ResumeImplementer? || RestartReviewerFresh?
    }
  }

  datatype Plan = Plan(action: Action, confirmed: seq<Observation>, toReplay: seq<Observation>,
                       skip: seq<Observation>, invalidated: seq<nat>, takeover: bool)

  datatype Outcome = Refused(reason: Refusal) | Planned(plan: Plan)

  // ---------------------------------------------------------------- the parts of the decision

  predicate Fresh(now: int, observedAt: int, validUntil: int) {
    observedAt <= now && observedAt <= validUntil && now < validUntil
  }

  function MarkerNames(markers: seq<Marker>): (names: seq<Observation>)
    ensures |names| == |markers| && forall i :: 0 <= i < |names| ==> names[i] == markers[i].observation
  {
    seq(|markers|, i requires 0 <= i < |markers| => markers[i].observation)
  }

  function Names(remote: seq<Remote>): (names: seq<Observation>)
    ensures |names| == |remote| && forall i :: 0 <= i < |names| ==> names[i] == remote[i].observation
  {
    seq(|remote|, i requires 0 <= i < |remote| => remote[i].observation)
  }

  /** `new Map(markers)`: the last entry for a name stands. */
  function Expected(markers: seq<Marker>, name: Observation): Option<nat> {
    if |markers| == 0 then None
    else if markers[|markers| - 1].observation == name then Some(markers[|markers| - 1].marker)
    else Expected(markers[..|markers| - 1], name)
  }

  predicate Bound(o: Remote, checkpoint: Checkpoint) {
    o.binding == checkpoint.binding && Expected(checkpoint.markers, o.observation) == Some(o.marker)
  }

  /** What is wrong with one observation, in the order it is asked. */
  function Problem(o: Remote, checkpoint: Checkpoint, now: int): Option<Refusal> {
    if !Fresh(now, o.observedAt, o.validUntil) then Some(StaleObservation)
    else if !Bound(o, checkpoint) then Some(RemoteBindingMismatch)
    else if o.state != Confirmed && o.state != NotApplied then Some(RemoteOutcomeUnresolved)
    else None
  }

  function FirstProblem(remote: seq<Remote>, checkpoint: Checkpoint, now: int): Option<Refusal> {
    if |remote| == 0 then None
    else
      var before := FirstProblem(remote[..|remote| - 1], checkpoint, now);
      if before.Some? then before else Problem(remote[|remote| - 1], checkpoint, now)
  }

  /** The names observed in a state, in order. */
  function InState(remote: seq<Remote>, state: State): seq<Observation> {
    if |remote| == 0 then []
    else
      var before, last := InState(remote[..|remote| - 1], state), remote[|remote| - 1];
      if last.state == state then before + [last.observation] else before
  }

  /** What is wrong before the observations are looked at one by one. */
  function Preliminary(r: Request, policy: Policy, now: int): Option<Refusal> {
    var c, o := r.checkpoint, r.ownership;
    if !ExactSet(MarkerNames(c.markers), policy.required) then Some(CheckpointPolicyMismatch)
    else if r.sealed != c.digest then Some(CheckpointIntegrityUnproven)
    else if !Fresh(now, r.verification.observedAt, r.verification.validUntil) then Some(StaleObservation)
    else if !r.verified || r.verifiedDigest != c.digest then Some(CheckpointIntegrityUnproven)
    else if !Fresh(now, o.window.observedAt, o.window.validUntil) then Some(StaleObservation)
    else if !o.current || (o.run, o.workOrder, o.attempt) != (c.binding.run, c.binding.workOrder, c.binding.attempt)
            || o.worker != r.worker || o.generation < c.generation
    then Some(OwnershipUnproven)
    else if r.actor.Role() !in policy.roles then Some(RecoveryRoleForbidden)
    else if r.actor.Reviews() && r.actor.resume then Some(ReviewerResumeForbidden)
    else if !ExactSet(Names(r.remote), policy.required) then Some(RemoteReconciliationRequired)
    else None
  }

  /** The action, or why there is none. */
  function Decide(r: Request, policy: Policy, confirmed: seq<Observation>, notApplied: seq<Observation>)
    : (Option<Refusal>, Action)
  {
    if !r.replay && !r.actor.Orchestrator? then (Some(RecoveryRoleForbidden), ReplayStage)
    else if !r.replay && |notApplied| == 0 then
      (None, if |confirmed| == 0 then ContinueFromCheckpoint else ContinueAfterReconciliation)
    else if r.actor.Reviews() then (None, RestartReviewerFresh)
    else if r.actor.Implementer? then
      if r.actor.resume then
        if ProviderSessionState in notApplied || IdentityLeaseState in notApplied || r.actor.facts.None?
           || !r.actor.facts.value.proven
        then (Some(ImplementerResumeUnproven), ResumeImplementer)
        else (None, ResumeImplementer)
      else (if r.actor.facts.Some? then Some(ImplementerResumeUnproven) else None, RestartImplementerFresh)
    else if policy.replay.NotReplayable? then (Some(CheckpointPolicyMismatch), ReplayStage)
    else (None, if |notApplied| == 0 && |confirmed| > 0 then ContinueAfterReconciliation else ReplayStage)
  }

  function PlanFor(r: Request, policy: Policy, action: Action): Plan {
    var confirmed := InState(r.remote, Confirmed);
    Plan(action, confirmed, InState(r.remote, NotApplied), if action.Replays() then confirmed else [],
         if action.Replays() then policy.invalidates else [], r.ownership.generation > r.checkpoint.generation)
  }

  function PlanOf(r: Request, policy: Policy, now: int): Outcome {
    var early := Preliminary(r, policy, now);
    if early.Some? then Refused(early.value)
    else
      var problem := FirstProblem(r.remote, r.checkpoint, now);
      if problem.Some? then Refused(problem.value)
      else
        var (refusal, action) := Decide(r, policy, InState(r.remote, Confirmed), InState(r.remote, NotApplied));
        if refusal.Some? then Refused(refusal.value) else Planned(PlanFor(r, policy, action))
  }

  // ---------------------------------------------------------------- as it runs

  /** `planAsfCheckpointRecovery`. */
  method PlanRecovery(r: Request, policy: Policy, now: int) returns (outcome: Outcome)
    ensures outcome == PlanOf(r, policy, now)
  {
    hide ExactSet, Fresh, Bound;
    var early := Preliminary(r, policy, now);
    if early.Some? { return Refused(early.value); }
    var confirmed: seq<Observation>, notApplied: seq<Observation> := [], [];
    for i := 0 to |r.remote|
      invariant FirstProblem(r.remote[..i], r.checkpoint, now).None?
      invariant confirmed == InState(r.remote[..i], Confirmed) && notApplied == InState(r.remote[..i], NotApplied)
    {
      var o := r.remote[i];
      assert r.remote[..i + 1][..i] == r.remote[..i];
      if !Fresh(now, o.observedAt, o.validUntil) {
        FirstProblemStands(r.remote, i, r.checkpoint, now);
        return Refused(StaleObservation);
      }
      if !Bound(o, r.checkpoint) {
        FirstProblemStands(r.remote, i, r.checkpoint, now);
        return Refused(RemoteBindingMismatch);
      }
      if o.state == Confirmed {
        confirmed := confirmed + [o.observation];
      } else if o.state == NotApplied {
        notApplied := notApplied + [o.observation];
      } else {
        FirstProblemStands(r.remote, i, r.checkpoint, now);
        return Refused(RemoteOutcomeUnresolved);
      }
    }
    assert r.remote[..|r.remote|] == r.remote;
    var (refusal, action) := Decide(r, policy, confirmed, notApplied);
    if refusal.Some? { return Refused(refusal.value); }
    var replaying := action.Replays();
    return Planned(Plan(action, confirmed, notApplied, if replaying then confirmed else [],
                        if replaying then policy.invalidates else [],
                        r.ownership.generation > r.checkpoint.generation));
  }

  lemma {:induction false} FirstProblemStands(remote: seq<Remote>, i: nat, checkpoint: Checkpoint, now: int)
    requires i < |remote| && FirstProblem(remote[..i], checkpoint, now).None?
             && Problem(remote[i], checkpoint, now).Some?
    ensures FirstProblem(remote, checkpoint, now) == Problem(remote[i], checkpoint, now)
    decreases |remote|
  {
    hide Problem;
    if i < |remote| - 1 {
      assert remote[..|remote| - 1][..i] == remote[..i];
      FirstProblemStands(remote[..|remote| - 1], i, checkpoint, now);
    }
  }

  // ---------------------------------------------------------------- what a plan says

  lemma {:induction false} NoProblemMeansAll(remote: seq<Remote>, checkpoint: Checkpoint, now: int)
    ensures FirstProblem(remote, checkpoint, now).None?
            <==> forall o :: o in remote ==> Problem(o, checkpoint, now).None?
  {
    hide Problem;
    if |remote| > 0 {
      var n := |remote| - 1;
      NoProblemMeansAll(remote[..n], checkpoint, now);
      assert remote == remote[..n] + [remote[n]];
    }
  }

  lemma {:induction false} InStateMeans(remote: seq<Remote>, state: State)
    ensures forall name :: name in InState(remote, state) <==>
              exists o :: o in remote && o.state == state && o.observation == name
    ensures |InState(remote, state)| == 0 <==> forall o :: o in remote ==> o.state != state
  {
    if |remote| > 0 {
      var n := |remote| - 1;
      InStateMeans(remote[..n], state);
      assert remote == remote[..n] + [remote[n]];
      assert remote[n] in remote;
    }
  }

  /** Two states share out the names, each as often as it was observed. */
  lemma {:induction false} StatesShareOut(remote: seq<Remote>)
    requires forall o :: o in remote ==> o.state == Confirmed || o.state == NotApplied
    ensures multiset(InState(remote, Confirmed)) + multiset(InState(remote, NotApplied)) == multiset(Names(remote))
  {
    if |remote| > 0 {
      var n := |remote| - 1;
      StatesShareOut(remote[..n]);
      assert Names(remote) == Names(remote[..n]) + [remote[n].observation];
      hide Names;
    } else {
      assert Names(remote) == [];
    }
  }

  lemma {:induction false} DistinctOccursOnce<T(!new)>(values: seq<T>)
    requires Distinct(values)
    ensures forall x :: multiset(values)[x] == if x in values then 1 else 0
  {
    if |values| > 0 {
      var n := |values| - 1;
      var before, last := values[..n], values[n];
      assert values == before + [last];
      DistinctOccursOnce(before);
      assert last !in before;
    }
  }

  /**
   Every accepted request: the confirmed and the not applied effects are the required ones, each once, and
   never both.
   */
  lemma AcceptedPartitions(r: Request, policy: Policy, now: int)
    requires PlanOf(r, policy, now).Planned?
    ensures var plan := PlanOf(r, policy, now).plan;
            && multiset(plan.confirmed) + multiset(plan.toReplay) == multiset(policy.required)
            && (forall x :: x in policy.required <==> x in plan.confirmed || x in plan.toReplay)
            && (forall x :: !(x in plan.confirmed && x in plan.toReplay))
            && Distinct(policy.required)
  {
    hide FirstProblem, InState, Decide, ExactSet, Names, MarkerNames, Distinct;
    var confirmed, notApplied := InState(r.remote, Confirmed), InState(r.remote, NotApplied);
    NoProblemMeansAll(r.remote, r.checkpoint, now);
    StatesShareOut(r.remote);
    ExactSetIsEquality(Names(r.remote), policy.required);
    DistinctOccursOnce(Names(r.remote));
    DistinctOccursOnce(policy.required);
    assert multiset(Names(r.remote)) == multiset(policy.required) by {
      forall x | x in multiset(Names(r.remote)) || x in multiset(policy.required)
        ensures multiset(Names(r.remote))[x] == multiset(policy.required)[x]
      {
        assert x in Values(Names(r.remote)) <==> x in Values(policy.required);
      }
    }
    forall x: Observation
      ensures x in policy.required <==> x in confirmed || x in notApplied
      ensures !(x in confirmed && x in notApplied)
    {
      assert multiset(confirmed)[x] + multiset(notApplied)[x] == multiset(policy.required)[x];
    }
  }

  /**
   What is done next: a plan goes on exactly for the orchestrator, with nothing left to apply and, where a
   replay was asked for, something confirmed. Any other plan replays, and then skips every confirmed effect.
   */
  lemma ActionMeans(r: Request, policy: Policy, now: int)
    requires PlanOf(r, policy, now).Planned?
    ensures var plan := PlanOf(r, policy, now).plan;
            && (!plan.action.Replays() <==>
                  r.actor.Orchestrator? && plan.toReplay == [] && (r.replay ==> plan.confirmed != []))
            && (plan.action.Replays() ==> plan.skip == plan.confirmed && plan.invalidated == policy.invalidates)
            && (!plan.action.Replays() ==> plan.skip == [] && plan.invalidated == [])
            && (plan.action.ContinueFromCheckpoint? ==> policy.required == [] && !r.replay)
            && (plan.action.ReplayStage? ==> !policy.replay.NotReplayable?)
            && (plan.action.ResumeImplementer? ==>
                  (ProviderSessionState in policy.required ==> ProviderSessionState in plan.confirmed)
                  && (IdentityLeaseState in policy.required ==> IdentityLeaseState in plan.confirmed))
  {
    AcceptedPartitions(r, policy, now);
    hide FirstProblem, InState, Preliminary, Distinct;
    if policy.required != [] {
      assert policy.required[0] in policy.required;
    }
  }

  // ---------------------------------------------------------------- order does not matter

  lemma SameMembers<T>(a: seq<T>, b: seq<T>)
    requires multiset(a) == multiset(b)
    ensures |a| == |b| && forall x :: x in a <==> x in b
  {
    assert |multiset(a)| == |a| && |multiset(b)| == |b|;
    forall x ensures x in a <==> x in b {
      assert x in a <==> x in multiset(a);
      assert x in b <==> x in multiset(b);
    }
  }

  lemma SameExactSet(a: seq<Remote>, b: seq<Remote>, required: seq<Observation>)
    requires multiset(a) == multiset(b)
    ensures ExactSet(Names(a), required) == ExactSet(Names(b), required)
  {
    SameMembers(a, b);
    SameNames(a, b);
    SameNames(b, a);
    assert Values(Names(a)) == Values(Names(b));
    AllFound(Names(a), required);
    AllFound(Names(b), required);
  }

  lemma SameNames(a: seq<Remote>, b: seq<Remote>)
    requires forall o :: o in a ==> o in b
    ensures forall name :: name in Names(a) ==> name in Names(b)
  {
    forall name | name in Names(a) ensures name in Names(b) {
      var i :| 0 <= i < |a| && a[i].observation == name;
      assert a[i] in b;
      var j :| 0 <= j < |b| && b[j] == a[i];
      assert Names(b)[j] == name;
    }
  }

  lemma AllFound(names: seq<Observation>, required: seq<Observation>)
    ensures (forall i :: 0 <= i < |names| ==> names[i] in required)
            <==> forall x :: x in Values(names) ==> x in required
  {
  }

  /** However the observations are ordered: accepted or not, the action and both sets are the same. */
  lemma OrderDoesNotMatter(r: Request, other: seq<Remote>, policy: Policy, now: int)
    requires multiset(other) == multiset(r.remote)
    ensures var a, b := PlanOf(r, policy, now), PlanOf(r.(remote := other), policy, now);
            && (a.Planned? <==> b.Planned?)
            && (a.Planned? ==>
                  && a.plan.action == b.plan.action
                  && Values(a.plan.confirmed) == Values(b.plan.confirmed)
                  && Values(a.plan.toReplay) == Values(b.plan.toReplay)
                  && Values(a.plan.skip) == Values(b.plan.skip))
  {
    hide ExactSet, Fresh, Bound, FirstProblem, InState, Problem;
    var s := r.(remote := other);
    SameMembers(other, r.remote);
    SameExactSet(other, r.remote, policy.required);
    NoProblemMeansAll(r.remote, r.checkpoint, now);
    NoProblemMeansAll(other, r.checkpoint, now);
    SameInState(r.remote, other, Confirmed);
    SameInState(r.remote, other, NotApplied);
    assert Preliminary(s, policy, now).None? <==> Preliminary(r, policy, now).None?;
    SameDecision(r, s, policy);
  }

  lemma SameInState(a: seq<Remote>, b: seq<Remote>, state: State)
    requires forall o :: o in a <==> o in b
    ensures Values(InState(a, state)) == Values(InState(b, state))
    ensures |InState(a, state)| == 0 <==> |InState(b, state)| == 0
  {
    hide InState;
    InStateMeans(a, state);
    InStateMeans(b, state);
  }

  lemma SameDecision(r: Request, s: Request, policy: Policy)
    requires s == r.(remote := s.remote)
    requires Values(InState(r.remote, NotApplied)) == Values(InState(s.remote, NotApplied))
    requires |InState(r.remote, NotApplied)| == 0 <==> |InState(s.remote, NotApplied)| == 0
    requires |InState(r.remote, Confirmed)| == 0 <==> |InState(s.remote, Confirmed)| == 0
    ensures Decide(r, policy, InState(r.remote, Confirmed), InState(r.remote, NotApplied))
            == Decide(s, policy, InState(s.remote, Confirmed), InState(s.remote, NotApplied))
  {
  }
}
