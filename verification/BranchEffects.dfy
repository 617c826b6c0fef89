/**
 The branch half of the GitHub effect protocol as a machine of single steps: the controller's
 intend, observe, begin, push and observe-again, interleaved with crashes, requests that land late or
 never, and foreign writers.
 */
module BranchEffects {
  import opened Options

  type Sha = nat

  datatype Status = Intended | InFlight | NotApplied | Confirmed | Ambiguous
  /** A durable effect row; its key is the candidate, as run, operation and target are fixed here. */
  datatype Row = Row(expected: Option<Sha>, status: Status)
  /** A push on its way to the remote, with the value its lease names. */
  datatype Request = Request(expected: Option<Sha>, candidate: Sha)

  /** Where the current owner's `ensureBranch` call stands. */
  datatype Call =
    | Idle
    | Observing(candidate: Sha, expected: Option<Sha>)
    | Clear(candidate: Sha, expected: Option<Sha>)
    | Begun(candidate: Sha, expected: Option<Sha>)
    | Sent(candidate: Sha, expected: Option<Sha>)
    | Succeeded(candidate: Sha)

  datatype State = State(
    ref: Option<Sha>,
    requests: seq<Request>,
    rows: map<Sha, Row>,
    pushed: seq<Sha>,
    candidate: Option<Sha>,
    delivering: bool,
    call: Call)

  datatype Reading = Unreadable | Malformed | Readable

  /**
   The first four are the delivery runner's and the controller's; `Land` and `Lose` are the network's;
   `ForeignWrite` is anyone else's.
   */
  datatype Step =
    | MakeCandidate(sha: Sha)
    | StartDelivery
    | Intend
    | Observe(reading: Reading)
    | Begin
    | Send(accepted: bool)
    | Report
    | Crash
    | Land(request: nat)
    | Lose(request: nat)
    | ForeignWrite(value: Option<Sha>)

  /** `#previousPushedCandidate`: the latest pushed candidate other than `c`. */
  function PreviousPushed(pushed: seq<Sha>, c: Sha): Option<Sha> {
    if |pushed| == 0 then None
    else if pushed[|pushed| - 1] != c then Some(pushed[|pushed| - 1])
    else PreviousPushed(pushed[..|pushed| - 1], c)
  }

  /** What `#observeBranch` records of a readable ref. */
  function Outcome(ref: Option<Sha>, c: Sha, expected: Option<Sha>): Status {
    if ref == Some(c) then Confirmed
    else if ref.None? || ref == expected then NotApplied
    else Ambiguous
  }

  function Removed(requests: seq<Request>, k: nat): seq<Request>
    requires k < |requests|
  {
    requests[..k] + requests[k + 1..]
  }

  function IntendStep(s: State): State {
    if s.call != Idle || !s.delivering || s.candidate.None? then s
    else
      var c := s.candidate.value;
      var e := PreviousPushed(s.pushed, c);
      if c in s.rows then
        if s.rows[c].expected == e then s.(call := Observing(c, e)) else s
      else s.(rows := s.rows[c := Row(e, Intended)], call := Observing(c, e))
  }

  function ObserveStep(s: State, reading: Reading): State {
    if !(s.call.Observing? || s.call.Sent?) || s.call.candidate !in s.rows then s
    else
      var c, e := s.call.candidate, s.call.expected;
      match reading
      case Malformed => s.(call := Idle)
      case Unreadable => s.(rows := s.rows[c := s.rows[c].(status := Ambiguous)], call := Idle)
      case Readable =>
        var outcome := Outcome(s.ref, c, e);
        s.(rows := s.rows[c := s.rows[c].(status := outcome)],
           call := if outcome == Confirmed then Succeeded(c)
                   else if outcome == NotApplied && s.call.Observing? then Clear(c, e)
                   else Idle)
  }

  function BeginStep(s: State): State {
    if !s.call.Clear? || s.call.candidate !in s.rows then s
    else
      var c, e := s.call.candidate, s.call.expected;
      if s.rows[c].status == Intended || s.rows[c].status == NotApplied then
        s.(rows := s.rows[c := s.rows[c].(status := InFlight)], call := Begun(c, e))
      else s.(call := Idle)
  }

  function SendStep(s: State, accepted: bool): State {
    if !s.call.Begun? then s
    else
      var c, e := s.call.candidate, s.call.expected;
      s.(requests := if accepted then s.requests + [Request(e, c)] else s.requests, call := Sent(c, e))
  }

  /** The remote applies a push only where the ref still holds what the lease names. */
  function LandStep(s: State, k: nat): State {
    if k >= |s.requests| then s
    else
      var request := s.requests[k];
      s.(requests := Removed(s.requests, k),
         ref := if s.ref == request.expected then Some(request.candidate) else s.ref)
  }

  function Next(s: State, step: Step): State {
    match step
    case MakeCandidate(c) => if s.delivering then s else s.(candidate := Some(c))
    case StartDelivery =>
      if s.candidate.None? || s.candidate.value in s.pushed then s else s.(delivering := true)
    case Intend => IntendStep(s)
    case Observe(reading) => ObserveStep(s, reading)
    case Begin => BeginStep(s)
    case Send(accepted) => SendStep(s, accepted)
    case Report =>
      if !s.call.Succeeded? then s
      else s.(pushed := s.pushed + [s.call.candidate], delivering := false, call := Idle)
    case Crash => s.(call := Idle)
    case Land(k) => LandStep(s, k)
    case Lose(k) => if k < |s.requests| then s.(requests := Removed(s.requests, k)) else s
    case ForeignWrite(value) => s.(ref := value)
  }

  function Start(ref: Option<Sha>): State {
    State(ref, [], map[], [], None, false, Idle)
  }

  function Run(ref: Option<Sha>, steps: seq<Step>): State {
    if |steps| == 0 then Start(ref)
    else Next(Run(ref, steps[..|steps| - 1]), steps[|steps| - 1])
  }

  // ---------------------------------------------------------------- with foreign writers

  /** The call's own step `i` observed the ref free for its push, and the call has stood there since. */
  ghost predicate ClearedAt(ref: Option<Sha>, steps: seq<Step>, i: nat, c: Sha, e: Option<Sha>) {
    && i < |steps|
    && steps[i] == Observe(Readable)
    && Run(ref, steps[..i]).call == Observing(c, e)
    && (Run(ref, steps[..i]).ref.None? || Run(ref, steps[..i]).ref == e)
    && forall j :: i < j <= |steps| ==> Run(ref, steps[..j]).call == Clear(c, e)
  }

  lemma {:induction false} ClearMeansNotApplied(ref: Option<Sha>, steps: seq<Step>)
    requires Run(ref, steps).call.Clear?
    ensures var s := Run(ref, steps);
            && s.call.candidate in s.rows && s.rows[s.call.candidate].status == NotApplied
            && exists i: nat :: ClearedAt(ref, steps, i, s.call.candidate, s.call.expected)
  {
    var n := |steps| - 1;
    assert n >= 0;
    var before, step := Run(ref, steps[..n]), steps[n];
    var c, e := Run(ref, steps).call.candidate, Run(ref, steps).call.expected;
    if before.call == Clear(c, e) {
      ClearMeansNotApplied(ref, steps[..n]);
      var i: nat :| ClearedAt(ref, steps[..n], i, c, e);
      forall j | i < j <= |steps| ensures Run(ref, steps[..j]).call == Clear(c, e) {
        if j < |steps| {
          assert steps[..n][..j] == steps[..j];
        } else {
          assert steps[..j] == steps;
        }
      }
      assert steps[..n][..i] == steps[..i];
      assert ClearedAt(ref, steps, i, c, e);
    } else {
      assert steps[..|steps|] == steps;
      assert ClearedAt(ref, steps, n, c, e);
    }
  }

  /**
   However calls, crashes, landings and foreign writers interleave, a push is begun only by a call
   whose latest own act was to observe the ref absent or at the value its lease names.
   */
  lemma PushFollowsNotApplied(ref: Option<Sha>, steps: seq<Step>)
    requires Next(Run(ref, steps), Begin).call.Begun? && !Run(ref, steps).call.Begun?
    ensures var s := Run(ref, steps);
            && s.call.Clear?
            && s.rows[s.call.candidate].status == NotApplied
            && exists i: nat :: ClearedAt(ref, steps, i, s.call.candidate, s.call.expected)
  {
    ClearMeansNotApplied(ref, steps);
  }

  /** Every request in flight carries the lease its durable intent names. */
  ghost predicate RequestsIntended(s: State) {
    && (forall k :: 0 <= k < |s.requests| ==>
          var request := s.requests[k];
          request.candidate in s.rows && s.rows[request.candidate].expected == request.expected)
    && (s.call.Observing? || s.call.Clear? || s.call.Begun? || s.call.Sent? ==>
          s.call.candidate in s.rows && s.rows[s.call.candidate].expected == s.call.expected)
  }

  lemma RequestsStayIntended(s: State, step: Step)
    requires RequestsIntended(s)
    ensures RequestsIntended(Next(s, step))
  {
  }

  lemma {:induction false} AllRequestsIntended(ref: Option<Sha>, steps: seq<Step>)
    ensures RequestsIntended(Run(ref, steps))
  {
    if |steps| > 0 {
      AllRequestsIntended(ref, steps[..|steps| - 1]);
      RequestsStayIntended(Run(ref, steps[..|steps| - 1]), steps[|steps| - 1]);
    }
  }

  /** The run itself replaces the remote ref only where it holds the intent's expected value. */
  lemma OverwritesOnlyExpected(ref: Option<Sha>, steps: seq<Step>, step: Step)
    requires !step.ForeignWrite?
    requires Next(Run(ref, steps), step).ref != Run(ref, steps).ref
    ensures var s := Run(ref, steps);
            exists c :: c in s.rows && s.ref == s.rows[c].expected && Next(s, step).ref == Some(c)
  {
    AllRequestsIntended(ref, steps);
    var s := Run(ref, steps);
    assert step.Land? && step.request < |s.requests|;
    var request := s.requests[step.request];
    assert request.candidate in s.rows && s.ref == s.rows[request.candidate].expected;
  }

  /** At some earlier step the ref was observed to hold `c`. */
  ghost predicate SeenAt(ref: Option<Sha>, steps: seq<Step>, c: Sha) {
    exists i :: 0 <= i < |steps| && steps[i] == Observe(Readable) && Run(ref, steps[..i]).ref == Some(c)
  }

  lemma SeenEarlier(ref: Option<Sha>, steps: seq<Step>, c: Sha)
    requires |steps| > 0 && SeenAt(ref, steps[..|steps| - 1], c)
    ensures SeenAt(ref, steps, c)
  {
    var n := |steps| - 1;
    var i :| 0 <= i < n && steps[..n][i] == Observe(Readable) && Run(ref, steps[..n][..i]).ref == Some(c);
    assert steps[..n][..i] == steps[..i];
  }

  lemma HowSuccessArises(s: State, step: Step)
    ensures var after := Next(s, step);
            && (after.call.Succeeded? && after.call != s.call ==>
                  step == Observe(Readable) && s.ref == Some(after.call.candidate))
            && (after.pushed == s.pushed
                || (s.call.Succeeded? && after.pushed == s.pushed + [s.call.candidate]))
  {
  }

  /** Success is returned, and `branch.pushed` recorded, only for a candidate the remote was seen to hold. */
  lemma {:induction false} SuccessWasSeen(ref: Option<Sha>, steps: seq<Step>)
    ensures Run(ref, steps).call.Succeeded? ==> SeenAt(ref, steps, Run(ref, steps).call.candidate)
    ensures forall c :: c in Run(ref, steps).pushed ==> SeenAt(ref, steps, c)
  {
    hide Next, SeenAt;
    if |steps| > 0 {
      var n := |steps| - 1;
      var before, after := Run(ref, steps[..n]), Run(ref, steps);
      SuccessWasSeen(ref, steps[..n]);
      HowSuccessArises(before, steps[n]);
      forall c | c in before.pushed ensures SeenAt(ref, steps, c) {
        SeenEarlier(ref, steps, c);
      }
      if before.call.Succeeded? {
        SeenEarlier(ref, steps, before.call.candidate);
      }
      if after.call.Succeeded? && after.call != before.call {
        SeenNow(ref, steps, after.call.candidate);
      }
    }
  }

  lemma SeenNow(ref: Option<Sha>, steps: seq<Step>, c: Sha)
    requires |steps| > 0 && steps[|steps| - 1] == Observe(Readable)
    requires Run(ref, steps[..|steps| - 1]).ref == Some(c)
    ensures SeenAt(ref, steps, c)
  {
  }

  // ---------------------------------------------------------------- without foreign writers

  /** Nobody else writes the ref, and every candidate is a commit the run has not used before. */
  ghost predicate Undisturbed(steps: seq<Step>) {
    forall i :: 0 <= i < |steps| ==>
      && !steps[i].ForeignWrite?
      && (steps[i].MakeCandidate? ==> steps[i].sha !in Run(None, steps[..i]).rows)
  }

  function LastPushed(pushed: seq<Sha>): Option<Sha> {
    if |pushed| == 0 then None else Some(pushed[|pushed| - 1])
  }

  function Before(pushed: seq<Sha>, j: nat): Option<Sha>
    requires j <= |pushed|
  {
    if j == 0 then None else Some(pushed[j - 1])
  }

  ghost predicate NoRepeats(pushed: seq<Sha>) {
    forall i, j :: 0 <= i < j < |pushed| ==> pushed[i] != pushed[j]
  }

  /** Every pushed candidate was pushed over the one before it. */
  ghost predicate Linked(rows: map<Sha, Row>, pushed: seq<Sha>) {
    forall j :: 0 <= j < |pushed| ==> pushed[j] in rows && rows[pushed[j]].expected == Before(pushed, j)
  }

  /** The only intent not yet pushed is the candidate's being delivered, over the last one pushed. */
  ghost predicate OneOpen(s: State) {
    forall c :: c in s.rows && c !in s.pushed ==>
      s.delivering && s.candidate == Some(c) && s.rows[c].expected == LastPushed(s.pushed)
  }

  ghost predicate Chained(s: State) {
    NoRepeats(s.pushed) && Linked(s.rows, s.pushed) && OneOpen(s)
  }

  ghost predicate Honest(s: State) {
    && Chained(s)
    && RequestsIntended(s)
    && (s.delivering ==> s.candidate.Some? && s.candidate.value !in s.pushed)
    && (s.ref == LastPushed(s.pushed) || (s.delivering && s.ref == s.candidate && s.candidate.value in s.rows))
    && (s.call != Idle ==> s.delivering && s.call.candidate == s.candidate.value)
    && (s.call.Succeeded? ==> s.ref == Some(s.call.candidate) && s.call.candidate in s.rows)
  }

  /** Changing a row's status, or dropping requests, leaves the chain of intents alone. */
  lemma ChainKept(s: State, after: State)
    requires Chained(s)
    requires after.pushed == s.pushed && after.rows.Keys == s.rows.Keys
    requires forall c :: c in s.rows ==> after.rows[c].expected == s.rows[c].expected
    requires after.delivering == s.delivering && after.candidate == s.candidate
    ensures Chained(after)
  {
  }

  /** A late or repeated push finds the ref moved past its lease, or makes the one move it may make. */
  lemma LandingMoves(s: State, k: nat)
    requires Honest(s) && k < |s.requests| && s.ref == s.requests[k].expected
    ensures s.delivering && s.candidate == Some(s.requests[k].candidate)
  {
  }

  lemma ReportLinks(s: State)
    requires Honest(s) && s.call.Succeeded?
    ensures Chained(Next(s, Report))
  {
    hide RequestsIntended, NoRepeats, Linked;
    var c := s.call.candidate;
    OpenIsLast(s, c);
    NewLink(s.rows, s.pushed, c);
    OneOpenAfterReport(s);
  }

  lemma OpenIsLast(s: State, c: Sha)
    requires OneOpen(s) && c in s.rows && c !in s.pushed
    ensures s.rows[c].expected == LastPushed(s.pushed)
  {
  }

  lemma NewLink(rows: map<Sha, Row>, pushed: seq<Sha>, c: Sha)
    requires NoRepeats(pushed) && Linked(rows, pushed)
    requires c in rows && c !in pushed && rows[c].expected == LastPushed(pushed)
    ensures NoRepeats(pushed + [c]) && Linked(rows, pushed + [c])
  {
    var after := pushed + [c];
    forall j | 0 <= j < |after| ensures after[j] in rows && rows[after[j]].expected == Before(after, j) {
      if j < |pushed| {
        assert after[j] == pushed[j];
      }
    }
  }

  lemma OneOpenAfterReport(s: State)
    requires OneOpen(s) && s.call.Succeeded? && s.candidate == Some(s.call.candidate)
    ensures OneOpen(Next(s, Report))
  {
  }

  lemma StepStaysHonest(s: State, step: Step)
    requires Honest(s) && !step.ForeignWrite?
    requires step.MakeCandidate? ==> step.sha !in s.rows
    ensures Honest(Next(s, step))
  {
    hide NoRepeats, Linked, OneOpen, RequestsIntended;
    var after := Next(s, step);
    RequestsStayIntended(s, step);
    match step
    case Land(k) =>
      if k < |s.requests| && s.ref == s.requests[k].expected {
        LandingMoves(s, k);
        IntendedHasRow(s, k);
      }
      ChainKept(s, after);
    case Report => if s.call.Succeeded? { ReportLinks(s); LastOfReport(s); }
    case Intend => IntendStaysHonest(s);
    case MakeCandidate(c) => if !s.delivering { IdleChain(s, after); }
    case StartDelivery => StartChain(s);
    case Observe(reading) => ChainKept(s, after);
    case Begin => ChainKept(s, after);
    case Send(accepted) => ChainKept(s, after);
    case Crash => ChainKept(s, after);
    case Lose(k) => ChainKept(s, after);
  }

  lemma IntendedHasRow(s: State, k: nat)
    requires RequestsIntended(s) && k < |s.requests|
    ensures s.requests[k].candidate in s.rows
  {
  }

  lemma LastOfReport(s: State)
    requires s.call.Succeeded?
    ensures LastPushed(Next(s, Report).pushed) == Some(s.call.candidate)
  {
  }

  lemma IntendStaysHonest(s: State)
    requires Honest(s)
    ensures Chained(IntendStep(s))
            && (IntendStep(s) != s ==> IntendStep(s).call == Observing(s.candidate.value, LastPushed(s.pushed)))
  {
  }

  lemma IdleChain(s: State, after: State)
    requires Chained(s) && !s.delivering && after.rows == s.rows && after.pushed == s.pushed && !after.delivering
    ensures Chained(after)
  {
    hide NoRepeats, Linked;
  }

  lemma StartChain(s: State)
    requires Chained(s)
    ensures Chained(Next(s, StartDelivery))
  {
    hide NoRepeats, Linked;
  }

  lemma {:induction false} UndisturbedIsHonest(steps: seq<Step>)
    requires Undisturbed(steps)
    ensures Honest(Run(None, steps))
  {
    if |steps| > 0 {
      var n := |steps| - 1;
      forall i | 0 <= i < n ensures steps[..n][..i] == steps[..i] {
      }
      assert forall i :: 0 <= i < n ==> steps[..n][i] == steps[i];
      UndisturbedIsHonest(steps[..n]);
      StepStaysHonest(Run(None, steps[..n]), steps[n]);
    }
  }

  /**
   Without foreign writers, in every interleaving with crashes and lost or late responses: the value a
   call expects is the head this run last confirmed, the ref holds that or the new candidate, and so
   no readable observation is ever ambiguous and no call is refused for an unexpected SHA.
   */
  lemma ExpectedIsOwnHead(steps: seq<Step>)
    requires Undisturbed(steps)
    requires var call := Run(None, steps).call; call.Observing? || call.Clear? || call.Begun? || call.Sent?
    ensures var s := Run(None, steps);
            && s.call.expected == LastPushed(s.pushed)
            && (s.ref == s.call.expected || s.ref == Some(s.call.candidate))
            && Outcome(s.ref, s.call.candidate, s.call.expected) != Ambiguous
  {
    UndisturbedIsHonest(steps);
  }

  // ---------------------------------------------------------------- the controller

  /** Steps that are not the current call's. */
  ghost predicate Environment(steps: seq<Step>) {
    forall i :: 0 <= i < |steps| ==> steps[i].Land? || steps[i].Lose? || steps[i].ForeignWrite?
  }

  function RunFrom(s: State, steps: seq<Step>): State {
    if |steps| == 0 then s else Next(RunFrom(s, steps[..|steps| - 1]), steps[|steps| - 1])
  }

  lemma RunFromOneMore(s: State, steps: seq<Step>, step: Step)
    ensures RunFrom(s, steps + [step]) == Next(RunFrom(s, steps), step)
  {
    assert (steps + [step])[..|steps|] == steps;
  }

  lemma {:induction false} RunFromConcat(s: State, a: seq<Step>, b: seq<Step>)
    ensures RunFrom(s, a + b) == RunFrom(RunFrom(s, a), b)
  {
    if |b| == 0 {
      assert a + b == a;
    } else {
      assert (a + b)[..|a + b| - 1] == a + b[..|b| - 1];
      RunFromConcat(s, a, b[..|b| - 1]);
    }
  }

  lemma {:induction false} EnvironmentKeepsCall(s: State, steps: seq<Step>)
    requires Environment(steps)
    ensures var after := RunFrom(s, steps);
            after.call == s.call && after.rows == s.rows && after.pushed == s.pushed
            && after.candidate == s.candidate && after.delivering == s.delivering
  {
    if |steps| > 0 {
      EnvironmentKeepsCall(s, steps[..|steps| - 1]);
    }
  }

  lemma ObserveEnds(s: State, reading: Reading)
    requires s.call.Observing? || s.call.Sent?
    requires s.call.candidate in s.rows
    ensures var after := Next(s, Observe(reading));
            && after.ref == s.ref
            && (after.call == Idle || after.call == Succeeded(s.call.candidate)
                || (s.call.Observing? && after.call == Clear(s.call.candidate, s.call.expected)))
            && (after.call.Succeeded? ==> s.ref == Some(s.call.candidate))
            && s.call.candidate in after.rows
  {
  }

  lemma BeginEnds(s: State)
    requires s.call.Clear? && s.call.candidate in s.rows
    ensures var after := Next(s, Begin);
            && (after.call == Idle || after.call == Begun(s.call.candidate, s.call.expected))
            && s.call.candidate in after.rows
  {
  }

  class BranchController {
    var world: State

    /** Whatever the rest of the world does at one of the call's await points. */
    method Await(gap: seq<Step>, ghost start: State, ghost steps: seq<Step>) returns (ghost more: seq<Step>)
      requires Environment(gap) && world == RunFrom(start, steps)
      modifies this
      ensures more == steps + gap && world == RunFrom(start, more)
      ensures world.call == old(world).call && world.rows == old(world).rows
    {
      ghost var before := world;
      for i := 0 to |gap|
        invariant world == RunFrom(before, gap[..i])
      {
        assert gap[..i + 1] == gap[..i] + [gap[i]];
        RunFromOneMore(before, gap[..i], gap[i]);
        world := Next(world, gap[i]);
      }
      assert gap[..|gap|] == gap;
      EnvironmentKeepsCall(before, gap);
      RunFromConcat(start, steps, gap);
      more := steps + gap;
    }

    /** One step of the call itself. */
    method Own(step: Step, ghost start: State, ghost steps: seq<Step>) returns (ghost more: seq<Step>)
      requires world == RunFrom(start, steps)
      modifies this
      ensures more == steps + [step] && world == RunFrom(start, more)
      ensures world == Next(old(world), step)
    {
      RunFromOneMore(start, steps, step);
      world := Next(world, step);
      more := steps + [step];
    }

    /**
     `ensureBranch`: intend, observe, and only from a not-applied ref begin, push, and observe again. The
     gaps are its await points. The call is a run of the machine, and it succeeds exactly when one of
     its own observations saw the candidate.
     */
    method EnsureBranch(first: Reading, second: Reading, accepted: bool,
                        gap0: seq<Step>, gap1: seq<Step>, gap2: seq<Step>)
      returns (confirmed: Option<Sha>, ghost steps: seq<Step>)
      requires world.call == Idle && world.delivering && world.candidate.Some?
      requires Environment(gap0) && Environment(gap1) && Environment(gap2)
      modifies this
      ensures world == RunFrom(old(world), steps)
      ensures confirmed.Some? <==> world.call.Succeeded?
      ensures confirmed.Some? ==> confirmed == old(world).candidate && world.ref == confirmed
      ensures confirmed.None? ==> world.call == Idle
    {
      hide Next, RunFrom, Environment;
      ghost var start := world;
      var c := world.candidate.value;
      NoSteps(world);
      IntendEnds(world);
      steps := Own(Intend, start, []);
      if !world.call.Observing? {
        return None, steps;
      }
      steps := Await(gap0, start, steps);
      ObserveEnds(world, first);
      steps := Own(Observe(first), start, steps);
      if world.call.Succeeded? {
        return Some(c), steps;
      }
      if !world.call.Clear? {
        return None, steps;
      }
      BeginEnds(world);
      steps := Own(Begin, start, steps);
      if !world.call.Begun? {
        return None, steps;
      }
      steps := Await(gap1, start, steps);
      SendEnds(world, accepted);
      steps := Own(Send(accepted), start, steps);
      steps := Await(gap2, start, steps);
      ObserveEnds(world, second);
      steps := Own(Observe(second), start, steps);
      confirmed := if world.call.Succeeded? then Some(c) else None;
    }
  }

  lemma NoSteps(s: State)
    ensures s == RunFrom(s, [])
  {
  }

  lemma IntendEnds(s: State)
    requires s.call == Idle && s.candidate.Some?
    ensures var after := Next(s, Intend);
            && (after.call == Idle || (after.call.Observing? && after.call.candidate == s.candidate.value
                                       && after.call.candidate in after.rows))
  {
  }

  lemma SendEnds(s: State, accepted: bool)
    requires s.call.Begun?
    ensures var after := Next(s, Send(accepted));
            after.call == Sent(s.call.candidate, s.call.expected) && after.rows == s.rows
  {
  }
}
