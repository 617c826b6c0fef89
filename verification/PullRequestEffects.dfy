/**
 The pull-request half of the GitHub effect protocol, as a machine of single steps over one run's
 fixed head ref, base ref and marker: neither the candidate nor the owner generation enters them, so
 retries, takeovers and later candidates all look for the same pull request.
 */
module PullRequestEffects {
  import opened Options

  type Sha = nat
  type Name = string

  /** `marker` is the one the observer makes of the body; `ours` marks the run's own creations. */
  datatype Pull = Pull(head: Name, base: Name, marker: Option<Name>, headSha: Sha, open: bool, ours: bool)

  datatype Identity = Identity(head: Name, base: Name, marker: Name)

  datatype Status = Intended | InFlight | NotApplied | Confirmed | Ambiguous

  /** Where the current owner's `ensurePullRequest` call stands. */
  datatype Call =
    | Idle
    | Observing(candidate: Sha)
    | Clear(candidate: Sha)
    | Begun(candidate: Sha)
    | Sent(candidate: Sha)
    | Succeeded(candidate: Sha, number: nat)

  /** Pull requests are numbered by position: the remote never deletes one. */
  datatype State = State(
    pulls: seq<Pull>,
    creates: seq<Sha>,
    ref: Sha,
    rows: map<Sha, Status>,
    call: Call)

  datatype Reading = Unreadable | Malformed | Readable

  datatype Step =
    | Intend(candidate: Sha)
    | Observe(reading: Reading)
    | Begin
    | Send(accepted: bool)
    | Crash
    | LandCreate
    | LoseCreate
    | MoveRef(sha: Sha)
    | ForeignOpen(pull: Pull)
    | ForeignEdit(number: nat, pull: Pull)

  /** An open pull request shows the head ref's commit; a closed one the commit it was closed at. */
  function ShownSha(s: State, id: Identity, pull: Pull): Sha {
    if pull.open && pull.head == id.head then s.ref else pull.headSha
  }

  /** The observer keeps every pull request on the head ref and every one with a run marker. */
  predicate Visible(id: Identity, pull: Pull) {
    pull.head == id.head || pull.marker.Some?
  }

  predicate Conflicts(id: Identity, pull: Pull) {
    pull.head == id.head || pull.marker == Some(id.marker)
  }

  predicate Exact(s: State, id: Identity, pull: Pull, c: Sha) {
    pull.head == id.head && pull.base == id.base && pull.marker == Some(id.marker) && ShownSha(s, id, pull) == c
  }

  /** The numbers of the pull requests a filter keeps, in order. */
  function Numbers(pulls: seq<Pull>, keep: Pull -> bool): (numbers: seq<nat>)
    ensures forall k :: 0 <= k < |numbers| ==> numbers[k] < |pulls| && keep(pulls[numbers[k]])
    ensures forall j, k :: 0 <= j < k < |numbers| ==> numbers[j] < numbers[k]
  {
    if |pulls| == 0 then []
    else
      var n := |pulls| - 1;
      Numbers(pulls[..n], keep) + if keep(pulls[n]) then [n] else []
  }

  lemma {:induction false} NumbersKeep(pulls: seq<Pull>, keep: Pull -> bool, n: nat)
    requires n < |pulls| && keep(pulls[n])
    ensures n in Numbers(pulls, keep)
  {
    var last := |pulls| - 1;
    if n < last {
      NumbersKeep(pulls[..last], keep, n);
    }
  }

  ghost predicate NoneVisible(s: State, id: Identity) {
    forall n :: 0 <= n < |s.pulls| ==> !Visible(id, s.pulls[n])
  }

  /** Number `n` is the exact pull request and nothing else conflicts with it. */
  ghost predicate OnlyExact(s: State, id: Identity, c: Sha, n: nat) {
    && n < |s.pulls| && Exact(s, id, s.pulls[n], c)
    && forall m :: 0 <= m < |s.pulls| && m != n ==> !Conflicts(id, s.pulls[m])
  }

  /** The controller's two filters, each required to keep exactly one row. */
  function Matched(s: State, id: Identity, c: Sha): (number: Option<nat>)
    ensures number.Some? ==> number.value < |s.pulls|
  {
    var exact := Numbers(s.pulls, (p: Pull) => Exact(s, id, p, c));
    var conflicts := Numbers(s.pulls, (p: Pull) => Conflicts(id, p));
    if |exact| == 1 && |conflicts| == 1 then Some(exact[0]) else None
  }

  lemma OneValueOnce(numbers: seq<nat>, n: nat)
    requires n in numbers && forall k :: 0 <= k < |numbers| ==> numbers[k] == n
    requires forall j, k :: 0 <= j < k < |numbers| ==> numbers[j] < numbers[k]
    ensures numbers == [n]
  {
    var last := |numbers| - 1;
    assert numbers[0] == n && numbers[last] == n;
  }

  lemma MatchedMeansOnlyExact(s: State, id: Identity, c: Sha)
    ensures Matched(s, id, c).Some? ==> OnlyExact(s, id, c, Matched(s, id, c).value)
    ensures forall n: nat :: OnlyExact(s, id, c, n) ==> Matched(s, id, c) == Some(n)
  {
    hide Numbers;
    var exact := Numbers(s.pulls, (p: Pull) => Exact(s, id, p, c));
    var conflicts := Numbers(s.pulls, (p: Pull) => Conflicts(id, p));
    if |exact| == 1 && |conflicts| == 1 {
      assert Conflicts(id, s.pulls[exact[0]]);
      forall m | 0 <= m < |s.pulls| && m != exact[0] ensures !Conflicts(id, s.pulls[m]) {
        if Conflicts(id, s.pulls[m]) {
          NumbersKeep(s.pulls, (p: Pull) => Conflicts(id, p), m);
        }
        NumbersKeep(s.pulls, (p: Pull) => Conflicts(id, p), exact[0]);
      }
    }
    forall n: nat | OnlyExact(s, id, c, n) ensures Matched(s, id, c) == Some(n) {
      NumbersKeep(s.pulls, (p: Pull) => Exact(s, id, p, c), n);
      NumbersKeep(s.pulls, (p: Pull) => Conflicts(id, p), n);
      assert forall k :: 0 <= k < |exact| ==> exact[k] == n;
      assert forall k :: 0 <= k < |conflicts| ==> conflicts[k] == n;
      OneValueOnce(exact, n);
      OneValueOnce(conflicts, n);
    }
  }

  function IntendStep(s: State, c: Sha): State {
    if s.call != Idle then s
    else s.(rows := if c in s.rows then s.rows else s.rows[c := Intended], call := Observing(c))
  }

  /** `#observePullRequest`. */
  function ObserveStep(s: State, id: Identity, reading: Reading): State {
    if !(s.call.Observing? || s.call.Sent?) then s
    else
      var c := s.call.candidate;
      match reading
      case Malformed => s.(call := Idle)
      case Unreadable => s.(rows := s.rows[c := Ambiguous], call := Idle)
      case Readable =>
        if |Numbers(s.pulls, (p: Pull) => Visible(id, p))| == 0 then
          s.(rows := s.rows[c := NotApplied], call := if s.call.Observing? then Clear(c) else Idle)
        else if Matched(s, id, c).Some? then
          s.(rows := s.rows[c := Confirmed], call := Succeeded(c, Matched(s, id, c).value))
        else s.(rows := s.rows[c := Ambiguous], call := Idle)
  }

  function BeginStep(s: State): State {
    if !s.call.Clear? || s.call.candidate !in s.rows then s
    else
      var c := s.call.candidate;
      if s.rows[c] == Intended || s.rows[c] == NotApplied then s.(rows := s.rows[c := InFlight], call := Begun(c))
      else s.(call := Idle)
  }

  function Next(s: State, id: Identity, step: Step): State {
    match step
    case Intend(c) => IntendStep(s, c)
    case Observe(reading) => ObserveStep(s, id, reading)
    case Begin => BeginStep(s)
    case Send(accepted) =>
      if !s.call.Begun? then s
      else s.(creates := if accepted then s.creates + [s.call.candidate] else s.creates, call := Sent(s.call.candidate))
    case Crash => s.(call := Idle)
    case LandCreate =>
      if |s.creates| == 0 then s
      else s.(creates := s.creates[1..],
              pulls := s.pulls + [Pull(id.head, id.base, Some(id.marker), s.ref, true, true)])
    case LoseCreate => if |s.creates| == 0 then s else s.(creates := s.creates[1..])
    case MoveRef(sha) => s.(ref := sha)
    case ForeignOpen(pull) => s.(pulls := s.pulls + [pull.(ours := false)])
    case ForeignEdit(n, pull) =>
      // Anything about a pull request can be edited but its head.
      if n >= |s.pulls| then s
      else s.(pulls := s.pulls[n := pull.(head := s.pulls[n].head, ours := s.pulls[n].ours)])
  }

  function Run(id: Identity, pulls: seq<Pull>, ref: Sha, steps: seq<Step>): State {
    if |steps| == 0 then State(pulls, [], ref, map[], Idle)
    else Next(Run(id, pulls, ref, steps[..|steps| - 1]), id, steps[|steps| - 1])
  }

  // ---------------------------------------------------------------- at most one, with foreign writers

  /** Each create has landed or been lost by the time anyone observes again. */
  ghost predicate CreatesSettle(id: Identity, pulls: seq<Pull>, ref: Sha, steps: seq<Step>) {
    forall i :: 0 <= i < |steps| && steps[i].Observe? ==> Run(id, pulls, ref, steps[..i]).creates == []
  }

  ghost predicate NoneOurs(pulls: seq<Pull>) {
    forall n :: 0 <= n < |pulls| ==> !pulls[n].ours
  }

  ghost predicate AtMostOneOurs(pulls: seq<Pull>) {
    forall m, n :: 0 <= m < n < |pulls| ==> !(pulls[m].ours && pulls[n].ours)
  }

  ghost predicate OursKeepHead(id: Identity, pulls: seq<Pull>) {
    forall n :: 0 <= n < |pulls| && pulls[n].ours ==> pulls[n].head == id.head
  }

  ghost predicate Single(s: State, id: Identity) {
    && OursKeepHead(id, s.pulls)
    && AtMostOneOurs(s.pulls)
    && |s.creates| <= 1
    && (|s.creates| == 1 || s.call.Clear? || s.call.Begun? ==> NoneOurs(s.pulls))
    && (s.call.Clear? || s.call.Begun? ==> |s.creates| == 0)
  }

  lemma AbsentMeansNoneVisible(s: State, id: Identity)
    ensures |Numbers(s.pulls, (p: Pull) => Visible(id, p))| == 0 <==> NoneVisible(s, id)
  {
    hide Numbers, Visible;
    var visible := Numbers(s.pulls, (p: Pull) => Visible(id, p));
    if !NoneVisible(s, id) {
      var n :| 0 <= n < |s.pulls| && Visible(id, s.pulls[n]);
      NumbersKeep(s.pulls, (p: Pull) => Visible(id, p), n);
    }
    if |visible| > 0 {
      assert Visible(id, s.pulls[visible[0]]);
    }
  }

  lemma ObservingStaysSingle(s: State, id: Identity, reading: Reading)
    requires Single(s, id) && s.creates == []
    ensures Single(Next(s, id, Observe(reading)), id)
  {
    hide Numbers, Matched;
    AbsentMeansNoneVisible(s, id);
  }

  lemma StepStaysSingle(s: State, id: Identity, step: Step)
    requires Single(s, id)
    requires step.Observe? ==> s.creates == []
    ensures Single(Next(s, id, step), id)
  {
    hide Numbers, Matched, ObserveStep;
    match step
    case Observe(reading) => ObservingStaysSingle(s, id, reading);
    case LandCreate => LandingIsFirst(s, id);
    case ForeignOpen(pull) =>
    case ForeignEdit(n, pull) => EditStaysSingle(s, id, n, pull);
    case Intend(c) =>
    case Begin =>
    case Send(accepted) =>
    case Crash =>
    case LoseCreate =>
    case MoveRef(sha) =>
  }

  lemma LandingIsFirst(s: State, id: Identity)
    requires Single(s, id)
    ensures Single(Next(s, id, LandCreate), id)
  {
  }

  lemma EditStaysSingle(s: State, id: Identity, n: nat, pull: Pull)
    requires Single(s, id)
    ensures Single(Next(s, id, ForeignEdit(n, pull)), id)
  {
    if n < |s.pulls| {
      var after := Next(s, id, ForeignEdit(n, pull)).pulls;
      assert forall m :: 0 <= m < |after| ==> after[m].ours == s.pulls[m].ours && after[m].head == s.pulls[m].head;
    }
  }

  /**
   One owner at a time, any crashes, retries, takeovers and candidates, and any foreign opening, closing
   or editing of pull requests: the run creates at most one pull request in its whole life.
   */
  lemma {:induction false} AtMostOnePullRequest(id: Identity, pulls: seq<Pull>, ref: Sha, steps: seq<Step>)
    requires NoneOurs(pulls)
    requires CreatesSettle(id, pulls, ref, steps)
    ensures Single(Run(id, pulls, ref, steps), id)
  {
    hide Next, Single;
    if |steps| == 0 {
      StartsSingle(id, pulls, ref);
    } else {
      var n := |steps| - 1;
      forall i | 0 <= i < n && steps[..n][i].Observe? ensures Run(id, pulls, ref, steps[..n][..i]).creates == [] {
        assert steps[..n][..i] == steps[..i];
      }
      AtMostOnePullRequest(id, pulls, ref, steps[..n]);
      StepStaysSingle(Run(id, pulls, ref, steps[..n]), id, steps[n]);
    }
  }

  lemma StartsSingle(id: Identity, pulls: seq<Pull>, ref: Sha)
    requires NoneOurs(pulls)
    ensures Single(State(pulls, [], ref, map[], Idle), id)
  {
  }

  /** One call, from intent to request, while nothing is visible yet. */
  lemma CallSendsCreate(s: State, id: Identity, c: Sha)
    requires s.call == Idle && |s.pulls| == 0
    ensures var sent := Next(Next(Next(Next(s, id, Intend(c)), id, Observe(Readable)), id, Begin), id, Send(true));
            && sent.pulls == s.pulls && sent.creates == s.creates + [c] && sent.ref == s.ref && sent.call == Sent(c)
  {
    var observed := Next(Next(s, id, Intend(c)), id, Observe(Readable));
    AbsentMeansNoneVisible(Next(s, id, Intend(c)), id);
    assert observed.rows[c] == NotApplied && observed.call == Clear(c);
  }

  /** Were a create still in flight at the next observation, a second pull request could follow. */
  lemma UnsettledCreateDuplicates(id: Identity, c: Sha) returns (steps: seq<Step>)
    ensures !CreatesSettle(id, [], c, steps)
    ensures var s := Run(id, [], c, steps); |s.pulls| == 2 && s.pulls[0].ours && s.pulls[1].ours
  {
    hide Run, Next;
    steps := [Intend(c), Observe(Readable), Begin, Send(true), Crash,
              Intend(c), Observe(Readable), Begin, Send(true), LandCreate, LandCreate];
    StartOf(id, c, steps);
    var s0 := Run(id, [], c, steps[..0]);
    RunFour(id, c, steps, 0);
    CallSendsCreate(s0, id, c);
    var s4 := Run(id, [], c, steps[..4]);
    RunStep(id, c, steps, 4, s4);
    CrashIdles(s4, id);
    var s5 := Run(id, [], c, steps[..5]);
    RunStep(id, c, steps, 5, s5);
    IntendKeepsCreates(s5, id, c);
    assert steps[6].Observe? && |Run(id, [], c, steps[..6]).creates| > 0;
    RunFour(id, c, steps, 5);
    CallSendsCreate(s5, id, c);
    var s9 := Run(id, [], c, steps[..9]);
    RunStep(id, c, steps, 9, s9);
    CreateLands(s9, id);
    var s10 := Run(id, [], c, steps[..10]);
    RunStep(id, c, steps, 10, s10);
    CreateLands(s10, id);
    assert steps[..11] == steps;
  }

  lemma StartOf(id: Identity, ref: Sha, steps: seq<Step>)
    ensures Run(id, [], ref, steps[..0]) == State([], [], ref, map[], Idle)
  {
  }

  lemma CrashIdles(s: State, id: Identity)
    ensures Next(s, id, Crash) == s.(call := Idle)
  {
  }

  lemma IntendKeepsCreates(s: State, id: Identity, c: Sha)
    ensures Next(s, id, Intend(c)).creates == s.creates
  {
  }

  lemma CreateLands(s: State, id: Identity)
    requires |s.creates| > 0
    ensures var after := Next(s, id, LandCreate);
            && after.creates == s.creates[1..] && |after.pulls| == |s.pulls| + 1
            && after.pulls[..|s.pulls|] == s.pulls && after.pulls[|s.pulls|].ours
  {
  }

  lemma RunFour(id: Identity, ref: Sha, steps: seq<Step>, i: nat)
    requires i + 4 <= |steps|
    ensures Run(id, [], ref, steps[..i + 4])
            == Next(Next(Next(Next(Run(id, [], ref, steps[..i]), id, steps[i]), id, steps[i + 1]), id, steps[i + 2]),
                    id, steps[i + 3])
  {
    hide Next, Run;
    RunStep(id, ref, steps, i, Run(id, [], ref, steps[..i]));
    RunStep(id, ref, steps, i + 1, Run(id, [], ref, steps[..i + 1]));
    RunStep(id, ref, steps, i + 2, Run(id, [], ref, steps[..i + 2]));
    RunStep(id, ref, steps, i + 3, Run(id, [], ref, steps[..i + 3]));
  }

  lemma RunStep(id: Identity, ref: Sha, steps: seq<Step>, i: nat, s: State)
    requires i < |steps| && Run(id, [], ref, steps[..i]) == s
    ensures Run(id, [], ref, steps[..i + 1]) == Next(s, id, steps[i])
  {
    assert steps[..i + 1][..i] == steps[..i];
  }

  // ---------------------------------------------------------------- what one observation comes to

  /**
   A readable observation has exactly three outcomes: not applied where nothing is visible, confirmed where one
   pull request is exact and nothing else conflicts, and ambiguous everywhere else.
   */
  lemma ObservationIsExact(s: State, id: Identity)
    requires s.call.Observing? || s.call.Sent?
    ensures var c, after := s.call.candidate, Next(s, id, Observe(Readable));
            && after.pulls == s.pulls && after.creates == s.creates
            && (after.rows[c] == NotApplied <==> NoneVisible(s, id))
            && (after.rows[c] == Confirmed <==> exists n: nat :: OnlyExact(s, id, c, n))
            && (after.rows[c] == Ambiguous <==> !NoneVisible(s, id) && !exists n: nat :: OnlyExact(s, id, c, n))
            && (after.call.Succeeded? <==> after.rows[c] == Confirmed)
            && (after.call.Clear? <==> s.call.Observing? && after.rows[c] == NotApplied)
            && (forall n: nat :: OnlyExact(s, id, c, n) ==> after.call == Succeeded(c, n))
  {
    hide Numbers, Matched;
    AbsentMeansNoneVisible(s, id);
    MatchedMeansOnlyExact(s, id, s.call.candidate);
    forall n: nat | OnlyExact(s, id, s.call.candidate, n) ensures Visible(id, s.pulls[n]) {
    }
  }

  // ---------------------------------------------------------------- later candidates, among other pull requests

  /** The run's own pull requests are as it made them, and no other one conflicts with them. */
  ghost predicate Peaceful(id: Identity, pulls: seq<Pull>) {
    forall n :: 0 <= n < |pulls| ==> PeacefulPull(id, pulls[n])
  }

  predicate PeacefulPull(id: Identity, pull: Pull) {
    if pull.ours then pull.open && pull.head == id.head && pull.base == id.base && pull.marker == Some(id.marker)
    else !Conflicts(id, pull)
  }

  /**
   Others open and edit what they like, as long as it takes neither the run's head nor its marker, nor edits
   its own.
   */
  ghost predicate Harmless(s: State, id: Identity, step: Step) {
    match step
    case ForeignOpen(pull) => !Conflicts(id, pull)
    case ForeignEdit(n, pull) =>
      n < |s.pulls| ==> PeacefulPull(id, pull.(head := s.pulls[n].head, ours := s.pulls[n].ours))
    case _ => true
  }

  ghost predicate Undisturbed(id: Identity, pulls: seq<Pull>, ref: Sha, steps: seq<Step>) {
    && (forall n :: 0 <= n < |pulls| ==> !pulls[n].ours && !Conflicts(id, pulls[n]))
    && (forall i :: 0 <= i < |steps| ==> Harmless(Run(id, pulls, ref, steps[..i]), id, steps[i]))
  }

  lemma StepStaysPeaceful(s: State, id: Identity, step: Step)
    requires Peaceful(id, s.pulls) && Harmless(s, id, step)
    ensures Peaceful(id, Next(s, id, step).pulls)
  {
    hide ObserveStep;
    if step.Observe? {
      ObservingKeepsPulls(s, id, step.reading);
    }
  }

  lemma ObservingKeepsPulls(s: State, id: Identity, reading: Reading)
    ensures ObserveStep(s, id, reading).pulls == s.pulls
  {
  }

  lemma {:induction false} UndisturbedIsPeaceful(id: Identity, pulls: seq<Pull>, ref: Sha, steps: seq<Step>)
    requires Undisturbed(id, pulls, ref, steps)
    ensures Peaceful(id, Run(id, pulls, ref, steps).pulls)
  {
    hide Next, Harmless, Conflicts;
    if |steps| > 0 {
      var n := |steps| - 1;
      forall i | 0 <= i < n ensures Harmless(Run(id, pulls, ref, steps[..n][..i]), id, steps[..n][i]) {
        assert steps[..n][..i] == steps[..i];
      }
      UndisturbedIsPeaceful(id, pulls, ref, steps[..n]);
      StepStaysPeaceful(Run(id, pulls, ref, steps[..n]), id, steps[n]);
    }
  }

  lemma OwnIsOnlyExact(s: State, id: Identity, n: nat)
    requires Peaceful(id, s.pulls) && AtMostOneOurs(s.pulls) && n < |s.pulls| && s.pulls[n].ours
    ensures OnlyExact(s, id, s.ref, n)
  {
    forall m | 0 <= m < |s.pulls| && m != n ensures !Conflicts(id, s.pulls[m]) {
      assert PeacefulPull(id, s.pulls[m]);
    }
    assert PeacefulPull(id, s.pulls[n]);
  }

  /**
   Among any other pull requests that take neither the run's head nor its marker: once the run's own exists,
   every later call, for whatever candidate the head ref was moved to, is confirmed on that same number by its
   first observation, without a second create.
   */
  lemma LaterCandidateConfirmed(id: Identity, pulls: seq<Pull>, ref: Sha, steps: seq<Step>, n: nat)
    requires Undisturbed(id, pulls, ref, steps) && CreatesSettle(id, pulls, ref, steps)
    requires var s := Run(id, pulls, ref, steps);
             && n < |s.pulls| && s.pulls[n].ours
             && (s.call.Observing? || s.call.Sent?) && s.ref == s.call.candidate
    ensures var s := Run(id, pulls, ref, steps);
            var after := Next(s, id, Observe(Readable));
            && after.call == Succeeded(s.call.candidate, n)
            && after.pulls == s.pulls && after.creates == s.creates
            && forall m :: 0 <= m < |s.pulls| && s.pulls[m].ours ==> m == n
  {
    hide Run, CreatesSettle, Next, Undisturbed;
    var s := Run(id, pulls, ref, steps);
    assert NoneOurs(pulls) by {
      UndisturbedStart(id, pulls, ref, steps);
    }
    AtMostOnePullRequest(id, pulls, ref, steps);
    UndisturbedIsPeaceful(id, pulls, ref, steps);
    OwnIsOnlyExact(s, id, n);
    ObservationIsExact(s, id);
  }

  lemma UndisturbedStart(id: Identity, pulls: seq<Pull>, ref: Sha, steps: seq<Step>)
    requires Undisturbed(id, pulls, ref, steps)
    ensures NoneOurs(pulls)
  {
  }

  /**
   In such a world an observation is ambiguous exactly where the run has none yet and a foreign marker is in
   sight.
   */
  lemma OnlyForeignMarkersConfuse(id: Identity, pulls: seq<Pull>, ref: Sha, steps: seq<Step>)
    requires Undisturbed(id, pulls, ref, steps) && CreatesSettle(id, pulls, ref, steps)
    requires var s := Run(id, pulls, ref, steps); (s.call.Observing? || s.call.Sent?) && s.ref == s.call.candidate
    ensures var s := Run(id, pulls, ref, steps);
            Next(s, id, Observe(Readable)).rows[s.call.candidate] == Ambiguous
            <==> NoneOurs(s.pulls) && exists n :: 0 <= n < |s.pulls| && s.pulls[n].marker.Some?
  {
    hide Run, CreatesSettle, Next, Undisturbed;
    var s := Run(id, pulls, ref, steps);
    ObservationIsExact(s, id);
    UndisturbedIsPeaceful(id, pulls, ref, steps);
    if n :| 0 <= n < |s.pulls| && s.pulls[n].ours {
      LaterCandidateConfirmed(id, pulls, ref, steps, n);
    } else {
      forall n: nat | n < |s.pulls|
        ensures !Exact(s, id, s.pulls[n], s.call.candidate) && (Visible(id, s.pulls[n]) <==> s.pulls[n].marker.Some?)
      {
        assert PeacefulPull(id, s.pulls[n]);
      }
    }
  }

  /** A pull request elsewhere that carries another run's marker is seen by every observation of this run. */
  predicate ForeignMarker(id: Identity, pull: Pull) {
    pull.head != id.head && pull.marker.Some? && pull.marker != Some(id.marker)
  }

  /** At every observation some pull request elsewhere carries another run's marker. */
  ghost predicate MarkedThroughout(id: Identity, pulls: seq<Pull>, ref: Sha, steps: seq<Step>) {
    forall i :: 0 <= i < |steps| && steps[i].Observe? ==>
      exists n :: 0 <= n < |Run(id, pulls, ref, steps[..i]).pulls|
                  && ForeignMarker(id, Run(id, pulls, ref, steps[..i]).pulls[n])
  }

  /** The state of a run that has been kept from creating. */
  ghost predicate KeptBack(s: State) {
    s.creates == [] && NoneOurs(s.pulls) && !s.call.Clear? && !s.call.Begun? && !s.call.Sent?
  }

  lemma ObservingKeepsBack(s: State, id: Identity, reading: Reading, n: nat)
    requires KeptBack(s) && n < |s.pulls| && ForeignMarker(id, s.pulls[n])
    ensures KeptBack(Next(s, id, Observe(reading)))
  {
    hide Numbers, Matched;
    AbsentMeansNoneVisible(s, id);
    assert Visible(id, s.pulls[n]);
  }

  /**
   While some pull request on another head carries the marker of another run, a run without its own never gets
   as far as a create, although that pull request conflicts with nothing.
   */
  lemma {:induction false} ForeignMarkerBlocksCreates(id: Identity, pulls: seq<Pull>, ref: Sha, steps: seq<Step>)
    requires NoneOurs(pulls) && MarkedThroughout(id, pulls, ref, steps)
    ensures KeptBack(Run(id, pulls, ref, steps))
  {
    hide Next, KeptBack, ForeignMarker;
    if |steps| == 0 {
      KeptBackAtFirst(pulls, ref);
    } else {
      var n := |steps| - 1;
      forall i | 0 <= i < n && steps[..n][i].Observe?
        ensures exists k :: 0 <= k < |Run(id, pulls, ref, steps[..n][..i]).pulls|
                            && ForeignMarker(id, Run(id, pulls, ref, steps[..n][..i]).pulls[k])
      {
        assert steps[..n][..i] == steps[..i];
      }
      ForeignMarkerBlocksCreates(id, pulls, ref, steps[..n]);
      var s := Run(id, pulls, ref, steps[..n]);
      if steps[n].Observe? {
        var k :| 0 <= k < |s.pulls| && ForeignMarker(id, s.pulls[k]);
        ObservingKeepsBack(s, id, steps[n].reading, k);
      } else {
        OtherStepsKeepBack(s, id, steps[n]);
      }
    }
  }

  lemma KeptBackAtFirst(pulls: seq<Pull>, ref: Sha)
    requires NoneOurs(pulls)
    ensures KeptBack(State(pulls, [], ref, map[], Idle))
  {
  }

  lemma OtherStepsKeepBack(s: State, id: Identity, step: Step)
    requires KeptBack(s) && !step.Observe?
    ensures KeptBack(Next(s, id, step))
  {
    hide ObserveStep;
  }

  // ---------------------------------------------------------------- the controller

  /** Steps that are not the current call's. */
  ghost predicate Environment(steps: seq<Step>) {
    forall i :: 0 <= i < |steps| ==>
      steps[i].LandCreate? || steps[i].LoseCreate? || steps[i].MoveRef? || steps[i].ForeignOpen?
      || steps[i].ForeignEdit?
  }

  function RunFrom(s: State, id: Identity, steps: seq<Step>): State {
    if |steps| == 0 then s else Next(RunFrom(s, id, steps[..|steps| - 1]), id, steps[|steps| - 1])
  }

  lemma RunFromOneMore(s: State, id: Identity, steps: seq<Step>, step: Step)
    ensures RunFrom(s, id, steps + [step]) == Next(RunFrom(s, id, steps), id, step)
  {
    assert (steps + [step])[..|steps|] == steps;
  }

  lemma EnvironmentStepKeepsCall(s: State, id: Identity, step: Step)
    requires Environment([step])
    ensures Next(s, id, step).call == s.call && Next(s, id, step).rows == s.rows
  {
    assert [step][0] == step;
  }

  class PullRequestController {
    const id: Identity
    var world: State

    /** Whatever the rest of the world does at one of the call's await points. */
    method Await(gap: seq<Step>, ghost start: State, ghost steps: seq<Step>) returns (ghost more: seq<Step>)
      requires Environment(gap) && world == RunFrom(start, id, steps)
      modifies this
      ensures more == steps + gap && world == RunFrom(start, id, more)
      ensures world.call == old(world).call && world.rows == old(world).rows
    {
      hide Next, RunFrom;
      assert steps + gap[..0] == steps;
      for i := 0 to |gap|
        invariant world == RunFrom(start, id, steps + gap[..i])
        invariant world.call == old(world).call && world.rows == old(world).rows
      {
        assert steps + gap[..i + 1] == steps + gap[..i] + [gap[i]];
        RunFromOneMore(start, id, steps + gap[..i], gap[i]);
        EnvironmentStepKeepsCall(world, id, gap[i]);
        world := Next(world, id, gap[i]);
      }
      more := steps + gap;
      assert steps + gap[..|gap|] == more;
    }

    /** One step of the call itself. */
    method Own(step: Step, ghost start: State, ghost steps: seq<Step>) returns (ghost more: seq<Step>)
      requires world == RunFrom(start, id, steps)
      modifies this
      ensures more == steps + [step] && world == RunFrom(start, id, more)
      ensures world == Next(old(world), id, step)
    {
      RunFromOneMore(start, id, steps, step);
      world := Next(world, id, step);
      more := steps + [step];
    }

    /**
     `ensurePullRequest`: intend, observe, and only where nothing is visible begin, create, and observe
     again. The call is a run of the machine. It succeeds exactly when one of its own observations found
     the one exact pull request and nothing else in conflict.
     */
    method EnsurePullRequest(c: Sha, first: Reading, second: Reading, accepted: bool,
                             gap0: seq<Step>, gap1: seq<Step>, gap2: seq<Step>)
      returns (number: Option<nat>, ghost steps: seq<Step>)
      requires world.call == Idle
      requires Environment(gap0) && Environment(gap1) && Environment(gap2)
      modifies this
      ensures world == RunFrom(old(world), id, steps)
      ensures number.Some? <==> world.call.Succeeded?
      ensures number.Some? ==> OnlyExact(world, id, c, number.value) && world.call == Succeeded(c, number.value)
      ensures number.None? ==> world.call == Idle
    {
      hide Next, RunFrom, Environment, OnlyExact;
      ghost var start := world;
      NoSteps(world, id);
      IntendEnds(world, id, c);
      steps := Own(Intend(c), start, []);
      steps := Await(gap0, start, steps);
      ObserveEnds(world, id, first);
      steps := Own(Observe(first), start, steps);
      if world.call.Succeeded? {
        return Some(world.call.number), steps;
      }
      if !world.call.Clear? {
        return None, steps;
      }
      BeginEnds(world, id);
      steps := Own(Begin, start, steps);
      if !world.call.Begun? {
        return None, steps;
      }
      steps := Await(gap1, start, steps);
      SendEnds(world, id, accepted);
      steps := Own(Send(accepted), start, steps);
      steps := Await(gap2, start, steps);
      ObserveEnds(world, id, second);
      steps := Own(Observe(second), start, steps);
      number := if world.call.Succeeded? then Some(world.call.number) else None;
    }
  }

  lemma NoSteps(s: State, id: Identity)
    ensures s == RunFrom(s, id, [])
  {
  }

  lemma IntendEnds(s: State, id: Identity, c: Sha)
    requires s.call == Idle
    ensures Next(s, id, Intend(c)).call == Observing(c) && c in Next(s, id, Intend(c)).rows
  {
  }

  lemma ObserveEnds(s: State, id: Identity, reading: Reading)
    requires (s.call.Observing? || s.call.Sent?) && s.call.candidate in s.rows
    ensures var after := Next(s, id, Observe(reading));
            && s.call.candidate in after.rows
            && (after.call == Idle
                || (after.call.Succeeded? && after.call.candidate == s.call.candidate
                    && OnlyExact(after, id, s.call.candidate, after.call.number))
                || (s.call.Observing? && after.call == Clear(s.call.candidate)))
  {
    MatchedMeansOnlyExact(s, id, s.call.candidate);
  }

  lemma BeginEnds(s: State, id: Identity)
    requires s.call.Clear? && s.call.candidate in s.rows
    ensures var after := Next(s, id, Begin);
            (after.call == Idle || after.call == Begun(s.call.candidate)) && s.call.candidate in after.rows
  {
  }

  lemma SendEnds(s: State, id: Identity, accepted: bool)
    requires s.call.Begun?
    ensures Next(s, id, Send(accepted)).call == Sent(s.call.candidate) && Next(s, id, Send(accepted)).rows == s.rows
  {
  }
}
