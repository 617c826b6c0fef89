/**
 One provider invocation as a race. Tool calls, cancellation, the deadline, the fence watchdog and the
 transport itself take their steps in any order; the first outcome noticed ends the session, what is still
 pending is waited for, and only then is a result assembled, checked and published.
 */
module ToolRace {
  import opened ExactSets
  import opened Options
  import opened ProviderStream
  import opened ProviderResults

  datatype Terms = Terms(limits: Limits, implementer: bool, startedAt: Time, requestId: Id, binding: nat)

  datatype Request = Request(id: Id, name: Name, argumentsDigest: Digest)

  /** What the gateway adds of its own; it echoes the request's id and tool name. */
  datatype Reply = Reply(status: ToolStatus, requestDigest: Digest, resultDigest: Digest, startedAt: Time,
                         completedAt: Time)

  /** A call the gateway is working on, and when it was handed over. */
  datatype Call = Call(request: Request, at: Time)

  datatype Stop = ByCancellation | ByDeadline | ByLostFence

  /** How the transport's promise settled; `Returned(None)` is a value of the wrong shape. */
  datatype Settled = Returned(value: Option<Transport>) | Threw(refusal: bool)

  datatype Ending = Refusal | ForcedBy(stop: Stop) | Raw(value: Option<Transport>)

  datatype Outcome = Refused | Published(transport: Transport, result: Result)

  datatype Phase =
    | Racing
    | Draining(ending: Ending, withPending: bool, waiting: set<nat>)
    | Checking(raw: Option<Transport>, forced: bool)
    | Done(outcome: Outcome)

  /** `reached` is the history of request ids handed to the gateway; operations are numbered as they come. */
  datatype Session = Session(
    now: Time,
    active: bool,
    inFlight: bool,
    counted: nat,
    seen: set<Id>,
    tools: seq<Completed>,
    invoked: nat,
    pending: set<nat>,
    calls: map<nat, Call>,
    reached: seq<Id>,
    stop: Option<Stop>,
    cancelled: bool,
    aborted: bool,
    transport: Option<Settled>,
    phase: Phase)

  datatype Step =
    | Invoke(leaseHolds: bool, request: Option<Request>)
    | GatewayReturns(operation: nat, reply: Reply)
    | GatewayThrows(operation: nat)
    | Unlist(operation: nat)
    | Cancel
    | DeadlinePasses
    | FenceChecked(current: bool)
    | TransportSettles(settled: Settled)
    | RaceIsWon(byStop: bool)
    | Assemble
    | Conclude(admitted: bool, timedOut: bool, completedAt: Time, resumable: Digest)
    | ClockMoves(to: Time)

  function Init(terms: Terms): Session {
    Session(terms.startedAt, true, false, 0, {}, [], 0, {}, map[], [], None, false, false, None, Racing)
  }

  // ---------------------------------------------------------------- the steps

  /** `invokeTool` up to the gateway's promise: every refusal but the first three spends one of the calls. */
  function AfterInvoke(s: Session, terms: Terms, leaseHolds: bool, request: Option<Request>): Session {
    var listed := s.(invoked := s.invoked + 1, pending := s.pending + {s.invoked});
    if !s.active || s.inFlight || !leaseHolds then listed
    else
      var counted := listed.(counted := s.counted + 1);
      if counted.counted > terms.limits.maxToolCalls || request.None? || request.value.id in s.seen then counted
      else
        counted.(
          seen := s.seen + {request.value.id}, inFlight := true,
          calls := s.calls[s.invoked := Call(request.value, s.now)], reached := s.reached + [request.value.id])
  }

  function Entry(request: Request, reply: Reply): Completed {
    Completed(request.name, request.argumentsDigest, request.id, request.name, reply.status, reply.requestDigest,
              reply.resultDigest, reply.startedAt, reply.completedAt)
  }

  /** Setting a key of the insertion-ordered map of completed tools. */
  function SetTool(tools: seq<Completed>, tool: Completed): seq<Completed> {
    if |tools| == 0 then [tool]
    else if tools[0].id == tool.id then [tool] + tools[1..]
    else [tools[0]] + SetTool(tools[1..], tool)
  }

  function FirstStop(s: Session, stop: Stop): Session {
    s.(stop := if s.stop.None? then Some(stop) else s.stop, aborted := true)
  }

  /** What an error that is not a refusal is turned into. */
  function Normalised(cancelled: bool, counted: nat): Transport {
    Transport(if cancelled then Cancelled else Failure, None, 0, 0, ForcedUsage(counted), [], None,
              if cancelled then None else Some(0))
  }

  function EndingOf(s: Session, byStop: bool): Ending
    requires if byStop then s.stop.Some? else s.transport.Some?
  {
    if byStop then ForcedBy(s.stop.value)
    else
      match s.transport.value
      case Returned(value) => Raw(value)
      case Threw(refusal) => if refusal then Refusal else Raw(Some(Normalised(s.cancelled, s.counted)))
  }

  /** The race's continuation and the `finally` block after it. */
  function AfterRace(s: Session, byStop: bool): Session {
    if !s.phase.Racing? || (if byStop then s.stop.None? else s.transport.None?) then s
    else
      s.(active := false, aborted := s.aborted || s.pending != {},
         phase := Draining(EndingOf(s, byStop), s.pending != {} && !byStop, s.pending))
  }

  function StatusOf(stop: Stop): Status {
    if stop == ByCancellation then Cancelled else Timeout
  }

  /** Once every promise in the snapshot has settled. */
  function AfterDrain(s: Session, terms: Terms): Session {
    if !s.phase.Draining? || s.phase.waiting * s.calls.Keys != {} then s
    else if s.phase.withPending then s.(phase := Done(Refused))
    else
      match s.phase.ending
      case Refusal => s.(phase := Done(Refused))
      case Raw(value) => s.(phase := Checking(value, false))
      case ForcedBy(stop) =>
        if stop == ByLostFence then s.(phase := Done(Refused))
        else s.(phase := Checking(Some(Forced(StatusOf(stop), s.tools, s.counted, terms.startedAt, s.now)), true))
  }

  /** `admitted`: the lease still holds, the fence is current and nothing protected is in the result. */
  ghost function AfterChecks(s: Session, terms: Terms, admitted: bool, timedOut: bool, completedAt: Time,
                             resumable: Digest)
    : Session
  {
    if !s.phase.Checking? then s
    else if s.phase.raw.None? || !admitted then s.(phase := Done(Refused))
    else
      var t := s.phase.raw.value;
      var result := Build(t, FinalStatus(t, s.cancelled, timedOut), terms.startedAt, completedAt, terms.requestId,
                          terms.binding, terms.implementer, resumable);
      if TransportAccepts(t, terms.limits, s.tools, s.counted, terms.startedAt, s.now, terms.implementer,
                          s.phase.forced)
         && PublicAccepts(result)
      then s.(phase := Done(Published(t, result)))
      else s.(phase := Done(Refused))
  }

  /** A step that is not possible where it is asked for changes nothing. */
  ghost function After(s: Session, terms: Terms, step: Step): Session {
    match step
    case Invoke(leaseHolds, request) => AfterInvoke(s, terms, leaseHolds, request)
    case GatewayReturns(operation, reply) =>
      if operation !in s.calls then s
      else s.(tools := SetTool(s.tools, Entry(s.calls[operation].request, reply)), inFlight := false,
              calls := s.calls - {operation})
    case GatewayThrows(operation) =>
      if operation !in s.calls then s else s.(inFlight := false, calls := s.calls - {operation})
    case Unlist(operation) => if operation in s.calls then s else s.(pending := s.pending - {operation})
    case Cancel => FirstStop(s, ByCancellation).(cancelled := true)
    case DeadlinePasses => FirstStop(s, ByDeadline)
    case FenceChecked(current) => if !s.active || s.aborted || current then s else FirstStop(s, ByLostFence)
    case TransportSettles(settled) => if s.transport.Some? then s else s.(transport := Some(settled))
    case RaceIsWon(byStop) => AfterRace(s, byStop)
    case Assemble => AfterDrain(s, terms)
    case Conclude(admitted, timedOut, completedAt, resumable) =>
      AfterChecks(s, terms, admitted, timedOut, completedAt, resumable)
    case ClockMoves(to) => s.(now := to)
  }

  ghost function Run(s: Session, terms: Terms, steps: seq<Step>): Session {
    if |steps| == 0 then s else After(Run(s, terms, steps[..|steps| - 1]), terms, steps[|steps| - 1])
  }

  // ---------------------------------------------------------------- what every interleaving keeps

  ghost predicate OneCall(s: Session) {
    && (s.inFlight <==> s.calls != map[])
    && (forall a, b :: a in s.calls && b in s.calls ==> a == b)
    && s.calls.Keys <= s.pending
    && (forall n :: n in s.pending ==> n < s.invoked)
    && (forall n :: n in s.calls ==> s.calls[n].request.id in s.seen)
  }

  ghost predicate Counted(s: Session, terms: Terms) {
    && Distinct(s.reached) && (forall id :: id in s.seen <==> id in s.reached)
    && |s.reached| <= s.counted && |s.reached| <= terms.limits.maxToolCalls
    && OneEntryEach(s.tools) && (forall t :: t in s.tools ==> t.id in s.seen)
    && (forall t, n :: t in s.tools && n in s.calls ==> t.id != s.calls[n].request.id)
    && |s.tools| + (if s.inFlight then 1 else 0) <= |s.reached|
  }

  ghost predicate Phased(s: Session, terms: Terms) {
    && (s.phase.Racing? <==> s.active)
    && (s.phase.Draining? ==> s.calls.Keys <= s.phase.waiting)
    && (s.phase.Checking? || s.phase.Done? ==> s.calls == map[])
    && (s.phase.Done? && s.phase.outcome.Published? ==>
          s.phase.outcome.transport.usage.toolCalls == s.counted <= terms.limits.maxToolCalls
          && PublicAccepts(s.phase.outcome.result))
  }

  ghost predicate Inv(s: Session, terms: Terms) {
    OneCall(s) && Counted(s, terms) && Phased(s, terms)
  }

  lemma {:induction false} SetToolAppends(tools: seq<Completed>, tool: Completed)
    requires forall t :: t in tools ==> t.id != tool.id
    ensures SetTool(tools, tool) == tools + [tool]
  {
    if |tools| > 0 {
      SetToolAppends(tools[1..], tool);
      assert tools == [tools[0]] + tools[1..];
    }
  }

  /** The key is found at `i`, or nowhere. */
  lemma {:induction false} SetToolAt(tools: seq<Completed>, tool: Completed, i: nat)
    requires i <= |tools| && (i < |tools| ==> tools[i].id == tool.id)
    requires forall j :: 0 <= j < i ==> tools[j].id != tool.id
    ensures SetTool(tools, tool) == if i < |tools| then tools[i := tool] else tools + [tool]
  {
    if i > 0 {
      SetToolAt(tools[1..], tool, i - 1);
      assert tools == [tools[0]] + tools[1..];
    }
  }

  lemma InvokeKeeps(s: Session, terms: Terms, leaseHolds: bool, request: Option<Request>)
    requires Inv(s, terms)
    ensures Inv(AfterInvoke(s, terms, leaseHolds, request), terms)
  {
    hide PublicAccepts;
    var after := AfterInvoke(s, terms, leaseHolds, request);
    if after.reached != s.reached {
      assert s.calls == map[];
      assert after.calls.Keys == {s.invoked};
      assert request.value.id !in s.reached;
    }
  }

  lemma ReturnKeeps(s: Session, terms: Terms, n: nat, reply: Reply)
    requires Inv(s, terms) && n in s.calls
    ensures SetTool(s.tools, Entry(s.calls[n].request, reply)) == s.tools + [Entry(s.calls[n].request, reply)]
    ensures Inv(After(s, terms, GatewayReturns(n, reply)), terms)
  {
    hide PublicAccepts, SetTool;
    SetToolAppends(s.tools, Entry(s.calls[n].request, reply));
    assert s.calls - {n} == map[];
  }

  lemma ThrowKeeps(s: Session, terms: Terms, n: nat)
    requires Inv(s, terms) && n in s.calls
    ensures Inv(After(s, terms, GatewayThrows(n)), terms)
  {
    hide PublicAccepts;
    assert s.calls - {n} == map[];
  }

  lemma DrainKeeps(s: Session, terms: Terms)
    requires Inv(s, terms)
    ensures Inv(AfterDrain(s, terms), terms)
  {
    hide PublicAccepts, Forced;
    if AfterDrain(s, terms) != s {
      assert s.calls.Keys == s.phase.waiting * s.calls.Keys;
    }
  }

  lemma ChecksKeep(s: Session, terms: Terms, admitted: bool, timedOut: bool, completedAt: Time, resumable: Digest)
    requires Inv(s, terms)
    ensures Inv(AfterChecks(s, terms, admitted, timedOut, completedAt, resumable), terms)
  {
    hide PublicAccepts, TransportSchema, Concludes, Build, WellPlaced, TransportEvent, Reported, FinalStatus;
  }

  lemma StepKeeps(s: Session, terms: Terms, step: Step)
    requires Inv(s, terms)
    ensures Inv(After(s, terms, step), terms)
  {
    hide PublicAccepts, Build, Forced, TransportAccepts, SetTool, EndingOf, FinalStatus;
    match step
    case Invoke(leaseHolds, request) => InvokeKeeps(s, terms, leaseHolds, request);
    case GatewayReturns(n, reply) => if n in s.calls { ReturnKeeps(s, terms, n, reply); }
    case GatewayThrows(n) => if n in s.calls { ThrowKeeps(s, terms, n); }
    case Assemble => DrainKeeps(s, terms);
    case Conclude(admitted, timedOut, completedAt, resumable) =>
      ChecksKeep(s, terms, admitted, timedOut, completedAt, resumable);
    case _ =>
  }

  lemma {:induction false} RunKeeps(s: Session, terms: Terms, steps: seq<Step>)
    requires Inv(s, terms)
    ensures Inv(Run(s, terms, steps), terms)
  {
    if |steps| > 0 {
      hide Inv, After;
      RunKeeps(s, terms, steps[..|steps| - 1]);
      StepKeeps(Run(s, terms, steps[..|steps| - 1]), terms, steps[|steps| - 1]);
    }
  }

  // ---------------------------------------------------------------- the theorems

  /** Every interleaving: never two gateway calls at once, no request id twice, never more calls than admitted. */
  lemma OneCallAtATime(terms: Terms, steps: seq<Step>)
    ensures var s := Run(Init(terms), terms, steps);
            && |s.calls| <= 1
            && Distinct(s.reached) && |s.reached| <= s.counted && |s.reached| <= terms.limits.maxToolCalls
            && |s.tools| + |s.calls| <= |s.reached|
  {
    RunKeeps(Init(terms), terms, steps);
    var s := Run(Init(terms), terms, steps);
    if s.calls != map[] {
      var n :| n in s.calls;
      assert s.calls.Keys == {n};
      assert |s.calls| == |s.calls.Keys|;
    }
  }

  /** What can no longer change once the session is closed. */
  ghost predicate SameWork(s: Session, later: Session) {
    later.reached == s.reached && later.counted == s.counted && !later.active
  }

  lemma ClosedStep(s: Session, terms: Terms, step: Step)
    requires !s.active && Phased(s, terms)
    ensures SameWork(s, After(s, terms, step))
    ensures s.phase.Checking? || s.phase.Done? ==> After(s, terms, step).tools == s.tools
    ensures s.phase.Done? ==> After(s, terms, step).phase == s.phase
  {
    hide PublicAccepts, TransportAccepts, Build, Forced, SetTool;
  }

  /** From the end of the race on, and in particular once a result is built, nothing starts any more. */
  lemma {:induction false} NothingStartsAfterTheRace(terms: Terms, steps: seq<Step>, more: seq<Step>)
    requires !Run(Init(terms), terms, steps).active
    ensures var s, later := Run(Init(terms), terms, steps), Run(Init(terms), terms, steps + more);
            && SameWork(s, later)
            && (s.phase.Checking? || s.phase.Done? ==>
                  s.calls == map[] && later.calls == map[] && later.tools == s.tools)
            && (s.phase.Checking? ==> later.phase.Checking? || later.phase.Done?)
            && (s.phase.Done? ==> later.phase == s.phase)
  {
    hide After, Init;
    var s := Run(Init(terms), terms, steps);
    StartInv(terms);
    RunKeeps(Init(terms), terms, steps);
    if |more| == 0 {
      assert steps + more == steps;
    } else {
      var before := more[..|more| - 1];
      NothingStartsAfterTheRace(terms, steps, before);
      assert (steps + more)[..|steps + more| - 1] == steps + before;
      var middle := Run(Init(terms), terms, steps + before);
      RunKeeps(Init(terms), terms, steps + before);
      ClosedStep(middle, terms, more[|more| - 1]);
      if middle.phase.Checking? { CheckingEnds(middle, terms, more[|more| - 1]); }
      RunKeeps(Init(terms), terms, steps + more);
    }
  }

  lemma StartInv(terms: Terms)
    ensures Inv(Init(terms), terms)
  {
  }

  lemma CheckingEnds(s: Session, terms: Terms, step: Step)
    requires s.phase.Checking? && !s.active
    ensures After(s, terms, step).phase.Checking? || After(s, terms, step).phase.Done?
  {
    hide PublicAccepts, TransportAccepts, Build, Forced, SetTool;
  }

  /** Every published result: it parses, and completed calls <= counted calls == reported calls <= admitted calls. */
  lemma PublishedWithinBudget(terms: Terms, steps: seq<Step>)
    requires Run(Init(terms), terms, steps).phase.Done?
    requires Run(Init(terms), terms, steps).phase.outcome.Published?
    ensures var s := Run(Init(terms), terms, steps);
            && |s.tools| <= |s.reached| <= s.counted <= terms.limits.maxToolCalls
            && s.counted == s.phase.outcome.transport.usage.toolCalls
            && PublicAccepts(s.phase.outcome.result)
  {
    hide Run, PublicAccepts;
    RunKeeps(Init(terms), terms, steps);
  }

  // ---------------------------------------------------------------- forced stops under a clock that never goes back

  /** The clock goes forward, and the gateway reads it twice during its call. */
  ghost predicate OnTime(s: Session, step: Step) {
    && (step.ClockMoves? ==> s.now <= step.to)
    && (step.GatewayReturns? && step.operation in s.calls ==>
          s.calls[step.operation].at <= step.reply.startedAt <= step.reply.completedAt <= s.now)
    && (step.Conclude? ==> s.now <= step.completedAt)
  }

  ghost predicate AllOnTime(s: Session, terms: Terms, steps: seq<Step>) {
    |steps| > 0 ==>
      AllOnTime(s, terms, steps[..|steps| - 1]) && OnTime(Run(s, terms, steps[..|steps| - 1]), steps[|steps| - 1])
  }

  ghost predicate Timely(s: Session, terms: Terms) {
    && GatewayNames(s.tools) && OneAfterAnother(s.tools, terms.startedAt, s.now)
    && (forall n :: n in s.calls ==> Ended(s.tools, terms.startedAt) <= s.calls[n].at <= s.now)
    && (s.phase.Checking? && s.phase.forced ==>
          exists at: Time, stop: Stop :: ForcedAt(s, terms, at, stop))
  }

  /** The stream in `raw` was made up at `at`. */
  ghost predicate ForcedAt(s: Session, terms: Terms, at: Time, stop: Stop)
    requires s.phase.Checking?
  {
    && OneAfterAnother(s.tools, terms.startedAt, at) && at <= s.now
    && s.phase.raw == Some(Forced(StatusOf(stop), s.tools, s.counted, terms.startedAt, at))
  }

  /** The call just returned follows the ones before it. */
  lemma TimelyReturn(s: Session, terms: Terms, n: nat, reply: Reply)
    requires Inv(s, terms) && Timely(s, terms) && n in s.calls && OnTime(s, GatewayReturns(n, reply))
    ensures Timely(After(s, terms, GatewayReturns(n, reply)), terms)
  {
    hide PublicAccepts, TransportAccepts, Build, Forced, SetTool, OneEntryEach, Distinct, AfterRace, AfterDrain,
         AfterChecks;
    ReturnKeeps(s, terms, n, reply);
    assert s.calls - {n} == map[];
  }

  /** A forced stream stays the stream of the same calls until it is checked. */
  lemma ForcedStays(s: Session, terms: Terms, step: Step)
    requires Inv(s, terms) && Timely(s, terms) && OnTime(s, step) && s.phase.Checking? && s.phase.forced
    ensures var after := After(s, terms, step);
            after.phase.Checking? ==>
              after.phase.forced && exists at: Time, stop: Stop :: ForcedAt(after, terms, at, stop)
  {
    hide PublicAccepts, TransportAccepts, Build, Forced, SetTool, OneEntryEach, Distinct, OneAfterAnother, GatewayNames;
    var after := After(s, terms, step);
    if after.phase.Checking? {
      var at, stop :| ForcedAt(s, terms, at, stop);
      ClosedStep(s, terms, step);
      assert ForcedAt(after, terms, at, stop);
    }
  }

  /** Draining over, the stream is made up of what is there now. */
  lemma ForcedNow(s: Session, terms: Terms)
    requires Inv(s, terms) && Timely(s, terms) && s.phase.Draining?
    ensures var after := AfterDrain(s, terms);
            after.phase.Checking? && after.phase.forced ==>
              exists at: Time, stop: Stop :: ForcedAt(after, terms, at, stop)
  {
    hide Forced, OneEntryEach, Distinct, GatewayNames;
    var after := AfterDrain(s, terms);
    if after.phase.Checking? && after.phase.forced {
      assert ForcedAt(after, terms, s.now, s.phase.ending.stop);
    }
  }

  lemma TimelyStep(s: Session, terms: Terms, step: Step)
    requires Inv(s, terms) && Timely(s, terms) && OnTime(s, step)
    ensures Timely(After(s, terms, step), terms)
  {
    if step.GatewayReturns? && step.operation in s.calls {
      TimelyReturn(s, terms, step.operation, step.reply);
    } else {
      SameToolsLaterClock(s, terms, step);
      if s.phase.Checking? && s.phase.forced {
        hide After, Inv, ForcedAt, OneAfterAnother, GatewayNames;
        ForcedStays(s, terms, step);
      } else if s.phase.Draining? {
        ForcedNow(s, terms);
        hide PublicAccepts, TransportAccepts, Build, Forced, SetTool, OneEntryEach, Distinct, ForcedAt, OneAfterAnother,
             GatewayNames, AfterDrain, AfterInvoke;
      } else {
        hide PublicAccepts, TransportAccepts, Build, Forced, SetTool, OneEntryEach, Distinct, ForcedAt, OneAfterAnother,
             GatewayNames, AfterInvoke;
      }
    }
  }

  /** Invoking hands over at most one more call, now. */
  lemma InvokeMoves(s: Session, terms: Terms, leaseHolds: bool, request: Option<Request>)
    ensures var after := AfterInvoke(s, terms, leaseHolds, request);
            && after.tools == s.tools && after.now == s.now
            && (forall n :: n in after.calls ==>
                  (n in s.calls && after.calls[n] == s.calls[n]) || (after.calls[n].at == s.now && !s.inFlight))
  {
  }

  lemma EndsMove(s: Session, terms: Terms, step: Step)
    requires step.RaceIsWon? || step.Assemble? || step.Conclude?
    ensures var after := After(s, terms, step);
            after.tools == s.tools && after.now == s.now && after.calls == s.calls
  {
    hide PublicAccepts, TransportAccepts, Build, Forced, SetTool, EndingOf, FinalStatus, AfterInvoke;
    if step.RaceIsWon? {
      hide AfterDrain, AfterChecks;
    } else if step.Assemble? {
      hide AfterRace, AfterChecks;
    } else {
      hide AfterRace, AfterDrain;
    }
  }

  /** A step other than a return leaves the completed calls alone, and hands over at most one more, now. */
  lemma StepMoves(s: Session, terms: Terms, step: Step)
    requires !(step.GatewayReturns? && step.operation in s.calls)
    ensures var after := After(s, terms, step);
            && after.tools == s.tools && after.now == (if step.ClockMoves? then step.to else s.now)
            && (forall n :: n in after.calls ==>
                  (n in s.calls && after.calls[n] == s.calls[n]) || (after.calls[n].at == s.now && !s.inFlight))
  {
    if step.Invoke? {
      InvokeMoves(s, terms, step.leaseHolds, step.request);
      hide AfterInvoke;
    } else if step.RaceIsWon? || step.Assemble? || step.Conclude? {
      EndsMove(s, terms, step);
      hide After;
    } else {
      hide AfterInvoke, AfterRace, AfterDrain, AfterChecks, SetTool;
    }
  }

  lemma SameToolsLaterClock(s: Session, terms: Terms, step: Step)
    requires Inv(s, terms) && Timely(s, terms) && OnTime(s, step)
    requires !(step.GatewayReturns? && step.operation in s.calls)
    ensures var after := After(s, terms, step);
            && after.tools == s.tools && s.now <= after.now
            && GatewayNames(after.tools) && OneAfterAnother(after.tools, terms.startedAt, after.now)
            && (forall n :: n in after.calls ==> Ended(after.tools, terms.startedAt) <= after.calls[n].at <= after.now)
  {
    hide After, Inv, ForcedAt;
    StepMoves(s, terms, step);
  }

  lemma {:induction false} TimelyRun(terms: Terms, steps: seq<Step>)
    requires AllOnTime(Init(terms), terms, steps)
    ensures Timely(Run(Init(terms), terms, steps), terms)
  {
    if |steps| > 0 {
      hide Inv, Timely, OnTime, After, Init;
      StartInv(terms);
      TimelyRun(terms, steps[..|steps| - 1]);
      RunKeeps(Init(terms), terms, steps[..|steps| - 1]);
      TimelyStep(Run(Init(terms), terms, steps[..|steps| - 1]), terms, steps[|steps| - 1]);
    }
  }

  /**
   Under a clock that never goes back, in every interleaving, a cancellation or deadline that reaches the
   checks is published if and only if the provider stayed within its tool calls.
   */
  lemma ForcedStopIsPublished(terms: Terms, steps: seq<Step>, timedOut: bool, completedAt: Time, resumable: Digest)
    requires LimitsAdmitted(terms.limits) && AllOnTime(Init(terms), terms, steps)
    requires var s := Run(Init(terms), terms, steps); s.phase.Checking? && s.phase.forced && s.now <= completedAt
    ensures var s := Run(Init(terms), terms, steps);
            After(s, terms, Conclude(true, timedOut, completedAt, resumable)).phase.outcome.Published?
            <==> s.counted <= terms.limits.maxToolCalls
  {
    hide Run, AllOnTime, Forced, Build, PublicAccepts, FinalStatus, TransportAccepts;
    var s := Run(Init(terms), terms, steps);
    TimelyRun(terms, steps);
    RunKeeps(Init(terms), terms, steps);
    var at, stop :| ForcedAt(s, terms, at, stop);
    ForcedChecked(StatusOf(stop), s.tools, s.counted, terms, at, s.now);
    ForcedStreamPublishes(StatusOf(stop), s.tools, s.counted, terms.limits, terms.startedAt, at, completedAt,
                          terms.implementer, s.cancelled, timedOut, terms.requestId, terms.binding, resumable);
  }

  /** Made up at one moment, checked at a later one. */
  lemma ForcedChecked(status: Status, tools: seq<Completed>, calls: nat, terms: Terms, at: Time, now: Time)
    requires status == Cancelled || status == Timeout
    requires LimitsAdmitted(terms.limits) && |tools| <= calls && at <= now
    requires OneEntryEach(tools) && GatewayNames(tools) && OneAfterAnother(tools, terms.startedAt, at)
    ensures var t := Forced(status, tools, calls, terms.startedAt, at);
            TransportAccepts(t, terms.limits, tools, calls, terms.startedAt, now, terms.implementer, true)
            <==> calls <= terms.limits.maxToolCalls
  {
    hide WellPlaced, TransportEvent, Concludes, Forced, OneAfterAnother, GatewayNames, OneEntryEach, TransportSchema;
    var t := Forced(status, tools, calls, terms.startedAt, at);
    ForcedStreamAccepted(status, tools, calls, terms.limits, terms.startedAt, at, terms.implementer);
    ForcedReports(status, tools, calls, terms.startedAt, at);
    if calls <= terms.limits.maxToolCalls {
      forall i | 0 <= i < |t.events| ensures WellPlaced(t.events, i, terms.startedAt, now) {
        LaterEnd(t.events, i, terms.startedAt, at, now);
      }
    }
  }

  lemma ForcedReports(status: Status, tools: seq<Completed>, calls: nat, startedAt: Time, now: Time)
    ensures Forced(status, tools, calls, startedAt, now).usage.toolCalls == calls
  {
  }

  // ---------------------------------------------------------------- the invocation as it runs

  /** The local variables `execute` and its closures share. Each method is one stretch between two awaits. */
  class Execution {
    const terms: Terms
    var now: Time
    var transportActive: bool
    var toolInFlight: bool
    var toolCallCount: nat
    var seenToolRequestIds: set<Id>
    var completedTools: seq<Completed>
    var operations: nat
    var pendingToolCalls: set<nat>
    var gatewayCalls: map<nat, Call>
    ghost var reached: seq<Id>
    var stop: Option<Stop>
    var cancelled: bool
    var aborted: bool
    var transport: Option<Settled>
    var phase: Phase

    ghost function Now(): Session
      reads this
    {
      Session(now, transportActive, toolInFlight, toolCallCount, seenToolRequestIds, completedTools, operations,
              pendingToolCalls, gatewayCalls, reached, stop, cancelled, aborted, transport, phase)
    }

    constructor (terms: Terms)
      ensures this.terms == terms && Now() == Init(terms)
    {
      this.terms, now, transportActive, toolInFlight, toolCallCount := terms, terms.startedAt, true, false, 0;
      seenToolRequestIds, completedTools, operations, pendingToolCalls, gatewayCalls := {}, [], 0, {}, map[];
      reached, stop, cancelled, aborted, transport, phase := [], None, false, false, None, Racing;
    }

    /** `invokeTool`: listed as pending in any case, handed to the gateway only past every check. */
    method InvokeTool(leaseHolds: bool, request: Option<Request>) returns (handedOver: bool)
      modifies this
      ensures Now() == AfterInvoke(old(Now()), terms, leaseHolds, request)
      ensures handedOver <==> |reached| > |old(reached)|
    {
      var operation := operations;
      operations := operations + 1;
      pendingToolCalls := pendingToolCalls + {operation};
      handedOver := false;
      if transportActive && !toolInFlight && leaseHolds {
        toolCallCount := toolCallCount + 1;
        if && toolCallCount <= terms.limits.maxToolCalls && request.Some? && request.value.id !in seenToolRequestIds {
          HandOver(operation, request.value);
          handedOver := true;
        }
      }
    }

    method HandOver(operation: nat, request: Request)
      modifies `seenToolRequestIds, `toolInFlight, `gatewayCalls, `reached
      ensures toolInFlight && seenToolRequestIds == old(seenToolRequestIds) + {request.id}
      ensures gatewayCalls == old(gatewayCalls)[operation := Call(request, now)]
      ensures reached == old(reached) + [request.id]
    {
      seenToolRequestIds := seenToolRequestIds + {request.id};
      toolInFlight := true;
      gatewayCalls := gatewayCalls[operation := Call(request, now)];
      reached := reached + [request.id];
    }

    /** `completedTools.set`, then the `finally` of the call. */
    method GatewayReturned(operation: nat, reply: Reply)
      requires operation in gatewayCalls
      modifies this
      ensures Now() == After(old(Now()), terms, GatewayReturns(operation, reply))
    {
      hide AfterInvoke, AfterRace, AfterDrain, AfterChecks, SetTool;
      SetCompletedTool(Entry(gatewayCalls[operation].request, reply));
      toolInFlight := false;
      gatewayCalls := gatewayCalls - {operation};
    }

    method SetCompletedTool(tool: Completed)
      modifies `completedTools
      ensures completedTools == SetTool(old(completedTools), tool)
    {
      var i := 0;
      while i < |completedTools| && completedTools[i].id != tool.id
        invariant i <= |completedTools|
        invariant forall j :: 0 <= j < i ==> completedTools[j].id != tool.id
      {
        i := i + 1;
      }
      hide SetTool;
      SetToolAt(completedTools, tool, i);
      completedTools := if i < |completedTools| then completedTools[i := tool] else completedTools + [tool];
    }

    method GatewayThrew(operation: nat)
      requires operation in gatewayCalls
      modifies this
      ensures Now() == After(old(Now()), terms, GatewayThrows(operation))
    {
      toolInFlight := false;
      gatewayCalls := gatewayCalls - {operation};
    }

    /** A settled operation leaves the list. */
    method Unlisted(operation: nat)
      requires operation !in gatewayCalls
      modifies this
      ensures Now() == After(old(Now()), terms, Unlist(operation))
    {
      pendingToolCalls := pendingToolCalls - {operation};
    }

    method ResolveStop(kind: Stop)
      modifies this
      ensures Now() == FirstStop(old(Now()), kind)
    {
      if stop.None? { stop := Some(kind); }
      aborted := true;
    }

    method ForwardCancellation()
      modifies this
      ensures Now() == After(old(Now()), terms, Cancel)
    {
      cancelled := true;
      ResolveStop(ByCancellation);
    }

    /** The watchdog, after it has asked whether the fence is current. */
    method CheckFence(current: bool)
      modifies this
      ensures Now() == After(old(Now()), terms, FenceChecked(current))
    {
      if !transportActive || aborted { return; }
      if !current { ResolveStop(ByLostFence); }
    }

    /** The continuation of the race with whichever outcome it took, and the `finally` block. */
    method WinRace(byStop: bool)
      requires phase.Racing? && (if byStop then stop.Some? else transport.Some?)
      modifies this
      ensures Now() == AfterRace(old(Now()), byStop)
    {
      var ending: Ending;
      if byStop {
        ending := ForcedBy(stop.value);
      } else {
        match transport.value
        case Returned(value) => ending := Raw(value);
        case Threw(refusal) =>
          if refusal {
            ending := Refusal;
          } else {
            ending := Raw(Some(Transport(
              if cancelled then Cancelled else Failure, None, 0, 0, Usage(0, 0, 0.0, toolCallCount), [], None,
              if cancelled then None else Some(0))));
          }
      }
      transportActive := false;
      var withPending := false;
      if pendingToolCalls != {} {
        withPending := !byStop;
        aborted := true;
      }
      phase := Draining(ending, withPending, pendingToolCalls);
    }

    /** Past `Promise.allSettled`: the refusals, or the result to check. */
    method AssembleResult()
      requires phase.Draining? && phase.waiting * gatewayCalls.Keys == {}
      modifies this
      ensures Now() == AfterDrain(old(Now()), terms)
    {
      if phase.withPending || phase.ending.Refusal? {
        phase := Done(Refused);
        return;
      }
      match phase.ending
      case Raw(value) => phase := Checking(value, false);
      case ForcedBy(kind) =>
        if kind == ByLostFence {
          phase := Done(Refused);
        } else {
          var t := ForcedTransportResult(StatusOf(kind), completedTools, toolCallCount, terms.startedAt, now);
          phase := Checking(Some(t), true);
        }
    }

    /** Both validators in turn. */
    method Finish(admitted: bool, timedOut: bool, completedAt: Time, resumable: Digest, sha: Result -> Digest)
      requires phase.Checking?
      modifies this
      ensures Now() == AfterChecks(old(Now()), terms, admitted, timedOut, completedAt, resumable)
    {
      hide TransportAccepts, PublicAccepts, Build, SetTool, Forced;
      if !admitted || phase.raw.None? {
        phase := Done(Refused);
        return;
      }
      var t := phase.raw.value;
      var accepted := AssertTransportResult(t, terms.limits, completedTools, toolCallCount, terms.startedAt, now,
                                            terms.implementer, phase.forced);
      if !accepted {
        phase := Done(Refused);
        return;
      }
      var result := Build(t, FinalStatus(t, cancelled, timedOut), terms.startedAt, completedAt, terms.requestId,
                          terms.binding, terms.implementer, resumable);
      var parsed := ParseProviderResult(Sealed(result, sha(result)), sha);
      phase := Done(if parsed then Published(t, result) else Refused);
    }
  }
}
