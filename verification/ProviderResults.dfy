/**
 What the harness publishes: the transport's result under its final status, or the stream it makes up
 itself when it has to force a stop. Whatever it builds has to pass the public parser.
 */
module ProviderResults {
  import opened Options
  import opened ProviderStream

  // ---------------------------------------------------------------- building the published result

  /** An abort outranks a missed deadline, and both outrank what the transport said. */
  function FinalStatus(t: Transport, aborted: bool, timedOut: bool): Status {
    if aborted then Cancelled else if timedOut then Timeout else t.status
  }

  /** Only a terminal event that says otherwise is rewritten. */
  function SettleEvent(e: Event, status: Status): Event {
    if e.body.SessionCompleted? && e.body.status != status then e.(body := SessionCompleted(status)) else e
  }

  function Settle(events: seq<Event>, status: Status): (settled: seq<Event>)
    ensures |settled| == |events|
    ensures forall i :: 0 <= i < |events| ==> settled[i] == SettleEvent(events[i], status)
  {
    seq(|events|, i requires 0 <= i < |events| => SettleEvent(events[i], status))
  }

  function BindAll(events: seq<Event>, requestId: Id, binding: nat): (bound: seq<Bound>)
    ensures |bound| == |events|
    ensures forall i :: 0 <= i < |events| ==> bound[i] == Bound(requestId, binding, events[i])
  {
    seq(|events|, i requires 0 <= i < |events| => Bound(requestId, binding, events[i]))
  }

  /** The unsigned result `execute` assembles. `resumable` is the digest of resume metadata made from the session. */
  function Build(t: Transport, status: Status, startedAt: Time, completedAt: Time, requestId: Id, binding: nat,
                 implementer: bool, resumable: Digest): Result
  {
    Result(
      startedAt, completedAt, requestId, binding, status,
      if status == Success then t.outputDigest else None,
      t.outputBytes,
      t.usage,
      BindAll(Settle(t.events, status), requestId, binding),
      if implementer && t.sessionRef.Some? && status != Cancelled && status != Timeout then Some(resumable) else None,
      if status == Failure then (if t.failure.Some? then t.failure else Some(0)) else None)
  }

  lemma {:induction false} SettlingKeepsReadings(events: seq<Event>, status: Status)
    ensures var settled := Settle(events, status);
            && Requested(settled) == Requested(events) && CompletedIds(settled) == CompletedIds(events)
            && LatestUsage(settled) == LatestUsage(events) && OutputBytes(settled) == OutputBytes(events)
  {
    if |events| > 0 {
      var n := |events| - 1;
      SettlingKeepsReadings(events[..n], status);
      assert Settle(events, status)[..n] == Settle(events[..n], status);
    }
  }

  lemma SettlingKeepsEvents(events: seq<Event>, status: Status, i: nat, from: Time, to: Time)
    requires i < |events|
    ensures WellPlaced(Settle(events, status), i, from, to) <==> WellPlaced(events, i, from, to)
    ensures PublicEvent(Settle(events, status), i) <==> PublicEvent(events, i)
  {
    hide Requested, CompletedIds;
    SettlingKeepsReadings(events[..i], status);
    assert Settle(events, status)[..i] == Settle(events[..i], status);
  }

  // ---------------------------------------------------------------- the transport's own stream

  /** Every completion reports the tool its request asked for. */
  ghost predicate NamesAgree(events: seq<Event>, tools: seq<Completed>) {
    forall i :: 0 <= i < |events| && events[i].body.ToolCompleted? && Lookup(tools, events[i].body.id).Some? ==>
      var tool := Lookup(tools, events[i].body.id).value; tool.name == tool.requestName
  }

  ghost predicate TransportEvents(events: seq<Event>, tools: seq<Completed>, limits: Limits) {
    forall i :: 0 <= i < |events| ==> TransportEvent(events, i, tools, limits)
  }

  lemma PrefixEvents(events: seq<Event>, n: nat, tools: seq<Completed>, limits: Limits)
    requires TransportEvents(events, tools, limits) && n <= |events|
    ensures TransportEvents(events[..n], tools, limits)
  {
    hide TransportEvent;
    forall i | 0 <= i < n ensures TransportEvent(events[..n], i, tools, limits) {
      SamePrefixSameEvent(events, events[..n], i, tools, limits);
    }
  }

  lemma SamePrefixSameEvent(a: seq<Event>, b: seq<Event>, i: nat, tools: seq<Completed>, limits: Limits)
    requires i < |a| && i < |b| && a[..i + 1] == b[..i + 1]
    ensures TransportEvent(a, i, tools, limits) == TransportEvent(b, i, tools, limits)
    ensures PublicEvent(a, i) == PublicEvent(b, i)
  {
    hide Requested, CompletedIds, Lookup, LatestUsage, OutputBytes;
    assert a[..i] == a[..i + 1][..i] == b[..i];
    assert a[i] == a[..i + 1][i] == b[i];
  }

  /** Each requested id stands for a gateway call, under the name it was asked for. */
  lemma {:induction false} RequestedAreCalls(events: seq<Event>, tools: seq<Completed>, limits: Limits)
    requires TransportEvents(events, tools, limits)
    ensures forall id :: id in Requested(events) ==>
              Lookup(tools, id).Some? && Requested(events)[id] == Lookup(tools, id).value.requestName
  {
    hide Lookup;
    if |events| > 0 {
      var n := |events| - 1;
      PrefixEvents(events, n, tools, limits);
      RequestedAreCalls(events[..n], tools, limits);
      assert TransportEvent(events, n, tools, limits);
    }
  }

  lemma {:induction false} CompletionIsCounted(events: seq<Event>, i: nat)
    requires i < |events| && events[i].body.ToolCompleted?
    ensures events[i].body.id in CompletedIds(events)
  {
    if i < |events| - 1 {
      CompletionIsCounted(events[..|events| - 1], i);
    }
  }

  /** Nothing that was requested is left without its completion. */
  lemma PairsComplete(events: seq<Event>, tools: seq<Completed>, limits: Limits)
    requires TransportEvents(events, tools, limits)
    requires forall i :: 0 <= i < |tools| ==> Reported(events, tools[i])
    ensures Requested(events).Keys <= CompletedIds(events)
  {
    hide Requested, CompletedIds, TransportEvents, Lookup;
    RequestedAreCalls(events, tools, limits);
    forall id | id in Requested(events) ensures id in CompletedIds(events) {
      var tool := Lookup(tools, id).value;
      var k :| 0 <= k < |tools| && tools[k] == tool;
      assert Reported(events, tools[k]);
      var i :| 0 <= i < |events| && events[i].body.ToolCompleted? && events[i].body.id == tool.id
               && events[i].body.resultDigest == tool.resultDigest;
      CompletionIsCounted(events, i);
    }
  }

  /** An event the harness accepts is one the parser accepts, but for the name of a completed tool. */
  lemma EventAgrees(events: seq<Event>, i: nat, tools: seq<Completed>, limits: Limits)
    requires i < |events| && TransportEvents(events, tools, limits)
    ensures events[i].body.ToolCompleted? ==> Lookup(tools, events[i].body.id).Some?
    ensures PublicEvent(events, i) <==>
            (events[i].body.ToolCompleted? ==>
               var tool := Lookup(tools, events[i].body.id).value; tool.name == tool.requestName)
  {
    hide Requested, CompletedIds, Lookup, LatestUsage, OutputBytes;
    assert TransportEvent(events, i, tools, limits);
    PrefixEvents(events, i, tools, limits);
    RequestedAreCalls(events[..i], tools, limits);
  }

  lemma AllEventsAgree(events: seq<Event>, tools: seq<Completed>, limits: Limits)
    requires TransportEvents(events, tools, limits)
    ensures (forall i :: 0 <= i < |events| ==> PublicEvent(events, i)) <==> NamesAgree(events, tools)
  {
    hide PublicEvent, Lookup;
    forall i | 0 <= i < |events|
      ensures PublicEvent(events, i) <==>
              (events[i].body.ToolCompleted? && Lookup(tools, events[i].body.id).Some? ==>
                 var tool := Lookup(tools, events[i].body.id).value; tool.name == tool.requestName)
    {
      EventAgrees(events, i, tools, limits);
    }
  }

  lemma BuiltSchema(t: Transport, status: Status, startedAt: Time, completedAt: Time, requestId: Id, binding: nat,
                    implementer: bool, resumable: Digest)
    requires TransportSchema(t, implementer)
    requires status == t.status || status == Cancelled || status == Timeout
    ensures PublicSchema(Build(t, status, startedAt, completedAt, requestId, binding, implementer, resumable))
  {
  }

  /** What the parser sees of a built result's events. */
  lemma BuiltEvents(t: Transport, status: Status, startedAt: Time, completedAt: Time, requestId: Id, binding: nat,
                    implementer: bool, resumable: Digest)
    ensures var r := Build(t, status, startedAt, completedAt, requestId, binding, implementer, resumable);
            && Plain(r.events) == Settle(t.events, status)
            && r.status == status && r.usage == t.usage && r.outputBytes == t.outputBytes
            && r.startedAt == startedAt && r.completedAt == completedAt
            && forall i :: 0 <= i < |r.events|
                 ==> r.events[i].requestId == r.requestId && r.events[i].binding == r.binding
  {
  }

  lemma SettledConcludes(t: Transport, status: Status)
    requires Concludes(t.events, t.status, t.usage, t.outputBytes)
    ensures Concludes(Settle(t.events, status), status, t.usage, t.outputBytes)
    ensures Complete(Settle(t.events, status), status) <==>
            |t.events| > 0 && t.events[0].body.SessionStarted? && t.events[|t.events| - 1].body.SessionCompleted?
  {
    hide LatestUsage, OutputBytes;
    SettlingKeepsReadings(t.events, status);
  }

  /**
   Two validators, one stream: for every transport result the harness accepts after a normal return, and
   whatever the final status, the parser accepts what is published if and only if a success has a complete
   stream and the gateway named each tool as it was asked for.
   */
  lemma AcceptedTransportPublishes(t: Transport, limits: Limits, tools: seq<Completed>, observedCalls: nat,
                                   startedAt: Time, now: Time, completedAt: Time, implementer: bool,
                                   aborted: bool, timedOut: bool, requestId: Id, binding: nat, resumable: Digest)
    requires TransportAccepts(t, limits, tools, observedCalls, startedAt, now, implementer, false)
    requires startedAt <= now <= completedAt
    ensures var status := FinalStatus(t, aborted, timedOut);
            PublicAccepts(Build(t, status, startedAt, completedAt, requestId, binding, implementer, resumable))
            <==> (status == Success ==> Complete(t.events, Success)) && NamesAgree(t.events, tools)
  {
    hide WellPlaced, PublicEvent, TransportEvent, Requested, CompletedIds, Build, Settle, Plain, PublicSchema,
         NamesAgree, WithinLimits, TransportSchema, Concludes, Reported, Complete;
    var status := FinalStatus(t, aborted, timedOut);
    BuiltSchema(t, status, startedAt, completedAt, requestId, binding, implementer, resumable);
    BuiltEvents(t, status, startedAt, completedAt, requestId, binding, implementer, resumable);
    SettledConcludes(t, status);
    SettlingKeepsReadings(t.events, status);
    forall i | 0 <= i < |t.events|
      ensures WellPlaced(Settle(t.events, status), i, startedAt, completedAt)
      ensures PublicEvent(Settle(t.events, status), i) <==> PublicEvent(t.events, i)
    {
      SettlingKeepsEvents(t.events, status, i, startedAt, completedAt);
      LaterEnd(t.events, i, startedAt, now, completedAt);
    }
    AllEventsAgree(t.events, tools, limits);
    PairsComplete(t.events, tools, limits);
    ConclusionNamesStatus(t);
    CompleteSettled(t.events, t.status, status, aborted, timedOut);
  }

  lemma ConclusionNamesStatus(t: Transport)
    requires Concludes(t.events, t.status, t.usage, t.outputBytes)
    ensures |t.events| > 0 && t.events[|t.events| - 1].body.SessionCompleted? ==>
              t.events[|t.events| - 1].body.status == t.status
  {
  }

  lemma LaterEnd(events: seq<Event>, i: nat, from: Time, to: Time, later: Time)
    requires i < |events| && WellPlaced(events, i, from, to) && to <= later
    ensures WellPlaced(events, i, from, later)
  {
  }

  /** Where the final status is success, nothing was rewritten. */
  lemma CompleteSettled(events: seq<Event>, said: Status, status: Status, aborted: bool, timedOut: bool)
    requires status == if aborted then Cancelled else if timedOut then Timeout else said
    requires |events| > 0 && events[|events| - 1].body.SessionCompleted? ==> events[|events| - 1].body.status == said
    ensures status == Success ==> (Complete(Settle(events, status), Success) <==> Complete(events, Success))
  {
  }

  // ---------------------------------------------------------------- the stream of a forced stop

  /** The start, and a request and a completion for each gateway call that returned. */
  function Opening(tools: seq<Completed>, startedAt: Time): (events: seq<Event>)
    ensures |events| == 2 * |tools| + 1
  {
    if |tools| == 0 then [Event(1, startedAt, SessionStarted)]
    else
      var n := |tools| - 1;
      var tool := tools[n];
      Opening(tools[..n], startedAt)
        + [Event(2 * n + 2, tool.startedAt,
                 ToolRequested(tool.id, tool.name, tool.requestDigest, tool.argumentsDigest)),
           Event(2 * n + 3, tool.completedAt, ToolCompleted(tool.id, tool.name, tool.toolStatus, tool.resultDigest))]
  }

  function ForcedUsage(calls: nat): Usage {
    Usage(0, 0, 0.0, calls)
  }

  function Closing(n: nat, calls: nat, now: Time, status: Status): (events: seq<Event>)
    ensures |events| == 2
  {
    [Event(2 * n + 2, now, UsageUpdated(ForcedUsage(calls))), Event(2 * n + 3, now, SessionCompleted(status))]
  }

  function Forced(status: Status, tools: seq<Completed>, calls: nat, startedAt: Time, now: Time): Transport {
    Transport(status, None, 0, 0, ForcedUsage(calls),
              Opening(tools, startedAt) + Closing(|tools|, calls, now, status), None, None)
  }

  /** `#forcedTransportResult`: events are pushed one by one, each numbered by what is there already. */
  method ForcedTransportResult(status: Status, tools: seq<Completed>, calls: nat, startedAt: Time, now: Time)
    returns (t: Transport)
    ensures t == Forced(status, tools, calls, startedAt, now)
    ensures |t.events| == 2 * |tools| + 3
  {
    var events := [Event(1, startedAt, SessionStarted)];
    for i := 0 to |tools|
      invariant events == Opening(tools[..i], startedAt)
    {
      assert tools[..i + 1][..i] == tools[..i];
      var tool := tools[i];
      events := events + [Event(|events| + 1, tool.startedAt,
                                ToolRequested(tool.id, tool.name, tool.requestDigest, tool.argumentsDigest))];
      events := events + [Event(|events| + 1, tool.completedAt,
                                ToolCompleted(tool.id, tool.name, tool.toolStatus, tool.resultDigest))];
    }
    assert tools[..|tools|] == tools;
    var usage := Usage(0, 0, 0.0, calls);
    events := events + [Event(|events| + 1, now, UsageUpdated(usage))];
    events := events + [Event(|events| + 1, now, SessionCompleted(status))];
    assert events == Opening(tools, startedAt) + Closing(|tools|, calls, now, status);
    t := Transport(status, None, 0, 0, usage, events, None, None);
  }

  /** One call after another between the start and now, as a clock that never goes back leaves them. */
  ghost predicate OneAfterAnother(tools: seq<Completed>, startedAt: Time, now: Time) {
    && startedAt <= now
    && (|tools| > 0 ==> startedAt <= tools[0].startedAt)
    && (forall i :: 0 < i < |tools| ==> tools[i - 1].completedAt <= tools[i].startedAt)
    && (forall i :: 0 <= i < |tools| ==> tools[i].startedAt <= tools[i].completedAt <= now)
  }

  /** The gateway answers the tool it was asked for. */
  ghost predicate GatewayNames(tools: seq<Completed>) {
    forall i :: 0 <= i < |tools| ==> tools[i].name == tools[i].requestName
  }

  function Ids(tools: seq<Completed>): (ids: set<Id>) {
    set tool | tool in tools :: tool.id
  }

  lemma {:induction false} LookupFinds(tools: seq<Completed>, i: nat)
    requires OneEntryEach(tools) && i < |tools|
    ensures Lookup(tools, tools[i].id) == Some(tools[i])
  {
  }

  lemma AppendReads(events: seq<Event>, e: Event)
    ensures var more := events + [e];
            && Requested(more) == (if e.body.ToolRequested? then Requested(events)[e.body.id := e.body.name]
                                   else Requested(events))
            && CompletedIds(more) == CompletedIds(events) + (if e.body.ToolCompleted? then {e.body.id} else {})
            && LatestUsage(more) == (if e.body.UsageUpdated? then Some(e.body.usage) else LatestUsage(events))
            && OutputBytes(more) == OutputBytes(events) + (if e.body.ModelOutput? then e.body.bytes else 0)
  {
  }

  lemma StartReads(start: Event)
    requires start.body == SessionStarted
    ensures Requested([start]) == map[] && CompletedIds([start]) == {}
    ensures LatestUsage([start]) == None && OutputBytes([start]) == 0
  {
    AppendReads([], start);
    assert [] + [start] == [start];
  }

  lemma {:induction false} OpeningReads(tools: seq<Completed>, startedAt: Time)
    ensures var events := Opening(tools, startedAt);
            && Requested(events).Keys == Ids(tools) && CompletedIds(events) == Ids(tools)
            && LatestUsage(events) == None && OutputBytes(events) == 0
  {
    hide Requested, CompletedIds, LatestUsage, OutputBytes;
    if |tools| == 0 {
      StartReads(Event(1, startedAt, SessionStarted));
    } else {
      var n := |tools| - 1;
      var tool, before := tools[n], Opening(tools[..n], startedAt);
      var requested := Event(2 * n + 2, tool.startedAt,
                             ToolRequested(tool.id, tool.name, tool.requestDigest, tool.argumentsDigest));
      var completed := Event(2 * n + 3, tool.completedAt,
                             ToolCompleted(tool.id, tool.name, tool.toolStatus, tool.resultDigest));
      OpeningReads(tools[..n], startedAt);
      AppendReads(before, requested);
      AppendReads(before + [requested], completed);
      assert before + [requested] + [completed] == Opening(tools, startedAt);
      OneMoreId(tools);
    }
  }

  lemma OneMoreId(tools: seq<Completed>)
    requires |tools| > 0
    ensures Ids(tools) == Ids(tools[..|tools| - 1]) + {tools[|tools| - 1].id}
  {
  }

  /** The last time in an opening. */
  function Ended(tools: seq<Completed>, startedAt: Time): Time {
    if |tools| == 0 then startedAt else tools[|tools| - 1].completedAt
  }

  /** Everything both readers ask of the events so far, apart from the ending. */
  ghost predicate OpensWell(events: seq<Event>, all: seq<Completed>, limits: Limits, startedAt: Time, now: Time) {
    forall i :: 0 <= i < |events| ==>
      && WellPlaced(events, i, startedAt, now) && !events[i].body.SessionCompleted?
      && TransportEvent(events, i, all, limits) && PublicEvent(events, i)
  }

  /** What holds of an event in the middle still holds when more events follow. */
  lemma KeepsItsPlace(events: seq<Event>, e: Event, i: nat, startedAt: Time, now: Time)
    requires i < |events| && WellPlaced(events, i, startedAt, now) && !events[i].body.SessionCompleted?
    ensures WellPlaced(events + [e], i, startedAt, now)
  {
  }

  lemma ExtendsWell(events: seq<Event>, e: Event, all: seq<Completed>, limits: Limits, startedAt: Time, now: Time)
    requires OpensWell(events, all, limits, startedAt, now) && |events| > 0
    requires e.sequence == |events| + 1 && events[|events| - 1].at <= e.at && startedAt <= e.at <= now
    requires !e.body.SessionStarted? && !e.body.SessionCompleted?
    requires TransportEvent(events + [e], |events|, all, limits) && PublicEvent(events + [e], |events|)
    ensures OpensWell(events + [e], all, limits, startedAt, now)
  {
    hide TransportEvent, PublicEvent, Requested, CompletedIds, WellPlaced;
    var more := events + [e];
    forall i | 0 <= i < |more|
      ensures WellPlaced(more, i, startedAt, now) && !more[i].body.SessionCompleted?
      ensures TransportEvent(more, i, all, limits) && PublicEvent(more, i)
    {
      if i < |events| {
        KeepsItsPlace(events, e, i, startedAt, now);
        SamePrefixSameEvent(events, more, i, all, limits) by { assert events[..i + 1] == more[..i + 1]; }
      } else {
        TakesItsPlace(events, e, startedAt, now);
      }
    }
  }

  lemma TakesItsPlace(events: seq<Event>, e: Event, startedAt: Time, now: Time)
    requires |events| > 0 && e.sequence == |events| + 1 && events[|events| - 1].at <= e.at && startedAt <= e.at <= now
    requires !e.body.SessionStarted?
    ensures WellPlaced(events + [e], |events|, startedAt, now)
  {
  }

  lemma StartOpensWell(all: seq<Completed>, limits: Limits, startedAt: Time, now: Time)
    requires startedAt <= now
    ensures OpensWell(Opening([], startedAt), all, limits, startedAt, now)
  {
  }

  /** Both events of the next call are acceptable where its id is new. */
  lemma NextPairFits(events: seq<Event>, tool: Completed, n: nat, all: seq<Completed>, limits: Limits)
    requires Lookup(all, tool.id) == Some(tool) && tool.name == tool.requestName
    requires tool.id !in Requested(events) && tool.id !in CompletedIds(events)
    ensures var requested := Event(2 * n + 2, tool.startedAt,
                                   ToolRequested(tool.id, tool.name, tool.requestDigest, tool.argumentsDigest));
            var completed := Event(2 * n + 3, tool.completedAt,
                                   ToolCompleted(tool.id, tool.name, tool.toolStatus, tool.resultDigest));
            var one := events + [requested];
            && TransportEvent(one, |events|, all, limits) && PublicEvent(one, |events|)
            && TransportEvent(one + [completed], |one|, all, limits) && PublicEvent(one + [completed], |one|)
  {
  }

  lemma {:induction false} OpeningOpensWell(tools: seq<Completed>, all: seq<Completed>, limits: Limits,
                                            startedAt: Time, now: Time)
    requires OneEntryEach(all) && GatewayNames(all) && OneAfterAnother(all, startedAt, now)
    requires |tools| <= |all| && tools == all[..|tools|]
    ensures OpensWell(Opening(tools, startedAt), all, limits, startedAt, now)
    ensures Opening(tools, startedAt)[2 * |tools|].at == Ended(tools, startedAt)
  {
    hide OpensWell, Lookup, TransportEvent, PublicEvent, Requested, CompletedIds, LatestUsage, OutputBytes, Ids;
    if |tools| == 0 {
      StartOpensWell(all, limits, startedAt, now);
      assert tools == [];
    } else {
      var n := |tools| - 1;
      var tool, before := tools[n], tools[..n];
      assert before == all[..n] && tool == all[n];
      OpeningOpensWell(before, all, limits, startedAt, now);
      var events := Opening(before, startedAt);
      OpeningReads(before, startedAt);
      IdIsNew(all, n);
      LookupFinds(all, n);
      NextPairFits(events, tool, n, all, limits);
      var requested := Event(2 * n + 2, tool.startedAt,
                             ToolRequested(tool.id, tool.name, tool.requestDigest, tool.argumentsDigest));
      var completed := Event(2 * n + 3, tool.completedAt,
                             ToolCompleted(tool.id, tool.name, tool.toolStatus, tool.resultDigest));
      NotBeforeStart(all, startedAt, now, n);
      ExtendsWell(events, requested, all, limits, startedAt, now);
      ExtendsWell(events + [requested], completed, all, limits, startedAt, now);
      assert events + [requested] + [completed] == Opening(tools, startedAt);
    }
  }

  lemma IdIsNew(all: seq<Completed>, n: nat)
    requires OneEntryEach(all) && n < |all|
    ensures all[n].id !in Ids(all[..n])
  {
  }

  lemma {:induction false} NotBeforeStart(all: seq<Completed>, startedAt: Time, now: Time, n: nat)
    requires OneAfterAnother(all, startedAt, now) && n < |all|
    ensures startedAt <= all[n].startedAt
    decreases n
  {
    if n > 0 {
      NotBeforeStart(all, startedAt, now, n - 1);
    }
  }

  /** The closing pair after any opening. */
  lemma ClosingFits(events: seq<Event>, closing: seq<Event>, calls: nat, all: seq<Completed>, limits: Limits,
                    startedAt: Time, now: Time, status: Status, n: nat)
    requires OpensWell(events, all, limits, startedAt, now) && |events| == 2 * n + 1
    requires LatestUsage(events) == None
    requires startedAt <= now && closing == Closing(n, calls, now, status)
    ensures forall i :: 0 <= i < |events| + 2 ==>
              && WellPlaced(events + closing, i, startedAt, now)
              && TransportEvent(events + closing, i, all, limits) && PublicEvent(events + closing, i)
  {
    hide Lookup, Requested, CompletedIds, OutputBytes;
    var all' := events + closing;
    var one := events + [closing[0]];
    assert all'[..|events|] == events && all'[..|events| + 1] == one;
    forall i | 0 <= i < |events| + 2
      ensures WellPlaced(all', i, startedAt, now)
      ensures TransportEvent(all', i, all, limits) && PublicEvent(all', i)
    {
      if i < |events| {
        assert WellPlaced(events, i, startedAt, now);
        SamePrefixSameEvent(events, all', i, all, limits) by { assert events[..i + 1] == all'[..i + 1]; }
      } else {
        assert WellPlaced(events, |events| - 1, startedAt, now);
      }
    }
  }

  lemma ClosingReads(events: seq<Event>, n: nat, calls: nat, now: Time, status: Status)
    ensures var all := events + Closing(n, calls, now, status);
            && Requested(all) == Requested(events) && CompletedIds(all) == CompletedIds(events)
            && LatestUsage(all) == Some(ForcedUsage(calls)) && OutputBytes(all) == OutputBytes(events)
  {
    var all := events + Closing(n, calls, now, status);
    assert all[..|all| - 1][..|all| - 2] == events;
  }

  /** Operator limits leave room for the stream of every admitted tool call. */
  predicate LimitsAdmitted(limits: Limits) {
    limits.maxEvents >= limits.maxToolCalls * 2 + 3 && limits.maxCost >= 0.0
  }

  lemma ForcedEvents(status: Status, tools: seq<Completed>, calls: nat, limits: Limits, startedAt: Time, now: Time)
    requires OneEntryEach(tools) && GatewayNames(tools) && OneAfterAnother(tools, startedAt, now)
    ensures var t := Forced(status, tools, calls, startedAt, now);
            && (forall i :: 0 <= i < |t.events| ==>
                  WellPlaced(t.events, i, startedAt, now) && TransportEvent(t.events, i, tools, limits)
                  && PublicEvent(t.events, i))
            && Concludes(t.events, status, t.usage, 0)
            && Requested(t.events).Keys == CompletedIds(t.events)
            && t.events[|t.events| - 1].body == SessionCompleted(status)
  {
    hide OpensWell, TransportEvent, PublicEvent, WellPlaced, Requested, CompletedIds, LatestUsage, OutputBytes;
    var opening := Opening(tools, startedAt);
    assert tools == tools[..|tools|];
    OpeningOpensWell(tools, tools, limits, startedAt, now);
    OpeningReads(tools, startedAt);
    ClosingFits(opening, Closing(|tools|, calls, now, status), calls, tools, limits, startedAt, now, status, |tools|);
    ClosingReads(opening, |tools|, calls, now, status);
  }

  /**
   A forced cancellation or timeout: under a clock that never goes back its stream of two events a call and
   three more passes the harness's own check exactly when the provider stayed within its tool calls.
   */
  lemma ForcedStreamAccepted(status: Status, tools: seq<Completed>, calls: nat, limits: Limits, startedAt: Time,
                             now: Time, implementer: bool)
    requires status == Cancelled || status == Timeout
    requires LimitsAdmitted(limits) && |tools| <= calls
    requires OneEntryEach(tools) && GatewayNames(tools) && OneAfterAnother(tools, startedAt, now)
    ensures var t := Forced(status, tools, calls, startedAt, now);
            && |t.events| == 2 * |tools| + 3
            && (TransportAccepts(t, limits, tools, calls, startedAt, now, implementer, true)
                <==> calls <= limits.maxToolCalls)
  {
    hide TransportEvent, PublicEvent, WellPlaced, Requested, CompletedIds, Concludes, Opening;
    ForcedEvents(status, tools, calls, limits, startedAt, now);
  }

  /** And what is built from it, under either final status, passes the public parser. */
  lemma ForcedStreamPublishes(status: Status, tools: seq<Completed>, calls: nat, limits: Limits, startedAt: Time,
                              now: Time, completedAt: Time, implementer: bool, aborted: bool, timedOut: bool,
                              requestId: Id, binding: nat, resumable: Digest)
    requires status == Cancelled || status == Timeout
    requires now <= completedAt
    requires OneEntryEach(tools) && GatewayNames(tools) && OneAfterAnother(tools, startedAt, now)
    ensures var t := Forced(status, tools, calls, startedAt, now);
            PublicAccepts(Build(t, FinalStatus(t, aborted, timedOut), startedAt, completedAt, requestId, binding,
                                implementer, resumable))
  {
    hide TransportEvent, PublicEvent, WellPlaced, Requested, CompletedIds, Concludes, Opening, Build, Settle, Plain,
         PublicSchema;
    var t := Forced(status, tools, calls, startedAt, now);
    var final := FinalStatus(t, aborted, timedOut);
    ForcedEvents(status, tools, calls, limits, startedAt, now);
    BuiltSchema(t, final, startedAt, completedAt, requestId, binding, implementer, resumable);
    BuiltEvents(t, final, startedAt, completedAt, requestId, binding, implementer, resumable);
    SettledConcludes(t, final);
    SettlingKeepsReadings(t.events, final);
    forall i | 0 <= i < |t.events|
      ensures WellPlaced(Settle(t.events, final), i, startedAt, completedAt)
      ensures PublicEvent(Settle(t.events, final), i)
    {
      SettlingKeepsEvents(t.events, final, i, startedAt, completedAt);
      LaterEnd(t.events, i, startedAt, now, completedAt);
    }
  }
}
