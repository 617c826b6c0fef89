/**
 The provider's event stream between its two readers: the harness's check of what the host transport
 returned, and the public parser that everything the harness publishes must pass.
 */
module ProviderStream {
  import opened Options

  type Id = nat
  type Name = nat
  type Digest = nat
  type Time = int

  datatype Status = Success | Failure | Cancelled | Timeout
  datatype ToolStatus = ToolSuccess | ToolFailure | ToolRefused | ToolCancelled | ToolTimeout
  datatype Usage = Usage(inputTokens: nat, outputTokens: nat, cost: real, toolCalls: nat)

  datatype Body =
    | SessionStarted
    | ModelOutput(bytes: nat)
    | ToolRequested(id: Id, name: Name, requestDigest: Digest, argumentsDigest: Digest)
    | ToolCompleted(id: Id, name: Name, toolStatus: ToolStatus, resultDigest: Digest)
    | UsageUpdated(usage: Usage)
    | SessionCompleted(status: Status)

  datatype Event = Event(sequence: nat, at: Time, body: Body)

  datatype Transport = Transport(
    status: Status,
    outputDigest: Option<Digest>,
    outputBytes: nat,
    turns: nat,
    usage: Usage,
    events: seq<Event>,
    sessionRef: Option<Digest>,
    failure: Option<nat>)

  datatype Limits = Limits(maxEvents: nat, maxTurns: nat, maxInput: nat, maxOutput: nat, maxBytes: nat, maxCost: real,
                           maxToolCalls: nat)

  /** A gateway call that returned, under the key of its result. */
  datatype Completed = Completed(requestName: Name, argumentsDigest: Digest, id: Id, name: Name, toolStatus: ToolStatus,
                                 requestDigest: Digest, resultDigest: Digest, startedAt: Time, completedAt: Time)

  datatype Bound = Bound(requestId: Id, binding: nat, event: Event)

  datatype Result = Result(
    startedAt: Time,
    completedAt: Time,
    requestId: Id,
    binding: nat,
    status: Status,
    outputDigest: Option<Digest>,
    outputBytes: nat,
    usage: Usage,
    events: seq<Bound>,
    resume: Option<Digest>,
    failure: Option<nat>)

  /** A result as it is handed over, with the digest of everything else in it. */
  datatype Sealed = Sealed(content: Result, digest: Digest)

  // ---------------------------------------------------------------- reading a stream

  function Requested(events: seq<Event>): (names: map<Id, Name>) {
    if |events| == 0 then map[]
    else
      var before, last := Requested(events[..|events| - 1]), events[|events| - 1].body;
      if last.ToolRequested? then before[last.id := last.name] else before
  }

  function CompletedIds(events: seq<Event>): (ids: set<Id>) {
    if |events| == 0 then {}
    else
      var before, last := CompletedIds(events[..|events| - 1]), events[|events| - 1].body;
      if last.ToolCompleted? then before + {last.id} else before
  }

  function LatestUsage(events: seq<Event>): (usage: Option<Usage>) {
    if |events| == 0 then None
    else
      var last := events[|events| - 1].body;
      if last.UsageUpdated? then Some(last.usage) else LatestUsage(events[..|events| - 1])
  }

  function OutputBytes(events: seq<Event>): (bytes: nat) {
    if |events| == 0 then 0
    else
      var last := events[|events| - 1].body;
      OutputBytes(events[..|events| - 1]) + if last.ModelOutput? then last.bytes else 0
  }

  function Plain(events: seq<Bound>): (plain: seq<Event>)
    ensures |plain| == |events| && forall i :: 0 <= i < |events| ==> plain[i] == events[i].event
  {
    seq(|events|, i requires 0 <= i < |events| => events[i].event)
  }

  /** The rules both readers share for the event at `i`. */
  predicate WellPlaced(events: seq<Event>, i: nat, from: Time, to: Time)
    requires i < |events|
  {
    && events[i].sequence == i + 1
    && from <= events[i].at <= to
    && (i > 0 ==> events[i - 1].at <= events[i].at)
    && (events[i].body.SessionStarted? <==> i == 0)
    && (events[i].body.SessionCompleted? ==> i == |events| - 1)
  }

  /** The end of the stream says what the result says. */
  predicate Concludes(events: seq<Event>, status: Status, usage: Usage, outputBytes: nat) {
    && (|events| > 0 && events[|events| - 1].body.SessionCompleted? ==> events[|events| - 1].body.status == status)
    && (LatestUsage(events).Some? ==> LatestUsage(events).value == usage)
    && (OutputBytes(events) > 0 ==> OutputBytes(events) == outputBytes)
  }

  /** Opened, and closed with `status`. */
  predicate Complete(events: seq<Event>, status: Status) {
    |events| > 0 && events[0].body.SessionStarted? && events[|events| - 1].body == SessionCompleted(status)
  }

  // ---------------------------------------------------------------- the public parser

  predicate PublicEvent(events: seq<Event>, i: nat)
    requires i < |events|
  {
    match events[i].body
    case ToolRequested(id, _, _, _) => id !in Requested(events[..i])
    case ToolCompleted(id, name, _, _) =>
      id in Requested(events[..i]) && Requested(events[..i])[id] == name && id !in CompletedIds(events[..i])
    case _ => true
  }

  ghost predicate PublicSchema(r: Result) {
    && (r.status == Success <==> r.outputDigest.Some?)
    && (r.status == Failure <==> r.failure.Some?)
    && (r.status == Cancelled || r.status == Timeout ==> r.resume.None?)
  }

  ghost predicate PublicAccepts(r: Result) {
    var events := Plain(r.events);
    && PublicSchema(r)
    && r.startedAt <= r.completedAt
    && (forall i :: 0 <= i < |r.events| ==> r.events[i].requestId == r.requestId && r.events[i].binding == r.binding)
    && (forall i :: 0 <= i < |events| ==> WellPlaced(events, i, r.startedAt, r.completedAt) && PublicEvent(events, i))
    && Concludes(events, r.status, r.usage, r.outputBytes)
    && Requested(events).Keys <= CompletedIds(events)
    && (r.status == Success ==> Complete(events, Success))
  }

  /** The loop of `parseAsfProviderResult` over the events themselves. */
  method ReadStream(events: seq<Event>, from: Time, to: Time)
    returns (ok: bool, requested: map<Id, Name>, completed: set<Id>, latest: Option<Usage>, bytes: nat,
             terminal: Option<Status>)
    ensures ok <==> forall i :: 0 <= i < |events| ==> WellPlaced(events, i, from, to) && PublicEvent(events, i)
    ensures ok ==> requested == Requested(events) && completed == CompletedIds(events)
    ensures ok ==> latest == LatestUsage(events) && bytes == OutputBytes(events)
    ensures ok ==> terminal == if |events| > 0 && events[|events| - 1].body.SessionCompleted?
                               then Some(events[|events| - 1].body.status) else None
  {
    ok, requested, completed, latest, bytes, terminal := true, map[], {}, None, 0, None;
    var sessionStarted, previous := false, from;
    for i := 0 to |events|
      invariant requested == Requested(events[..i]) && completed == CompletedIds(events[..i])
      invariant latest == LatestUsage(events[..i]) && bytes == OutputBytes(events[..i])
      invariant sessionStarted == (i > 0)
      invariant terminal == if i > 0 && events[i - 1].body.SessionCompleted?
                            then Some(events[i - 1].body.status) else None
      invariant terminal.Some? ==> i == |events|
      invariant previous == if i == 0 then from else events[i - 1].at
      invariant forall j :: 0 <= j < i ==> WellPlaced(events, j, from, to) && PublicEvent(events, j)
    {
      assert events[..i + 1][..i] == events[..i];
      var event := events[i];
      if event.sequence != i + 1 || event.at < from || event.at > to || event.at < previous {
        assert !WellPlaced(events, i, from, to);
        ok := false;
        return;
      }
      previous := event.at;
      if event.body.SessionStarted? {
        if sessionStarted || i != 0 {
          assert !WellPlaced(events, i, from, to);
          ok := false;
          return;
        }
        sessionStarted := true;
      } else if !sessionStarted {
        assert !WellPlaced(events, i, from, to);
        ok := false;
        return;
      }
      match event.body
      case SessionStarted =>
      case ModelOutput(byteCount) => bytes := bytes + byteCount;
      case UsageUpdated(usage) => latest := Some(usage);
      case ToolRequested(id, name, _, _) =>
        if id in requested {
          assert !PublicEvent(events, i);
          ok := false;
          return;
        }
        requested := requested[id := name];
      case ToolCompleted(id, name, _, _) =>
        if id !in requested || requested[id] != name || id in completed {
          assert !PublicEvent(events, i);
          ok := false;
          return;
        }
        completed := completed + {id};
      case SessionCompleted(status) =>
        if i != |events| - 1 {
          assert !WellPlaced(events, i, from, to);
          ok := false;
          return;
        }
        terminal := Some(status);
    }
    assert events[..|events|] == events;
  }

  /** `parseAsfProviderResult`, for the digest `sha` of a result's content. */
  method ParseProviderResult(sealed: Sealed, sha: Result -> Digest) returns (ok: bool)
    ensures ok <==> PublicAccepts(sealed.content) && sealed.digest == sha(sealed.content)
  {
    hide WellPlaced, PublicEvent, Requested, CompletedIds, LatestUsage, OutputBytes;
    var r := sealed.content;
    if || (r.status == Success) != r.outputDigest.Some? || (r.status == Failure) != r.failure.Some?
       || ((r.status == Cancelled || r.status == Timeout) && r.resume.Some?) { return false; }
    if r.startedAt > r.completedAt { return false; }
    for i := 0 to |r.events|
      invariant forall j :: 0 <= j < i ==> r.events[j].requestId == r.requestId && r.events[j].binding == r.binding
    {
      if r.events[i].requestId != r.requestId || r.events[i].binding != r.binding { return false; }
    }
    var events := Plain(r.events);
    var placed, requested, completed, latest, bytes, terminal := ReadStream(events, r.startedAt, r.completedAt);
    if !placed { return false; }
    FirstIsStart(events, r.startedAt, r.completedAt);
    if terminal.Some? && terminal.value != r.status { return false; }
    if latest.Some? && latest.value != r.usage { return false; }
    if bytes > 0 && bytes != r.outputBytes { return false; }
    if !(requested.Keys <= completed) { return false; }
    if r.status == Success && (|events| == 0 || terminal != Some(Success)) { return false; }
    return sha(r) == sealed.digest;
  }

  /** In a well placed stream the first event opens the session. */
  lemma FirstIsStart(events: seq<Event>, from: Time, to: Time)
    requires forall i :: 0 <= i < |events| ==> WellPlaced(events, i, from, to)
    ensures |events| > 0 ==> events[0].body.SessionStarted?
  {
    if |events| > 0 {
      assert WellPlaced(events, 0, from, to);
    }
  }

  // ---------------------------------------------------------------- the harness's own check

  function Lookup(tools: seq<Completed>, id: Id): (tool: Option<Completed>)
    ensures tool.Some? ==> tool.value in tools && tool.value.id == id
    ensures tool.None? ==> forall c :: c in tools ==> c.id != id
  {
    if |tools| == 0 then None
    else if tools[0].id == id then Some(tools[0])
    else Lookup(tools[1..], id)
  }

  /** `completedTools` is a map: one entry for each request id. */
  ghost predicate OneEntryEach(tools: seq<Completed>) {
    forall i, j :: 0 <= i < j < |tools| ==> tools[i].id != tools[j].id
  }

  predicate UsageGrows(before: Option<Usage>, after: Usage) {
    before.Some? ==>
      && before.value.inputTokens <= after.inputTokens && before.value.outputTokens <= after.outputTokens
      && before.value.cost <= after.cost && before.value.toolCalls <= after.toolCalls
  }

  /** The event at `i` against the gateway calls that really happened, and against the limits. */
  predicate TransportEvent(events: seq<Event>, i: nat, tools: seq<Completed>, limits: Limits)
    requires i < |events|
  {
    match events[i].body
    case ModelOutput(bytes) => OutputBytes(events[..i]) + bytes <= limits.maxBytes
    case UsageUpdated(usage) => UsageGrows(LatestUsage(events[..i]), usage)
    case ToolRequested(id, name, requestDigest, argumentsDigest) =>
      var tool := Lookup(tools, id);
      && tool.Some? && tool.value.requestName == name && tool.value.requestDigest == requestDigest
      && tool.value.argumentsDigest == argumentsDigest && id !in Requested(events[..i])
    case ToolCompleted(id, name, toolStatus, resultDigest) =>
      var tool := Lookup(tools, id);
      && tool.Some? && id in Requested(events[..i]) && id !in CompletedIds(events[..i])
      && tool.value.name == name && tool.value.toolStatus == toolStatus && tool.value.resultDigest == resultDigest
    case _ => true
  }

  predicate WithinLimits(t: Transport, limits: Limits, observedCalls: nat) {
    && |t.events| <= limits.maxEvents && t.turns <= limits.maxTurns
    && t.usage.inputTokens <= limits.maxInput && t.usage.outputTokens <= limits.maxOutput
    && t.outputBytes <= limits.maxBytes && t.usage.cost <= limits.maxCost
    && t.usage.toolCalls <= limits.maxToolCalls && t.usage.toolCalls == observedCalls
  }

  predicate TransportSchema(t: Transport, implementer: bool) {
    && (t.status == Success ==> t.outputDigest.Some?)
    && (t.status == Failure <==> t.failure.Some?)
    && (!implementer ==> t.sessionRef.None?)
  }

  predicate Reported(events: seq<Event>, tool: Completed) {
    exists i :: 0 <= i < |events| && events[i].body.ToolCompleted? && events[i].body.id == tool.id
                && events[i].body.resultDigest == tool.resultDigest
  }

  ghost predicate TransportAccepts(t: Transport, limits: Limits, tools: seq<Completed>, observedCalls: nat,
                                   startedAt: Time, now: Time, implementer: bool, forced: bool)
  {
    && WithinLimits(t, limits, observedCalls)
    && TransportSchema(t, implementer)
    && (forall i :: 0 <= i < |t.events| ==>
          WellPlaced(t.events, i, startedAt, now) && TransportEvent(t.events, i, tools, limits))
    && Concludes(t.events, t.status, t.usage, t.outputBytes)
    && (!forced ==> forall i :: 0 <= i < |tools| ==> Reported(t.events, tools[i]))
  }

  /** `#assertTransportResult`. */
  method AssertTransportResult(t: Transport, limits: Limits, tools: seq<Completed>, observedCalls: nat, startedAt: Time,
                               now: Time, implementer: bool, forced: bool) returns (ok: bool)
    ensures ok == TransportAccepts(t, limits, tools, observedCalls, startedAt, now, implementer, forced)
  {
    if !WithinLimits(t, limits, observedCalls) || !TransportSchema(t, implementer) { return false; }
    var requested: set<Id>, completed: set<Id> := {}, {};
    var sessionStarted, bytes := false, 0;
    var terminal: Option<Status>, latest: Option<Usage> := None, None;
    var previous := startedAt;
    for i := 0 to |t.events|
      invariant requested == Requested(t.events[..i]).Keys && completed == CompletedIds(t.events[..i])
      invariant latest == LatestUsage(t.events[..i]) && bytes == OutputBytes(t.events[..i])
      invariant sessionStarted == (i > 0)
      invariant terminal.Some? <==> i > 0 && t.events[i - 1].body.SessionCompleted?
      invariant terminal.Some? ==> i == |t.events| && terminal.value == t.events[i - 1].body.status
      invariant previous == if i == 0 then startedAt else t.events[i - 1].at
      invariant forall j :: 0 <= j < i
                  ==> WellPlaced(t.events, j, startedAt, now) && TransportEvent(t.events, j, tools, limits)
    {
      assert t.events[..i + 1][..i] == t.events[..i];
      var event := t.events[i];
      if event.sequence != i + 1 || event.at < previous || event.at < startedAt || event.at > now {
        assert !WellPlaced(t.events, i, startedAt, now);
        return false;
      }
      previous := event.at;
      if event.body.SessionStarted? {
        if sessionStarted || i != 0 { assert !WellPlaced(t.events, i, startedAt, now); return false; }
        sessionStarted := true;
      } else if !sessionStarted {
        assert !WellPlaced(t.events, i, startedAt, now);
        return false;
      }
      match event.body
      case SessionStarted =>
      case ModelOutput(byteCount) =>
        bytes := bytes + byteCount;
        if byteCount > limits.maxBytes || bytes > limits.maxBytes {
          assert !TransportEvent(t.events, i, tools, limits);
          return false;
        }
      case UsageUpdated(usage) =>
        if !UsageGrows(latest, usage) { assert !TransportEvent(t.events, i, tools, limits); return false; }
        latest := Some(usage);
      case ToolRequested(id, name, requestDigest, argumentsDigest) =>
        var tool := Lookup(tools, id);
        if || tool.None? || tool.value.requestName != name || tool.value.requestDigest != requestDigest
           || tool.value.argumentsDigest != argumentsDigest || id in requested {
          assert !TransportEvent(t.events, i, tools, limits);
          return false;
        }
        requested := requested + {id};
      case ToolCompleted(id, name, toolStatus, resultDigest) =>
        var tool := Lookup(tools, id);
        if || tool.None? || id !in requested || id in completed || tool.value.name != name
           || tool.value.toolStatus != toolStatus || tool.value.resultDigest != resultDigest {
          assert !TransportEvent(t.events, i, tools, limits);
          return false;
        }
        completed := completed + {id};
      case SessionCompleted(status) =>
        if i != |t.events| - 1 { assert !WellPlaced(t.events, i, startedAt, now); return false; }
        terminal := Some(status);
    }
    assert t.events[..|t.events|] == t.events;
    if latest.Some? && latest.value != t.usage { return false; }
    if bytes > 0 && bytes != t.outputBytes { return false; }
    if terminal.Some? && terminal.value != t.status { return false; }
    for i := 0 to |tools|
      invariant !forced ==> forall j :: 0 <= j < i ==> Reported(t.events, tools[j])
    {
      if !Reported(t.events, tools[i]) && !forced { return false; }
    }
    return true;
  }
}
