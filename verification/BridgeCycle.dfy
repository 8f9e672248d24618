/** One connection cycle: the gateway's writer queue, the wire, the Bridge with
    its relay state, and a fresh MCP child. A reconnect is a new cycle. */
module BridgeCycle {
  import opened Common
  import opened Wire
  import opened BridgeRelay
  import opened McpChild

  /** `Starting(k)`: bring-up request k is out and its response is awaited.
      `Probing`: bring-up is over, Studio readiness is being detected. */
  datatype Phase = Dialed | Starting(step: int) | Probing | Relaying | Ended

  const LastBringUp := 3

  type Counts = map<GatewayId, nat>

  /** The gateway's bounded writer queue of the connection. */
  datatype Hub = Hub(open: bool, capacity: nat, queue: seq<Down>)

  /** The MCP child: its pending table, every frame it was given, those it has
      not answered, and its output queue. */
  datatype Child = Child(
    pending: PendingCalls,
    given: set<ChildRequest>,
    unanswered: set<ChildRequest>,
    responses: seq<Frame>)

  /** History: nothing reads it. `executions` counts the frames of a call the
      child was ever given, `executedAt` says when, and `sent` counts the
      responses the Bridge queued for it. */
  datatype Log = Log(
    accepted: map<GatewayId, Option<JsonId>>,
    cancelsQueued: set<GatewayId>,
    cancelsDone: set<GatewayId>,
    executions: Counts,
    executedAt: map<GatewayId, int>,
    answers: map<GatewayId, Content>,
    sent: Counts)

  datatype Cycle = Cycle(
    device: string,
    hub: Hub,
    inbound: seq<Down>,
    phase: Phase,
    bridge: Bridge,
    outbound: seq<Response>,
    child: Child,
    log: Log)

  function NewCycle(device: string, capacity: nat): Cycle {
    Cycle(device, Hub(true, capacity, []), [], Dialed, FreshBridge, [],
          Child(map[], {}, {}, []), Log(map[], {}, {}, map[], map[], map[], map[]))
  }

  datatype EnqueueResult = Queued | ConnectionClosed | SlowConsumer

  /** Connection.enqueue: never blocks; a full queue closes the connection. */
  function Enqueue(c: Cycle, env: Down): (r: (Cycle, EnqueueResult)) {
    if !c.hub.open then (c, ConnectionClosed)
    else if |c.hub.queue| < c.hub.capacity then
      (c.(hub := c.hub.(queue := c.hub.queue + [env]), log := LogEnqueued(c.log, env)), Queued)
    else (c.(hub := c.hub.(open := false)), SlowConsumer)
  }

  function LogEnqueued(l: Log, env: Down): Log {
    if env.RequestEnv? then l.(accepted := l.accepted[env.gatewayId := env.id])
    else l.(cancelsQueued := l.cancelsQueued + {env.gatewayId})
  }

  function Tick(m: Counts, g: GatewayId): Counts {
    m[g := (if g in m then m[g] else 0) + 1]
  }

  function Give(child: Child, r: ChildRequest): Child {
    if r.id.Some? then
      child.(given := child.given + {r}, unanswered := child.unanswered + {r},
             pending := Added(child.pending, r.id.value))
    else child.(given := child.given + {r})
  }

  function LogGiven(l: Log, r: ChildRequest): Log {
    if r.origin.Call? then l.(executions := Tick(l.executions, r.origin.gatewayId)) else l
  }

  /** A frame reaches the child's stdin. */
  function Write(c: Cycle, r: ChildRequest): Cycle {
    c.(child := Give(c.child, r), log := LogGiven(c.log, r))
  }

  function BringUpRequest(k: int): ChildRequest {
    ChildRequest(Some(Num(k)), BringUp(k))
  }

  function End(c: Cycle): Cycle {
    c.(phase := Ended, bridge := FreshBridge)
  }

  datatype CycleStep =
    | HubWrite
    | HubClose
    | LoseDown(kept: nat)
    | LoseUp(kept: nat)
    | BringUpStart
    | BringUpReceive
    | StudioDetected
    | Dispatch(now: int, send: SendOutcome)
    | ChildAnswers(request: ChildRequest, failed: bool, body: int)
    | ChildSpeaks(id: Option<JsonId>)
    | Route(accepted: bool)
    | EndCycle

  function PopFrame(c: Cycle): Cycle
    requires |c.child.responses| > 0
  {
    c.(child := c.child.(responses := c.child.responses[1..]))
  }

  /** receiveResponseFrame: frames with another id are skipped; the awaited id
      must carry a result. */
  function Received(c: Cycle): (r: Cycle)
    requires c.phase.Starting? && |c.child.responses| > 0
  {
    var k := c.phase.step;
    var f := c.child.responses[0];
    if f.id != Some(Num(k)) then PopFrame(c)
    else if f.content.Method? || f.content.failed then End(PopFrame(c))
    else if k < LastBringUp then Write(PopFrame(c).(phase := Starting(k + 1)), BringUpRequest(k + 1))
    else PopFrame(c).(phase := Probing)
  }

  function PopEnvelope(c: Cycle, b: Bridge): Cycle
    requires |c.inbound| > 0
  {
    c.(inbound := c.inbound[1..], bridge := b)
  }

  function Timed(c: Cycle, g: GatewayId, now: int): Cycle {
    c.(log := c.log.(executedAt := c.log.executedAt[g := now]))
  }

  function Dispatched(c: Cycle, now: int, send: SendOutcome): (r: Cycle)
    requires c.phase.Relaying? && |c.inbound| > 0
  {
    var env := c.inbound[0];
    if env.CancelEnv? then
      PopEnvelope(c, Cancelled(c.bridge, env.gatewayId)).(
        log := c.log.(cancelsDone := c.log.cancelsDone + {env.gatewayId}))
    else
      var frame := ForwardFrame(c.bridge, env, now);
      var popped := PopEnvelope(c, Forwarded(c.bridge, env, now, send));
      if frame.Some? && !send.NotWritten? then Timed(Write(popped, frame.value), env.gatewayId, now) else popped
  }

  function LogAnswered(l: Log, r: ChildRequest, content: Content): Log {
    if r.origin.Call? then l.(answers := l.answers[r.origin.gatewayId := content]) else l
  }

  function Deliver(child: Child, f: Frame): Child
    requires f.id.Some?
  {
    if HasPending(child.pending, f.id.value) then
      child.(pending := Removed(child.pending, f.id.value), responses := child.responses + [f])
    else child
  }

  /** The child answers a request it was given, at most once; the process lets
      the answer through while its id is pending. */
  function Answered(c: Cycle, r: ChildRequest, failed: bool, body: int): (n: Cycle)
    requires r in c.child.unanswered && r.id.Some?
  {
    var content := Outcome(r.origin, failed, body);
    c.(child := Deliver(c.child.(unanswered := c.child.unanswered - {r}), Frame(r.id, content)),
       log := LogAnswered(c.log, r, content))
  }

  /** routeChildFrame; `queued` says whether the session took the envelope. */
  function RoutedUp(c: Cycle, queued: bool): (r: Cycle)
    requires c.phase.Relaying? && |c.child.responses| > 0
  {
    var f := c.child.responses[0];
    var popped := PopFrame(c).(bridge := Routed(c.bridge, f));
    var response := RouteResponse(c.bridge, f);
    if response.Some? && queued then
      popped.(outbound := c.outbound + [response.value],
              log := c.log.(sent := Tick(c.log.sent, response.value.gatewayId)))
    else popped
  }

  /** One step of the cycle; a step that is not enabled changes nothing. */
  function CycleNext(c: Cycle, step: CycleStep): (r: Cycle) {
    match step
    case HubWrite =>
      if |c.hub.queue| > 0 then
        c.(inbound := c.inbound + [c.hub.queue[0]], hub := c.hub.(queue := c.hub.queue[1..]))
      else c
    case HubClose => c.(hub := c.hub.(open := false))
    case LoseDown(kept) =>
      if kept <= |c.inbound| then c.(inbound := c.inbound[..kept], hub := c.hub.(open := false, queue := [])) else c
    case LoseUp(kept) =>
      if kept <= |c.outbound| then c.(outbound := c.outbound[..kept]) else c
    case BringUpStart =>
      if c.phase.Dialed? then Write(c.(phase := Starting(1)), BringUpRequest(1)) else c
    case BringUpReceive =>
      if c.phase.Starting? && |c.child.responses| > 0 then Received(c) else c
    case StudioDetected =>
      if c.phase.Probing? then c.(phase := Relaying, bridge := FreshBridge) else c
    case Dispatch(now, send) =>
      if c.phase.Relaying? && |c.inbound| > 0 then Dispatched(c, now, send) else c
    case ChildAnswers(r, failed, body) =>
      if !c.phase.Ended? && r in c.child.unanswered && r.id.Some? then Answered(c, r, failed, body) else c
    case ChildSpeaks(id) =>
      if !c.phase.Ended? then c.(child := c.child.(responses := c.child.responses + [Frame(id, Method)])) else c
    case Route(queued) =>
      if c.phase.Relaying? && |c.child.responses| > 0 then RoutedUp(c, queued) else c
    case EndCycle => End(c)
  }

  // ---------------------------------------------------------------- invariant
  // Each part is stated over the components it speaks of, so that a step leaves
  // the parts it does not touch visibly alone.

  ghost predicate AllOnce(m: Counts) {
    forall g :: g in m ==> m[g] == 1
  }

  /** Requests on their way down: each was accepted here, none twice, none was
      executed or cancelled yet, and no cancel overtakes its request. */
  ghost predicate DownInv(d: seq<Down>, l: Log) {
    && (forall i :: 0 <= i < |d| && d[i].RequestEnv? ==>
          && d[i].gatewayId in l.accepted && l.accepted[d[i].gatewayId] == d[i].id
          && d[i].gatewayId !in l.executions && d[i].gatewayId !in l.cancelsDone)
    && (forall i, j :: 0 <= i < j < |d| && d[j].RequestEnv? ==> d[i].gatewayId != d[j].gatewayId)
    && (forall i :: 0 <= i < |d| && d[i].CancelEnv? ==> d[i].gatewayId in l.cancelsQueued)
    && l.cancelsDone <= l.cancelsQueued
  }

  /** Counters: no call reached the child twice, none was responded to twice. */
  ghost predicate LogInv(l: Log) {
    && AllOnce(l.executions) && AllOnce(l.sent)
    && l.executions.Keys <= l.accepted.Keys
    && l.answers.Keys <= l.executions.Keys
    && l.sent.Keys <= l.executions.Keys
  }

  /** Frames given to the child: one per call, no local id twice; before the
      relay loop there are bring-up frames only. */
  ghost predicate GivenInv(given: set<ChildRequest>, executions: Counts, next: int, phase: Phase) {
    && (forall r :: r in given && r.origin.Call? ==> r.origin.gatewayId in executions)
    && (forall q, r :: q in given && r in given && q.origin.Call? && r.origin.Call? && q.id.Some? && q.id == r.id ==>
          q == r)
    && (phase.Relaying? ==>
          forall r :: r in given && r.origin.Call? && r.id.Some? ==> r.id.value.Num? && r.id.value.n < next)
    && (!phase.Relaying? && !phase.Ended? ==> forall r :: r in given ==> r.origin.BringUp?)
  }

  /** Every live correlation points at a frame the child was really given. */
  ghost predicate CorrelationInv(b: Bridge, given: set<ChildRequest>, l: Log) {
    && Paired(b)
    && (forall k :: k in b.localById ==>
          var call := b.localById[k];
          && ChildRequest(Some(k), Call(call.gatewayId)) in given
          && call.gatewayId in l.accepted && l.accepted[call.gatewayId] == Some(call.originalId)
          && call.gatewayId !in l.cancelsDone
          && call.gatewayId !in l.sent)
  }

  ghost predicate FrameInv(f: Frame, given: set<ChildRequest>, answers: map<GatewayId, Content>) {
    f.content.Outcome? ==>
      && f.id.Some? && ChildRequest(f.id, f.content.origin) in given
      && (f.content.origin.Call? ==>
            f.content.origin.gatewayId in answers && answers[f.content.origin.gatewayId] == f.content)
  }

  /** What the child still owes, and what it answered. */
  ghost predicate ChildInv(child: Child, answers: map<GatewayId, Content>) {
    && Positive(child.pending)
    && (forall r :: r in child.unanswered ==>
          r in child.given && r.id.Some? && (r.origin.Call? ==> r.origin.gatewayId !in answers))
    && (forall q, r :: q in child.unanswered && r in child.unanswered && q.origin == r.origin ==> q == r)
    && (forall i :: 0 <= i < |child.responses| ==> FrameInv(child.responses[i], child.given, answers))
  }

  ghost predicate OnlyMethods(responses: seq<Frame>) {
    forall i :: 0 <= i < |responses| ==> responses[i].content.Method?
  }

  /** Bring-up drains: at most one bring-up answer is ever owed or queued, and
      none from the moment the Studio is being probed. */
  ghost predicate DrainInv(phase: Phase, unanswered: set<ChildRequest>, responses: seq<Frame>) {
    match phase
    case Starting(k) =>
      && 1 <= k <= LastBringUp
      && (forall r :: r in unanswered ==> r == BringUpRequest(k))
      && (unanswered != {} ==> OnlyMethods(responses))
      && (forall i :: 0 <= i < |responses| && responses[i].content.Outcome? ==>
            responses[i].id == Some(Num(k)) && responses[i].content.origin == BringUp(k))
      && (forall i, j :: 0 <= i < j < |responses| ==>
            responses[i].content.Method? || responses[j].content.Method?)
    case Relaying =>
      && (forall r :: r in unanswered ==> r.origin.Call?)
      && (forall i :: 0 <= i < |responses| && responses[i].content.Outcome? ==> responses[i].content.origin.Call?)
    case Ended => true
    case _ => unanswered == {} && OnlyMethods(responses)
  }

  ghost predicate ResponseInv(p: Response, l: Log) {
    && p.gatewayId in l.accepted && p.payload.id.Some? && l.accepted[p.gatewayId] == p.payload.id
    && (p.payload.content.Outcome? ==>
          && p.payload.content.origin == Call(p.gatewayId)
          && p.gatewayId in l.answers && l.answers[p.gatewayId] == p.payload.content)
  }

  /** Responses on their way up carry their own call's answer. */
  ghost predicate UpInv(outbound: seq<Response>, l: Log) {
    forall i :: 0 <= i < |outbound| ==> ResponseInv(outbound[i], l)
  }

  function Downstream(c: Cycle): seq<Down> {
    c.inbound + c.hub.queue
  }

  ghost predicate CycleInv(c: Cycle) {
    && DownInv(Downstream(c), c.log)
    && LogInv(c.log)
    && GivenInv(c.child.given, c.log.executions, c.bridge.nextLocalId, c.phase)
    && CorrelationInv(c.bridge, c.child.given, c.log)
    && (!c.phase.Relaying? ==> c.bridge == FreshBridge)
    && ChildInv(c.child, c.log.answers)
    && DrainInv(c.phase, c.child.unanswered, c.child.responses)
    && UpInv(c.outbound, c.log)
  }

  ghost predicate CountsGrow(m: Counts, n: Counts) {
    forall g :: g in m ==> g in n && m[g] <= n[g]
  }

  /** History only grows; what a cycle accepted or answered never changes. */
  ghost predicate Extends(l: Log, n: Log) {
    && (forall g :: g in l.accepted ==> g in n.accepted && n.accepted[g] == l.accepted[g])
    && (forall g :: g in l.answers ==> g in n.answers && n.answers[g] == l.answers[g])
    && CountsGrow(l.executions, n.executions)
    && CountsGrow(l.sent, n.sent)
    && l.cancelsDone <= n.cancelsDone
    && l.cancelsQueued <= n.cancelsQueued
  }

  lemma NewCycleInv(device: string, capacity: nat)
    ensures CycleInv(NewCycle(device, capacity))
  {
  }

  lemma LiveIsAccepted(c: Cycle, g: GatewayId)
    requires CycleInv(c) && g in c.bridge.byGatewayId
    ensures g in c.log.accepted && g !in c.log.cancelsDone && g !in c.log.sent && g in c.log.executions
  {
    assert Num(c.bridge.byGatewayId[g]) in c.bridge.localById;
  }

  lemma EnqueueInv(c: Cycle, env: Down)
    requires CycleInv(c)
    requires env.RequestEnv? ==> env.gatewayId !in c.log.accepted && env.gatewayId !in c.log.cancelsQueued
    ensures CycleInv(Enqueue(c, env).0) && Extends(c.log, Enqueue(c, env).0.log)
  {
    hide GivenInv, ChildInv, DrainInv;
    if Enqueue(c, env).1.Queued? {
      assert Downstream(Enqueue(c, env).0) == Downstream(c) + [env];
    }
  }

  // -------------------------------------------------------------------- steps

  lemma HubWriteInv(c: Cycle)
    requires CycleInv(c)
    ensures CycleInv(CycleNext(c, HubWrite))
  {
    assert Downstream(CycleNext(c, HubWrite)) == Downstream(c);
  }

  lemma HubCloseInv(c: Cycle)
    requires CycleInv(c)
    ensures CycleInv(CycleNext(c, HubClose))
  {
    assert Downstream(CycleNext(c, HubClose)) == Downstream(c);
  }

  lemma LoseDownInv(c: Cycle, kept: nat)
    requires CycleInv(c) && kept <= |c.inbound|
    ensures CycleInv(CycleNext(c, LoseDown(kept)))
  {
    assert c.inbound[..kept] + [] == Downstream(c)[..kept];
  }

  lemma LoseUpInv(c: Cycle, kept: nat)
    requires CycleInv(c) && kept <= |c.outbound|
    ensures CycleInv(CycleNext(c, LoseUp(kept)))
  {
  }

  lemma StudioDetectedInv(c: Cycle)
    requires CycleInv(c) && c.phase.Probing?
    ensures CycleInv(CycleNext(c, StudioDetected))
  {
  }

  lemma ChildSpeaksInv(c: Cycle, id: Option<JsonId>)
    requires CycleInv(c)
    ensures CycleInv(CycleNext(c, ChildSpeaks(id)))
  {
    hide DownInv, LogInv, GivenInv, CorrelationInv, UpInv;
  }

  lemma EndInv(c: Cycle)
    requires CycleInv(c)
    ensures CycleInv(End(c))
  {
  }

  lemma BringUpWriteInv(c: Cycle, k: int)
    requires CycleInv(c) && 1 <= k <= LastBringUp && !c.phase.Relaying? && !c.phase.Ended?
    requires c.child.unanswered == {} && OnlyMethods(c.child.responses)
    ensures CycleInv(Write(c.(phase := Starting(k)), BringUpRequest(k)))
  {
    AddRemove(c.child.pending, Num(k));
  }

  lemma StartInv(c: Cycle)
    requires CycleInv(c) && c.phase.Dialed?
    ensures CycleInv(Write(c.(phase := Starting(1)), BringUpRequest(1)))
  {
    BringUpWriteInv(c, 1);
  }

  /** Taking one frame off the child's queue, whatever it is; a bring-up answer
      taken off leaves nothing owed and nothing queued. */
  lemma PopFrameInv(c: Cycle)
    requires CycleInv(c) && |c.child.responses| > 0
    ensures CycleInv(PopFrame(c))
    ensures c.phase.Starting? && c.child.responses[0].content.Outcome? ==>
              c.child.unanswered == {} && OnlyMethods(c.child.responses[1..])
  {
  }

  lemma DrainedInv(c: Cycle)
    requires CycleInv(c) && c.phase.Starting? && c.child.unanswered == {} && OnlyMethods(c.child.responses)
    ensures CycleInv(c.(phase := Probing))
  {
  }

  lemma AdvancedInv(c: Cycle)
    requires CycleInv(c) && c.phase.Starting? && |c.child.responses| > 0 && c.child.responses[0].content.Outcome?
    requires c.phase.step < LastBringUp
    ensures CycleInv(Write(PopFrame(c).(phase := Starting(c.phase.step + 1)), BringUpRequest(c.phase.step + 1)))
  {
    PopFrameInv(c);
    BringUpWriteInv(PopFrame(c), c.phase.step + 1);
  }

  lemma CompletedInv(c: Cycle)
    requires CycleInv(c) && c.phase.Starting? && |c.child.responses| > 0 && c.child.responses[0].content.Outcome?
    ensures CycleInv(PopFrame(c).(phase := Probing))
  {
    PopFrameInv(c);
    DrainedInv(PopFrame(c));
  }

  lemma ReceivedInv(c: Cycle)
    requires CycleInv(c) && c.phase.Starting? && |c.child.responses| > 0
    ensures CycleInv(Received(c))
  {
    hide CycleInv;
    var k := c.phase.step;
    var f := c.child.responses[0];
    if f.id != Some(Num(k)) {
      PopFrameInv(c);
      assert Received(c) == PopFrame(c);
    } else if f.content.Method? || f.content.failed {
      PopFrameInv(c);
      EndInv(PopFrame(c));
      assert Received(c) == End(PopFrame(c));
    } else if k < LastBringUp {
      AdvancedInv(c);
      assert Received(c) == Write(PopFrame(c).(phase := Starting(k + 1)), BringUpRequest(k + 1));
    } else {
      CompletedInv(c);
      assert Received(c) == PopFrame(c).(phase := Probing);
    }
  }

  lemma CancelDispatchedInv(c: Cycle, now: int, send: SendOutcome)
    requires CycleInv(c) && c.phase.Relaying? && |c.inbound| > 0 && c.inbound[0].CancelEnv?
    ensures CycleInv(Dispatched(c, now, send))
  {
    hide GivenInv, ChildInv, DrainInv;
    var d := Downstream(c);
    assert Downstream(Dispatched(c, now, send)) == d[1..] && d[0] == c.inbound[0];
    RemovalPaired(c.bridge, c.inbound[0].gatewayId, Frame(None, Method));
  }

  /** A request leaves the queue and, unless it expired, spends a local id. */
  lemma PopRequestInv(c: Cycle, next: int)
    requires CycleInv(c) && c.phase.Relaying? && |c.inbound| > 0 && next >= c.bridge.nextLocalId
    ensures CycleInv(PopEnvelope(c, c.bridge.(nextLocalId := next)))
  {
    var d := Downstream(c);
    assert c.inbound[1..] + c.hub.queue == d[1..] && d[0] == c.inbound[0];
  }

  /** The frame of an accepted call, not executed before, reaches the child. */
  lemma GiveCallInv(c: Cycle, g: GatewayId, id: Option<JsonId>)
    requires CycleInv(c) && c.phase.Relaying? && g in c.log.accepted && g !in c.log.executions
    requires id.Some? ==> id.value.Num? && id.value.n < c.bridge.nextLocalId
    requires id.Some? ==> forall r :: r in c.child.given && r.origin.Call? ==> r.id != id
    requires forall i :: 0 <= i < |Downstream(c)| && Downstream(c)[i].RequestEnv? ==> Downstream(c)[i].gatewayId != g
    ensures CycleInv(Write(c, ChildRequest(id, Call(g))))
  {
    if id.Some? { AddRemove(c.child.pending, id.value); }
  }

  /** The front request is on no other envelope and was never executed. */
  lemma FrontRequest(c: Cycle, b: Bridge)
    requires CycleInv(c) && c.phase.Relaying? && |c.inbound| > 0 && c.inbound[0].RequestEnv?
    ensures var g := c.inbound[0].gatewayId;
            && g in c.log.accepted && c.log.accepted[g] == c.inbound[0].id
            && g !in c.log.executions && g !in c.log.cancelsDone && g !in c.log.sent && g !in c.bridge.byGatewayId
            && (forall i :: 0 <= i < |Downstream(PopEnvelope(c, b))| && Downstream(PopEnvelope(c, b))[i].RequestEnv? ==>
                  Downstream(PopEnvelope(c, b))[i].gatewayId != g)
    ensures c.bridge.nextLocalId >= 1 && Num(c.bridge.nextLocalId) !in c.bridge.localById
    ensures forall r :: r in c.child.given && r.origin.Call? ==> r.id != Some(Num(c.bridge.nextLocalId))
  {
    var d := Downstream(c);
    assert Downstream(PopEnvelope(c, b)) == d[1..] && d[0] == c.inbound[0];
    if c.inbound[0].gatewayId in c.bridge.byGatewayId { LiveIsAccepted(c, c.inbound[0].gatewayId); }
  }

  /** The front request's frame, under the next local id when it has an id. */
  function FrontFrame(c: Cycle): ChildRequest
    requires |c.inbound| > 0
  {
    ChildRequest(if c.inbound[0].RequestEnv? && c.inbound[0].id.Some? then Some(Num(c.bridge.nextLocalId)) else None,
                 Call(c.inbound[0].gatewayId))
  }

  function FrontPopped(c: Cycle): Cycle
    requires |c.inbound| > 0
  {
    PopEnvelope(c, c.bridge.(nextLocalId := c.bridge.nextLocalId + if FrontFrame(c).id.Some? then 1 else 0))
  }

  lemma FrontGivenInv(c: Cycle)
    requires CycleInv(c) && c.phase.Relaying? && |c.inbound| > 0 && c.inbound[0].RequestEnv?
    ensures CycleInv(Write(FrontPopped(c), FrontFrame(c)))
  {
    PopRequestInv(c, FrontPopped(c).bridge.nextLocalId);
    FrontRequest(c, FrontPopped(c).bridge);
    GiveCallInv(FrontPopped(c), c.inbound[0].gatewayId, FrontFrame(c).id);
  }

  lemma FrontCorrelatedInv(c: Cycle)
    requires CycleInv(c) && c.phase.Relaying? && |c.inbound| > 0 && c.inbound[0].RequestEnv? && c.inbound[0].id.Some?
    ensures var n := Write(FrontPopped(c), FrontFrame(c));
            CycleInv(n.(bridge := Forwarded(c.bridge, c.inbound[0].(deadline := None), 0, Written)))
  {
    hide DownInv, LogInv, ChildInv, UpInv, DrainInv;
    FrontGivenInv(c);
    FrontRequest(c, FrontPopped(c).bridge);
    var n := Write(FrontPopped(c), FrontFrame(c));
    var correlated := Forwarded(c.bridge, c.inbound[0].(deadline := None), 0, Written);
    ForwardedPaired(c.bridge, c.inbound[0].(deadline := None), 0, Written);
    assert CorrelationInv(correlated, n.child.given, n.log);
    assert correlated.nextLocalId == n.bridge.nextLocalId;
    assert Downstream(n.(bridge := correlated)) == Downstream(n);
  }

  lemma TimedInv(c: Cycle, g: GatewayId, now: int)
    requires CycleInv(c)
    ensures CycleInv(Timed(c, g, now))
  {
    hide GivenInv, ChildInv, DrainInv;
  }

  lemma RequestDispatchedInv(c: Cycle, now: int, send: SendOutcome)
    requires CycleInv(c) && c.phase.Relaying? && |c.inbound| > 0 && c.inbound[0].RequestEnv?
    ensures CycleInv(Dispatched(c, now, send))
  {
    hide CycleInv;
    var env := c.inbound[0];
    if Expired(env.deadline, now) {
      PopRequestInv(c, c.bridge.nextLocalId);
      assert Dispatched(c, now, send) == PopEnvelope(c, c.bridge.(nextLocalId := c.bridge.nextLocalId));
    } else if send.NotWritten? {
      PopRequestInv(c, FrontPopped(c).bridge.nextLocalId);
      assert Dispatched(c, now, send) == FrontPopped(c);
    } else if send.Written? && env.id.Some? {
      var n := Write(FrontPopped(c), FrontFrame(c)).(bridge := Forwarded(c.bridge, env.(deadline := None), 0, Written));
      FrontCorrelatedInv(c);
      TimedInv(n, env.gatewayId, now);
      assert Dispatched(c, now, send) == Timed(n, env.gatewayId, now);
    } else {
      FrontGivenInv(c);
      TimedInv(Write(FrontPopped(c), FrontFrame(c)), env.gatewayId, now);
      assert Dispatched(c, now, send) == Timed(Write(FrontPopped(c), FrontFrame(c)), env.gatewayId, now);
    }
  }

  /** The child made up its mind; the answer is not on the queue yet. */
  lemma DecidedInv(c: Cycle, r: ChildRequest, content: Content)
    requires CycleInv(c) && r in c.child.unanswered && content.Outcome? && content.origin == r.origin
    ensures CycleInv(c.(child := c.child.(unanswered := c.child.unanswered - {r}),
                        log := LogAnswered(c.log, r, content)))
  {
    if r.origin.Call? {
      assert r.origin.gatewayId !in c.log.answers;
      assert forall q :: q in c.child.unanswered && q != r ==> q.origin != r.origin;
    }
  }

  lemma DeliveredInv(c: Cycle, f: Frame)
    requires CycleInv(c) && f.content.Outcome? && FrameInv(f, c.child.given, c.log.answers)
    requires c.phase.Starting? ==> c.child.unanswered == {} && OnlyMethods(c.child.responses)
                                   && f.id == Some(Num(c.phase.step)) && f.content.origin == BringUp(c.phase.step)
    requires c.phase.Relaying? ==> f.content.origin.Call?
    requires c.phase.Starting? || c.phase.Relaying?
    ensures CycleInv(c.(child := Deliver(c.child, f)))
  {
    AddRemove(c.child.pending, f.id.value);
  }

  lemma AnsweredInv(c: Cycle, r: ChildRequest, failed: bool, body: int)
    requires CycleInv(c) && !c.phase.Ended? && r in c.child.unanswered && r.id.Some?
    ensures CycleInv(Answered(c, r, failed, body))
  {
    var content := Outcome(r.origin, failed, body);
    var decided := c.(child := c.child.(unanswered := c.child.unanswered - {r}), log := LogAnswered(c.log, r, content));
    DecidedInv(c, r, content);
    DeliveredInv(decided, Frame(r.id, content));
  }

  /** Equal local ids mean the same call: a frame routed to a correlation is the
      answer to the very request that correlation was made for. */
  lemma RoutedIsOwnAnswer(c: Cycle, f: Frame)
    requires CycleInv(c) && c.phase.Relaying? && f in c.child.responses
    requires RouteResponse(c.bridge, f).Some?
    ensures ResponseInv(RouteResponse(c.bridge, f).value, c.log)
  {
    var g := c.bridge.localById[f.id.value].gatewayId;
    assert ChildRequest(f.id, Call(g)) in c.child.given;
  }

  lemma ForgetInv(c: Cycle, f: Frame)
    requires CycleInv(c) && c.phase.Relaying?
    ensures CycleInv(c.(bridge := Routed(c.bridge, f)))
  {
    RemovalPaired(c.bridge, 0, f);
  }

  lemma SendUpInv(c: Cycle, p: Response)
    requires CycleInv(c) && ResponseInv(p, c.log)
    requires p.gatewayId in c.log.executions && p.gatewayId !in c.log.sent
    requires forall k :: k in c.bridge.localById ==> c.bridge.localById[k].gatewayId != p.gatewayId
    ensures CycleInv(c.(outbound := c.outbound + [p], log := c.log.(sent := Tick(c.log.sent, p.gatewayId))))
  {
  }

  lemma RoutedUpInv(c: Cycle, queued: bool)
    requires CycleInv(c) && c.phase.Relaying? && |c.child.responses| > 0
    ensures CycleInv(RoutedUp(c, queued))
  {
    var f := c.child.responses[0];
    PopFrameInv(c);
    ForgetInv(PopFrame(c), f);
    var response := RouteResponse(c.bridge, f);
    if response.Some? && queued {
      RemovalPaired(c.bridge, 0, f);
      RoutedIsOwnAnswer(c, f);
      LiveIsAccepted(c, response.value.gatewayId);
      SendUpInv(PopFrame(c).(bridge := Routed(c.bridge, f)), response.value);
    }
  }

  lemma CycleNextInv(c: Cycle, step: CycleStep)
    requires CycleInv(c)
    ensures CycleInv(CycleNext(c, step))
  {
    hide CycleInv;
    match step
    case HubWrite => HubWriteInv(c);
    case HubClose => HubCloseInv(c);
    case LoseDown(kept) => if kept <= |c.inbound| { LoseDownInv(c, kept); }
    case LoseUp(kept) => if kept <= |c.outbound| { LoseUpInv(c, kept); }
    case BringUpStart => if c.phase.Dialed? { StartInv(c); }
    case BringUpReceive => if c.phase.Starting? && |c.child.responses| > 0 { ReceivedInv(c); }
    case StudioDetected => if c.phase.Probing? { StudioDetectedInv(c); }
    case Dispatch(now, send) =>
      if c.phase.Relaying? && |c.inbound| > 0 {
        if c.inbound[0].CancelEnv? { CancelDispatchedInv(c, now, send); } else { RequestDispatchedInv(c, now, send); }
      }
    case ChildAnswers(r, failed, body) =>
      if !c.phase.Ended? && r in c.child.unanswered && r.id.Some? { AnsweredInv(c, r, failed, body); }
    case ChildSpeaks(id) => ChildSpeaksInv(c, id);
    case Route(queued) => if c.phase.Relaying? && |c.child.responses| > 0 { RoutedUpInv(c, queued); }
    case EndCycle => EndInv(c);
  }

  lemma WriteExtends(c: Cycle, r: ChildRequest)
    ensures Extends(c.log, Write(c, r).log)
  {
  }

  lemma TransferExtends(c: Cycle, now: int, send: SendOutcome)
    requires c.phase.Relaying? && |c.inbound| > 0
    ensures Extends(c.log, Dispatched(c, now, send).log)
  {
    var env := c.inbound[0];
    if env.RequestEnv? {
      var frame := ForwardFrame(c.bridge, env, now);
      var popped := PopEnvelope(c, Forwarded(c.bridge, env, now, send));
      if frame.Some? && !send.NotWritten? {
        WriteExtends(popped, frame.value);
        assert Dispatched(c, now, send) == Timed(Write(popped, frame.value), env.gatewayId, now);
      } else {
        assert Dispatched(c, now, send) == popped;
      }
    }
  }

  lemma ReceivedExtends(c: Cycle)
    requires c.phase.Starting? && |c.child.responses| > 0
    ensures Received(c).log == c.log
  {
  }

  lemma RoutedExtends(c: Cycle, queued: bool)
    requires c.phase.Relaying? && |c.child.responses| > 0
    ensures Extends(c.log, RoutedUp(c, queued).log)
  {
  }

  lemma AnsweredExtends(c: Cycle, r: ChildRequest, failed: bool, body: int)
    requires CycleInv(c) && r in c.child.unanswered && r.id.Some?
    ensures Extends(c.log, Answered(c, r, failed, body).log)
  {
    hide DownInv, GivenInv, CorrelationInv, UpInv, DrainInv;
  }

  lemma CycleNextExtends(c: Cycle, step: CycleStep)
    requires CycleInv(c)
    ensures Extends(c.log, CycleNext(c, step).log)
  {
    hide CycleInv, Received, RoutedUp, Dispatched, Answered;
    match step
    case Dispatch(now, send) => if c.phase.Relaying? && |c.inbound| > 0 { TransferExtends(c, now, send); }
    case BringUpReceive => if c.phase.Starting? && |c.child.responses| > 0 { ReceivedExtends(c); }
    case Route(queued) => if c.phase.Relaying? && |c.child.responses| > 0 { RoutedExtends(c, queued); }
    case ChildAnswers(r, failed, body) =>
      if !c.phase.Ended? && r in c.child.unanswered && r.id.Some? { AnsweredExtends(c, r, failed, body); }
    case _ => assert CycleNext(c, step).log == c.log;
  }
}
