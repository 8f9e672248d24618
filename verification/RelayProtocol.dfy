/** The whole relayed tool-call protocol: any number of calls, devices and
    connection cycles, interleaved step by step.

    Gateway ids are fresh over a run, standing for the 128 random bits they are
    made of. Bridges and children are honest: a child answers a frame it was
    given at most once, though in any order, late, or never.
  */
module RelayProtocol {
  import opened Common
  import opened Wire
  import opened BridgeCycle

  datatype Failure = DeadlineExceeded | SessionCancelled | DeviceFailed | DeviceGone | InvalidResponse

  /** The single Result a registration yields. */
  datatype Delivery = Payload(frame: Frame) | Failed(cause: Failure)

  datatype Stage =
    | Registered
    | Associated
    | Sent
    | Returned(result: Result<Frame, Failure>)

  datatype GatewayCall = GatewayCall(device: string, requestId: int, deadline: int, stage: Stage)

  /** `live` is the correlation registry; `delivered` what its channels got. */
  datatype System = System(
    maxPending: int,
    calls: map<GatewayId, GatewayCall>,
    live: set<GatewayId>,
    delivered: map<GatewayId, Delivery>,
    requestIds: int,
    registry: map<string, nat>,
    cycles: map<nat, Cycle>,
    sentOn: map<GatewayId, nat>)

  function Initial(maxPending: int): System {
    System(maxPending, map[], {}, map[], 0, map[], map[], map[])
  }

  datatype Step =
    | Register(g: GatewayId, device: string, deadline: int)
    | Associate(g: GatewayId)
    | Send(g: GatewayId, encodes: bool)
    | Fail(g: GatewayId, cause: Failure)
    | Receive(g: GatewayId)
    | CallerGone(g: GatewayId)
    | PushCancel(g: GatewayId)
    | Connect(cycle: nat, device: string, capacity: nat)
    | Unregister(device: string)
    | HandleResponse(cycle: nat)
    | InCycle(cycle: nat, step: CycleStep)

  function AtStage(s: System, g: GatewayId, stage: Stage): System
    requires g in s.calls
  {
    s.(calls := s.calls[g := s.calls[g].(stage := stage)])
  }

  /** deliver: the entry leaves the registry and its waiter gets the result;
      an id no longer live changes nothing. */
  function Complete(s: System, g: GatewayId, d: Delivery): System {
    if g in s.live then s.(live := s.live - {g}, delivered := s.delivered[g := d]) else s
  }

  /** validateRelayResponse: the relayed request id, and a result or an error. */
  predicate ValidResponse(f: Frame, requestId: int) {
    f.id == Some(Num(requestId)) && f.content.Outcome?
  }

  function Registering(s: System, g: GatewayId, device: string, deadline: int): System {
    var minted := s.(requestIds := s.requestIds + 1);
    if g in s.calls || (s.maxPending > 0 && |s.live| >= s.maxPending) then minted
    else minted.(calls := s.calls[g := GatewayCall(device, s.requestIds + 1, deadline, Registered)],
                 live := s.live + {g})
  }

  function Abandon(s: System, g: GatewayId, cause: Failure): System
    requires g in s.calls
  {
    Complete(AtStage(s, g, Returned(Err(cause))), g, Failed(cause))
  }

  function Sending(s: System, g: GatewayId, encodes: bool): System
    requires g in s.calls
  {
    var call := s.calls[g];
    if call.device !in s.registry || s.registry[call.device] !in s.cycles || !encodes then Abandon(s, g, DeviceGone)
    else
      var c := s.registry[call.device];
      var (cycle, result) := Enqueue(s.cycles[c], RequestEnv(g, Some(Num(call.requestId)), Some(call.deadline)));
      var after := s.(cycles := s.cycles[c := cycle]);
      if result.Queued? then AtStage(after.(sentOn := s.sentOn[g := c]), g, Sent)
      else Abandon(after, g, DeviceGone)
  }

  function Receiving(s: System, g: GatewayId): System
    requires g in s.calls && g in s.delivered
  {
    match s.delivered[g]
    case Failed(cause) => AtStage(s, g, Returned(Err(cause)))
    case Payload(f) =>
      AtStage(s, g, Returned(if ValidResponse(f, s.calls[g].requestId) then Ok(f) else Err(InvalidResponse)))
  }

  function Cancelling(s: System, g: GatewayId): System
    requires g in s.calls
  {
    var device := s.calls[g].device;
    if device !in s.registry || s.registry[device] !in s.cycles then s
    else s.(cycles := s.cycles[s.registry[device] := Enqueue(s.cycles[s.registry[device]], CancelEnv(g)).0])
  }

  function CloseHub(cycles: map<nat, Cycle>, c: nat): map<nat, Cycle> {
    if c in cycles then cycles[c := CycleNext(cycles[c], HubClose)] else cycles
  }

  function Connecting(s: System, c: nat, device: string, capacity: nat): System {
    var closed := if device in s.registry then CloseHub(s.cycles, s.registry[device]) else s.cycles;
    s.(cycles := closed[c := NewCycle(device, capacity)], registry := s.registry[device := c])
  }

  function Handling(s: System, c: nat): System
    requires c in s.cycles && |s.cycles[c].outbound| > 0
  {
    var p := s.cycles[c].outbound[0];
    Complete(s.(cycles := s.cycles[c := s.cycles[c].(outbound := s.cycles[c].outbound[1..])]), p.gatewayId,
             Payload(p.payload))
  }

  /** One step of the protocol; a step that is not enabled changes nothing. */
  function Next(s: System, step: Step): System {
    match step
    case Register(g, device, deadline) => Registering(s, g, device, deadline)
    case Associate(g) =>
      if g in s.calls && s.calls[g].stage.Registered? then
        if g in s.live then AtStage(s, g, Associated) else Abandon(s, g, InvalidResponse)
      else s
    case Send(g, encodes) =>
      if g in s.calls && s.calls[g].stage.Associated? then Sending(s, g, encodes) else s
    case Fail(g, cause) => Complete(s, g, Failed(cause))
    case Receive(g) =>
      if g in s.calls && s.calls[g].stage.Sent? && g in s.delivered then Receiving(s, g) else s
    case CallerGone(g) =>
      if g in s.calls && s.calls[g].stage.Sent? then AtStage(s, g, Returned(Err(SessionCancelled))) else s
    case PushCancel(g) =>
      if g in s.calls && s.calls[g].stage.Returned? then Cancelling(s, g) else s
    case Connect(c, device, capacity) =>
      if c !in s.cycles then Connecting(s, c, device, capacity) else s
    case Unregister(device) =>
      if device in s.registry then
        s.(cycles := CloseHub(s.cycles, s.registry[device]), registry := s.registry - {device})
      else s
    case HandleResponse(c) =>
      if c in s.cycles && |s.cycles[c].outbound| > 0 then Handling(s, c) else s
    case InCycle(c, step) =>
      if c in s.cycles then s.(cycles := s.cycles[c := CycleNext(s.cycles[c], step)]) else s
  }

  function Run(s: System, steps: seq<Step>): System
    decreases |steps|
  {
    if steps == [] then s else Run(Next(s, steps[0]), steps[1..])
  }

  lemma {:induction false} RunAppend(s: System, a: seq<Step>, b: seq<Step>)
    ensures Run(s, a + b) == Run(Run(s, a), b)
    decreases |a|
  {
    if a == [] {
      assert a + b == b;
    } else {
      assert (a + b)[0] == a[0] && (a + b)[1..] == a[1..] + b;
      RunAppend(Next(s, a[0]), a[1..], b);
    }
  }

  // ---------------------------------------------------------------- invariant

  /** Exactly-once completion at this level: live or delivered, never both. */
  ghost predicate RegistryInv(calls: set<GatewayId>, live: set<GatewayId>, delivered: set<GatewayId>) {
    live + delivered == calls && live !! delivered
  }

  /** What a cycle accepted is what the gateway sent it, and only it. */
  ghost predicate LinkInv(c: nat, l: Log, calls: map<GatewayId, GatewayCall>, sentOn: map<GatewayId, nat>) {
    && (forall g :: g in l.accepted ==>
          && g in sentOn && sentOn[g] == c && g in calls
          && l.accepted[g] == Some(Num(calls[g].requestId))
          && (calls[g].stage.Sent? || calls[g].stage.Returned?))
    && (forall g :: g in l.cancelsQueued ==> g in calls && calls[g].stage.Returned?)
  }

  ghost predicate CyclesInv(cycles: map<nat, Cycle>, calls: map<GatewayId, GatewayCall>, sentOn: map<GatewayId, nat>) {
    forall c :: c in cycles ==> CycleInv(cycles[c]) && LinkInv(c, cycles[c].log, calls, sentOn)
  }

  ghost predicate SentInv(cycles: map<nat, Cycle>, sentOn: map<GatewayId, nat>) {
    forall g :: g in sentOn ==> sentOn[g] in cycles && g in cycles[sentOn[g]].log.accepted
  }

  ghost predicate DeliveredInv(cycles: map<nat, Cycle>, sentOn: map<GatewayId, nat>,
                               delivered: map<GatewayId, Delivery>) {
    forall g :: g in delivered && delivered[g].Payload? ==>
      g in sentOn && sentOn[g] in cycles && ResponseInv(Response(g, delivered[g].frame), cycles[sentOn[g]].log)
  }

  ghost predicate ReturnedInv(calls: map<GatewayId, GatewayCall>, delivered: map<GatewayId, Delivery>) {
    forall g :: g in calls && calls[g].stage.Returned? && calls[g].stage.result.Ok? ==>
      && ValidResponse(calls[g].stage.result.value, calls[g].requestId)
      && g in delivered && delivered[g] == Payload(calls[g].stage.result.value)
  }

  ghost predicate Inv(s: System) {
    && RegistryInv(s.calls.Keys, s.live, s.delivered.Keys)
    && CyclesInv(s.cycles, s.calls, s.sentOn)
    && SentInv(s.cycles, s.sentOn)
    && DeliveredInv(s.cycles, s.sentOn, s.delivered)
    && ReturnedInv(s.calls, s.delivered)
  }

  lemma InitialInv(maxPending: int)
    ensures Inv(Initial(maxPending))
  {
  }

  /** One cycle replaced by a later version of itself. */
  lemma ReplaceCycleInv(s: System, c: nat, n: Cycle)
    requires Inv(s) && c in s.cycles && CycleInv(n) && Extends(s.cycles[c].log, n.log)
    requires LinkInv(c, n.log, s.calls, s.sentOn)
    ensures Inv(s.(cycles := s.cycles[c := n]))
  {
    hide CycleInv, LinkInv, RegistryInv, ReturnedInv;
  }

  lemma InCycleInv(s: System, c: nat, step: CycleStep)
    requires Inv(s) && c in s.cycles
    ensures Inv(s.(cycles := s.cycles[c := CycleNext(s.cycles[c], step)]))
  {
    hide Inv, CycleInv, CycleNext, Extends, LinkInv;
    CycleOf(s, c);
    var n := CycleNext(s.cycles[c], step);
    CycleNextInv(s.cycles[c], step);
    CycleNextExtends(s.cycles[c], step);
    CycleNextAccepts(s.cycles[c], step);
    SameLink(c, s.cycles[c].log, n.log, s.calls, s.sentOn);
    ReplaceCycleInv(s, c, n);
  }

  /** Nothing inside a cycle adds to what it accepted from the gateway. */
  lemma CycleNextAccepts(c: Cycle, step: CycleStep)
    ensures SameAccepted(c.log, CycleNext(c, step).log)
  {
    hide Dispatched, Received, Write, PopFrame;
    if step.Dispatch? && c.phase.Relaying? && |c.inbound| > 0 { DispatchAccepts(c, step.now, step.send); }
    if step.BringUpReceive? && c.phase.Starting? && |c.child.responses| > 0 { ReceiveAccepts(c); }
    if step.BringUpStart? { PartsAccept(c.(phase := Starting(1)), BringUpRequest(1), 0, 0, c.bridge); }
    if |c.child.responses| > 0 { PopAccepts(c); }
  }

  ghost predicate SameAccepted(l: Log, n: Log) {
    n.accepted == l.accepted && n.cancelsQueued == l.cancelsQueued
  }

  lemma PartsAccept(c: Cycle, r: ChildRequest, g: GatewayId, now: int, b: BridgeRelay.Bridge)
    ensures SameAccepted(c.log, Write(c, r).log) && SameAccepted(c.log, Timed(c, g, now).log)
    ensures |c.inbound| > 0 ==> PopEnvelope(c, b).log == c.log
  {
  }

  lemma PopAccepts(c: Cycle)
    requires |c.child.responses| > 0
    ensures PopFrame(c).log == c.log
  {
  }

  lemma DispatchAccepts(c: Cycle, now: int, send: BridgeRelay.SendOutcome)
    requires c.phase.Relaying? && |c.inbound| > 0
    ensures SameAccepted(c.log, Dispatched(c, now, send).log)
  {
    hide Write, Timed, PopEnvelope, BridgeRelay.Forwarded, BridgeRelay.Cancelled, BridgeRelay.ForwardFrame;
    var env := c.inbound[0];
    if env.CancelEnv? {
      PartsAccept(c, ChildRequest(None, BringUp(0)), 0, 0, BridgeRelay.Cancelled(c.bridge, env.gatewayId));
    } else {
      var frame := BridgeRelay.ForwardFrame(c.bridge, env, now);
      var forwarded := BridgeRelay.Forwarded(c.bridge, env, now, send);
      var popped := PopEnvelope(c, forwarded);
      PartsAccept(c, ChildRequest(None, BringUp(0)), 0, 0, forwarded);
      if frame.Some? {
        PartsAccept(popped, frame.value, env.gatewayId, now, forwarded);
        PartsAccept(Write(popped, frame.value), frame.value, env.gatewayId, now, forwarded);
      }
    }
  }

  lemma ReceiveAccepts(c: Cycle)
    requires c.phase.Starting? && |c.child.responses| > 0
    ensures SameAccepted(c.log, Received(c).log)
  {
    hide Write, PopFrame;
    PopAccepts(c);
    PartsAccept(PopFrame(c).(phase := Starting(c.phase.step + 1)), BringUpRequest(c.phase.step + 1), 0, 0, c.bridge);
  }

  lemma CompleteInv(s: System, g: GatewayId, d: Delivery)
    requires Inv(s)
    requires d.Payload? ==> g in s.sentOn && ResponseInv(Response(g, d.frame), s.cycles[s.sentOn[g]].log)
    ensures Inv(Complete(s, g, d))
  {
    hide CycleInv, LinkInv, ResponseInv;
  }

  lemma LinkUpdate(c: nat, l: Log, calls: map<GatewayId, GatewayCall>, sentOn: map<GatewayId, nat>,
                   g: GatewayId, call: GatewayCall)
    requires LinkInv(c, l, calls, sentOn)
    requires g in calls ==>
               && call.requestId == calls[g].requestId
               && (calls[g].stage.Sent? ==> call.stage.Sent? || call.stage.Returned?)
               && (calls[g].stage.Returned? ==> call.stage.Returned?)
    ensures LinkInv(c, l, calls[g := call], sentOn)
  {
  }

  lemma CyclesUpdate(cycles: map<nat, Cycle>, calls: map<GatewayId, GatewayCall>, sentOn: map<GatewayId, nat>,
                     g: GatewayId, call: GatewayCall)
    requires CyclesInv(cycles, calls, sentOn)
    requires g in calls ==>
               && call.requestId == calls[g].requestId
               && (calls[g].stage.Sent? ==> call.stage.Sent? || call.stage.Returned?)
               && (calls[g].stage.Returned? ==> call.stage.Returned?)
    ensures CyclesInv(cycles, calls[g := call], sentOn)
  {
    hide CycleInv, LinkInv;
    forall c | c in cycles ensures LinkInv(c, cycles[c].log, calls[g := call], sentOn) {
      LinkUpdate(c, cycles[c].log, calls, sentOn, g, call);
    }
  }

  /** A call's stage moves on; it may not leave Sent except to return, nor
      return a success the registry did not deliver. */
  lemma AtStageInv(s: System, g: GatewayId, stage: Stage)
    requires Inv(s) && g in s.calls
    requires stage.Registered? || stage.Associated? ==> !s.calls[g].stage.Sent? && !s.calls[g].stage.Returned?
    requires stage.Sent? ==> !s.calls[g].stage.Returned?
    requires stage.Returned? && stage.result.Ok? ==>
               && ValidResponse(stage.result.value, s.calls[g].requestId)
               && g in s.delivered && s.delivered[g] == Payload(stage.result.value)
    ensures Inv(AtStage(s, g, stage))
  {
    hide CyclesInv, DeliveredInv, SentInv;
    CyclesUpdate(s.cycles, s.calls, s.sentOn, g, s.calls[g].(stage := stage));
    assert AtStage(s, g, stage).calls.Keys == s.calls.Keys;
  }

  lemma RegisteringInv(s: System, g: GatewayId, device: string, deadline: int)
    requires Inv(s)
    ensures Inv(Registering(s, g, device, deadline))
  {
    hide CyclesInv, DeliveredInv, SentInv;
    if g !in s.calls {
      CyclesUpdate(s.cycles, s.calls, s.sentOn, g, GatewayCall(device, s.requestIds + 1, deadline, Registered));
    }
  }

  lemma AbandonInv(s: System, g: GatewayId, cause: Failure)
    requires Inv(s) && g in s.calls
    ensures Inv(Abandon(s, g, cause))
  {
    AtStageInv(s, g, Returned(Err(cause)));
    CompleteInv(AtStage(s, g, Returned(Err(cause))), g, Failed(cause));
  }

  lemma NewCycleAdded(s: System, c: nat, n: Cycle)
    requires Inv(s) && c !in s.cycles && CycleInv(n)
    requires n.log.accepted == map[] && n.log.cancelsQueued == {}
    ensures Inv(s.(cycles := s.cycles[c := n]))
  {
    assert LinkInv(c, n.log, s.calls, s.sentOn) by { hide Inv, CycleInv; }
    hide CycleInv, RegistryInv, ReturnedInv, ResponseInv, LinkInv, CyclesInv, SentInv, DeliveredInv;
    AddedCycles(s.cycles, s.calls, s.sentOn, c, n);
    AddedSent(s.cycles, s.sentOn, s.delivered, c, n);
  }

  lemma AddedCycles(cycles: map<nat, Cycle>, calls: map<GatewayId, GatewayCall>, sentOn: map<GatewayId, nat>, c: nat,
                    n: Cycle)
    requires CyclesInv(cycles, calls, sentOn) && CycleInv(n) && LinkInv(c, n.log, calls, sentOn)
    ensures CyclesInv(cycles[c := n], calls, sentOn)
  {
    hide CycleInv, LinkInv;
  }

  lemma AddedSent(cycles: map<nat, Cycle>, sentOn: map<GatewayId, nat>, delivered: map<GatewayId, Delivery>, c: nat,
                  n: Cycle)
    requires SentInv(cycles, sentOn) && DeliveredInv(cycles, sentOn, delivered) && c !in cycles
    ensures SentInv(cycles[c := n], sentOn) && DeliveredInv(cycles[c := n], sentOn, delivered)
  {
    hide ResponseInv;
  }

  lemma CloseHubInv(s: System, c: nat)
    requires Inv(s)
    ensures Inv(s.(cycles := CloseHub(s.cycles, c)))
  {
    hide Inv;
    if c in s.cycles { InCycleInv(s, c, HubClose); }
  }

  lemma ConnectingInv(s: System, c: nat, device: string, capacity: nat)
    requires Inv(s) && c !in s.cycles
    ensures Inv(Connecting(s, c, device, capacity))
  {
    var closed := if device in s.registry then CloseHub(s.cycles, s.registry[device]) else s.cycles;
    if device in s.registry { CloseHubInv(s, s.registry[device]); }
    NewCycleInv(device, capacity);
    NewCycleAdded(s.(cycles := closed), c, NewCycle(device, capacity));
    RegistryIrrelevant(s.(cycles := closed[c := NewCycle(device, capacity)]), s.registry[device := c]);
  }

  lemma RegistryIrrelevant(s: System, registry: map<string, nat>)
    requires Inv(s)
    ensures Inv(s.(registry := registry))
  {
  }

  lemma EnqueueExtends(c: Cycle, env: Down)
    ensures var n := Enqueue(c, env).0;
            && n.log.accepted == (if Enqueue(c, env).1.Queued? && env.RequestEnv?
                                  then c.log.accepted[env.gatewayId := env.id]
                                  else c.log.accepted)
            && n.log.cancelsQueued <= c.log.cancelsQueued + (if env.CancelEnv? then {env.gatewayId} else {})
  {
  }

  lemma CycleOf(s: System, c: nat)
    requires Inv(s) && c in s.cycles
    ensures CycleInv(s.cycles[c]) && LinkInv(c, s.cycles[c].log, s.calls, s.sentOn)
  {
    hide CycleInv, LinkInv;
  }

  lemma CancellingInv(s: System, g: GatewayId)
    requires Inv(s) && g in s.calls && s.calls[g].stage.Returned?
    ensures Inv(Cancelling(s, g))
  {
    hide Inv, CycleInv, Enqueue;
    var device := s.calls[g].device;
    if device in s.registry && s.registry[device] in s.cycles {
      var c := s.registry[device];
      CycleOf(s, c);
      EnqueueInv(s.cycles[c], CancelEnv(g));
      EnqueueExtends(s.cycles[c], CancelEnv(g));
      ReplaceCycleInv(s, c, Enqueue(s.cycles[c], CancelEnv(g)).0);
    }
  }

  /** A call not sent yet is on no connection, as request or as cancel. */
  lemma UnsentIsNowhere(s: System, g: GatewayId, c: nat)
    requires Inv(s) && g in s.calls && s.calls[g].stage.Associated? && c in s.cycles
    ensures CycleInv(s.cycles[c]) && LinkInv(c, s.cycles[c].log, s.calls, s.sentOn)
    ensures g !in s.cycles[c].log.accepted && g !in s.cycles[c].log.cancelsQueued && g !in s.sentOn
  {
    hide CycleInv;
  }

  lemma SentLink(c: nat, l: Log, calls: map<GatewayId, GatewayCall>, sentOn: map<GatewayId, nat>, g: GatewayId, on: nat)
    requires LinkInv(c, l, calls, sentOn) && g in calls && calls[g].stage.Associated? && g !in l.accepted
    ensures LinkInv(c, l, calls[g := calls[g].(stage := Sent)], sentOn[g := on])
  {
  }

  lemma QueuedCycles(s: System, g: GatewayId, c: nat, n: Cycle)
    requires Inv(s) && g in s.calls && s.calls[g].stage.Associated? && c in s.cycles && CycleInv(n)
    requires n.log.accepted == s.cycles[c].log.accepted[g := Some(Num(s.calls[g].requestId))]
    requires n.log.cancelsQueued <= s.cycles[c].log.cancelsQueued
    ensures CyclesInv(s.cycles[c := n], s.calls[g := s.calls[g].(stage := Sent)], s.sentOn[g := c])
  {
    hide CycleInv, Inv, LinkInv;
    var calls := s.calls[g := s.calls[g].(stage := Sent)];
    var cycles := s.cycles[c := n];
    forall d | d in cycles ensures CycleInv(cycles[d]) && LinkInv(d, cycles[d].log, calls, s.sentOn[g := c]) {
      UnsentIsNowhere(s, g, d);
      SentLink(d, s.cycles[d].log, s.calls, s.sentOn, g, c);
      if d == c { LinkGrown(c, s.cycles[c].log, n.log, calls, s.sentOn[g := c], g); }
    }
  }

  lemma LinkGrown(c: nat, l: Log, n: Log, calls: map<GatewayId, GatewayCall>, sentOn: map<GatewayId, nat>, g: GatewayId)
    requires LinkInv(c, l, calls, sentOn) && g in calls && calls[g].stage.Sent? && g in sentOn && sentOn[g] == c
    requires n.accepted == l.accepted[g := Some(Num(calls[g].requestId))] && n.cancelsQueued <= l.cancelsQueued
    ensures LinkInv(c, n, calls, sentOn)
  {
  }

  /** The request is queued and the call marked sent, in one step. */
  lemma QueuedInv(s: System, g: GatewayId, c: nat, n: Cycle)
    requires Inv(s) && g in s.calls && s.calls[g].stage.Associated? && c in s.cycles && CycleInv(n)
    requires n.log.accepted == s.cycles[c].log.accepted[g := Some(Num(s.calls[g].requestId))]
    requires n.log.cancelsQueued <= s.cycles[c].log.cancelsQueued && Extends(s.cycles[c].log, n.log)
    ensures Inv(AtStage(s.(cycles := s.cycles[c := n], sentOn := s.sentOn[g := c]), g, Sent))
  {
    hide CyclesInv, CycleInv, DeliveredInv, SentInv;
    QueuedCycles(s, g, c, n);
    QueuedDelivered(s, g, c, n);
    assert AtStage(s, g, Sent).calls.Keys == s.calls.Keys;
  }

  lemma ResponseGrown(p: Response, l: Log, n: Log)
    requires ResponseInv(p, l) && Extends(l, n)
    ensures ResponseInv(p, n)
  {
  }

  lemma QueuedDelivered(s: System, g: GatewayId, c: nat, n: Cycle)
    requires Inv(s) && g in s.calls && s.calls[g].stage.Associated? && c in s.cycles && g in n.log.accepted
    requires Extends(s.cycles[c].log, n.log)
    ensures SentInv(s.cycles[c := n], s.sentOn[g := c])
    ensures DeliveredInv(s.cycles[c := n], s.sentOn[g := c], s.delivered)
  {
    hide CyclesInv, CycleInv, ResponseInv, LinkInv;
    UnsentIsNowhere(s, g, c);
    var cycles, sentOn := s.cycles[c := n], s.sentOn[g := c];
    forall h | h in s.delivered && s.delivered[h].Payload?
      ensures h in sentOn && sentOn[h] in cycles
              && ResponseInv(Response(h, s.delivered[h].frame), cycles[sentOn[h]].log)
    {
      assert h in s.sentOn && h != g;
      ResponseGrown(Response(h, s.delivered[h].frame), s.cycles[s.sentOn[h]].log, cycles[sentOn[h]].log);
    }
  }

  lemma SendingInv(s: System, g: GatewayId, encodes: bool)
    requires Inv(s) && g in s.calls && s.calls[g].stage.Associated?
    ensures Inv(Sending(s, g, encodes))
  {
    hide Inv, CycleInv, LinkInv, Enqueue;
    var call := s.calls[g];
    if call.device !in s.registry || s.registry[call.device] !in s.cycles || !encodes {
      AbandonInv(s, g, DeviceGone);
    } else {
      var c := s.registry[call.device];
      var env := RequestEnv(g, Some(Num(call.requestId)), Some(call.deadline));
      var (n, result) := Enqueue(s.cycles[c], env);
      UnsentIsNowhere(s, g, c);
      EnqueueInv(s.cycles[c], env);
      EnqueueExtends(s.cycles[c], env);
      if result.Queued? {
        QueuedInv(s, g, c, n);
      } else {
        SameLink(c, s.cycles[c].log, n.log, s.calls, s.sentOn);
        ReplaceCycleInv(s, c, n);
        AbandonInv(s.(cycles := s.cycles[c := n]), g, DeviceGone);
      }
    }
  }

  lemma SameLink(c: nat, l: Log, n: Log, calls: map<GatewayId, GatewayCall>, sentOn: map<GatewayId, nat>)
    requires LinkInv(c, l, calls, sentOn) && n.accepted == l.accepted && n.cancelsQueued <= l.cancelsQueued
    ensures LinkInv(c, n, calls, sentOn)
  {
  }

  lemma ReceivingInv(s: System, g: GatewayId)
    requires Inv(s) && g in s.calls && g in s.delivered && s.calls[g].stage.Sent?
    ensures Inv(Receiving(s, g))
  {
    hide CyclesInv, DeliveredInv, SentInv;
    match s.delivered[g]
    case Failed(cause) => AtStageInv(s, g, Returned(Err(cause)));
    case Payload(f) =>
      AtStageInv(s, g, Returned(if ValidResponse(f, s.calls[g].requestId) then Ok(f) else Err(InvalidResponse)));
  }

  lemma HandlingInv(s: System, c: nat)
    requires Inv(s) && c in s.cycles && |s.cycles[c].outbound| > 0
    ensures Inv(Handling(s, c))
  {
    hide Inv, CycleInv;
    var cycle := s.cycles[c];
    var p := cycle.outbound[0];
    CycleOf(s, c);
    TakeUpInv(cycle);
    var popped := cycle.(outbound := cycle.outbound[1..]);
    ReplaceCycleInv(s, c, popped);
    CompleteInv(s.(cycles := s.cycles[c := popped]), p.gatewayId, Payload(p.payload));
  }

  lemma TakeUpInv(c: Cycle)
    requires CycleInv(c) && |c.outbound| > 0
    ensures CycleInv(c.(outbound := c.outbound[1..]))
    ensures ResponseInv(c.outbound[0], c.log)
  {
  }

  lemma NextInv(s: System, step: Step)
    requires Inv(s)
    ensures Inv(Next(s, step))
  {
    hide Inv;
    match step
    case Register(g, device, deadline) => RegisteringInv(s, g, device, deadline);
    case Associate(g) =>
      if g in s.calls && s.calls[g].stage.Registered? {
        if g in s.live { AtStageInv(s, g, Associated); } else { AbandonInv(s, g, InvalidResponse); }
      }
    case Send(g, encodes) => if g in s.calls && s.calls[g].stage.Associated? { SendingInv(s, g, encodes); }
    case Fail(g, cause) => CompleteInv(s, g, Failed(cause));
    case Receive(g) => if g in s.calls && s.calls[g].stage.Sent? && g in s.delivered { ReceivingInv(s, g); }
    case CallerGone(g) =>
      if g in s.calls && s.calls[g].stage.Sent? { AtStageInv(s, g, Returned(Err(SessionCancelled))); }
    case PushCancel(g) => if g in s.calls && s.calls[g].stage.Returned? { CancellingInv(s, g); }
    case Connect(c, device, capacity) => if c !in s.cycles { ConnectingInv(s, c, device, capacity); }
    case Unregister(device) =>
      if device in s.registry {
        CloseHubInv(s, s.registry[device]);
        RegistryIrrelevant(s.(cycles := CloseHub(s.cycles, s.registry[device])), s.registry - {device});
      }
    case HandleResponse(c) => if c in s.cycles && |s.cycles[c].outbound| > 0 { HandlingInv(s, c); }
    case InCycle(c, step) => if c in s.cycles { InCycleInv(s, c, step); }
  }

  lemma {:induction false} RunInv(s: System, steps: seq<Step>)
    requires Inv(s)
    ensures Inv(Run(s, steps))
    decreases |steps|
  {
    if steps != [] {
      NextInv(s, steps[0]);
      RunInv(Next(s, steps[0]), steps[1..]);
    }
  }
}
