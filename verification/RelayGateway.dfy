/** The gateway's side of the relayed call: when a call is open, what completes it,
    what it returns, and what becomes of its device's connections. */
module RelayGateway {
  import opened Common
  import opened Wire
  import opened BridgeCycle
  import opened RelayProtocol
  import opened RelayTheorems

  /** A connection for the device that takes the request. */
  ghost predicate Takes(s: System, device: string) {
    device in s.registry && s.registry[device] in s.cycles
    && var hub := s.cycles[s.registry[device]].hub; hub.open && |hub.queue| < hub.capacity
  }

  /** The steps that complete a call, and what with. */
  ghost predicate Completes(s: System, step: Step, g: GatewayId, d: Delivery) {
    match step
    case Fail(h, cause) => h == g && d == Failed(cause)
    case Send(h, encodes) =>
      h == g && h in s.calls && s.calls[h].stage.Associated? && d == Failed(DeviceGone)
      && !(encodes && Takes(s, s.calls[h].device))
    case HandleResponse(c) =>
      c in s.cycles && s.cycles[c].outbound != [] && s.cycles[c].outbound[0].gatewayId == g
      && d == Payload(s.cycles[c].outbound[0].payload)
    case _ => false
  }

  ghost predicate Registers(s: System, step: Step, g: GatewayId) {
    step.Register? && step.g == g && g !in s.calls && (s.maxPending <= 0 || |s.live| < s.maxPending)
  }

  /** `g` is open after a step if the step registers it, or if it was and the step
      does not complete it; what it was completed with, first, is what it keeps. */
  ghost predicate Completed(s: System, step: Step, g: GatewayId) {
    var n := Next(s, step);
    && (g in n.live <==> Registers(s, step, g) || (g in s.live && forall d :: !Completes(s, step, g, d)))
    && (forall d :: g in n.delivered && n.delivered[g] == d <==>
          (g in s.delivered && s.delivered[g] == d) || (g in s.live && Completes(s, step, g, d)))
  }

  /** A call is open from its registration to the first step that completes it,
      and what that step brings is what it keeps. */
  lemma CompletionExact(maxPending: int, steps: seq<Step>, step: Step, g: GatewayId)
    ensures Completed(Reach(maxPending, steps), step, g)
  {
    hide Run, Inv, Next, Completes, Registers;
    ReachInv(maxPending, steps);
    var s := Reach(maxPending, steps);
    RegistryOf(s, g);
    match step
    case Send(h, encodes) => SendCompletes(s, h, encodes, g);
    case Register(h, device, deadline) => RegisterCompletes(s, h, device, deadline, g);
    case HandleResponse(c) => HandleCompletes(s, c, g);
    case Fail(h, cause) => FailCompletes(s, h, cause, g);
    case _ => OtherCompletes(s, step, g);
  }

  lemma EnqueueTakes(c: Cycle, env: Down)
    ensures Enqueue(c, env).1.Queued? <==> c.hub.open && |c.hub.queue| < c.hub.capacity
  {
    hide LogEnqueued;
  }

  lemma SendCompletes(s: System, h: GatewayId, encodes: bool, g: GatewayId)
    requires !(g in s.live && g in s.delivered)
    ensures Completed(s, Send(h, encodes), g)
  {
    hide Enqueue, Takes;
    if h in s.calls && s.calls[h].stage.Associated? {
      SentOr(s, h, encodes);
      assert h == g && !(Takes(s, s.calls[h].device) && encodes) ==>
          Completes(s, Send(h, encodes), g, Failed(DeviceGone));
      hide Sending;
    }
  }

  /** A send leaves the registry as it is, or fails the call. */
  lemma SentOr(s: System, h: GatewayId, encodes: bool)
    requires h in s.calls
    ensures var n := Sending(s, h, encodes);
            if encodes && Takes(s, s.calls[h].device) then n.live == s.live && n.delivered == s.delivered
            else if h in s.live
            then n.live == s.live - {h} && n.delivered == s.delivered[h := Failed(DeviceGone)]
            else n.live == s.live && n.delivered == s.delivered
  {
    hide Enqueue;
    var call := s.calls[h];
    if call.device in s.registry && s.registry[call.device] in s.cycles {
      EnqueueTakes(s.cycles[s.registry[call.device]], RequestEnv(h, Some(Num(call.requestId)), Some(call.deadline)));
    }
  }

  lemma RegisterCompletes(s: System, h: GatewayId, device: string, deadline: int, g: GatewayId)
    requires g in s.live || g in s.delivered <==> g in s.calls
    ensures Completed(s, Register(h, device, deadline), g)
  {
  }

  lemma HandleCompletes(s: System, c: nat, g: GatewayId)
    requires !(g in s.live && g in s.delivered)
    ensures Completed(s, HandleResponse(c), g)
  {
    if c in s.cycles && s.cycles[c].outbound != [] {
      var p := s.cycles[c].outbound[0];
      assert p.gatewayId == g ==> Completes(s, HandleResponse(c), g, Payload(p.payload));
    }
  }

  lemma FailCompletes(s: System, h: GatewayId, cause: Failure, g: GatewayId)
    requires !(g in s.live && g in s.delivered)
    ensures Completed(s, Fail(h, cause), g)
  {
    assert h == g ==> Completes(s, Fail(h, cause), g, Failed(cause));
  }

  lemma OtherCompletes(s: System, step: Step, g: GatewayId)
    requires !step.Send? && !step.Register? && !step.HandleResponse? && !step.Fail?
    ensures Completed(s, step, g)
  {
    hide LogEnqueued, CycleNext, ValidResponse;
  }

  lemma RegistryOf(s: System, g: GatewayId)
    requires Inv(s)
    ensures (g in s.live || g in s.delivered <==> g in s.calls) && !(g in s.live && g in s.delivered)
  {
    hide CyclesInv, SentInv, RelayProtocol.DeliveredInv, ReturnedInv;
  }

  /** How far a call has come after a step: it goes from stage to stage, and
      returns what was delivered to it if that passes the response check, or why
      not. */
  ghost function StageAfter(s: System, step: Step, g: GatewayId): Stage
    requires g in s.calls
  {
    var stage := s.calls[g].stage;
    match step
    case Associate(h) =>
      if h != g || !stage.Registered? then stage
      else if g in s.live then Associated else Returned(Err(InvalidResponse))
    case Send(h, encodes) =>
      if h != g || !stage.Associated? then stage
      else if encodes && Takes(s, s.calls[g].device) then Sent else Returned(Err(DeviceGone))
    case Receive(h) =>
      if h != g || !stage.Sent? || g !in s.delivered then stage
      else Returned(match s.delivered[g]
                    case Failed(cause) => Err(cause)
                    case Payload(f) =>
                      if f.id == Some(Num(s.calls[g].requestId)) && f.content.Outcome? then Ok(f)
                      else Err(InvalidResponse))
    case CallerGone(h) => if h != g || !stage.Sent? then stage else Returned(Err(SessionCancelled))
    case _ => stage
  }

  lemma StageExact(s: System, step: Step, g: GatewayId)
    requires g in s.calls
    ensures var n := Next(s, step);
            g in n.calls && n.calls[g] == s.calls[g].(stage := StageAfter(s, step, g))
  {
    hide Sending, Registering, Receiving, Abandon, Takes, ValidResponse;
    match step
    case Send(h, encodes) => if h in s.calls { SentStage(s, h, encodes); }
    case Register(h, device, deadline) => RegisteredStage(s, h, device, deadline);
    case Associate(h) => if h in s.calls { AbandonedStage(s, h); }
    case Receive(h) => if h in s.calls && s.calls[h].stage.Sent? && h in s.delivered { ReceivedStage(s, h); }
    case CallerGone(_) =>
    case _ => SameCalls(s, step);
  }

  lemma AbandonedStage(s: System, g: GatewayId)
    requires g in s.calls
    ensures var n := Abandon(s, g, InvalidResponse);
            && n.calls == s.calls[g := s.calls[g].(stage := Returned(Err(InvalidResponse)))]
            && n.requestIds == s.requestIds
  {
  }

  lemma ReceivedStage(s: System, g: GatewayId)
    requires g in s.calls && g in s.delivered && s.calls[g].stage.Sent?
    ensures var n := Receiving(s, g);
            && n.calls == s.calls[g := s.calls[g].(stage := StageAfter(s, Receive(g), g))]
            && n.requestIds == s.requestIds
  {
  }

  lemma RegisteredStage(s: System, g: GatewayId, device: string, deadline: int)
    ensures var n := Registering(s, g, device, deadline);
            && n.requestIds == s.requestIds + 1
            && n.calls == if Registers(s, Register(g, device, deadline), g)
                          then s.calls[g := GatewayCall(device, s.requestIds + 1, deadline, Registered)] else s.calls
  {
  }

  /** The other steps touch no call and mint no id. */
  lemma SameCalls(s: System, step: Step)
    requires !step.Register? && !step.Associate? && !step.Send? && !step.Receive? && !step.CallerGone?
    ensures Next(s, step).calls == s.calls && Next(s, step).requestIds == s.requestIds
  {
    hide Enqueue, CycleNext, CloseHub;
  }

  lemma SentStage(s: System, g: GatewayId, encodes: bool)
    requires g in s.calls
    ensures var stage := if encodes && Takes(s, s.calls[g].device) then Sent else Returned(Err(DeviceGone));
            Sending(s, g, encodes).calls == s.calls[g := s.calls[g].(stage := stage)]
  {
    hide Enqueue;
    var call := s.calls[g];
    if call.device in s.registry && s.registry[call.device] in s.cycles {
      EnqueueTakes(s.cycles[s.registry[call.device]], RequestEnv(g, Some(Num(call.requestId)), Some(call.deadline)));
    }
  }

  /** No two calls of a run are relayed under the same request id. */
  ghost predicate IdsInv(s: System) {
    && (forall g :: g in s.calls ==> s.calls[g].requestId <= s.requestIds)
    && (forall g, h :: g in s.calls && h in s.calls && g != h ==> s.calls[g].requestId != s.calls[h].requestId)
  }

  lemma IdsStep(s: System, step: Step)
    requires IdsInv(s)
    ensures IdsInv(Next(s, step))
  {
    if step.Register? {
      RegisteredStage(s, step.g, step.device, step.deadline);
      hide Registering, Registers;
      NewIds(s, Next(s, step), step.g);
    } else {
      hide Next;
      KeysKept(s, step);
      forall g | g in s.calls ensures g in Next(s, step).calls
        ensures Next(s, step).calls[g].requestId == s.calls[g].requestId
      {
        StageExact(s, step, g);
      }
    }
  }

  lemma NewIds(s: System, n: System, g: GatewayId)
    requires IdsInv(s) && n.requestIds == s.requestIds + 1
    requires n.calls == s.calls || (g in n.calls && n.calls == s.calls[g := n.calls[g]]
                                    && n.calls[g].requestId == n.requestIds)
    ensures IdsInv(n)
  {
  }

  lemma KeysKept(s: System, step: Step)
    requires !step.Register?
    ensures Next(s, step).calls.Keys == s.calls.Keys && Next(s, step).requestIds == s.requestIds
  {
    hide Sending, Receiving, Abandon;
    match step
    case Send(h, encodes) => if h in s.calls { SentStage(s, h, encodes); SendMints(s, h, encodes); }
    case Associate(h) => if h in s.calls { AbandonedStage(s, h); }
    case Receive(h) => if h in s.calls && s.calls[h].stage.Sent? && h in s.delivered { ReceivedStage(s, h); }
    case CallerGone(_) =>
    case _ => SameCalls(s, step);
  }

  lemma SendMints(s: System, g: GatewayId, encodes: bool)
    requires g in s.calls
    ensures Sending(s, g, encodes).requestIds == s.requestIds
  {
    hide Enqueue;
  }

  lemma {:induction false} IdsRun(s: System, steps: seq<Step>)
    requires IdsInv(s)
    ensures IdsInv(Run(s, steps))
    decreases |steps|
  {
    hide IdsInv, Next;
    if steps != [] {
      IdsStep(s, steps[0]);
      IdsRun(Next(s, steps[0]), steps[1..]);
    }
  }

  lemma RequestIdsDistinct(maxPending: int, steps: seq<Step>, g: GatewayId, h: GatewayId)
    requires g in Reach(maxPending, steps).calls && h in Reach(maxPending, steps).calls && g != h
    ensures Reach(maxPending, steps).calls[g].requestId != Reach(maxPending, steps).calls[h].requestId
  {
    hide Run;
    IdsRun(Initial(maxPending), steps);
  }

  /** The cancel of a call that has returned is queued on its device's current
      connection, behind what waits there, if that has room; a full queue closes
      instead, and no other connection notices. */
  lemma PushCancelExact(s: System, g: GatewayId, c: nat)
    requires g in s.calls && s.calls[g].stage.Returned? && c in s.cycles
    ensures var n := Next(s, PushCancel(g));
            var mine := s.calls[g].device in s.registry && s.registry[s.calls[g].device] == c;
            var hub := s.cycles[c].hub;
            && c in n.cycles && n.calls == s.calls && n.live == s.live && n.delivered == s.delivered
            && n.cycles[c].hub == if mine && hub.open && |hub.queue| < hub.capacity
                                  then hub.(queue := hub.queue + [CancelEnv(g)])
                                  else if mine && hub.open then hub.(open := false) else hub
  {
  }

  /** A new connection is the device's only one and starts empty; the one it
      replaces is closed, keeping what waits there, and no other notices. */
  lemma ConnectExact(s: System, c: nat, device: string, capacity: nat, d: nat)
    requires c !in s.cycles && d in s.cycles
    ensures var n := Next(s, Connect(c, device, capacity));
            && n.registry == s.registry[device := c]
            && c in n.cycles && n.cycles[c] == NewCycle(device, capacity) && d in n.cycles
            && n.cycles[d] == if device in s.registry && s.registry[device] == d
                              then s.cycles[d].(hub := s.cycles[d].hub.(open := false)) else s.cycles[d]
  {
  }

  /** Taking a device out closes its connection, and no other notices. */
  lemma UnregisterExact(s: System, device: string, d: nat)
    requires d in s.cycles
    ensures var n := Next(s, Unregister(device));
            && n.registry == s.registry - {device} && d in n.cycles
            && n.cycles[d] == if device in s.registry && s.registry[device] == d
                              then s.cycles[d].(hub := s.cycles[d].hub.(open := false)) else s.cycles[d]
  {
  }
}
