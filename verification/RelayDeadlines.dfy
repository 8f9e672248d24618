/** No call is executed after its deadline, and a late request leaves no trace. */
module RelayDeadlines {
  import opened Common
  import opened Wire
  import opened BridgeRelay
  import opened BridgeCycle
  import opened RelayProtocol
  import opened RelayTheorems

  type Calls = map<GatewayId, GatewayCall>

  /** Requests on their way carry their call's deadline. */
  ghost predicate Dated(d: seq<Down>, calls: Calls) {
    forall i :: 0 <= i < |d| && d[i].RequestEnv? ==>
      d[i].gatewayId in calls && d[i].deadline == Some(calls[d[i].gatewayId].deadline)
  }

  /** What was executed was executed in time. */
  ghost predicate InTime(l: Log, calls: Calls) {
    forall g :: g in l.executions ==> g in calls && g in l.executedAt && l.executedAt[g] <= calls[g].deadline
  }

  ghost predicate Timely(c: Cycle, calls: Calls) {
    Dated(c.inbound, calls) && Dated(c.hub.queue, calls) && InTime(c.log, calls)
  }

  ghost predicate AllTimely(s: System) {
    forall c :: c in s.cycles ==> Timely(s.cycles[c], s.calls)
  }

  ghost predicate SameDeadlines(calls: Calls, n: Calls) {
    forall g :: g in calls ==> g in n && n[g].deadline == calls[g].deadline
  }

  lemma TimelyLater(c: Cycle, calls: Calls, n: Calls)
    requires Timely(c, calls) && SameDeadlines(calls, n)
    ensures Timely(c, n)
  {
  }

  lemma DispatchTimely(c: Cycle, now: int, send: SendOutcome, calls: Calls)
    requires Timely(c, calls) && c.phase.Relaying? && |c.inbound| > 0
    ensures Timely(Dispatched(c, now, send), calls)
  {
    var env := c.inbound[0];
    if env.RequestEnv? && !send.NotWritten? && !(env.deadline.Some? && now > env.deadline.value) {
      assert now <= calls[env.gatewayId].deadline;
    }
  }

  lemma CycleStepTimely(c: Cycle, step: CycleStep, calls: Calls)
    requires Timely(c, calls)
    ensures Timely(CycleNext(c, step), calls)
  {
    hide Dispatched, Received, RoutedUp, Answered;
    match step
    case Dispatch(now, send) => if c.phase.Relaying? && |c.inbound| > 0 { DispatchTimely(c, now, send, calls); }
    case BringUpReceive => if c.phase.Starting? && |c.child.responses| > 0 { ReceivedTimely(c, calls); }
    case Route(queued) => if c.phase.Relaying? && |c.child.responses| > 0 { RoutedTimely(c, queued, calls); }
    case ChildAnswers(r, failed, body) =>
      if r in c.child.unanswered && r.id.Some? { AnsweredTimely(c, r, failed, body, calls); }
    case _ =>
  }

  lemma ReceivedTimely(c: Cycle, calls: Calls)
    requires Timely(c, calls) && c.phase.Starting? && |c.child.responses| > 0
    ensures Timely(Received(c), calls)
  {
    hide Dated, InTime;
  }

  lemma RoutedTimely(c: Cycle, queued: bool, calls: Calls)
    requires Timely(c, calls) && c.phase.Relaying? && |c.child.responses| > 0
    ensures Timely(RoutedUp(c, queued), calls)
  {
    hide Dated;
  }

  lemma AnsweredTimely(c: Cycle, r: ChildRequest, failed: bool, body: int, calls: Calls)
    requires Timely(c, calls) && r in c.child.unanswered && r.id.Some?
    ensures Timely(Answered(c, r, failed, body), calls)
  {
    hide Dated;
  }

  lemma EnqueueTimely(c: Cycle, env: Down, calls: Calls)
    requires Timely(c, calls)
    requires env.RequestEnv? ==> env.gatewayId in calls && env.deadline == Some(calls[env.gatewayId].deadline)
    ensures Timely(Enqueue(c, env).0, calls)
  {
  }

  lemma OneCycleTimely(s: System, c: nat, n: Cycle)
    requires AllTimely(s) && c in s.cycles && Timely(n, s.calls)
    ensures AllTimely(s.(cycles := s.cycles[c := n]))
  {
    hide Timely;
  }

  lemma CallsTimely(s: System, n: System)
    requires AllTimely(s) && n.cycles == s.cycles && SameDeadlines(s.calls, n.calls)
    ensures AllTimely(n)
  {
    hide Timely;
    forall c | c in n.cycles ensures Timely(n.cycles[c], n.calls) { TimelyLater(s.cycles[c], s.calls, n.calls); }
  }

  lemma CloseTimely(s: System, c: nat)
    requires AllTimely(s)
    ensures AllTimely(s.(cycles := CloseHub(s.cycles, c)))
  {
    hide Timely, CycleNext;
    if c in s.cycles { CycleStepTimely(s.cycles[c], HubClose, s.calls); }
  }

  lemma ConnectTimely(s: System, c: nat, device: string, capacity: nat)
    requires AllTimely(s)
    ensures AllTimely(Connecting(s, c, device, capacity))
  {
    if device in s.registry { CloseTimely(s, s.registry[device]); }
    assert Timely(NewCycle(device, capacity), s.calls);
    hide Timely, CloseHub;
  }

  lemma SendTimely(s: System, g: GatewayId, encodes: bool)
    requires AllTimely(s) && g in s.calls
    ensures AllTimely(Sending(s, g, encodes))
  {
    hide AllTimely, Enqueue;
    var call := s.calls[g];
    if call.device in s.registry && s.registry[call.device] in s.cycles && encodes {
      var c := s.registry[call.device];
      var env := RequestEnv(g, Some(Num(call.requestId)), Some(call.deadline));
      EnqueuedTimely(s, c, env);
      var after := s.(cycles := s.cycles[c := Enqueue(s.cycles[c], env).0]);
      CallsTimely(after, Sending(s, g, encodes));
    } else {
      CallsTimely(s, Sending(s, g, encodes));
    }
  }

  lemma EnqueuedTimely(s: System, c: nat, env: Down)
    requires AllTimely(s) && c in s.cycles
    requires env.RequestEnv? ==> env.gatewayId in s.calls && env.deadline == Some(s.calls[env.gatewayId].deadline)
    ensures AllTimely(s.(cycles := s.cycles[c := Enqueue(s.cycles[c], env).0]))
  {
    hide Enqueue, Timely;
    EnqueueTimely(s.cycles[c], env, s.calls);
    OneCycleTimely(s, c, Enqueue(s.cycles[c], env).0);
  }

  lemma CancelTimely(s: System, g: GatewayId)
    requires AllTimely(s) && g in s.calls
    ensures AllTimely(Cancelling(s, g))
  {
    hide AllTimely, Enqueue;
    var device := s.calls[g].device;
    if device in s.registry && s.registry[device] in s.cycles { EnqueuedTimely(s, s.registry[device], CancelEnv(g)); }
  }

  lemma HandleTimely(s: System, c: nat)
    requires AllTimely(s) && c in s.cycles && |s.cycles[c].outbound| > 0
    ensures AllTimely(Handling(s, c))
  {
    var popped := s.cycles[c].(outbound := s.cycles[c].outbound[1..]);
    OneCycleTimely(s, c, popped);
    hide AllTimely;
    CallsTimely(s.(cycles := s.cycles[c := popped]), Handling(s, c));
  }

  lemma NextTimely(s: System, step: Step)
    requires AllTimely(s)
    ensures AllTimely(Next(s, step))
  {
    hide AllTimely, CycleNext, Sending, Cancelling, Connecting, CloseHub, Registering, Abandon, Receiving, Complete,
         AtStage, Handling;
    match step
    case InCycle(c, inner) => if c in s.cycles { InsideTimely(s, c, inner); }
    case Send(g, encodes) => if g in s.calls { SendTimely(s, g, encodes); }
    case PushCancel(g) => if g in s.calls { CancelTimely(s, g); }
    case Connect(c, device, capacity) => ConnectTimely(s, c, device, capacity);
    case Unregister(device) => if device in s.registry { UnregisterTimely(s, device); }
    case HandleResponse(c) => if c in s.cycles && |s.cycles[c].outbound| > 0 { HandleTimely(s, c); }
    case Register(g, device, deadline) => RegisterTimely(s, g, device, deadline);
    case Associate(g) => if g in s.calls { StageTimely(s, g, Associated, InvalidResponse); }
    case Receive(g) => if g in s.calls && g in s.delivered { ReceiveTimely(s, g); }
    case CallerGone(g) => if g in s.calls { StageTimely(s, g, Returned(Err(SessionCancelled)), InvalidResponse); }
    case Fail(g, cause) => CompleteTimely(s, g, Failed(cause));
  }

  lemma UnregisterTimely(s: System, device: string)
    requires AllTimely(s) && device in s.registry
    ensures AllTimely(s.(cycles := CloseHub(s.cycles, s.registry[device]), registry := s.registry - {device}))
  {
    hide AllTimely, CloseHub;
    CloseTimely(s, s.registry[device]);
    var closed := s.(cycles := CloseHub(s.cycles, s.registry[device]));
    CallsTimely(closed, closed.(registry := s.registry - {device}));
  }

  lemma RegisterTimely(s: System, g: GatewayId, device: string, deadline: int)
    requires AllTimely(s)
    ensures AllTimely(Registering(s, g, device, deadline))
  {
    hide AllTimely;
    CallsTimely(s, Registering(s, g, device, deadline));
  }

  lemma StageTimely(s: System, g: GatewayId, stage: Stage, cause: Failure)
    requires AllTimely(s) && g in s.calls
    ensures AllTimely(AtStage(s, g, stage)) && AllTimely(Abandon(s, g, cause))
  {
    hide AllTimely;
    CallsTimely(s, AtStage(s, g, stage));
    CallsTimely(s, Abandon(s, g, cause));
  }

  lemma ReceiveTimely(s: System, g: GatewayId)
    requires AllTimely(s) && g in s.calls && g in s.delivered
    ensures AllTimely(Receiving(s, g))
  {
    hide AllTimely;
    CallsTimely(s, Receiving(s, g));
  }

  lemma CompleteTimely(s: System, g: GatewayId, d: Delivery)
    requires AllTimely(s)
    ensures AllTimely(Complete(s, g, d))
  {
    hide AllTimely;
    CallsTimely(s, Complete(s, g, d));
  }

  lemma InsideTimely(s: System, c: nat, step: CycleStep)
    requires AllTimely(s) && c in s.cycles
    ensures AllTimely(s.(cycles := s.cycles[c := CycleNext(s.cycles[c], step)]))
  {
    hide Timely, CycleNext;
    CycleStepTimely(s.cycles[c], step, s.calls);
    OneCycleTimely(s, c, CycleNext(s.cycles[c], step));
  }

  lemma {:induction false} RunTimely(s: System, steps: seq<Step>)
    requires AllTimely(s)
    ensures AllTimely(Run(s, steps))
    decreases |steps|
  {
    hide AllTimely, Next;
    if steps != [] {
      NextTimely(s, steps[0]);
      RunTimely(Next(s, steps[0]), steps[1..]);
    }
  }

  /** Whatever the queues, connections and clocks do, a call that reached a child
      reached it no later than its deadline. */
  lemma NeverExecutedLate(maxPending: int, steps: seq<Step>, c: nat, g: GatewayId)
    requires c in Reach(maxPending, steps).cycles && g in Reach(maxPending, steps).cycles[c].log.executions
    ensures var s := Reach(maxPending, steps);
            g in s.calls && g in s.cycles[c].log.executedAt && s.cycles[c].log.executedAt[g] <= s.calls[g].deadline
  {
    hide Run;
    assert AllTimely(Initial(maxPending));
    RunTimely(Initial(maxPending), steps);
    var s := Reach(maxPending, steps);
    assert Timely(s.cycles[c], s.calls);
  }

  /** A request at the front is given to the child exactly if the child takes it
      and its deadline has not passed; a late one is dropped and nothing else
      happens, no local id spent. A request in time spends a local id exactly if
      it has an id, and is given to the child under that one. */
  lemma DispatchExact(c: Cycle, now: int, send: SendOutcome)
    requires c.phase.Relaying? && |c.inbound| > 0 && c.inbound[0].RequestEnv?
    ensures var env := c.inbound[0];
            var n := CycleNext(c, Dispatch(now, send));
            var late := env.deadline.Some? && env.deadline.value < now;
            var given := !late && !send.NotWritten?;
            var k := c.bridge.nextLocalId;
            var frame := ChildRequest(if env.id.Some? then Some(Num(k)) else None, Call(env.gatewayId));
            && n.inbound == c.inbound[1..] && n.outbound == c.outbound && n.hub == c.hub && n.phase == c.phase
            && (late ==> n == c.(inbound := c.inbound[1..]))
            && (!late ==> n.bridge.nextLocalId == if env.id.Some? then k + 1 else k)
            && CountOf(n.log.executions, env.gatewayId) ==
               CountOf(c.log.executions, env.gatewayId) + (if given then 1 else 0)
            && n.child.given == c.child.given + (if given then {frame} else {})
            && (!late && send.Written? && env.id.Some? ==>
                  && n.bridge.localById == c.bridge.localById[Num(k) := Correlation(env.gatewayId, env.id.value)]
                  && n.bridge.byGatewayId == c.bridge.byGatewayId[env.gatewayId := k])
            && (late || !send.Written? || env.id.None? ==>
                  n.bridge.localById == c.bridge.localById && n.bridge.byGatewayId == c.bridge.byGatewayId)
  {
    assert CycleNext(c, Dispatch(now, send)) == Dispatched(c, now, send);
  }
}
