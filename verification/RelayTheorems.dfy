/** What the relayed protocol guarantees over whole runs. */
module RelayTheorems {
  import opened Common
  import opened Wire
  import opened BridgeRelay
  import opened BridgeCycle
  import opened RelayProtocol

  function Reach(maxPending: int, steps: seq<Step>): System {
    Run(Initial(maxPending), steps)
  }

  lemma ReachInv(maxPending: int, steps: seq<Step>)
    ensures Inv(Reach(maxPending, steps))
  {
    InitialInv(maxPending);
    RunInv(Initial(maxPending), steps);
  }

  /** No cross-talk. A call that succeeds returns the answer the child gave to
      that very call, on the connection the call was sent on, under the id the
      gateway minted for it. */
  lemma NoCrossTalk(maxPending: int, steps: seq<Step>, g: GatewayId)
    requires var s := Reach(maxPending, steps);
             g in s.calls && s.calls[g].stage.Returned? && s.calls[g].stage.result.Ok?
    ensures var s := Reach(maxPending, steps);
            var f := s.calls[g].stage.result.value;
            && f.id == Some(Num(s.calls[g].requestId))
            && f.content.Outcome? && f.content.origin == Call(g)
            && g in s.sentOn && s.sentOn[g] in s.cycles
            && var log := s.cycles[s.sentOn[g]].log;
               && g in log.answers && log.answers[g] == f.content
               && g in log.executions && log.executions[g] == 1
  {
    ReachInv(maxPending, steps);
    var s := Reach(maxPending, steps);
    ReturnedOf(s, g);
    CycleOf(s, s.sentOn[g]);
    LogOf(s.cycles[s.sentOn[g]], g);
  }

  lemma ReturnedOf(s: System, g: GatewayId)
    requires Inv(s) && g in s.calls && s.calls[g].stage.Returned? && s.calls[g].stage.result.Ok?
    ensures var f := s.calls[g].stage.result.value;
            && ValidResponse(f, s.calls[g].requestId)
            && g in s.sentOn && s.sentOn[g] in s.cycles
            && ResponseInv(Response(g, f), s.cycles[s.sentOn[g]].log)
  {
    hide CyclesInv, ResponseInv;
  }

  lemma LogOf(c: Cycle, g: GatewayId)
    requires CycleInv(c)
    ensures g in c.log.executions ==> c.log.executions[g] == 1 && g in c.log.accepted
    ensures g in c.log.sent ==> c.log.sent[g] == 1 && g in c.log.accepted
    ensures g in c.log.answers ==> g in c.log.executions
  {
    hide DownInv, GivenInv, CorrelationInv, ChildInv, UpInv;
  }

  /** A child's answer is never turned away by the gateway: once its payload is
      delivered, the id check is already met. Only a frame with neither result
      nor error is rejected. */
  lemma AnswersAreAccepted(maxPending: int, steps: seq<Step>, g: GatewayId)
    requires var s := Reach(maxPending, steps);
             g in s.calls && g in s.delivered && s.delivered[g].Payload?
    ensures var s := Reach(maxPending, steps);
            ValidResponse(s.delivered[g].frame, s.calls[g].requestId) <==> s.delivered[g].frame.content.Outcome?
  {
    ReachInv(maxPending, steps);
    var s := Reach(maxPending, steps);
    hide CyclesInv;
    CycleOf(s, s.sentOn[g]);
  }

  /** At-most-once execution: over all connections and children of a run, a
      gateway id reaches one child, once. */
  lemma AtMostOnceExecution(maxPending: int, steps: seq<Step>, g: GatewayId, c: nat, d: nat)
    requires var s := Reach(maxPending, steps);
             && c in s.cycles && g in s.cycles[c].log.executions
             && d in s.cycles && g in s.cycles[d].log.executions
    ensures c == d && Reach(maxPending, steps).cycles[c].log.executions[g] == 1
  {
    ReachInv(maxPending, steps);
    var s := Reach(maxPending, steps);
    hide Inv, CycleInv;
    CycleOf(s, c);
    CycleOf(s, d);
    LogOf(s.cycles[c], g);
    LogOf(s.cycles[d], g);
  }

  /** At most one response envelope is ever sent for a gateway id. */
  lemma AtMostOneResponse(maxPending: int, steps: seq<Step>, g: GatewayId, c: nat, d: nat)
    requires var s := Reach(maxPending, steps);
             && c in s.cycles && g in s.cycles[c].log.sent
             && d in s.cycles && g in s.cycles[d].log.sent
    ensures c == d && Reach(maxPending, steps).cycles[c].log.sent[g] == 1
  {
    ReachInv(maxPending, steps);
    var s := Reach(maxPending, steps);
    hide Inv, CycleInv;
    CycleOf(s, c);
    CycleOf(s, d);
    LogOf(s.cycles[c], g);
    LogOf(s.cycles[d], g);
  }

  /** Bring-up ids 1, 2 and 3 are spent before relay ids restart at 1: no answer
      to a bring-up request is owed or queued once the Studio is probed, nor at
      any point of the relay loop. */
  lemma BringUpDrained(maxPending: int, steps: seq<Step>, c: nat)
    requires c in Reach(maxPending, steps).cycles
    ensures var cycle := Reach(maxPending, steps).cycles[c];
            && (cycle.phase.Probing? ==> cycle.child.unanswered == {} && OnlyMethods(cycle.child.responses))
            && (cycle.phase.Probing? || cycle.phase.Relaying? ==>
                  && (forall r :: r in cycle.child.unanswered ==> r.origin.Call?)
                  && (forall f :: f in cycle.child.responses && f.content.Outcome? ==> f.content.origin.Call?))
  {
    ReachInv(maxPending, steps);
    CycleOf(Reach(maxPending, steps), c);
    hide Inv, DownInv, GivenInv, CorrelationInv, ChildInv, UpInv, LogInv;
  }

  // ------------------------------------------------- silence after the end

  function CountOf(m: Counts, g: GatewayId): nat {
    if g in m then m[g] else 0
  }

  /** Once a cycle processed a call's cancel, or ended, that call is neither
      executed nor answered there any more. */
  ghost predicate Silenced(c: Cycle, g: GatewayId) {
    c.phase.Ended? || (g in c.log.cancelsDone && g in c.log.accepted)
  }

  lemma SilentStep(c: Cycle, g: GatewayId, step: CycleStep)
    requires CycleInv(c) && Silenced(c, g)
    ensures var n := CycleNext(c, step);
            && Silenced(n, g)
            && SameCounts(c, n, g)
  {
    hide CycleInv, Silenced, SameCounts, Dispatched, RoutedUp, Received, Answered;
    SameCountsRefl(c, g);
    match step
    case Dispatch(now, send) =>
      if c.phase.Relaying? && |c.inbound| > 0 { SilentDispatch(c, g, now, send); }
    case Route(queued) => if c.phase.Relaying? && |c.child.responses| > 0 { SilentRoute(c, g, queued); }
    case _ => SilentOther(c, g, step);
  }

  lemma SilentDispatch(c: Cycle, g: GatewayId, now: int, send: SendOutcome)
    requires CycleInv(c) && Silenced(c, g) && c.phase.Relaying? && |c.inbound| > 0
    ensures Silenced(Dispatched(c, now, send), g) && SameCounts(c, Dispatched(c, now, send), g)
  {
    hide Forwarded, Give;
    if c.inbound[0].RequestEnv? { CancelledIsNotQueued(c, g); }
    hide CycleInv;
  }

  lemma SilentRoute(c: Cycle, g: GatewayId, queued: bool)
    requires CycleInv(c) && Silenced(c, g) && c.phase.Relaying? && |c.child.responses| > 0
    ensures Silenced(RoutedUp(c, queued), g) && SameCounts(c, RoutedUp(c, queued), g)
  {
    hide DownInv, LogInv, GivenInv, ChildInv, DrainInv, UpInv, Paired, Routed;
    var response := RouteResponse(c.bridge, c.child.responses[0]);
    assert response.Some? ==> response.value.gatewayId != g;
  }

  lemma SilentOther(c: Cycle, g: GatewayId, step: CycleStep)
    requires Silenced(c, g) && !step.Dispatch? && !step.Route?
    ensures Silenced(CycleNext(c, step), g) && SameCounts(c, CycleNext(c, step), g)
  {
    hide Give, Deliver;
  }

  lemma CancelledIsNotQueued(c: Cycle, g: GatewayId)
    requires CycleInv(c) && g in c.log.cancelsDone && |c.inbound| > 0 && c.inbound[0].RequestEnv?
    ensures c.inbound[0].gatewayId != g
  {
    assert Downstream(c)[0] == c.inbound[0];
  }

  ghost predicate SameCounts(c: Cycle, n: Cycle, g: GatewayId) {
    && CountOf(n.log.executions, g) == CountOf(c.log.executions, g)
    && CountOf(n.log.sent, g) == CountOf(c.log.sent, g)
  }

  lemma SilentEnqueue(c: Cycle, g: GatewayId, env: Down)
    requires Silenced(c, g)
    ensures Silenced(Enqueue(c, env).0, g) && SameCounts(c, Enqueue(c, env).0, g)
  {
  }

  lemma SilentNext(s: System, c: nat, g: GatewayId, step: Step)
    requires Inv(s) && c in s.cycles && Silenced(s.cycles[c], g)
    ensures var n := Next(s, step);
            c in n.cycles && Silenced(n.cycles[c], g) && SameCounts(s.cycles[c], n.cycles[c], g)
  {
    hide Inv, CycleInv, Silenced, SameCounts, CycleNext, Enqueue, Sending, Cancelling, Connecting, Handling,
         Registering,
      Receiving, Abandon, Complete;
    CycleOf(s, c);
    SameCountsRefl(s.cycles[c], g);
    match step
    case InCycle(d, inner) => SilentStep(s.cycles[c], g, inner);
    case Register(h, device, deadline) => CyclesUntouched(s, h, device, deadline);
    case Associate(h) => if h in s.calls { AbandonKeepsCycles(s, h, InvalidResponse); }
    case Send(h, encodes) => if h in s.calls { SilentSend(s, c, g, h, encodes); }
    case Fail(h, cause) => CompleteKeepsCycles(s, h, Failed(cause));
    case Receive(h) => if h in s.calls && h in s.delivered { ReceivingKeepsCycles(s, h); }
    case CallerGone(h) =>
    case PushCancel(h) => if h in s.calls { SilentCancel(s, c, g, h); }
    case Connect(d, device, capacity) =>
      if d !in s.cycles {
        SilentStep(s.cycles[c], g, HubClose);
        SilentConnect(s, c, g, d, device, capacity);
      }
    case Unregister(device) => SilentStep(s.cycles[c], g, HubClose);
    case HandleResponse(d) =>
      if d in s.cycles && |s.cycles[d].outbound| > 0 {
        SilentTake(s.cycles[c], g);
        SilentHandle(s, c, g, d);
      }
  }

  lemma SameCountsRefl(c: Cycle, g: GatewayId)
    ensures SameCounts(c, c, g)
  {
  }

  lemma CompleteKeepsCycles(s: System, g: GatewayId, d: Delivery)
    ensures Complete(s, g, d).cycles == s.cycles
  {
  }

  lemma AbandonKeepsCycles(s: System, g: GatewayId, cause: Failure)
    requires g in s.calls
    ensures Abandon(s, g, cause).cycles == s.cycles
  {
  }

  lemma CyclesUntouched(s: System, g: GatewayId, device: string, deadline: int)
    ensures Registering(s, g, device, deadline).cycles == s.cycles
  {
  }

  lemma ReceivingKeepsCycles(s: System, g: GatewayId)
    requires g in s.calls && g in s.delivered
    ensures Receiving(s, g).cycles == s.cycles
  {
  }

  lemma SilentSend(s: System, c: nat, g: GatewayId, h: GatewayId, encodes: bool)
    requires c in s.cycles && Silenced(s.cycles[c], g) && h in s.calls
    ensures var n := Sending(s, h, encodes);
            c in n.cycles && Silenced(n.cycles[c], g) && SameCounts(s.cycles[c], n.cycles[c], g)
  {
    hide Silenced, SameCounts, Enqueue, Abandon;
    SameCountsRefl(s.cycles[c], g);
    var call := s.calls[h];
    var env := RequestEnv(h, Some(Num(call.requestId)), Some(call.deadline));
    SilentEnqueue(s.cycles[c], g, env);
    AbandonKeepsCycles(s, h, DeviceGone);
    if call.device in s.registry && s.registry[call.device] in s.cycles {
      var d := s.registry[call.device];
      AbandonKeepsCycles(s.(cycles := s.cycles[d := Enqueue(s.cycles[d], env).0]), h, DeviceGone);
    }
  }

  lemma SilentCancel(s: System, c: nat, g: GatewayId, h: GatewayId)
    requires c in s.cycles && Silenced(s.cycles[c], g) && h in s.calls
    ensures var n := Cancelling(s, h);
            c in n.cycles && Silenced(n.cycles[c], g) && SameCounts(s.cycles[c], n.cycles[c], g)
  {
    hide Silenced, SameCounts, Enqueue;
    SameCountsRefl(s.cycles[c], g);
    SilentEnqueue(s.cycles[c], g, CancelEnv(h));
  }

  lemma SilentConnect(s: System, c: nat, g: GatewayId, d: nat, device: string, capacity: nat)
    requires c in s.cycles && d !in s.cycles && Silenced(s.cycles[c], g)
    requires Silenced(CycleNext(s.cycles[c], HubClose), g)
             && SameCounts(s.cycles[c], CycleNext(s.cycles[c], HubClose), g)
    ensures var n := Connecting(s, d, device, capacity);
            c in n.cycles && Silenced(n.cycles[c], g) && SameCounts(s.cycles[c], n.cycles[c], g)
  {
    hide Silenced, SameCounts, CycleNext;
    SameCountsRefl(s.cycles[c], g);
  }

  lemma SilentHandle(s: System, c: nat, g: GatewayId, d: nat)
    requires c in s.cycles && d in s.cycles && |s.cycles[d].outbound| > 0 && Silenced(s.cycles[c], g)
    requires |s.cycles[c].outbound| > 0 ==>
               && Silenced(s.cycles[c].(outbound := s.cycles[c].outbound[1..]), g)
               && SameCounts(s.cycles[c], s.cycles[c].(outbound := s.cycles[c].outbound[1..]), g)
    ensures var n := Handling(s, d);
            c in n.cycles && Silenced(n.cycles[c], g) && SameCounts(s.cycles[c], n.cycles[c], g)
  {
    hide Silenced, SameCounts;
    SameCountsRefl(s.cycles[c], g);
  }

  lemma SilentTake(c: Cycle, g: GatewayId)
    requires Silenced(c, g)
    ensures |c.outbound| > 0 ==>
              Silenced(c.(outbound := c.outbound[1..]), g) && SameCounts(c, c.(outbound := c.outbound[1..]), g)
  {
  }

  lemma {:induction false} SilentRun(s: System, c: nat, g: GatewayId, steps: seq<Step>)
    requires Inv(s) && c in s.cycles && Silenced(s.cycles[c], g)
    ensures var n := Run(s, steps); c in n.cycles && SameCounts(s.cycles[c], n.cycles[c], g)
    decreases |steps|
  {
    hide Inv, Silenced, Next;
    if steps != [] {
      SilentNext(s, c, g, steps[0]);
      NextInv(s, steps[0]);
      SilentRun(Next(s, steps[0]), c, g, steps[1..]);
    }
  }

  /** However a run goes on, a call whose cancel the Bridge has processed, or
      whose cycle has ended, is executed and answered no more often there. */
  lemma SilentForEver(maxPending: int, before: seq<Step>, after: seq<Step>, c: nat, g: GatewayId)
    requires c in Reach(maxPending, before).cycles && Silenced(Reach(maxPending, before).cycles[c], g)
    ensures c in Reach(maxPending, before + after).cycles
    ensures SameCounts(Reach(maxPending, before).cycles[c], Reach(maxPending, before + after).cycles[c], g)
  {
    ReachInv(maxPending, before);
    RunAppend(Initial(maxPending), before, after);
    SilentRun(Reach(maxPending, before), c, g, after);
  }
}
