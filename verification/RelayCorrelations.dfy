/** Which calls a Bridge is waiting for, and whose answers get through. */
module RelayCorrelations {
  import opened Common
  import opened Wire
  import opened BridgeRelay
  import opened McpChild
  import opened BridgeCycle
  import opened RelayProtocol
  import opened RelayTheorems

  /** The Bridge waits for the answer to call `g` under local id `k`. */
  predicate Awaits(b: Bridge, g: GatewayId, k: int) {
    g in b.byGatewayId && b.byGatewayId[g] == k
  }

  /** Whether it still does after a step: a request in time that the child took
      is waited for under the next id, and a wait ends with its cancel, with a
      frame of its id, or with the cycle. */
  ghost predicate AwaitsAfter(c: Cycle, step: CycleStep, g: GatewayId, k: int) {
    match step
    case Dispatch(now, send) =>
      if !c.phase.Relaying? || c.inbound == [] then Awaits(c.bridge, g, k)
      else (
        match c.inbound[0]
        case CancelEnv(h) => Awaits(c.bridge, g, k) && h != g
        case RequestEnv(h, id, deadline) =>
          if h == g && id.Some? && send.Written? && !(deadline.Some? && deadline.value < now)
          then k == c.bridge.nextLocalId else Awaits(c.bridge, g, k))
    case Route(_) =>
      Awaits(c.bridge, g, k)
      && !(c.phase.Relaying? && c.child.responses != [] && c.child.responses[0].id == Some(Num(k)))
    case EndCycle => false
    case _ => Awaits(c.bridge, g, k)
  }

  lemma AwaitsExact(maxPending: int, steps: seq<Step>, c: nat, step: CycleStep, g: GatewayId, k: int)
    requires c in Reach(maxPending, steps).cycles
    ensures var cycle := Reach(maxPending, steps).cycles[c];
            Awaits(CycleNext(cycle, step).bridge, g, k) <==> AwaitsAfter(cycle, step, g, k)
  {
    hide Run, CycleInv, Inv, CycleNext, AwaitsAfter;
    ReachInv(maxPending, steps);
    CycleOf(Reach(maxPending, steps), c);
    AwaitsStep(Reach(maxPending, steps).cycles[c], step, g, k);
  }

  /** The cancel of an accepted call, once the Bridge has taken it from the wire,
      silences the call there: it is waited for no more, and never executed or
      answered again. */
  lemma CancelSilences(maxPending: int, steps: seq<Step>, c: nat, g: GatewayId, now: int, send: SendOutcome)
    requires c in Reach(maxPending, steps).cycles
    requires var cycle := Reach(maxPending, steps).cycles[c];
             cycle.phase.Relaying? && cycle.inbound != [] && cycle.inbound[0] == CancelEnv(g) && g in cycle.log.accepted
    ensures var n := CycleNext(Reach(maxPending, steps).cycles[c], Dispatch(now, send));
            Silenced(n, g) && forall k :: !Awaits(n.bridge, g, k)
  {
    hide Run, CycleInv, Inv;
    ReachInv(maxPending, steps);
    CycleOf(Reach(maxPending, steps), c);
    PairedOf(Reach(maxPending, steps).cycles[c]);
  }

  lemma PairedOf(c: Cycle)
    requires CycleInv(c)
    ensures Paired(c.bridge) && (!c.phase.Relaying? ==> c.bridge == FreshBridge)
  {
    hide DownInv, LogInv, GivenInv, ChildInv, DrainInv, UpInv;
  }

  lemma AwaitsStep(c: Cycle, step: CycleStep, g: GatewayId, k: int)
    requires CycleInv(c)
    ensures Awaits(CycleNext(c, step).bridge, g, k) <==> AwaitsAfter(c, step, g, k)
  {
    hide CycleInv, Received, Give, LogGiven, Added;
    PairedOf(c);
    if step.BringUpReceive? && c.phase.Starting? && |c.child.responses| > 0 { ReceivedBridge(c); }
  }

  lemma ReceivedBridge(c: Cycle)
    requires c.phase.Starting? && |c.child.responses| > 0 && c.bridge == FreshBridge
    ensures Received(c).bridge == FreshBridge
  {
    hide Give, LogGiven;
  }

  /** The frame at the front goes up exactly if its id is one the Bridge waits on
      and the session takes it, as the answer to that call, under the id that the
      gateway sent the call with. Anything else is dropped. */
  lemma RouteExact(maxPending: int, steps: seq<Step>, c: nat, queued: bool, g: GatewayId, k: int)
    requires c in Reach(maxPending, steps).cycles
    requires var cycle := Reach(maxPending, steps).cycles[c]; cycle.phase.Relaying? && cycle.child.responses != []
    ensures var s := Reach(maxPending, steps);
            var cycle := s.cycles[c];
            var f := cycle.child.responses[0];
            var n := CycleNext(cycle, Route(queued));
            && n.child == cycle.child.(responses := cycle.child.responses[1..])
            && n.inbound == cycle.inbound && n.hub == cycle.hub && n.phase == cycle.phase
            && (f.id == Some(Num(k)) && Awaits(cycle.bridge, g, k) ==>
                  && g in s.calls
                  && n.outbound == cycle.outbound
                                   + (if queued then [Response(g, Frame(Some(Num(s.calls[g].requestId)), f.content))]
                                      else [])
                  && CountOf(n.log.sent, g) == CountOf(cycle.log.sent, g) + (if queued then 1 else 0))
            && ((forall h, j :: f.id == Some(Num(j)) ==> !Awaits(cycle.bridge, h, j)) ==> n.outbound == cycle.outbound)
  {
    hide Run, CycleInv, Inv, CycleNext, Awaits;
    ReachInv(maxPending, steps);
    var s := Reach(maxPending, steps);
    CycleOf(s, c);
    PairedOf(s.cycles[c]);
    RouteIs(s.cycles[c], queued);
    if Awaits(s.cycles[c].bridge, g, k) {
      CorrelationOf(s.cycles[c], g, k);
      RouteAwaited(s.cycles[c], queued, g, k);
    }
    if s.cycles[c].child.responses[0].id.Some? { RouteOther(s.cycles[c], queued); }
  }

  lemma RouteAwaited(c: Cycle, queued: bool, g: GatewayId, k: int)
    requires c.phase.Relaying? && c.child.responses != []
    requires Num(k) in c.bridge.localById && c.bridge.localById[Num(k)].gatewayId == g
    ensures var n, f := RoutedUp(c, queued), c.child.responses[0];
            f.id == Some(Num(k)) ==>
              && n.outbound == c.outbound
                               + (if queued then
                                    [Response(g, Frame(Some(c.bridge.localById[Num(k)].originalId), f.content))]
                                  else [])
              && CountOf(n.log.sent, g) == CountOf(c.log.sent, g) + (if queued then 1 else 0)
  {
  }

  /** Only an id that is waited for finds a correlation. */
  lemma RouteOther(c: Cycle, queued: bool)
    requires c.phase.Relaying? && c.child.responses != [] && Paired(c.bridge) && c.child.responses[0].id.Some?
    ensures var n, f := RoutedUp(c, queued), c.child.responses[0];
            n.outbound == c.outbound || (f.id.value.Num? && exists h :: Awaits(c.bridge, h, f.id.value.n))
  {
    var f := c.child.responses[0];
    if f.id.value in c.bridge.localById {
      assert Awaits(c.bridge, c.bridge.localById[f.id.value].gatewayId, f.id.value.n);
    }
  }

  lemma RouteIs(c: Cycle, queued: bool)
    requires c.phase.Relaying? && c.child.responses != []
    ensures var n := CycleNext(c, Route(queued));
            && n == RoutedUp(c, queued) && n.child == c.child.(responses := c.child.responses[1..])
            && n.inbound == c.inbound && n.hub == c.hub && n.phase == c.phase
            && (c.child.responses[0].id.None? ==> n.outbound == c.outbound)
  {
  }

  lemma CorrelationOf(c: Cycle, g: GatewayId, k: int)
    requires CycleInv(c) && Awaits(c.bridge, g, k)
    ensures Num(k) in c.bridge.localById && c.bridge.localById[Num(k)].gatewayId == g
    ensures g in c.log.accepted && c.log.accepted[g] == Some(c.bridge.localById[Num(k)].originalId)
  {
    hide DownInv, LogInv, GivenInv, ChildInv, DrainInv, UpInv;
  }

  /** Nothing overtakes and nothing is lost on the way down but with the
      connection: a dispatch takes the oldest envelope, and a loss keeps a prefix
      of those on the wire. */
  lemma DownstreamExact(c: Cycle, step: CycleStep)
    ensures var was, n := Downstream(c), Downstream(CycleNext(c, step));
            match step
            case Dispatch(_, _) => n == if c.phase.Relaying? && c.inbound != [] then was[1..] else was
            case LoseDown(kept) => n == if kept <= |c.inbound| then was[..kept] else was
            case _ => n == was
  {
    hide Give, LogGiven, Routed, RouteResponse, Forwarded, Cancelled, ForwardFrame, Deliver;
  }

  // ------------------------------------------------ answers get through

  /** What the child owes an answer to is pending with the process. */
  ghost predicate Owed(child: Child) {
    forall r :: r in child.unanswered ==> r.id.Some? && HasPending(child.pending, r.id.value)
  }

  /** No two frames that the child owes answers to share an id. */
  lemma OwedDistinct(c: Cycle, q: ChildRequest, r: ChildRequest)
    requires CycleInv(c) && !c.phase.Ended?
    requires q in c.child.unanswered && r in c.child.unanswered && q.id == r.id
    ensures q == r
  {
    hide DownInv, LogInv, CorrelationInv, UpInv;
  }

  lemma GivenOwed(child: Child, r: ChildRequest)
    requires Owed(child) && Positive(child.pending)
    ensures Owed(Give(child, r))
  {
  }

  lemma DeliveredOwed(c: Cycle, r: ChildRequest, failed: bool, body: int)
    requires CycleInv(c) && !c.phase.Ended? && Owed(c.child) && r in c.child.unanswered && r.id.Some?
    ensures Owed(Answered(c, r, failed, body).child)
  {
    forall q | q in c.child.unanswered && q != r ensures q.id != r.id {
      if q.id == r.id { OwedDistinct(c, q, r); }
    }
    hide CycleInv;
  }

  lemma PositiveOf(c: Cycle)
    requires CycleInv(c)
    ensures Positive(c.child.pending)
  {
    hide DownInv, LogInv, GivenInv, CorrelationInv, DrainInv, UpInv;
  }

  lemma OwedStep(c: Cycle, step: CycleStep)
    requires CycleInv(c) && Owed(c.child)
    ensures Owed(CycleNext(c, step).child)
  {
    PositiveOf(c);
    hide CycleInv, Owed, Positive, Give, LogGiven, Answered, Routed, RouteResponse, Forwarded, Cancelled, ForwardFrame;
    match step
    case BringUpStart => GivenOwed(c.child, BringUpRequest(1));
    case BringUpReceive =>
      if c.phase.Starting? && |c.child.responses| > 0 {
        SameOwed(c.child, c.child.(responses := c.child.responses[1..]));
        GivenOwed(PopFrame(c).child, BringUpRequest(c.phase.step + 1));
      }
    case Dispatch(now, send) =>
      if c.phase.Relaying? && |c.inbound| > 0 && c.inbound[0].RequestEnv? {
        var frame := ForwardFrame(c.bridge, c.inbound[0], now);
        if frame.Some? { GivenOwed(c.child, frame.value); }
      }
    case ChildAnswers(r, failed, body) =>
      if !c.phase.Ended? && r in c.child.unanswered && r.id.Some? { DeliveredOwed(c, r, failed, body); }
    case ChildSpeaks(id) => SameOwed(c.child, c.child.(responses := c.child.responses + [Frame(id, Method)]));
    case Route(_) =>
      if |c.child.responses| > 0 { SameOwed(c.child, c.child.(responses := c.child.responses[1..])); }
    case _ =>
  }

  lemma SameOwed(child: Child, n: Child)
    requires n.unanswered == child.unanswered && n.pending == child.pending
    ensures Owed(n) == Owed(child)
  {
  }

  ghost predicate AllOwed(s: System) {
    forall c :: c in s.cycles ==> Owed(s.cycles[c].child)
  }

  lemma EnqueueKeepsChild(c: Cycle, env: Down)
    ensures Enqueue(c, env).0.child == c.child && CycleNext(c, HubClose).child == c.child
  {
    hide LogEnqueued;
  }

  /** The steps of the gateway leave every child alone, and a new one owes
      nothing. */
  lemma ChildrenKept(s: System, step: Step, c: nat)
    requires !step.InCycle?
    ensures ChildKept(s.cycles, Next(s, step).cycles, c)
  {
    hide Sending, Cancelling, Connecting, CloseHub, Registering, Abandon, Receiving, Complete, CycleNext;
    match step
    case Send(g, encodes) => if g in s.calls { SentKeepsChild(s, g, encodes, c); }
    case PushCancel(g) => if g in s.calls { CancelKeepsChild(s, g, c); }
    case Connect(d, device, capacity) => ConnectKeepsChild(s, d, device, capacity, c);
    case Unregister(device) => if device in s.registry { CloseKeepsChild(s.cycles, s.registry[device], c); }
    case Register(g, device, deadline) => CyclesUntouched(s, g, device, deadline);
    case Associate(g) => if g in s.calls { AbandonKeepsCycles(s, g, InvalidResponse); }
    case Receive(g) => if g in s.calls && g in s.delivered { ReceivingKeepsCycles(s, g); }
    case Fail(g, cause) => CompleteKeepsCycles(s, g, Failed(cause));
    case HandleResponse(d) => if d in s.cycles && |s.cycles[d].outbound| > 0 { HandledKeepsChild(s, d, c); }
    case CallerGone(_) =>
  }

  ghost predicate ChildKept(was: map<nat, Cycle>, n: map<nat, Cycle>, c: nat) {
    c in n ==> if c in was then n[c].child == was[c].child else n[c].child.unanswered == {}
  }

  lemma SentKeepsChild(s: System, g: GatewayId, encodes: bool, c: nat)
    requires g in s.calls
    ensures ChildKept(s.cycles, Sending(s, g, encodes).cycles, c)
  {
    hide Enqueue;
    var call := s.calls[g];
    if call.device in s.registry && s.registry[call.device] in s.cycles {
      EnqueueKeepsChild(s.cycles[s.registry[call.device]],
                        RequestEnv(g, Some(Num(call.requestId)), Some(call.deadline)));
    }
  }

  lemma CancelKeepsChild(s: System, g: GatewayId, c: nat)
    requires g in s.calls
    ensures ChildKept(s.cycles, Cancelling(s, g).cycles, c)
  {
    hide Enqueue;
    if s.calls[g].device in s.registry && s.registry[s.calls[g].device] in s.cycles {
      EnqueueKeepsChild(s.cycles[s.registry[s.calls[g].device]], CancelEnv(g));
    }
  }

  lemma CloseKeepsChild(cycles: map<nat, Cycle>, d: nat, c: nat)
    ensures ChildKept(cycles, CloseHub(cycles, d), c) && CloseHub(cycles, d).Keys == cycles.Keys
  {
    hide CycleNext;
    if d in cycles { EnqueueKeepsChild(cycles[d], CancelEnv(0)); }
  }

  lemma ConnectKeepsChild(s: System, d: nat, device: string, capacity: nat, c: nat)
    ensures d !in s.cycles ==> ChildKept(s.cycles, Connecting(s, d, device, capacity).cycles, c)
  {
    hide CloseHub;
    if device in s.registry { CloseKeepsChild(s.cycles, s.registry[device], c); }
  }

  lemma HandledKeepsChild(s: System, d: nat, c: nat)
    requires d in s.cycles && |s.cycles[d].outbound| > 0
    ensures ChildKept(s.cycles, Handling(s, d).cycles, c)
  {
  }

  lemma OwedChild(s: System, n: System, c: nat)
    requires AllOwed(s) && c in n.cycles && ChildKept(s.cycles, n.cycles, c)
    ensures Owed(n.cycles[c].child)
  {
  }

  lemma AllOwedStep(s: System, step: Step)
    requires Inv(s) && AllOwed(s)
    ensures AllOwed(Next(s, step))
  {
    hide Inv, Owed, CycleNext, CycleInv;
    if step.InCycle? {
      if step.cycle in s.cycles {
        CycleOf(s, step.cycle);
        OwedStep(s.cycles[step.cycle], step.step);
      }
    } else {
      hide Next;
      var n := Next(s, step);
      forall c | c in n.cycles ensures Owed(n.cycles[c].child) {
        ChildrenKept(s, step, c);
        OwedChild(s, n, c);
      }
    }
  }

  lemma {:induction false} AllOwedRun(s: System, steps: seq<Step>)
    requires Inv(s) && AllOwed(s)
    ensures AllOwed(Run(s, steps))
    decreases |steps|
  {
    hide Inv, AllOwed, Next;
    if steps != [] {
      NextInv(s, steps[0]);
      AllOwedStep(s, steps[0]);
      AllOwedRun(Next(s, steps[0]), steps[1..]);
    }
  }

  /** While the cycle lasts, an answer to any frame the child was given and has not
      answered is let through, behind what waits already, and counts as answered;
      what became of the call meanwhile does not matter. */
  lemma AnswersGetThrough(maxPending: int, steps: seq<Step>, c: nat, r: ChildRequest, failed: bool, body: int)
    requires c in Reach(maxPending, steps).cycles
    requires var cycle := Reach(maxPending, steps).cycles[c]; !cycle.phase.Ended? && r in cycle.child.unanswered
    ensures var cycle := Reach(maxPending, steps).cycles[c];
            var n := CycleNext(cycle, ChildAnswers(r, failed, body));
            && n.child.responses == cycle.child.responses + [Frame(r.id, Outcome(r.origin, failed, body))]
            && n.child.unanswered == cycle.child.unanswered - {r} && n.child.given == cycle.child.given
            && n.bridge == cycle.bridge && n.phase == cycle.phase && n.outbound == cycle.outbound
  {
    hide Run, Inv, CycleInv;
    InitialInv(maxPending);
    assert AllOwed(Initial(maxPending));
    AllOwedRun(Initial(maxPending), steps);
    var cycle := Reach(maxPending, steps).cycles[c];
    assert Owed(cycle.child);
  }
}
