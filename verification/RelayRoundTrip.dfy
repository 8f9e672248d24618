/** A relayed call left to itself comes back with its answer: the safety theorems
    are not about runs in which nothing happens. */
module RelayRoundTrip {
  import opened Common
  import opened Wire
  import opened BridgeRelay
  import opened McpChild
  import opened BridgeCycle
  import opened RelayProtocol

  /** A relaying cycle with room in its queue and nothing on the way. */
  predicate Idle(c: Cycle) {
    && c.phase.Relaying? && c.hub.open && c.hub.capacity > 0 && c.hub.queue == []
    && c.inbound == [] && c.outbound == [] && c.child.responses == []
  }

  /** What the child was given of a call, and where its answer will go. */
  ghost predicate WithChild(c: Cycle, g: GatewayId, k: JsonId, id: JsonId) {
    && c.phase.Relaying? && c.outbound == [] && c.child.responses == []
    && ChildRequest(Some(k), Call(g)) in c.child.unanswered
    && HasPending(c.child.pending, k)
    && k in c.bridge.localById && c.bridge.localById[k] == Correlation(g, id)
  }

  lemma PendingOnce(child: Child, r: ChildRequest)
    requires r.id.Some? && Positive(child.pending)
    ensures r in Give(child, r).unanswered && Give(child, r).responses == child.responses
    ensures HasPending(Give(child, r).pending, r.id.value)
  {
  }

  lemma CallReachesChild(c: Cycle, env: Down, now: int)
    requires Idle(c) && Positive(c.child.pending) && env.RequestEnv? && env.id.Some? && !Expired(env.deadline, now)
    ensures Enqueue(c, env).1.Queued?
    ensures var n := CycleNext(CycleNext(Enqueue(c, env).0, HubWrite), Dispatch(now, Written));
            WithChild(n, env.gatewayId, Num(c.bridge.nextLocalId), env.id.value)
  {
    var c1 := Enqueue(c, env).0;
    assert c1.hub.queue == [env] && c1.bridge == c.bridge && c1.inbound == [] && c1.phase.Relaying?;
    var c2 := CycleNext(c1, HubWrite);
    assert c2.inbound == [env] && c2.bridge == c.bridge && c2.child == c.child && c2.outbound == [];
    var r := ChildRequest(Some(Num(c.bridge.nextLocalId)), Call(env.gatewayId));
    assert CycleNext(c2, Dispatch(now, Written))
        == Timed(Write(PopEnvelope(c2, Forwarded(c.bridge, env, now, Written)), r), env.gatewayId, now);
    PendingOnce(c.child, r);
  }

  lemma AnswerComesBack(c: Cycle, g: GatewayId, k: JsonId, id: JsonId, failed: bool, body: int)
    requires WithChild(c, g, k, id)
    ensures var n := CycleNext(CycleNext(c, ChildAnswers(ChildRequest(Some(k), Call(g)), failed, body)), Route(true));
            n.outbound == [Response(g, Frame(Some(id), Outcome(Call(g), failed, body)))]
  {
    var answer := Frame(Some(k), Outcome(Call(g), failed, body));
    var c1 := CycleNext(c, ChildAnswers(ChildRequest(Some(k), Call(g)), failed, body));
    assert c1.child.responses == [answer] && c1.bridge == c.bridge && c1.phase.Relaying? && c1.outbound == [];
    assert CycleNext(c1, Route(true)) == RoutedUp(c1, true);
  }

  /** Bring-up request k is out, and nothing else. */
  ghost predicate AwaitingBringUp(c: Cycle, k: int) {
    && c.phase == Starting(k) && c.hub.open && c.hub.queue == [] && c.inbound == [] && c.outbound == []
    && c.child.responses == [] && BringUpRequest(k) in c.child.unanswered && HasPending(c.child.pending, Num(k))
    && Positive(c.child.pending)
  }

  function BringUpTurn(c: Cycle, k: int, body: int): Cycle {
    CycleNext(CycleNext(c, ChildAnswers(BringUpRequest(k), false, body)), BringUpReceive)
  }

  lemma BringUpAdvances(c: Cycle, k: int, body: int)
    requires AwaitingBringUp(c, k) && 1 <= k <= LastBringUp
    ensures var n := BringUpTurn(c, k, body);
            && n.hub == c.hub && n.inbound == [] && n.outbound == [] && n.child.responses == []
            && (k < LastBringUp ==> AwaitingBringUp(n, k + 1))
            && (k == LastBringUp ==> n.phase.Probing?)
  {
    var answer := Frame(Some(Num(k)), Outcome(BringUp(k), false, body));
    var c1 := CycleNext(c, ChildAnswers(BringUpRequest(k), false, body));
    AddRemove(c.child.pending, Num(k));
    assert c1.child.responses == [answer] && c1.child.pending == Removed(c.child.pending, Num(k))
           && c1.phase == c.phase;
    assert CycleNext(c1, BringUpReceive) == Received(c1);
    var popped := PopFrame(c1);
    assert popped.child.responses == [];
    if k < LastBringUp {
      assert Received(c1) == Write(popped.(phase := Starting(k + 1)), BringUpRequest(k + 1));
      PendingOnce(popped.child, BringUpRequest(k + 1));
      AddRemove(popped.child.pending, Num(k + 1));
    }
  }

  /** A new connection whose child answers the three bring-up requests ends up
      idle in the relay loop, with local ids starting at 1 again. */
  lemma BringUpReachesIdle(device: string, capacity: nat, b1: int, b2: int, b3: int)
    requires capacity > 0
    ensures var c := CycleNext(NewCycle(device, capacity), BringUpStart);
            var n := CycleNext(BringUpTurn(BringUpTurn(BringUpTurn(c, 1, b1), 2, b2), 3, b3), StudioDetected);
            Idle(n) && n.bridge == FreshBridge
  {
    var c := CycleNext(NewCycle(device, capacity), BringUpStart);
    assert c == Write(NewCycle(device, capacity).(phase := Starting(1)), BringUpRequest(1));
    PendingOnce(NewCycle(device, capacity).child, BringUpRequest(1));
    AddRemove(map[], Num(1));
    hide BringUpTurn;
    BringUpAdvances(c, 1, b1);
    var c2 := BringUpTurn(c, 1, b1);
    BringUpAdvances(c2, 2, b2);
    var c3 := BringUpTurn(c2, 2, b2);
    BringUpAdvances(c3, 3, b3);
  }

  /** A call on connection `c` gets to the child. */
  function SentSteps(g: GatewayId, device: string, deadline: int, c: nat, now: int): seq<Step> {
    [Register(g, device, deadline), Associate(g), Send(g, true), InCycle(c, HubWrite),
     InCycle(c, Dispatch(now, Written))]
  }

  /** The child answers it under local id `k`, and the answer is routed back. */
  function AnswerSteps(g: GatewayId, c: nat, k: int, failed: bool, body: int): seq<Step> {
    [InCycle(c, ChildAnswers(ChildRequest(Some(Num(k)), Call(g)), failed, body)), InCycle(c, Route(true))]
  }

  /** The child sends a request of its own with the id `k`, which is routed. */
  function SpeakSteps(c: nat, k: int): seq<Step> {
    [InCycle(c, ChildSpeaks(Some(Num(k)))), InCycle(c, Route(true))]
  }

  /** The gateway handles the response, and the waiter receives its result. */
  function ReceiveSteps(g: GatewayId, c: nat): seq<Step> {
    [HandleResponse(c), Receive(g)]
  }

  /** Registered, associated and queued. */
  lemma CallIsSent(s: System, g: GatewayId, device: string, deadline: int, c: nat)
    requires g !in s.calls && device in s.registry && s.registry[device] == c && c in s.cycles && Idle(s.cycles[c])
    requires s.maxPending <= 0 || |s.live| < s.maxPending
    ensures var n := Next(Next(Next(s, Register(g, device, deadline)), Associate(g)), Send(g, true));
            var env := RequestEnv(g, Some(Num(s.requestIds + 1)), Some(deadline));
            && n.cycles == s.cycles[c := Enqueue(s.cycles[c], env).0]
            && g in n.calls && n.calls[g] == GatewayCall(device, s.requestIds + 1, deadline, Sent)
            && g in n.live && n.delivered == s.delivered
  {
    hide LogEnqueued;
    var s1 := Next(s, Register(g, device, deadline));
    assert s1.calls[g] == GatewayCall(device, s.requestIds + 1, deadline, Registered) && g in s1.live
           && s1.cycles == s.cycles;
    var s2 := Next(s1, Associate(g));
    assert s2.calls[g] == GatewayCall(device, s.requestIds + 1, deadline, Associated) && s2.cycles == s.cycles
           && s2.live == s1.live;
    assert s2.registry == s.registry && s2.delivered == s.delivered;
    assert Next(s2, Send(g, true)) == Sending(s2, g, true);
  }

  lemma StepInside(s: System, c: nat, step: CycleStep)
    requires c in s.cycles
    ensures Next(s, InCycle(c, step)) == s.(cycles := s.cycles[c := CycleNext(s.cycles[c], step)])
  {
    hide CycleNext;
  }

  /** Handled and received, by the waiter it belongs to. */
  lemma AnswerIsReceived(s: System, g: GatewayId, c: nat, f: Frame)
    requires g in s.calls && s.calls[g].stage.Sent? && g in s.live && c in s.cycles
             && s.cycles[c].outbound == [Response(g, f)]
    ensures var n := Run(s, ReceiveSteps(g, c));
            && g in n.calls && c in n.cycles && n.cycles[c].outbound == []
            && n.calls[g].stage == Returned(if ValidResponse(f, s.calls[g].requestId) then Ok(f)
                                            else Err(InvalidResponse))
  {
    var s1 := Next(s, HandleResponse(c));
    assert s1 == Handling(s, c);
    assert s1.calls == s.calls && g in s1.delivered && s1.delivered[g] == Payload(f);
    assert Next(s1, Receive(g)) == Receiving(s1, g);
    RunTwo(s, HandleResponse(c), Receive(g));
  }

  /** The call has been written to the child, and its answer is awaited. */
  ghost predicate Awaited(s: System, g: GatewayId, c: nat, k: int, requestId: int) {
    && g in s.calls && s.calls[g].stage.Sent? && s.calls[g].requestId == requestId && g in s.live && c in s.cycles
    && WithChild(s.cycles[c], g, Num(k), Num(requestId))
  }

  lemma CallIsAwaited(s: System, g: GatewayId, device: string, deadline: int, c: nat, now: int)
    requires Inv(s) && g !in s.calls && device in s.registry && s.registry[device] == c && c in s.cycles
             && Idle(s.cycles[c])
    requires (s.maxPending <= 0 || |s.live| < s.maxPending) && now <= deadline
    ensures Awaited(Run(s, SentSteps(g, device, deadline, c, now)), g, c, s.cycles[c].bridge.nextLocalId,
                    s.requestIds + 1)
  {
    hide Inv, Next, CycleNext, Enqueue, Idle, WithChild;
    CallIsSent(s, g, device, deadline, c);
    PositiveOf(s, c);
    CallReachesChild(s.cycles[c], RequestEnv(g, Some(Num(s.requestIds + 1)), Some(deadline)), now);
    var s3 := Next(Next(Next(s, Register(g, device, deadline)), Associate(g)), Send(g, true));
    StepInside(s3, c, HubWrite);
    StepInside(Next(s3, InCycle(c, HubWrite)), c, Dispatch(now, Written));
    RunFive(s, SentSteps(g, device, deadline, c, now));
  }

  /** Two steps of one connection. */
  lemma TwoInside(s: System, c: nat, a: CycleStep, b: CycleStep)
    requires c in s.cycles
    ensures Run(s, [InCycle(c, a), InCycle(c, b)])
            == s.(cycles := s.cycles[c := CycleNext(CycleNext(s.cycles[c], a), b)])
  {
    hide Next, CycleNext;
    StepInside(s, c, a);
    StepInside(Next(s, InCycle(c, a)), c, b);
    RunTwo(s, InCycle(c, a), InCycle(c, b));
  }

  /** In any reachable state a call to a device whose connection is idle, not
      past its deadline, ends in exactly the outcome the child gave it, result
      or structured error, under the gateway's own request id. */
  lemma CallRoundTrip(s: System, g: GatewayId, device: string, deadline: int, c: nat, now: int, failed: bool, body: int)
    requires Inv(s) && g !in s.calls && device in s.registry && s.registry[device] == c && c in s.cycles
             && Idle(s.cycles[c])
    requires (s.maxPending <= 0 || |s.live| < s.maxPending) && now <= deadline
    ensures var k := s.cycles[c].bridge.nextLocalId;
            var n := Run(s, SentSteps(g, device, deadline, c, now) + AnswerSteps(g, c, k, failed, body)
                            + ReceiveSteps(g, c));
            && g in n.calls
            && n.calls[g].stage == Returned(Ok(Frame(Some(Num(s.requestIds + 1)), Outcome(Call(g), failed, body))))
  {
    hide Inv, Next, Run, CycleNext, Idle, WithChild;
    var k, requestId := s.cycles[c].bridge.nextLocalId, s.requestIds + 1;
    var sent, answer := SentSteps(g, device, deadline, c, now), AnswerSteps(g, c, k, failed, body);
    CallIsAwaited(s, g, device, deadline, c, now);
    var m := Run(s, sent);
    AnswerComesBack(m.cycles[c], g, Num(k), Num(requestId), failed, body);
    TwoInside(m, c, ChildAnswers(ChildRequest(Some(Num(k)), Call(g)), failed, body), Route(true));
    AnswerIsReceived(Run(m, answer), g, c, Frame(Some(Num(requestId)), Outcome(Call(g), failed, body)));
    RunAppend(s, sent, answer);
    RunAppend(s, sent + answer, ReceiveSteps(g, c));
  }

  lemma CorrelationIsStolen(c: Cycle, g: GatewayId, k: JsonId, id: JsonId)
    requires WithChild(c, g, k, id)
    ensures var n := CycleNext(CycleNext(c, ChildSpeaks(Some(k))), Route(true));
            && n.phase.Relaying? && n.outbound == [Response(g, Frame(Some(id), Method))]
            && n.child == c.child && k !in n.bridge.localById
  {
    var c1 := CycleNext(c, ChildSpeaks(Some(k)));
    assert c1.child.responses == [Frame(Some(k), Method)] && c1.bridge == c.bridge && c1.phase.Relaying?
           && c1.outbound == [];
    assert CycleNext(c1, Route(true)) == RoutedUp(c1, true);
    assert RoutedUp(c1, true).child.responses == c.child.responses;
  }

  lemma AnswerIsDiscarded(c: Cycle, g: GatewayId, k: JsonId, failed: bool, body: int)
    requires c.phase.Relaying? && c.child.responses == [] && ChildRequest(Some(k), Call(g)) in c.child.unanswered
    requires HasPending(c.child.pending, k) && k !in c.bridge.localById
    ensures var n := CycleNext(CycleNext(c, ChildAnswers(ChildRequest(Some(k), Call(g)), failed, body)), Route(true));
            n.outbound == c.outbound && n.child.responses == []
  {
    var answer := Frame(Some(k), Outcome(Call(g), failed, body));
    var c1 := CycleNext(c, ChildAnswers(ChildRequest(Some(k), Call(g)), failed, body));
    assert c1.child.responses == [answer] && c1.bridge == c.bridge && c1.phase.Relaying? && c1.outbound == c.outbound;
    assert CycleNext(c1, Route(true)) == RoutedUp(c1, true);
  }

  /** The same call, with one difference: before its answer the child sends a
      request of its own that has the call's local id. The call then ends as an
      invalid response, and its real answer, correct as it is, goes nowhere. */
  lemma ChildMethodStealsCorrelation(s: System, g: GatewayId, device: string, deadline: int, c: nat, now: int,
                                     failed: bool, body: int)
    requires Inv(s) && g !in s.calls && device in s.registry && s.registry[device] == c && c in s.cycles
             && Idle(s.cycles[c])
    requires (s.maxPending <= 0 || |s.live| < s.maxPending) && now <= deadline
    ensures var k := s.cycles[c].bridge.nextLocalId;
            var n := Run(s, SentSteps(g, device, deadline, c, now) + SpeakSteps(c, k)
                            + AnswerSteps(g, c, k, failed, body) + ReceiveSteps(g, c));
            && g in n.calls && n.calls[g].stage == Returned(Err(InvalidResponse))
            && c in n.cycles && n.cycles[c].outbound == []
  {
    hide Inv, Next, Run, CycleNext, Idle;
    var k, requestId := s.cycles[c].bridge.nextLocalId, s.requestIds + 1;
    var sent, speak, answer := SentSteps(g, device, deadline, c, now), SpeakSteps(c, k),
                               AnswerSteps(g, c, k, failed, body);
    CallIsAwaited(s, g, device, deadline, c, now);
    var m := Run(s, sent);
    CorrelationIsStolen(m.cycles[c], g, Num(k), Num(requestId));
    TwoInside(m, c, ChildSpeaks(Some(Num(k))), Route(true));
    var m' := Run(m, speak);
    AnswerIsDiscarded(m'.cycles[c], g, Num(k), failed, body);
    TwoInside(m', c, ChildAnswers(ChildRequest(Some(Num(k)), Call(g)), failed, body), Route(true));
    AnswerIsReceived(Run(m', answer), g, c, Frame(Some(Num(requestId)), Method));
    RunAppend(s, sent, speak);
    RunAppend(s, sent + speak, answer);
    RunAppend(s, sent + speak + answer, ReceiveSteps(g, c));
  }

  lemma PositiveOf(s: System, c: nat)
    requires Inv(s) && c in s.cycles
    ensures Positive(s.cycles[c].child.pending)
  {
    hide Inv, DownInv, LogInv, GivenInv, CorrelationInv, UpInv, DrainInv;
    CycleOf(s, c);
  }

  // ------------------------------------------------------------ short runs

  lemma RunTwo(s: System, a: Step, b: Step)
    ensures Run(s, [a, b]) == Next(Next(s, a), b)
  {
    hide Next;
    assert [a, b][1..] == [b] && [b][1..] == [];
    assert Run(Next(Next(s, a), b), []) == Next(Next(s, a), b);
  }

  lemma RunFive(s: System, q: seq<Step>)
    requires |q| == 5
    ensures Run(s, q) == Next(Next(Next(Next(Next(s, q[0]), q[1]), q[2]), q[3]), q[4])
  {
    hide Next;
    var s1 := Next(s, q[0]);
    var s2 := Next(s1, q[1]);
    var s3 := Next(s2, q[2]);
    RunOn(s, q, 0);
    RunOn(s1, q, 1);
    RunOn(s2, q, 2);
    RunOn(s3, q, 3);
    RunOn(Next(s3, q[3]), q, 4);
    assert q[0..] == q && q[5..] == [];
  }

  lemma RunOn(s: System, q: seq<Step>, i: nat)
    requires i < |q|
    ensures Run(s, q[i..]) == Run(Next(s, q[i]), q[i + 1..])
  {
    hide Next;
    assert q[i..][0] == q[i] && q[i..][1..] == q[i + 1..];
  }
}
