/** The Bridge's correlation state: gateway requests are rewritten to
    bridge-local ids, and child frames are routed back by those ids. */
module BridgeRelay {
  import opened Common
  import opened Wire

  datatype Correlation = Correlation(gatewayId: GatewayId, originalId: JsonId)

  datatype Bridge = Bridge(
    nextLocalId: int,
    localById: map<JsonId, Correlation>,
    byGatewayId: map<GatewayId, int>)

  const FreshBridge := Bridge(1, map[], map[])

  /** What became of handing a frame to the child: written and confirmed,
      written although the sender gave up waiting, or not written. */
  datatype SendOutcome = Written | WrittenUnconfirmed | NotWritten

  predicate Expired(deadline: Option<int>, now: int) {
    deadline.Some? && now > deadline.value
  }

  /** The frame forwardRequest hands to the child, if any. */
  function ForwardFrame(b: Bridge, env: Down, now: int): (r: Option<ChildRequest>)
    requires env.RequestEnv?
  {
    if Expired(env.deadline, now) then None
    else if env.id.None? then Some(ChildRequest(None, Call(env.gatewayId)))
    else Some(ChildRequest(Some(Num(b.nextLocalId)), Call(env.gatewayId)))
  }

  function Forwarded(b: Bridge, env: Down, now: int, send: SendOutcome): (r: Bridge)
    requires env.RequestEnv?
  {
    if Expired(env.deadline, now) || env.id.None? then b
    else
      var numbered := b.(nextLocalId := b.nextLocalId + 1);
      if send.Written? then
        numbered.(
          localById := b.localById[Num(b.nextLocalId) := Correlation(env.gatewayId, env.id.value)],
          byGatewayId := b.byGatewayId[env.gatewayId := b.nextLocalId])
      else numbered
  }

  function Cancelled(b: Bridge, g: GatewayId): (r: Bridge) {
    if g !in b.byGatewayId then b
    else b.(localById := b.localById - {Num(b.byGatewayId[g])}, byGatewayId := b.byGatewayId - {g})
  }

  /** The response a child frame is turned into: the live correlation of its
      id, with that request's own id restored. */
  function RouteResponse(b: Bridge, f: Frame): (r: Option<Response>) {
    if f.id.None? || f.id.value !in b.localById then None
    else
      var call := b.localById[f.id.value];
      Some(Response(call.gatewayId, Frame(Some(call.originalId), f.content)))
  }

  function Routed(b: Bridge, f: Frame): (r: Bridge) {
    if f.id.None? || f.id.value !in b.localById then b
    else b.(localById := b.localById - {f.id.value},
            byGatewayId := b.byGatewayId - {b.localById[f.id.value].gatewayId})
  }

  /** The two tables are each other's inverse and hold only ids already used. */
  ghost predicate Paired(b: Bridge) {
    && b.nextLocalId >= 1
    && (forall k :: k in b.localById ==>
          && k.Num? && 1 <= k.n < b.nextLocalId
          && b.localById[k].gatewayId in b.byGatewayId
          && b.byGatewayId[b.localById[k].gatewayId] == k.n)
    && (forall g :: g in b.byGatewayId ==>
          && Num(b.byGatewayId[g]) in b.localById
          && b.localById[Num(b.byGatewayId[g])].gatewayId == g)
  }

  /** Forwarding a request whose gateway id is not live keeps the tables paired. */
  lemma ForwardedPaired(b: Bridge, env: Down, now: int, send: SendOutcome)
    requires Paired(b) && env.RequestEnv? && env.gatewayId !in b.byGatewayId
    ensures Paired(Forwarded(b, env, now, send))
  {
    var r := Forwarded(b, env, now, send);
    forall k | k in r.localById
      ensures k.Num? && 1 <= k.n < r.nextLocalId
      ensures r.localById[k].gatewayId in r.byGatewayId
      ensures r.byGatewayId[r.localById[k].gatewayId] == k.n
    {
      if k != Num(b.nextLocalId) { assert k in b.localById; }
    }
  }

  /** Cancelling and routing keep the tables paired, and afterwards the gateway
      id they removed is unknown to both. */
  lemma RemovalPaired(b: Bridge, g: GatewayId, f: Frame)
    requires Paired(b)
    ensures Paired(Cancelled(b, g)) && g !in Cancelled(b, g).byGatewayId
    ensures forall k :: k in Cancelled(b, g).localById ==> Cancelled(b, g).localById[k].gatewayId != g
    ensures Paired(Routed(b, f))
    ensures RouteResponse(b, f).Some? ==>
              && RouteResponse(b, f).value.gatewayId in b.byGatewayId
              && RouteResponse(b, f).value.gatewayId !in Routed(b, f).byGatewayId
  {
  }

  /** relayState: owned by one relay loop, updated per envelope. */
  class RelayState {
    var nextLocalId: int
    var localById: map<JsonId, Correlation>
    var byGatewayId: map<GatewayId, int>

    ghost function View(): Bridge
      reads this
    {
      Bridge(nextLocalId, localById, byGatewayId)
    }

    constructor ()
      ensures View() == FreshBridge && Paired(View())
    {
      nextLocalId := 1;
      localById := map[];
      byGatewayId := map[];
    }

    /** `send` is the child's verdict on the frame. The frame is handed over
        before the correlation is recorded. */
    method ForwardRequest(env: Down, now: int, send: SendOutcome) returns (frame: Option<ChildRequest>)
      requires env.RequestEnv?
      modifies this
      ensures View() == Forwarded(old(View()), env, now, send)
      ensures frame == ForwardFrame(old(View()), env, now)
      ensures old(Paired(View())) && env.gatewayId !in old(byGatewayId) ==> Paired(View())
    {
      ghost var was := View();
      if Expired(env.deadline, now) {
        return None;
      }
      if env.id.None? {
        return Some(ChildRequest(None, Call(env.gatewayId)));
      }
      var localId := nextLocalId;
      nextLocalId := nextLocalId + 1;
      frame := Some(ChildRequest(Some(Num(localId)), Call(env.gatewayId)));
      if send.Written? {
        localById := localById[Num(localId) := Correlation(env.gatewayId, env.id.value)];
        byGatewayId := byGatewayId[env.gatewayId := localId];
      }
      if Paired(was) && env.gatewayId !in was.byGatewayId { ForwardedPaired(was, env, now, send); }
    }

    /** Returns the local id the child is told to give up on. */
    method ForwardCancel(g: GatewayId) returns (notify: Option<int>)
      modifies this
      ensures View() == Cancelled(old(View()), g)
      ensures notify == if g in old(byGatewayId) then Some(old(byGatewayId)[g]) else None
      ensures old(Paired(View())) ==> Paired(View()) && g !in byGatewayId
    {
      ghost var was := View();
      if g !in byGatewayId {
        return None;
      }
      var localId := byGatewayId[g];
      byGatewayId := byGatewayId - {g};
      localById := localById - {Num(localId)};
      notify := Some(localId);
      if Paired(was) { RemovalPaired(was, g, Frame(None, Method)); }
    }

    method RouteChildFrame(f: Frame) returns (response: Option<Response>)
      modifies this
      ensures View() == Routed(old(View()), f)
      ensures response == RouteResponse(old(View()), f)
      ensures old(Paired(View())) ==> Paired(View())
    {
      ghost var was := View();
      if f.id.None? || f.id.value !in localById {
        return None;
      }
      var call := localById[f.id.value];
      localById := localById - {f.id.value};
      byGatewayId := byGatewayId - {call.gatewayId};
      response := Some(Response(call.gatewayId, Frame(Some(call.originalId), f.content)));
      if Paired(was) { RemovalPaired(was, 0, f); }
    }
  }
}
