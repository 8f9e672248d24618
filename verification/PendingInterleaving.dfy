/** The correlation registry under every interleaving of its callers. A step is
    one stretch of code under the mutex, or one send on a result channel; a
    detached set is walked element by element, with other callers in between.

    Ids are never reused over a run: `sent` has a key for every id ever issued.
  */
module PendingInterleaving {
  import opened Common
  import opened Wire
  import opened PendingRegistry

  /** A caller inside deliver, CancelSession or FailDevice: what it detached,
      what it has yet to look up, and the removed request it is about to send
      `result` to. */
  datatype Caller = Caller(detached: set<GatewayId>, todo: set<GatewayId>, result: Outcome, holding: Option<GatewayId>)

  /** `taker` remembers who removed a request, `canceller` and `failer` who
      detached it from an index last. */
  datatype State = State(
    registry: Registry,
    sent: map<GatewayId, seq<Outcome>>,
    callers: map<nat, Caller>,
    taker: map<GatewayId, nat>,
    canceller: map<GatewayId, nat>,
    failer: map<GatewayId, nat>)

  const Initial := State(Empty, map[], map[], map[], map[], map[])

  datatype Step =
    | Register(g: GatewayId, sessionId: string, originalId: JsonId)
    | Associate(g: GatewayId, deviceId: string)
    | Complete(t: nat, g: GatewayId, result: Outcome)
    | CancelSession(t: nat, sessionId: string)
    | FailDevice(t: nat, deviceId: string, cause: Cause)
    | Take(t: nat, g: GatewayId)
    | Put(t: nat)

  function Mark(m: map<GatewayId, nat>, gs: set<GatewayId>, t: nat): map<GatewayId, nat> {
    m + map g | g in gs :: t
  }

  /** The locked half of deliver, run by caller `t`. */
  function Taking(s: State, t: nat, g: GatewayId): State
    requires t in s.callers
  {
    var caller := s.callers[t];
    var looked := caller.(todo := caller.todo - {g});
    if g in s.registry.entries then
      s.(registry := Removed(s.registry, {g}),
         callers := s.callers[t := looked.(holding := Some(g))],
         taker := s.taker[g := t])
    else s.(callers := s.callers[t := looked])
  }

  /** The send: a full channel would block, that is, change nothing. */
  function Putting(s: State, t: nat, g: GatewayId): State
    requires t in s.callers && g in s.sent
  {
    if |s.sent[g]| >= 1 then s
    else s.(sent := s.sent[g := s.sent[g] + [s.callers[t].result]],
            callers := s.callers[t := s.callers[t].(holding := None)])
  }

  function Next(s: State, step: Step): State {
    match step
    case Register(g, sessionId, originalId) =>
      if g in s.sent then s
      else s.(registry := Registered(s.registry, g, sessionId, originalId), sent := s.sent[g := []])
    case Associate(g, deviceId) =>
      if deviceId == "" || g !in s.registry.entries then s
      else s.(registry := Associated(s.registry, g, deviceId))
    case Complete(t, g, result) =>
      if t in s.callers || g !in s.registry.entries then s
      else Taking(s.(callers := s.callers[t := Caller({g}, {g}, result, None)]), t, g)
    case CancelSession(t, sessionId) =>
      if t in s.callers then s
      else
        var gone := MembersOf(s.registry.bySession, sessionId);
        s.(registry := DetachedSession(s.registry, sessionId),
           callers := s.callers[t := Caller(gone, gone, Failure(Cancelled), None)],
           canceller := Mark(s.canceller, gone, t))
    case FailDevice(t, deviceId, cause) =>
      if t in s.callers then s
      else
        var gone := MembersOf(s.registry.byDevice, deviceId);
        s.(registry := DetachedDevice(s.registry, deviceId),
           callers := s.callers[t := Caller(gone, gone, Failure(cause), None)],
           failer := Mark(s.failer, gone, t))
    case Take(t, g) =>
      if t in s.callers && g in s.callers[t].todo && s.callers[t].holding.None? then Taking(s, t, g) else s
    case Put(t) =>
      if t in s.callers && s.callers[t].holding.Some? && s.callers[t].holding.value in s.sent
      then Putting(s, t, s.callers[t].holding.value)
      else s
  }

  function Run(s: State, steps: seq<Step>): State
    decreases |steps|
  {
    if steps == [] then s else Run(Next(s, steps[0]), steps[1..])
  }

  // ------------------------------------------------------------- invariant

  /** A caller is done with everything it has looked up. */
  ghost predicate CallerInv(t: nat, c: Caller, live: set<GatewayId>, issued: set<GatewayId>,
                            taker: map<GatewayId, nat>) {
    && c.todo <= c.detached <= issued
    && (c.detached - c.todo) !! live
    && (c.holding.Some? ==> c.holding.value in taker && taker[c.holding.value] == t)
  }

  ghost predicate CallersInv(callers: map<nat, Caller>, live: set<GatewayId>, issued: set<GatewayId>,
                             taker: map<GatewayId, nat>) {
    forall t :: t in callers ==> CallerInv(t, callers[t], live, issued, taker)
  }

  /** What a taker's request got: nothing while it is held, then one result. */
  function SentBy(c: Caller, g: GatewayId): seq<Outcome> {
    if c.holding == Some(g) then [] else [c.result]
  }

  /** A request left the registry through exactly one taker, which holds its
      result until the one send. */
  ghost predicate TakenInv(sent: map<GatewayId, seq<Outcome>>, live: set<GatewayId>, taker: map<GatewayId, nat>,
                           callers: map<nat, Caller>) {
    && sent.Keys == live + taker.Keys
    && live !! taker.Keys
    && (forall g :: g in live ==> sent[g] == [])
    && (forall g :: g in taker ==> taker[g] in callers && g in callers[taker[g]].detached
                                   && sent[g] == SentBy(callers[taker[g]], g))
  }

  /** A live request missing from an index is still to be looked up by whoever
      detached it. */
  ghost predicate IndexedInv(needed: set<GatewayId>, index: set<GatewayId>, owner: map<GatewayId, nat>,
                             callers: map<nat, Caller>) {
    forall g :: g in needed && g !in index ==>
      g in owner && owner[g] in callers && g in callers[owner[g]].todo
  }

  function OnDevice(entries: map<GatewayId, Entry>): set<GatewayId> {
    set g | g in entries && entries[g].deviceId != ""
  }

  ghost predicate Inv(s: State) {
    && Consistent(s.registry)
    && CallersInv(s.callers, s.registry.entries.Keys, s.sent.Keys, s.taker)
    && TakenInv(s.sent, s.registry.entries.Keys, s.taker, s.callers)
    && IndexedInv(s.registry.entries.Keys, s.registry.bySession.Keys, s.canceller, s.callers)
    && IndexedInv(OnDevice(s.registry.entries), s.registry.byDevice.Keys, s.failer, s.callers)
  }

  /** Another caller's view does not depend on this one's progress. */
  lemma CallersUpdate(callers: map<nat, Caller>, live: set<GatewayId>, issued: set<GatewayId>,
                      taker: map<GatewayId, nat>,
                      t: nat, c: Caller, live': set<GatewayId>, issued': set<GatewayId>, taker': map<GatewayId, nat>)
    requires CallersInv(callers, live, issued, taker)
    requires issued <= issued' && live' - live !! issued
    requires forall g :: g in taker ==> g in taker' && taker'[g] == taker[g]
    requires CallerInv(t, c, live', issued', taker')
    ensures CallersInv(callers[t := c], live', issued', taker')
  {
    var updated := callers[t := c];
    forall u | u in updated ensures CallerInv(u, updated[u], live', issued', taker') {
      if u != t { assert CallerInv(u, callers[u], live, issued, taker); }
    }
  }

  lemma IndexedUpdate(needed: set<GatewayId>, index: set<GatewayId>, owner: map<GatewayId, nat>,
                      callers: map<nat, Caller>, t: nat, c: Caller, gone: set<GatewayId>)
    requires IndexedInv(needed, index, owner, callers)
    requires t in callers ==> callers[t].todo <= c.todo + gone
    ensures IndexedInv(needed - gone, index - gone, owner, callers[t := c])
  {
  }

  lemma TakingInv(s: State, t: nat, g: GatewayId)
    requires Inv(s) && t in s.callers && g in s.callers[t].todo && s.callers[t].holding.None?
    ensures Inv(Taking(s, t, g))
  {
    hide CallersInv, IndexedInv, Consistent;
    var n := Taking(s, t, g);
    var live := s.registry.entries.Keys;
    TakingTaken(s, t, g);
    assert CallerInv(t, s.callers[t], live, s.sent.Keys, s.taker) by { CallerOf(s, t); }
    CallersUpdate(s.callers, live, s.sent.Keys, s.taker, t, n.callers[t], n.registry.entries.Keys, n.sent.Keys,
                  n.taker);
    var gone := if g in live then {g} else {};
    assert n.registry.entries.Keys == live - gone;
    StepsConsistent(s.registry, g, "");
    IndexedUpdate(live, s.registry.bySession.Keys, s.canceller, s.callers, t, n.callers[t], {g});
    IndexedUpdate(OnDevice(s.registry.entries), s.registry.byDevice.Keys, s.failer, s.callers, t, n.callers[t], {g});
    assert OnDevice(n.registry.entries) == OnDevice(s.registry.entries) - {g};
    if g !in live { NothingToRemove(s.registry, g); }
    assert n.registry.bySession.Keys == s.registry.bySession.Keys - {g};
    assert n.registry.byDevice.Keys == s.registry.byDevice.Keys - {g};
  }

  lemma CallerOf(s: State, t: nat)
    requires Inv(s) && t in s.callers
    ensures CallerInv(t, s.callers[t], s.registry.entries.Keys, s.sent.Keys, s.taker)
  {
    hide TakenInv, IndexedInv, Consistent;
  }

  lemma TakingTaken(s: State, t: nat, g: GatewayId)
    requires Inv(s) && t in s.callers && g in s.callers[t].todo && s.callers[t].holding.None?
    ensures var n := Taking(s, t, g); TakenInv(n.sent, n.registry.entries.Keys, n.taker, n.callers)
  {
    hide IndexedInv, Consistent, CallersInv, TakenInv;
    CallerOf(s, t);
    var live := s.registry.entries.Keys;
    if g in live {
      TakenNow(s.sent, live, s.taker, s.callers, t, g);
      assert (s.registry.entries - {g}).Keys == live - {g};
    } else {
      TakenMiss(s.sent, live, s.taker, s.callers, t, s.callers[t].(todo := s.callers[t].todo - {g}));
    }
  }

  lemma TakenNow(sent: map<GatewayId, seq<Outcome>>, live: set<GatewayId>, taker: map<GatewayId, nat>,
                 callers: map<nat, Caller>, t: nat, g: GatewayId)
    requires TakenInv(sent, live, taker, callers)
    requires t in callers && callers[t].holding.None? && g in callers[t].todo && g in live && g in callers[t].detached
    ensures TakenInv(sent, live - {g}, taker[g := t],
                     callers[t := callers[t].(todo := callers[t].todo - {g}, holding := Some(g))])
  {
    assert g !in taker;
  }

  lemma TakenMiss(sent: map<GatewayId, seq<Outcome>>, live: set<GatewayId>, taker: map<GatewayId, nat>,
                  callers: map<nat, Caller>, t: nat, c: Caller)
    requires TakenInv(sent, live, taker, callers)
    requires t in callers && c.holding == callers[t].holding && c.detached == callers[t].detached
             && c.result == callers[t].result
    ensures TakenInv(sent, live, taker, callers[t := c])
  {
  }

  lemma PuttingInv(s: State, t: nat, g: GatewayId)
    requires Inv(s) && t in s.callers && s.callers[t].holding == Some(g)
    ensures g in s.sent && Inv(Putting(s, t, g))
  {
    hide CallersInv, IndexedInv, Consistent, TakenInv;
    CallerOf(s, t);
    TakenPut(s.sent, s.registry.entries.Keys, s.taker, s.callers, t, g);
    var n := Putting(s, t, g);
    var live := s.registry.entries.Keys;
    CallersUpdate(s.callers, live, s.sent.Keys, s.taker, t, n.callers[t], live, n.sent.Keys, s.taker);
    IndexedUpdate(live, s.registry.bySession.Keys, s.canceller, s.callers, t, n.callers[t], {});
    IndexedUpdate(OnDevice(s.registry.entries), s.registry.byDevice.Keys, s.failer, s.callers, t, n.callers[t], {});
    NothingGone(s.registry);
  }

  lemma TakenPut(sent: map<GatewayId, seq<Outcome>>, live: set<GatewayId>, taker: map<GatewayId, nat>,
                 callers: map<nat, Caller>, t: nat, g: GatewayId)
    requires TakenInv(sent, live, taker, callers)
    requires t in callers && callers[t].holding == Some(g) && g in taker && taker[g] == t
    ensures g in sent && sent[g] == []
    ensures TakenInv(sent[g := sent[g] + [callers[t].result]], live, taker, callers[t := callers[t].(holding := None)])
  {
    assert sent[g] + [callers[t].result] == [callers[t].result];
  }

  lemma NothingGone(r: Registry)
    ensures r.entries.Keys - {} == r.entries.Keys && r.bySession.Keys - {} == r.bySession.Keys
    ensures r.byDevice.Keys - {} == r.byDevice.Keys && OnDevice(r.entries) - {} == OnDevice(r.entries)
  {
  }

  lemma RegisterInv(s: State, g: GatewayId, sessionId: string, originalId: JsonId)
    requires Inv(s) && g !in s.sent
    ensures Inv(Next(s, Register(g, sessionId, originalId)))
  {
    hide Consistent, CallersInv, TakenInv, IndexedInv;
    var n := Next(s, Register(g, sessionId, originalId));
    var live := s.registry.entries.Keys;
    assert OnDevice(n.registry.entries) == OnDevice(s.registry.entries) && g !in live by { IssuedOf(s); }
    StepsConsistent(s.registry, g, sessionId);
    assert n.registry.entries.Keys == live + {g} && n.registry.bySession.Keys == s.registry.bySession.Keys + {g};
    RegisterParts(s.sent, live, s.taker, s.callers, g);
    RegisterIndexed(live, s.registry.bySession.Keys, s.canceller, s.callers, g);
  }

  lemma IssuedOf(s: State)
    requires Inv(s)
    ensures s.sent.Keys == s.registry.entries.Keys + s.taker.Keys
  {
    hide CallersInv, IndexedInv, Consistent;
  }

  lemma RegisterParts(sent: map<GatewayId, seq<Outcome>>, live: set<GatewayId>, taker: map<GatewayId, nat>,
                      callers: map<nat, Caller>, g: GatewayId)
    requires CallersInv(callers, live, sent.Keys, taker) && TakenInv(sent, live, taker, callers) && g !in sent
    ensures CallersInv(callers, live + {g}, sent[g := []].Keys, taker)
    ensures TakenInv(sent[g := []], live + {g}, taker, callers)
  {
  }

  lemma RegisterIndexed(needed: set<GatewayId>, index: set<GatewayId>, owner: map<GatewayId, nat>,
                        callers: map<nat, Caller>, g: GatewayId)
    requires IndexedInv(needed, index, owner, callers)
    ensures IndexedInv(needed + {g}, index + {g}, owner, callers)
  {
  }

  lemma AssociateInv(s: State, g: GatewayId, deviceId: string)
    requires Inv(s) && deviceId != "" && g in s.registry.entries
    ensures Inv(Next(s, Associate(g, deviceId)))
  {
    hide Consistent, CallersInv, TakenInv, IndexedInv;
    var n := Next(s, Associate(g, deviceId));
    StepsConsistent(s.registry, g, deviceId);
    assert n.registry.entries.Keys == s.registry.entries.Keys;
    assert OnDevice(n.registry.entries) == OnDevice(s.registry.entries) + {g};
    assert n.registry.byDevice.Keys == s.registry.byDevice.Keys + {g};
    RegisterIndexed(OnDevice(s.registry.entries), s.registry.byDevice.Keys, s.failer, s.callers, g);
  }

  /** A new caller, walking a set of live requests. */
  lemma NewCaller(s: State, t: nat, detached: set<GatewayId>, result: Outcome)
    requires Inv(s) && t !in s.callers && detached <= s.registry.entries.Keys
    ensures Inv(s.(callers := s.callers[t := Caller(detached, detached, result, None)]))
  {
    hide Consistent, CallersInv, IndexedInv;
    var live := s.registry.entries.Keys;
    var c := Caller(detached, detached, result, None);
    CallersUpdate(s.callers, live, s.sent.Keys, s.taker, t, c, live, s.sent.Keys, s.taker);
    IndexedUpdate(live, s.registry.bySession.Keys, s.canceller, s.callers, t, c, {});
    IndexedUpdate(OnDevice(s.registry.entries), s.registry.byDevice.Keys, s.failer, s.callers, t, c, {});
    NothingGone(s.registry);
  }

  /** Dropping from an index what a caller has yet to look up. */
  lemma IndexedDetach(needed: set<GatewayId>, index: set<GatewayId>, owner: map<GatewayId, nat>,
                      callers: map<nat, Caller>, t: nat, gone: set<GatewayId>)
    requires IndexedInv(needed, index, owner, callers) && t in callers && gone <= callers[t].todo
    ensures IndexedInv(needed, index - gone, Mark(owner, gone, t), callers)
  {
  }

  lemma CancelInv(s: State, t: nat, sessionId: string)
    requires Inv(s) && t !in s.callers
    ensures Inv(Next(s, CancelSession(t, sessionId)))
  {
    hide CallersInv, TakenInv, IndexedInv;
    var gone := MembersOf(s.registry.bySession, sessionId);
    NewCaller(s, t, gone, Failure(Cancelled));
    var callers := s.callers[t := Caller(gone, gone, Failure(Cancelled), None)];
    IndexedDetach(s.registry.entries.Keys, s.registry.bySession.Keys, s.canceller, callers, t, gone);
    assert (s.registry.bySession - gone).Keys == s.registry.bySession.Keys - gone;
  }

  lemma FailInv(s: State, t: nat, deviceId: string, cause: Cause)
    requires Inv(s) && t !in s.callers
    ensures Inv(Next(s, FailDevice(t, deviceId, cause)))
  {
    hide CallersInv, TakenInv, IndexedInv;
    var gone := MembersOf(s.registry.byDevice, deviceId);
    NewCaller(s, t, gone, Failure(cause));
    var callers := s.callers[t := Caller(gone, gone, Failure(cause), None)];
    IndexedDetach(OnDevice(s.registry.entries), s.registry.byDevice.Keys, s.failer, callers, t, gone);
    assert (s.registry.byDevice - gone).Keys == s.registry.byDevice.Keys - gone;
  }

  lemma NextInv(s: State, step: Step)
    requires Inv(s)
    ensures Inv(Next(s, step))
  {
    hide Inv;
    match step
    case Register(g, sessionId, originalId) => if g !in s.sent { RegisterInv(s, g, sessionId, originalId); }
    case Associate(g, deviceId) =>
      if deviceId != "" && g in s.registry.entries { AssociateInv(s, g, deviceId); }
    case CancelSession(t, sessionId) => if t !in s.callers { CancelInv(s, t, sessionId); }
    case FailDevice(t, deviceId, cause) => if t !in s.callers { FailInv(s, t, deviceId, cause); }
    case Complete(t, g, result) =>
      if t !in s.callers && g in s.registry.entries {
        NewCaller(s, t, {g}, result);
        TakingInv(s.(callers := s.callers[t := Caller({g}, {g}, result, None)]), t, g);
      }
    case Take(t, g) =>
      if t in s.callers && g in s.callers[t].todo && s.callers[t].holding.None? { TakingInv(s, t, g); }
    case Put(t) =>
      if t in s.callers && s.callers[t].holding.Some? { PuttingInv(s, t, s.callers[t].holding.value); }
  }

  lemma {:induction false} RunInv(s: State, steps: seq<Step>)
    requires Inv(s)
    ensures Inv(Run(s, steps))
    decreases |steps|
  {
    hide Inv;
    if steps != [] {
      NextInv(s, steps[0]);
      RunInv(Next(s, steps[0]), steps[1..]);
    }
  }

  function Reach(steps: seq<Step>): State {
    Run(Initial, steps)
  }

  lemma ReachInv(steps: seq<Step>)
    ensures Inv(Reach(steps))
  {
    RunInv(Initial, steps);
  }

  // -------------------------------------------------------------- theorems

  /** The caller that removed `g` and has not sent its result yet. */
  ghost predicate MidSend(s: State, g: GatewayId, t: nat) {
    t in s.callers && s.callers[t].holding == Some(g)
  }

  /** Exactly once. A request ever registered is in exactly one of three states:
      live with nothing sent, removed with one caller about to send, or sent
      exactly one result, by a caller that was completing that very request. */
  lemma ExactlyOnce(steps: seq<Step>, g: GatewayId)
    requires g in Reach(steps).sent
    ensures var s := Reach(steps);
            && (g in s.registry.entries ==> s.sent[g] == [] && forall t :: !MidSend(s, g, t))
            && (g !in s.registry.entries ==>
                  && g in s.taker && s.taker[g] in s.callers && g in s.callers[s.taker[g]].detached
                  && (forall t :: MidSend(s, g, t) ==> t == s.taker[g] && s.sent[g] == [])
                  && (!MidSend(s, g, s.taker[g]) ==> s.sent[g] == [s.callers[s.taker[g]].result]))
  {
    ReachInv(steps);
  }

  /** The send never blocks: whoever is about to send finds the channel empty,
      so the step empties its hands. */
  lemma SendNeverBlocks(steps: seq<Step>, g: GatewayId, t: nat)
    requires MidSend(Reach(steps), g, t)
    ensures var s := Reach(steps);
            g in s.sent && Next(s, Put(t)).sent[g] == [s.callers[t].result] && !MidSend(Next(s, Put(t)), g, t)
  {
    hide Inv, Run;
    ReachInv(steps);
    SenderOf(Reach(steps), g, t);
  }

  lemma SenderOf(s: State, g: GatewayId, t: nat)
    requires Inv(s) && MidSend(s, g, t)
    ensures g in s.sent && s.sent[g] == []
    ensures Next(s, Put(t)).sent[g] == [s.callers[t].result] && !MidSend(Next(s, Put(t)), g, t)
  {
    hide IndexedInv, Consistent;
    assert CallerInv(t, s.callers[t], s.registry.entries.Keys, s.sent.Keys, s.taker);
    assert [] + [s.callers[t].result] == [s.callers[t].result];
  }

  /** When CancelSession or FailDevice returns, nothing it detached is live: each
      has its one result, or another caller is about to send it. */
  lemma ReturnedMeansComplete(steps: seq<Step>, t: nat, g: GatewayId)
    requires var s := Reach(steps);
             t in s.callers && s.callers[t].todo == {} && s.callers[t].holding.None? && g in s.callers[t].detached
    ensures var s := Reach(steps);
            && g in s.sent && g !in s.registry.entries && g in s.taker
            && (|s.sent[g]| == 1 <==> !MidSend(s, g, s.taker[g]))
            && (MidSend(s, g, s.taker[g]) ==> s.taker[g] != t)
  {
    ReachInv(steps);
  }

  /** That last case is real: a cancellation can return while a timer that beat
      it to the entry has yet to send, so the waiter still has nothing. */
  lemma CancelMayReturnBeforeTheResult(originalId: JsonId)
    ensures var s := Reach([Register(7, "s", originalId), CancelSession(1, "s"),
                            Complete(2, 7, Failure(DeadlineExceeded)), Take(1, 7)]);
            1 in s.callers && s.callers[1] == Caller({7}, {}, Failure(Cancelled), None) && s.sent == map[7 := []]
  {
    var s1 := Next(Initial, Register(7, "s", originalId));
    var s2 := Next(s1, CancelSession(1, "s"));
    assert MembersOf(s1.registry.bySession, "s") == {7};
    var s3 := Next(s2, Complete(2, 7, Failure(DeadlineExceeded)));
    var s4 := Next(s3, Take(1, 7));
    assert s4.callers[1].todo == {};
    var steps := [Register(7, "s", originalId), CancelSession(1, "s"),
                  Complete(2, 7, Failure(DeadlineExceeded)), Take(1, 7)];
    assert Run(s4, []) == s4;
    assert steps[1..][1..][1..][1..] == [];
    assert Run(s3, steps[1..][1..][1..]) == s4;
    assert Run(s2, steps[1..][1..]) == s4;
    assert Run(s1, steps[1..]) == s4;
  }

  /** With no walk under way the indexes and the entries agree exactly. */
  lemma QuiescentAgree(steps: seq<Step>)
    requires forall t :: t in Reach(steps).callers ==> Reach(steps).callers[t].todo == {}
    ensures Agree(Reach(steps).registry)
  {
    ReachInv(steps);
  }

  /** What is still to be cancelled. A cancellation puts every live request of its
      session, and no other live one, on a caller's list: its own, or that of the
      caller who took the request out of the index before. */
  lemma CancellationReachesAll(steps: seq<Step>, t: nat, sessionId: string, g: GatewayId)
    requires t !in Reach(steps).callers && g in Reach(steps).registry.entries
    ensures var s := Reach(steps);
            var n := Next(s, CancelSession(t, sessionId));
            && n.registry.entries == s.registry.entries && n.sent == s.sent
            && t in n.callers && n.callers[t].result == Failure(Cancelled)
            && (g in n.callers[t].todo ==> s.registry.entries[g].sessionId == sessionId)
            && (s.registry.entries[g].sessionId == sessionId ==>
                  exists u :: u in n.callers && g in n.callers[u].todo && (u == t || u in s.callers))
  {
    hide Run, CallersInv, TakenInv;
    ReachInv(steps);
    var s := Reach(steps);
    var n := Next(s, CancelSession(t, sessionId));
    if s.registry.entries[g].sessionId == sessionId {
      if g in s.registry.bySession {
        assert g in n.callers[t].todo;
      } else {
        assert s.canceller[g] in n.callers && g in n.callers[s.canceller[g]].todo;
      }
    }
  }

  /** A device's failure does the same to the requests associated with it. */
  lemma FailureReachesAll(steps: seq<Step>, t: nat, deviceId: string, cause: Cause, g: GatewayId)
    requires t !in Reach(steps).callers && g in Reach(steps).registry.entries && deviceId != ""
    ensures var s := Reach(steps);
            var n := Next(s, FailDevice(t, deviceId, cause));
            && n.registry.entries == s.registry.entries && n.sent == s.sent
            && t in n.callers && n.callers[t].result == Failure(cause)
            && (g in n.callers[t].todo ==> s.registry.entries[g].deviceId == deviceId)
            && (s.registry.entries[g].deviceId == deviceId ==>
                  exists u :: u in n.callers && g in n.callers[u].todo && (u == t || u in s.callers))
  {
    hide Run, CallersInv, TakenInv;
    ReachInv(steps);
    var s := Reach(steps);
    var n := Next(s, FailDevice(t, deviceId, cause));
    if s.registry.entries[g].deviceId == deviceId {
      if g in s.registry.byDevice {
        assert g in n.callers[t].todo;
      } else {
        assert g in OnDevice(s.registry.entries);
        assert s.failer[g] in n.callers && g in n.callers[s.failer[g]].todo;
      }
    }
  }

  /** A caller's look: the request leaves the registry and is held if it was live,
      and is skipped otherwise; no other request is touched. */
  lemma TakeExact(steps: seq<Step>, t: nat, g: GatewayId, h: GatewayId)
    requires t in Reach(steps).callers
    ensures var s := Reach(steps);
            var n := Next(s, Take(t, g));
            var looks := g in s.callers[t].todo && s.callers[t].holding.None?;
            && (h in n.registry.entries <==> h in s.registry.entries && !(looks && h == g)) && n.sent == s.sent
            && t in n.callers && n.callers[t].todo == (if looks then s.callers[t].todo - {g} else s.callers[t].todo)
            && (n.callers[t].holding == Some(h) <==>
                  s.callers[t].holding == Some(h) || (looks && h == g && g in s.registry.entries))
  {
    hide Run;
    var s := Reach(steps);
    var looks := g in s.callers[t].todo && s.callers[t].holding.None?;
    assert Next(s, Take(t, g)) == if looks then Taking(s, t, g) else s;
    hide Next;
  }

  /** What a caller holds is sent as its result, and nothing else is. */
  lemma PutExact(steps: seq<Step>, t: nat)
    requires t in Reach(steps).callers
    ensures var s := Reach(steps);
            var n := Next(s, Put(t));
            && n.registry == s.registry && t in n.callers && n.callers[t].holding.None?
            && n.sent == match s.callers[t].holding
                         case Some(held) => s.sent[held := [s.callers[t].result]]
                         case None => s.sent
  {
    hide Run, IndexedInv, Consistent;
    ReachInv(steps);
    var s := Reach(steps);
    assert CallerInv(t, s.callers[t], s.registry.entries.Keys, s.sent.Keys, s.taker);
    if s.callers[t].holding.Some? {
      var held := s.callers[t].holding.value;
      assert held in s.taker && s.taker[held] == t;
      assert held in s.sent && s.sent[held] == SentBy(s.callers[t], held) == [];
      assert [] + [s.callers[t].result] == [s.callers[t].result];
    }
  }

  lemma ResultStays(s: State, step: Step, g: GatewayId)
    requires Inv(s) && g in s.sent && |s.sent[g]| == 1
    ensures g in Next(s, step).sent && Next(s, step).sent[g] == s.sent[g]
  {
  }

  /** A result, once sent, is the only one whatever happens next: later
      responses, timers, cancellations and failures change nothing. */
  lemma {:induction false} ResultIsFinal(s: State, steps: seq<Step>, g: GatewayId)
    requires Inv(s) && g in s.sent && |s.sent[g]| == 1
    ensures g in Run(s, steps).sent && Run(s, steps).sent[g] == s.sent[g]
    decreases |steps|
  {
    hide Inv, Next;
    if steps != [] {
      ResultStays(s, steps[0], g);
      NextInv(s, steps[0]);
      ResultIsFinal(Next(s, steps[0]), steps[1..], g);
    }
  }
}
