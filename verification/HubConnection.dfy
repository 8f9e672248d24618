/** A hub connection as a bounded queue that closes once, and the registry that
    keeps at most one connection per device. */
module HubConnection {
  import opened Common

  type Envelope = nat

  datatype SendError = EncodeFailed | ConnectionClosed | SlowConsumer | DeviceOffline

  class Connection {
    const depth: nat
    var send: seq<Envelope>
    var closed: bool
    /** How often the done channel was closed; a second time would panic. */
    var doneCloses: nat
    /** What the single writer put on the socket; it stops for good when a write
        fails. */
    var written: seq<Envelope>
    var writerGone: bool
    ghost var accepted: seq<Envelope>

    /** In order and without loss: what was accepted is what was written, plus
        the one envelope a failed write lost, plus what still waits. */
    ghost predicate Valid()
      reads this
    {
      && |send| <= depth
      && doneCloses == (if closed then 1 else 0)
      && (writerGone ==> closed)
      && written <= accepted && |accepted| == |written| + (if writerGone then 1 else 0) + |send|
      && send == accepted[|accepted| - |send|..]
    }

    constructor (depth: nat)
      ensures Valid() && !closed && !writerGone && accepted == [] && written == [] && this.depth == depth
    {
      this.depth := depth;
      send, closed, doneCloses, written, writerGone, accepted := [], false, 0, [], false, [];
    }

    method CloseLocked()
      requires Valid()
      modifies this`closed, this`doneCloses
      ensures Valid() && closed
    {
      if closed {
        return;
      }
      closed := true;
      doneCloses := doneCloses + 1;
    }

    /** Never blocks: a full queue ends the connection instead. */
    method Enqueue(env: Envelope, encodes: bool) returns (err: Option<SendError>)
      requires Valid()
      modifies this`send, this`closed, this`doneCloses, this`accepted
      ensures Valid()
      ensures err == if !encodes then Some(EncodeFailed)
                     else if old(closed) then Some(ConnectionClosed)
                     else if |old(send)| >= depth then Some(SlowConsumer)
                     else None
      ensures accepted == if err.None? then old(accepted) + [env] else old(accepted)
      ensures closed == (old(closed) || err == Some(SlowConsumer))
    {
      if !encodes {
        return Some(EncodeFailed);
      }
      if closed {
        return Some(ConnectionClosed);
      }
      if |send| < depth {
        send := send + [env];
        accepted := accepted + [env];
        return None;
      }
      CloseLocked();
      err := Some(SlowConsumer);
    }

    /** One turn of the write loop with something to send. */
    method WriteNext(fails: bool)
      requires Valid() && !writerGone && send != []
      modifies this`send, this`written, this`writerGone, this`closed, this`doneCloses
      ensures Valid() && send == old(send)[1..]
      ensures !fails ==> written == old(written) + [old(send)[0]] && closed == old(closed) && !writerGone
      ensures fails ==> written == old(written) && closed && writerGone
    {
      var data := send[0];
      assert accepted[|written|] == data;
      send := send[1..];
      if fails {
        CloseGone();
      } else {
        written := written + [data];
      }
    }

    method CloseGone()
      requires doneCloses == (if closed then 1 else 0)
      modifies this`closed, this`doneCloses, this`writerGone
      ensures closed && writerGone && doneCloses == 1
    {
      if !closed {
        closed := true;
        doneCloses := doneCloses + 1;
      }
      writerGone := true;
    }
  }

  // ----------------------------------------------- replacement, over runs

  /** `latest` is the last connection a device registered; `removed` holds the
      connections that cleaned themselves up or were disconnected. */
  datatype Hub<C> = Hub(conns: map<string, C>, latest: map<string, C>, removed: set<C>)

  datatype Step<C> =
    | Registering(deviceId: string, conn: C)
    | CleaningUp(deviceId: string, conn: C)
    | Disconnecting(deviceId: string)

  ghost function Empty<C>(): Hub<C> {
    Hub(map[], map[], {})
  }

  ghost function Next<C>(h: Hub<C>, step: Step<C>): Hub<C> {
    match step
    case Registering(d, c) => h.(conns := h.conns[d := c], latest := h.latest[d := c])
    case CleaningUp(d, c) =>
      h.(conns := if d in h.conns && h.conns[d] == c then h.conns - {d} else h.conns, removed := h.removed + {c})
    case Disconnecting(d) =>
      if d in h.conns then h.(conns := h.conns - {d}, removed := h.removed + {h.conns[d]}) else h
  }

  ghost function Run<C>(h: Hub<C>, steps: seq<Step<C>>): Hub<C>
    decreases |steps|
  {
    if steps == [] then h else Run(Next(h, steps[0]), steps[1..])
  }

  lemma {:induction false} RunSnoc<C>(h: Hub<C>, steps: seq<Step<C>>, step: Step<C>)
    ensures Run(h, steps + [step]) == Next(Run(h, steps), step)
    decreases |steps|
  {
    hide Next;
    if steps == [] {
      assert Run(Next(h, step), []) == Next(h, step);
    } else {
      assert (steps + [step])[1..] == steps[1..] + [step];
      RunSnoc(Next(h, steps[0]), steps[1..], step);
    }
  }

  ghost predicate Inv<C>(h: Hub<C>) {
    && (forall d :: d in h.conns ==> d in h.latest && h.conns[d] == h.latest[d])
    && (forall d :: d in h.latest && h.latest[d] !in h.removed ==> d in h.conns)
  }

  lemma {:induction false} RunInv<C>(h: Hub<C>, steps: seq<Step<C>>)
    requires Inv(h)
    ensures Inv(Run(h, steps))
    decreases |steps|
  {
    if steps != [] {
      assert Inv(Next(h, steps[0]));
      RunInv(Next(h, steps[0]), steps[1..]);
    }
  }

  /** Only the latest connection of a device is ever reachable, and it stays so
      until it is removed itself, whatever replaced connections do. */
  lemma LatestStaysRegistered<C>(steps: seq<Step<C>>, deviceId: string)
    requires deviceId in Run(Empty<C>(), steps).latest
    ensures var h := Run(Empty<C>(), steps);
            && (deviceId in h.conns ==> h.conns[deviceId] == h.latest[deviceId])
            && (h.latest[deviceId] !in h.removed ==> deviceId in h.conns)
  {
    RunInv(Empty<C>(), steps);
  }

  /** What ends a device's registration `c`. */
  predicate Ends<C(==)>(step: Step<C>, deviceId: string, c: C) {
    match step
    case Registering(d, _) => d == deviceId
    case CleaningUp(d, conn) => d == deviceId && conn == c
    case Disconnecting(d) => d == deviceId
  }

  /** Step i registered `c` for the device, and nothing ended that since. */
  ghost predicate Standing<C(!new)>(steps: seq<Step<C>>, deviceId: string, c: C, i: int) {
    0 <= i < |steps| && steps[i] == Registering(deviceId, c)
    && forall j :: i < j < |steps| ==> !Ends(steps[j], deviceId, c)
  }

  /** A device reaches exactly the connection it registered last, as long as that
      was neither disconnected nor cleaned up since. */
  lemma {:induction false} ReachableExact<C(!new)>(steps: seq<Step<C>>, deviceId: string, c: C)
    ensures var h := Run(Empty<C>(), steps);
            deviceId in h.conns && h.conns[deviceId] == c <==> exists i :: Standing(steps, deviceId, c, i)
    decreases |steps|
  {
    if steps != [] {
      var n := |steps| - 1;
      var before := steps[..n];
      assert steps == before + [steps[n]];
      RunSnoc(Empty<C>(), before, steps[n]);
      ReachableExact(before, deviceId, c);
      if i :| Standing(before, deviceId, c, i) && !Ends(steps[n], deviceId, c) {
        assert Standing(steps, deviceId, c, i);
      }
      if i :| Standing(steps, deviceId, c, i) && i < n {
        assert Standing(before, deviceId, c, i);
      }
      if steps[n] == Registering(deviceId, c) { assert Standing(steps, deviceId, c, n); }
    }
  }

  // ---------------------------------------------------------- the registry

  /** The registry. `steps` is its history. */
  class Registry {
    var conns: map<string, Connection>
    ghost var steps: seq<Step<Connection>>

    /** What the registry and the devices' past come to. */
    ghost function View(): Hub<Connection>
      reads this
    {
      Run(Empty<Connection>(), steps)
    }

    ghost predicate Valid()
      reads this
    {
      conns == View().conns
    }

    constructor ()
      ensures Valid() && steps == []
    {
      conns, steps := map[], [];
    }

    ghost method Took(step: Step<Connection>)
      modifies this`steps
      ensures steps == old(steps) + [step] && View() == Next(old(View()), step)
    {
      RunSnoc(Empty<Connection>(), steps, step);
      steps := steps + [step];
    }

    method Register(deviceId: string, conn: Connection) returns (replaced: Connection?)
      requires Valid()
      modifies this
      ensures Valid() && steps == old(steps) + [Registering(deviceId, conn)]
      ensures View() == Next(old(View()), Registering(deviceId, conn))
      ensures replaced == if deviceId in old(conns) then old(conns)[deviceId] else null
    {
      replaced := if deviceId in conns then conns[deviceId] else null;
      conns := conns[deviceId := conn];
      Took(Registering(deviceId, conn));
    }

    method Send(deviceId: string, env: Envelope, encodes: bool) returns (err: Option<SendError>)
      requires Valid() && forall d :: d in conns ==> conns[d].Valid()
      modifies conns.Values
      ensures Valid() && conns == old(conns) && steps == old(steps)
      ensures deviceId in conns ==> deviceId in View().latest && conns[deviceId] == View().latest[deviceId]
      ensures err == if deviceId !in conns then Some(DeviceOffline)
                     else if !encodes then Some(EncodeFailed)
                     else if old(conns[deviceId].closed) then Some(ConnectionClosed)
                     else if |old(conns[deviceId].send)| >= conns[deviceId].depth then Some(SlowConsumer)
                     else None
      ensures deviceId in conns ==>
                && conns[deviceId].Valid()
                && conns[deviceId].accepted == old(conns[deviceId].accepted) + (if err.None? then [env] else [])
                && conns[deviceId].written == old(conns[deviceId].written)
                && conns[deviceId].closed == (old(conns[deviceId].closed) || err == Some(SlowConsumer))
      ensures forall c :: c in conns.Values && (deviceId !in conns || c != conns[deviceId]) ==> unchanged(c)
    {
      if deviceId !in conns {
        return Some(DeviceOffline);
      }
      RunInv(Empty<Connection>(), steps);
      err := conns[deviceId].Enqueue(env, encodes);
    }

    method Disconnect(deviceId: string)
      requires Valid() && forall d :: d in conns ==> conns[d].Valid()
      modifies this, conns.Values
      ensures Valid() && steps == old(steps) + [Disconnecting(deviceId)]
      ensures View() == Next(old(View()), Disconnecting(deviceId))
      ensures deviceId in old(conns) ==> old(conns)[deviceId].closed && old(conns)[deviceId].Valid()
    {
      Took(Disconnecting(deviceId));
      if deviceId in conns {
        var conn := conns[deviceId];
        conns := conns - {deviceId};
        conn.CloseLocked();
      }
    }

    /** A connection cleaning up after itself does not evict its replacement. */
    method RemoveIfCurrent(deviceId: string, conn: Connection)
      requires Valid()
      modifies this
      ensures Valid() && steps == old(steps) + [CleaningUp(deviceId, conn)]
      ensures View() == Next(old(View()), CleaningUp(deviceId, conn))
    {
      Took(CleaningUp(deviceId, conn));
      if deviceId in conns && conns[deviceId] == conn {
        conns := conns - {deviceId};
      }
    }
  }
}
