/** The Bridge's reconnect driver against its status machine. What the network,
    the child, the Studio probe, the event sink and the user do is left open at
    every point, and a run may be cut off after any number of turns. */
module StatusDriver {
  import McpProcess

  /** `Other` is any name the machine does not know. */
  datatype State =
    | Initializing | EnrollmentRequired | Authenticating | Connecting | McpStarting
    | StudioDetecting | Connected | Reconnecting | Degraded | Fatal | Other

  predicate AllowedTransition(from: State, to: State) {
    if to == Fatal then from != Fatal
    else
      match from
      case Initializing => to == EnrollmentRequired || to == Authenticating || to == Connecting
      case EnrollmentRequired => to == Authenticating
      case Authenticating => to == Connecting
      case Connecting => to == McpStarting || to == Reconnecting || to == Degraded
      case McpStarting => to == StudioDetecting || to == Reconnecting || to == Degraded
      case StudioDetecting => to == Reconnecting || to == Degraded
      case Connected => to == Reconnecting || to == Degraded
      case Reconnecting => to == Connecting || to == Degraded
      case Degraded => to == Reconnecting || to == Connecting
      case Fatal => false
      case Other => false
  }

  /** What the machine accepts: a transition, or readiness where `ready`. */
  predicate Legal(from: State, to: State, ready: bool) {
    if ready then from == StudioDetecting && to == Connected
    else to != Connected && to != Other && AllowedTransition(from, to)
  }

  /** The table read the other way: what can lead into a state. `Initializing` is
      never entered again, and `Connected` by reported readiness only. */
  function Sources(to: State, ready: bool): set<State> {
    if ready then if to == Connected then {StudioDetecting} else {}
    else
      match to
      case EnrollmentRequired => {Initializing}
      case Authenticating => {Initializing, EnrollmentRequired}
      case Connecting => {Initializing, Authenticating, Reconnecting, Degraded}
      case McpStarting => {Connecting}
      case StudioDetecting => {McpStarting}
      case Reconnecting => {Connecting, McpStarting, StudioDetecting, Connected, Degraded}
      case Degraded => {Connecting, McpStarting, StudioDetecting, Connected, Reconnecting}
      case Fatal => {Initializing, EnrollmentRequired, Authenticating, Connecting, McpStarting, StudioDetecting,
                     Connected, Reconnecting, Degraded, Other}
      case _ => {}
  }

  lemma SourcesExact(from: State, to: State, ready: bool)
    ensures Legal(from, to, ready) <==> from in Sources(to, ready)
  {
  }

  class Machine {
    var state: State

    constructor ()
      ensures state == Initializing
    {
      state := Initializing;
    }

    method Transition(to: State) returns (ok: bool)
      modifies this
      ensures ok <==> Legal(old(state), to, false)
      ensures state == if ok then to else old(state)
    {
      if to == Connected {
        return false;
      }
      if to == Other {
        return false;
      }
      if !AllowedTransition(state, to) {
        return false;
      }
      state := to;
      ok := true;
    }

    method MarkReady(gateway: bool, mcp: bool) returns (ok: bool)
      modifies this
      ensures ok <==> Legal(old(state), Connected, true) && gateway && mcp
      ensures state == if ok then Connected else old(state)
    {
      if state != StudioDetecting {
        return false;
      }
      if !gateway || !mcp {
        return false;
      }
      state := Connected;
      ok := true;
    }
  }

  // ------------------------------------------------------------- traces

  /** One status change asked of the machine, what the cycle it belongs to had
      achieved by then, and whether its child was up at that moment. */
  datatype Entry = Entry(from: State, to: State, ready: bool, broughtUp: bool, studioFound: bool, childAlive: bool)

  /** A trace of accepted changes, each from where the last one led. */
  ghost predicate LegalTrace(trace: seq<Entry>, state: State) {
    && (forall i :: 0 <= i < |trace| ==> Legal(trace[i].from, trace[i].to, trace[i].ready))
    && (forall i, j :: 0 <= i < |trace| && j == i + 1 && j < |trace| ==> trace[i].to == trace[j].from)
    && (trace == [] ==> state == Initializing)
    && (trace != [] ==> trace[0].from == Initializing && state == trace[|trace| - 1].to)
  }

  lemma LegalStep(trace: seq<Entry>, state: State, e: Entry)
    requires LegalTrace(trace, state) && e.from == state && Legal(e.from, e.to, e.ready)
    ensures LegalTrace(trace + [e], e.to)
  {
    hide Legal;
  }

  /** Nothing follows Fatal. */
  lemma NothingFollowsFatal(trace: seq<Entry>, state: State, i: nat)
    requires LegalTrace(trace, state) && i < |trace| && trace[i].to == Fatal
    ensures i == |trace| - 1 && state == Fatal
  {
    var j := i + 1;
    assert j < |trace| ==> trace[i].to == trace[j].from;
  }

  /** What must come right before a detection, a start and a Connected. */
  lemma Predecessor(trace: seq<Entry>, state: State, i: nat)
    requires LegalTrace(trace, state) && i < |trace|
    requires trace[i].to == Connected || trace[i].to == StudioDetecting || trace[i].to == McpStarting
    ensures i >= 1
    ensures trace[i - 1].to == match trace[i].to
                               case Connected => StudioDetecting
                               case StudioDetecting => McpStarting
                               case _ => Connecting
  {
    var j := i - 1;
    assert i >= 1 ==> trace[j].to == trace[i].from;
  }

  /** Connected is only reached through connecting, starting the child and
      detecting Studios, one right after the other. */
  lemma ConnectedNeedsAFullCycle(trace: seq<Entry>, state: State, i: nat)
    requires LegalTrace(trace, state) && i < |trace| && trace[i].to == Connected
    ensures i >= 3 && trace[i].ready
    ensures trace[i - 1].to == StudioDetecting && trace[i - 2].to == McpStarting && trace[i - 3].to == Connecting
  {
    assert Legal(trace[i].from, trace[i].to, trace[i].ready);
    hide LegalTrace, Legal;
    Predecessor(trace, state, i);
    Predecessor(trace, state, i - 1);
    Predecessor(trace, state, i - 2);
  }

  /** Every Connected was reported with the child brought up and the Studios
      found in that cycle, while the child was neither stopped nor known dead. */
  ghost predicate ConnectedWasEarned(trace: seq<Entry>) {
    forall i :: 0 <= i < |trace| && trace[i].to == Connected ==>
      trace[i].broughtUp && trace[i].studioFound && trace[i].childAlive
  }

  // ------------------------------------------------------------- backoff

  /** A delay asked of the backoff, after a failed dial or a dropped cycle. */
  datatype Delay = Delay(attempt: int, afterCycle: bool)

  ghost predicate DelaysInv(delays: seq<Delay>) {
    forall i :: 0 <= i < |delays| ==>
      delays[i].attempt == if delays[i].afterCycle || i == 0 then 0 else LastAttempt(delays[..i]) + 1
  }

  function LastAttempt(delays: seq<Delay>): int {
    if delays == [] then -1 else delays[|delays| - 1].attempt
  }

  lemma DelayStep(delays: seq<Delay>, d: Delay)
    requires DelaysInv(delays)
    requires d.attempt == if d.afterCycle || delays == [] then 0 else LastAttempt(delays) + 1
    ensures DelaysInv(delays + [d])
  {
    var n := delays + [d];
    forall i | 0 <= i < |n| ensures n[i].attempt == if n[i].afterCycle || i == 0 then 0 else LastAttempt(n[..i]) + 1 {
      if i < |delays| { assert n[..i] == delays[..i]; } else { assert n[..i] == delays; }
    }
  }

  /** The delay grows over consecutive failed dials only: a cycle that got
      through and was dropped always waits the first delay again. */
  lemma {:induction false} DelayCountsFailedDials(delays: seq<Delay>, from: nat, i: nat)
    requires DelaysInv(delays) && from <= i < |delays|
    requires forall k :: from < k <= i ==> !delays[k].afterCycle
    ensures delays[i].attempt == delays[from].attempt + (i - from)
    ensures delays[from].afterCycle ==> delays[i].attempt == i - from
    decreases i
  {
    if from < i {
      DelayCountsFailedDials(delays, from, i - 1);
      assert delays[..i][i - 1] == delays[i - 1];
    }
  }

  // -------------------------------------------------------------- driver

  /** How a stretch of the driver ends: go on, wait and redial, or return. */
  datatype Flow = Continue | Redial | Stop

  class Driver {
    const machine: Machine
    var trace: seq<Entry>
    var delays: seq<Delay>
    var broughtUp: bool
    var studioFound: bool
    /** The child process of the current or the last cycle. */
    var child: McpProcess.ManagedProcess?
    /** What happened to the driver from outside: the sink failed, the context was
        cancelled, a status could not be encoded. */
    var sinkFailed: bool
    var cancelled: bool
    var unsendable: bool

    /** There is a reason to return. */
    predicate MayStop()
      reads this, machine
    {
      sinkFailed || cancelled || unsendable || machine.state == Fatal || machine.state == EnrollmentRequired
    }

    predicate ChildAlive()
      reads this, child
    {
      child != null && child.started && !child.stopping
    }

    ghost predicate Valid()
      reads this, machine
    {
      LegalTrace(trace, machine.state) && ConnectedWasEarned(trace) && DelaysInv(delays)
    }

    constructor ()
      ensures Valid() && fresh(machine) && machine.state == Initializing && trace == [] && delays == [] && child == null
      ensures !MayStop()
    {
      machine := new Machine();
      trace, delays, broughtUp, studioFound, child := [], [], false, false, null;
      sinkFailed, cancelled, unsendable := false, false, false;
    }

    /** `ready` reports readiness, anything else asks for a transition. The
        driver only ever asks for what the machine accepts; the sink may still
        fail. */
    method Emit(to: State, ready: bool) returns (sinkOk: bool)
      requires Valid() && Legal(machine.state, to, ready)
      requires to == Connected ==> broughtUp && studioFound && ChildAlive()
      modifies machine, this`trace, this`sinkFailed
      ensures Valid() && machine.state == to && sinkFailed == (old(sinkFailed) || !sinkOk)
      ensures trace == old(trace) + [Entry(old(machine.state), to, ready, broughtUp, studioFound, ChildAlive())]
    {
      var entry := Entry(machine.state, to, ready, broughtUp, studioFound, ChildAlive());
      LegalStep(trace, machine.state, entry);
      var ok;
      if ready {
        ok := machine.MarkReady(true, true);
      } else {
        ok := machine.Transition(to);
      }
      assert ok;
      trace := trace + [entry];
      sinkOk := *;
      sinkFailed := sinkFailed || !sinkOk;
    }

    /** A cancelled context stays cancelled. */
    method Cancelled() returns (c: bool)
      modifies this`cancelled
      ensures c == cancelled && (old(cancelled) ==> c)
    {
      var now: bool := *;
      cancelled := cancelled || now;
      c := cancelled;
    }

    /** reconnectAfterDrop. */
    method ReconnectAfterDrop(attempt: int) returns (flow: Flow)
      requires Valid() && attempt == 0 && Legal(machine.state, Reconnecting, false)
      modifies machine, this`trace, this`delays, this`sinkFailed
      ensures Valid() && (flow == Redial || flow == Stop)
      ensures flow == Redial ==> machine.state == Reconnecting && delays == old(delays) + [Delay(0, true)]
      ensures flow == Stop ==> MayStop()
    {
      DelayStep(delays, Delay(attempt, true));
      delays := delays + [Delay(attempt, true)];
      var ok := Emit(Reconnecting, false);
      flow := if ok then Redial else Stop;
    }

    method EmitFatal() returns (flow: Flow)
      requires Valid() && machine.state != Fatal
      modifies machine, this`trace, this`sinkFailed
      ensures Valid() && flow == Stop && machine.state == Fatal
    {
      var _ := Emit(Fatal, false);
      flow := Stop;
    }

    /** The child may exit while the driver waits for something. */
    method Waiting()
      requires child != null && child.Valid() && child.started
      modifies child
      ensures child.Valid() && child.started
    {
      var exits: bool := *;
      if exits {
        child.Reap();
      }
    }

    /** How bring-up and the Studio probe fail: the exit of the child, if it was
        noticed, means another try. */
    method CycleFailed(attempt: int, noticed: bool) returns (flow: Flow)
      requires Valid() && attempt == 0 && Legal(machine.state, Reconnecting, false)
      requires child != null
      modifies machine, this`trace, this`delays, this`sinkFailed, this`cancelled
      ensures Valid() && (flow == Redial || flow == Stop)
      ensures flow == Redial ==> machine.state == Reconnecting && delays == old(delays) + [Delay(0, true)]
      ensures flow == Stop ==> MayStop()
    {
      var stop := Cancelled();
      if stop {
        return Stop;
      }
      if child.stopping && noticed {
        flow := ReconnectAfterDrop(attempt);
        return;
      }
      flow := EmitFatal();
    }

    /** relayLoop: it ends by cancellation, by revocation, or by a drop. */
    method RelayLoop(attempt: int) returns (flow: Flow)
      requires Valid() && attempt == 0 && machine.state == Connected
      requires child != null && child.Valid() && child.started
      modifies machine, child, this`trace, this`delays, this`sinkFailed, this`cancelled, this`unsendable
      ensures Valid() && child.Valid() && (flow == Redial || flow == Stop)
      ensures flow == Redial ==> machine.state == Reconnecting && delays == old(delays) + [Delay(0, true)]
      ensures flow == Stop ==> MayStop()
    {
      Waiting();
      var revoked: bool := *;
      var stop := Cancelled();
      if stop {
        return Stop;
      }
      if revoked {
        flow := EmitFatal();
        return;
      }
      flow := ReconnectAfterDrop(attempt);
    }

    /** The readiness commit with the Connected report in it, and the relay loop
        after it. */
    method Report(attempt: int) returns (flow: Flow)
      requires Valid() && attempt == 0 && machine.state == StudioDetecting && broughtUp && studioFound
      requires child != null && child.Valid() && child.started
      modifies machine, child, this`trace, this`delays, this`sinkFailed, this`cancelled, this`unsendable
      ensures Valid() && child.Valid() && (flow == Redial || flow == Stop)
      ensures flow == Redial ==> machine.state == Reconnecting && delays == old(delays) + [Delay(0, true)]
      ensures flow == Stop ==> MayStop()
    {
      hide LegalTrace, ConnectedWasEarned, DelaysInv, McpProcess.Run, McpProcess.RunsAfter;
      var queued: bool := *;
      Waiting();
      var committed := child.CommitReadiness();
      McpProcess.ReadinessExact(child.events);
      if !committed {
        // The commit never ran: the child is gone.
        var stop := Cancelled();
        if stop {
          return Stop;
        }
        flow := ReconnectAfterDrop(attempt);
        return;
      }
      // The exit is held off until the commit has returned.
      var ok := Emit(Connected, true);
      if !ok {
        return Stop;
      }
      if !queued {
        // The status snapshot did not get into the send queue.
        var encodes: bool := *;
        var stop := Cancelled();
        unsendable := unsendable || !encodes;
        if stop || !encodes {
          return Stop;
        }
        flow := ReconnectAfterDrop(attempt);
        return;
      }
      flow := RelayLoop(attempt);
    }

    /** connectedCycle on a session just dialled, without the teardown. */
    method Cycle(attempt: int) returns (flow: Flow)
      requires Valid() && attempt == 0 && machine.state == Connecting
      requires child != null && child.Valid() && !child.started
      modifies machine, child, this`trace, this`delays, this`broughtUp, this`studioFound
      modifies this`sinkFailed, this`cancelled, this`unsendable
      ensures Valid() && child.Valid() && (flow == Redial || flow == Stop)
      ensures flow == Redial ==> machine.state == Reconnecting && delays == old(delays) + [Delay(0, true)]
      ensures flow == Stop ==> MayStop()
    {
      hide LegalTrace, ConnectedWasEarned, DelaysInv, McpProcess.Run, McpProcess.RunsAfter;
      broughtUp, studioFound := false, false;
      var helloQueued, spawns, noticed: bool := *, *, *;
      if !helloQueued {
        flow := ReconnectAfterDrop(attempt);
        return;
      }
      var ok := Emit(McpStarting, false);
      if !ok {
        return Stop;
      }
      var started := child.Start(spawns);
      if !started {
        var stop := Cancelled();
        if stop {
          return Stop;
        }
        flow := EmitFatal();
        return;
      }
      var up: bool := *;
      Waiting();
      if !up {
        flow := CycleFailed(attempt, noticed);
        return;
      }
      broughtUp := true;
      ok := Emit(StudioDetecting, false);
      if !ok {
        return Stop;
      }
      var found: bool := *;
      noticed := *;
      Waiting();
      if !found {
        flow := CycleFailed(attempt, noticed);
        return;
      }
      studioFound := true;
      flow := Report(attempt);
    }

    /** connectedCycle with its deferred teardown: however the cycle went, its
        child is gone when it returns. */
    method ConnectedCycle(attempt: int) returns (flow: Flow)
      requires Valid() && attempt == 0 && machine.state == Connecting
      modifies machine, this
      ensures Valid() && (flow == Redial || flow == Stop)
      ensures flow == Redial ==> machine.state == Reconnecting && delays == old(delays) + [Delay(0, true)]
      ensures flow == Stop ==> MayStop()
      ensures child != null && fresh(child) && child.Valid() && !McpProcess.RunsAfter(child.events)
    {
      hide LegalTrace, ConnectedWasEarned, DelaysInv, McpProcess.Run, McpProcess.RunsAfter;
      child := new McpProcess.ManagedProcess();
      flow := Cycle(attempt);
      var _ := child.Stop();
      McpProcess.ReadinessExact(child.events);
    }

    /** What RunRemote does about a failed dial. */
    method DialFailed(attempt: int) returns (flow: Flow)
      requires Valid() && machine.state == Connecting && attempt == LastAttempt(delays) + 1
      modifies machine, this`trace, this`delays, this`sinkFailed, this`cancelled
      ensures Valid() && (flow == Redial || flow == Stop)
      ensures flow == Redial ==> machine.state == Reconnecting && delays == old(delays) + [Delay(attempt, false)]
      ensures flow == Stop ==> MayStop()
    {
      var rejected: bool := *;
      var stop := Cancelled();
      if stop {
        return Stop;
      }
      if rejected {
        flow := EmitFatal();
        return;
      }
      DelayStep(delays, Delay(attempt, false));
      delays := delays + [Delay(attempt, false)];
      var ok := Emit(Reconnecting, false);
      flow := if ok then Redial else Stop;
    }

    /** RunRemote on a fresh machine, cut off after `turns` turns of its loop. It
        returns for a reason only, and otherwise waits once per turn. */
    method RunRemote(turns: nat) returns (flow: Flow)
      requires Valid() && machine.state == Initializing && trace == [] && delays == [] && child == null && !MayStop()
      modifies machine, this
      ensures Valid() && (child != null ==> child.Valid() && !McpProcess.RunsAfter(child.events))
      ensures if flow == Continue then |delays| == turns else MayStop()
    {
      hide LegalTrace, ConnectedWasEarned, McpProcess.Run, McpProcess.RunsAfter;
      var enrolled, readable: bool := *, *;
      if !readable {
        flow := EmitFatal();
        return;
      }
      if !enrolled {
        var _ := Emit(EnrollmentRequired, false);
        return Stop;
      }
      var ok := Emit(Authenticating, false);
      if !ok {
        return Stop;
      }
      var attempt := 0;
      for turn := 0 to turns
        invariant Valid() && (machine.state == Authenticating || machine.state == Reconnecting)
        invariant attempt == LastAttempt(delays) + 1 && |delays| == turn
        invariant child != null ==> fresh(child) && child.Valid() && !McpProcess.RunsAfter(child.events)
      {
        ok := Emit(Connecting, false);
        if !ok {
          return Stop;
        }
        var dialled: bool := *;
        if !dialled {
          flow := DialFailed(attempt);
        } else {
          attempt := 0;
          flow := ConnectedCycle(attempt);
        }
        if flow == Stop {
          return;
        }
        attempt := attempt + 1;
        // Sleeping out the delay may be cancelled.
        var stop := Cancelled();
        if stop {
          return Stop;
        }
      }
      flow := Continue;
    }
  }
}
