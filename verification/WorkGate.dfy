/** The shutdown gate: admitted calls, the drain that waits for them, and the
    stages of a shutdown, interleaved with requests.

    Wake channels are numbered in the order they replace one another: the
    current one is open, every earlier one closed.
  */
module WorkGate {
  import opened Common

  type Call = nat

  // -------------------------------------------------------------- the gate

  datatype GateState = GateState(closed: bool, calls: set<Call>, wake: nat)

  function Admitted(g: GateState, call: Call): GateState {
    if g.closed then g else g.(calls := g.calls + {call})
  }

  /** Whoever finishes closes the wake channel and puts a new one in its place. */
  function Finished(g: GateState, call: Call): GateState {
    g.(calls := g.calls - {call}, wake := g.wake + 1)
  }

  /** What one look of Drain tells: done, or the channel to wait on. */
  function Looked(g: GateState): Option<nat> {
    if g.calls == {} then None else Some(g.wake)
  }

  class Gate {
    var closed: bool
    var calls: set<Call>
    var wake: nat

    ghost function View(): GateState
      reads this
    {
      GateState(closed, calls, wake)
    }

    constructor ()
      ensures View() == GateState(false, {}, 0)
    {
      closed, calls, wake := false, {}, 0;
    }

    method Admit(call: Call) returns (ok: bool)
      modifies this
      ensures View() == Admitted(old(View()), call) && ok == !closed
    {
      if closed {
        return false;
      }
      calls := calls + {call};
      ok := true;
    }

    method Done(call: Call)
      modifies this
      ensures View() == Finished(old(View()), call)
    {
      calls := calls - {call};
      wake := wake + 1;
    }

    method Close()
      modifies this
      ensures View() == old(View()).(closed := true)
    {
      closed := true;
    }

    /** One turn of Drain under the mutex. */
    method DrainLook() returns (waitOn: Option<nat>)
      ensures waitOn == Looked(View())
    {
      waitOn := if |calls| == 0 then None else Some(wake);
    }
  }

  // -------------------------------------------------------------- the runs

  /** Where the one shutdown stands. A drain alternates between looking under
      the mutex and blocking on the channel it saw. */
  datatype Stage =
    | Serving
    | Unready
    | Looking(settling: bool)
    | Blocked(settling: bool, wake: nat)
    | Expired
    | Failing(left: set<Call>)
    | Closing
    | HubClosed
    | KernelClosed
    | PoolClosed

  /** `quiet`: the last drain returned 0. `used` are the calls ever admitted. */
  datatype State = State(gate: GateState, used: set<Call>, cancelled: set<Call>, stage: Stage, quiet: bool)

  const Initial := State(GateState(false, {}, 0), {}, {}, Serving, false)

  datatype Step =
    | Admit(call: Call)
    | Done(call: Call)
    | MarkUnready
    | CloseGate
    | Look
    | Woken
    | Expire
    | Snapshot
    | Fail(call: Call)
    | Failed
    | CloseHub
    | CloseKernel
    | ClosePool

  /** A drain that ended with calls left: the first goes on to fail them, the
      second gives up on them. */
  function GaveUp(s: State, settling: bool): State {
    if settling || s.gate.calls == {} then s.(stage := Closing, quiet := s.gate.calls == {}) else s.(stage := Expired)
  }

  /** A request is a call of its own, and finishes once if it was admitted. */
  function Next(s: State, step: Step): State {
    match step
    case Admit(call) =>
      if call in s.used then s
      else s.(gate := Admitted(s.gate, call), used := if s.gate.closed then s.used else s.used + {call})
    case Done(call) => if call in s.gate.calls then s.(gate := Finished(s.gate, call)) else s
    case MarkUnready => if s.stage.Serving? then s.(stage := Unready) else s
    case CloseGate => if s.stage.Unready? then s.(gate := s.gate.(closed := true), stage := Looking(false)) else s
    case Look =>
      if !s.stage.Looking? then s
      else if Looked(s.gate).None? then s.(stage := Closing, quiet := true)
      else s.(stage := Blocked(s.stage.settling, Looked(s.gate).value))
    case Woken =>
      if s.stage.Blocked? && s.stage.wake < s.gate.wake then s.(stage := Looking(s.stage.settling)) else s
    case Expire => if s.stage.Blocked? then GaveUp(s, s.stage.settling) else s
    case Snapshot => if s.stage.Expired? then s.(stage := Failing(s.gate.calls)) else s
    case Fail(call) =>
      if s.stage.Failing? && call in s.stage.left
      then s.(cancelled := s.cancelled + {call}, stage := Failing(s.stage.left - {call}))
      else s
    case Failed => if s.stage.Failing? && s.stage.left == {} then s.(stage := Looking(true)) else s
    case CloseHub => if s.stage.Closing? then s.(stage := HubClosed) else s
    case CloseKernel => if s.stage.HubClosed? then s.(stage := KernelClosed) else s
    case ClosePool => if s.stage.KernelClosed? then s.(stage := PoolClosed) else s
  }

  function Run(s: State, steps: seq<Step>): State
    decreases |steps|
  {
    if steps == [] then s else Run(Next(s, steps[0]), steps[1..])
  }

  predicate PastDrain(stage: Stage) {
    stage.Closing? || stage.HubClosed? || stage.KernelClosed? || stage.PoolClosed?
  }

  ghost predicate Inv(s: State) {
    && s.gate.calls <= s.used
    && (s.gate.closed <==> !s.stage.Serving? && !s.stage.Unready?)
    && (s.stage.Blocked? ==> s.stage.wake <= s.gate.wake && (s.stage.wake == s.gate.wake ==> s.gate.calls != {}))
    && (s.stage.Failing? ==> s.gate.calls <= s.stage.left + s.cancelled)
    && ((s.stage.Looking? || s.stage.Blocked?) && s.stage.settling ==> s.gate.calls <= s.cancelled)
    && (s.quiet ==> s.gate.calls == {} && s.gate.closed)
    && (PastDrain(s.stage) ==> s.quiet || s.gate.calls <= s.cancelled)
  }

  lemma NextInv(s: State, step: Step)
    requires Inv(s)
    ensures Inv(Next(s, step))
  {
  }

  lemma {:induction false} RunInv(s: State, steps: seq<Step>)
    requires Inv(s)
    ensures Inv(Run(s, steps))
    decreases |steps|
  {
    hide Inv, Next;
    if steps != [] {
      NextInv(s, steps[0]);
      RunInv(Next(s, steps[0]), steps[1..]);
    }
  }

  function Reach(steps: seq<Step>): State {
    Run(Initial, steps)
  }

  // -------------------------------------------------------------- theorems

  /** A drain that is blocked never misses the end: while its channel is open
      there are calls left, each of whose completions closes it; and once no
      call is left, it is closed already. */
  lemma DrainIsAlwaysWoken(steps: seq<Step>, call: Call)
    requires Reach(steps).stage.Blocked?
    ensures var s := Reach(steps);
            && (s.gate.calls == {} ==> Next(s, Woken).stage.Looking?)
            && (s.stage.wake == s.gate.wake ==> s.gate.calls != {} && Next(s, Woken) == s)
            && (call in s.gate.calls ==> Next(Next(s, Done(call)), Woken).stage.Looking?)
  {
    RunInv(Initial, steps);
  }

  /** Who is inside: a call comes in exactly while the gate is open, on its first
      try, and stays until it is done, which wakes the drain once, whatever the
      shutdown does; the gate closes with its own stage, and only the calls that
      were left are cancelled. */
  lemma InsideExact(steps: seq<Step>, step: Step, call: Call)
    ensures var s := Reach(steps);
            var n := Next(s, step);
            && (call in n.gate.calls <==>
                  || (step == Admit(call) && call !in s.used && !s.gate.closed)
                  || (call in s.gate.calls && step != Done(call)))
            && n.gate.wake == s.gate.wake + (if step.Done? && step.call in s.gate.calls then 1 else 0)
            && (n.gate.closed <==> s.gate.closed || (step.CloseGate? && s.stage.Unready?))
            && (call in n.cancelled <==>
                  call in s.cancelled || (step == Fail(call) && s.stage.Failing? && call in s.stage.left))
  {
    hide Run;
  }

  /** Where an expired wait leads: to failing exactly the calls that are left, if
      there are any and it was the first wait, and else to the end, which is
      quiet exactly if no call is left. */
  lemma ExpiryExact(steps: seq<Step>)
    requires Reach(steps).stage.Blocked?
    ensures var s := Reach(steps);
            var n := Next(s, Expire);
            if s.stage.settling || s.gate.calls == {}
            then n.stage == Closing && (n.quiet <==> s.gate.calls == {})
            else n.stage == Expired && Next(n, Snapshot).stage == Failing(s.gate.calls)
  {
  }

  /** Nothing is admitted after Close. */
  lemma {:induction false} ClosedAdmitsNothing(s: State, steps: seq<Step>)
    requires s.gate.closed
    ensures Run(s, steps).gate.closed && Run(s, steps).used == s.used && Run(s, steps).gate.calls <= s.gate.calls
    decreases |steps|
  {
    hide GaveUp;
    if steps != [] { ClosedStep(s, steps[0]); ClosedAdmitsNothing(Next(s, steps[0]), steps[1..]); }
    hide Next;
  }

  lemma ClosedStep(s: State, step: Step)
    requires s.gate.closed
    ensures Next(s, step).gate.closed && Next(s, step).used == s.used && Next(s, step).gate.calls <= s.gate.calls
  {
  }

  /** A shutdown whose drain returned 0 has no call left at any later stage:
      while the hub, the HTTP server and the pool close, nothing runs. */
  lemma QuietStaysQuiet(before: seq<Step>, after: seq<Step>)
    requires Reach(before).quiet
    ensures var s := Run(Reach(before), after); s.gate.calls == {} && s.gate.closed
  {
    RunInv(Initial, before);
    ClosedAdmitsNothing(Reach(before), after);
  }

  /** Otherwise every call still running when the hub closes was cancelled. */
  lemma StragglersWereCancelled(steps: seq<Step>, call: Call)
    requires PastDrain(Reach(steps).stage) && call in Reach(steps).gate.calls
    ensures call in Reach(steps).cancelled && !Reach(steps).quiet
  {
    RunInv(Initial, steps);
  }

  function Rank(stage: Stage): nat {
    match stage
    case Serving => 0
    case Unready => 1
    case Looking(settling) => if settling then 4 else 2
    case Blocked(settling, _) => if settling then 4 else 2
    case Expired => 3
    case Failing(_) => 3
    case Closing => 5
    case HubClosed => 6
    case KernelClosed => 7
    case PoolClosed => 8
  }

  lemma StageStep(s: State, step: Step)
    ensures Rank(s.stage) <= Rank(Next(s, step).stage) <= Rank(s.stage) + 3
    ensures Rank(s.stage) >= 5 ==> Rank(Next(s, step).stage) <= Rank(s.stage) + 1
    ensures Rank(s.stage) <= 1 ==> Rank(Next(s, step).stage) <= Rank(s.stage) + 1
  {
  }

  /** The stages come in their order and none is revisited: readiness, gate,
      drain, hub, HTTP server, pool. */
  lemma {:induction false} StagesInOrder(s: State, steps: seq<Step>)
    ensures Rank(s.stage) <= Rank(Run(s, steps).stage)
    decreases |steps|
  {
    hide Next;
    if steps != [] {
      StageStep(s, steps[0]);
      StagesInOrder(Next(s, steps[0]), steps[1..]);
    }
  }

  lemma {:induction false} RunSnoc(s: State, steps: seq<Step>, step: Step)
    ensures Run(s, steps + [step]) == Next(Run(s, steps), step)
    decreases |steps|
  {
    hide Next;
    if steps == [] {
      assert Run(Next(s, step), []) == Next(s, step);
    } else {
      assert (steps + [step])[1..] == steps[1..] + [step];
      RunSnoc(Next(s, steps[0]), steps[1..], step);
    }
  }

  // ------------------------------------------------------------ the server

  /** The server behind the gate. `steps` is its history. */
  class Server {
    const gate: Gate
    var used: set<Call>
    var cancelled: set<Call>
    var stage: Stage
    var quiet: bool
    ghost var steps: seq<Step>

    ghost function View(): State
      reads this, gate
    {
      State(gate.View(), used, cancelled, stage, quiet)
    }

    /** The server is where its history leads. */
    ghost predicate Valid()
      reads this, gate
    {
      View() == Reach(steps) && Inv(View())
    }

    constructor ()
      ensures Valid() && fresh(gate) && steps == [] && View() == Initial
    {
      gate := new Gate();
      used, cancelled, stage, quiet, steps := {}, {}, Serving, false, [];
    }

    /** The step just taken joins the history. */
    ghost method Took(step: Step, was: State)
      requires was == Reach(steps) && Inv(was) && View() == Next(was, step)
      modifies this`steps
      ensures Valid() && steps == old(steps) + [step]
    {
      hide Next, Inv;
      RunSnoc(Initial, steps, step);
      NextInv(was, step);
      steps := steps + [step];
    }

    /** The MCP handler's way in. */
    method Enter(call: Call) returns (ok: bool)
      requires Valid() && call !in used
      modifies gate, this`used, this`steps
      ensures Valid() && steps == old(steps) + [Admit(call)] && View() == Next(old(View()), Admit(call))
      ensures ok == !gate.closed
    {
      ghost var was := View();
      ok := gate.Admit(call);
      if ok { used := used + {call}; }
      Took(Admit(call), was);
    }

    /** And its way out. */
    method Leave(call: Call)
      requires Valid() && call in gate.calls
      modifies gate, this`steps
      ensures Valid() && steps == old(steps) + [Done(call)] && View() == Next(old(View()), Done(call))
    {
      ghost var was := View();
      gate.Done(call);
      Took(Done(call), was);
    }

    method MarkUnready()
      requires Valid() && stage.Serving?
      modifies this`stage, this`steps
      ensures Valid() && steps == old(steps) + [Step.MarkUnready] && stage == Unready
    {
      ghost var was := View();
      stage := Unready;
      Took(Step.MarkUnready, was);
    }

    method CloseWork()
      requires Valid() && stage.Unready?
      modifies gate, this`stage, this`steps
      ensures Valid() && steps == old(steps) + [CloseGate] && stage == Looking(false)
      ensures gate.View() == old(gate.View()).(closed := true)
    {
      ghost var was := View();
      gate.Close();
      stage := Looking(false);
      Took(CloseGate, was);
    }

    /** Drain's turn under the mutex. */
    method TakeLook() returns (waitOn: Option<nat>)
      requires Valid() && stage.Looking?
      modifies this`stage, this`quiet, this`steps
      ensures Valid() && steps == old(steps) + [Look]
      ensures waitOn == Looked(gate.View())
      ensures stage == if waitOn.None? then Closing else Blocked(old(stage).settling, waitOn.value)
      ensures waitOn.None? ==> quiet
    {
      ghost var was := View();
      waitOn := gate.DrainLook();
      if waitOn.None? {
        stage, quiet := Closing, true;
      } else {
        stage := Blocked(stage.settling, waitOn.value);
      }
      Took(Look, was);
    }

    method Wake()
      requires Valid() && stage.Blocked? && stage.wake < gate.wake
      modifies this`stage, this`steps
      ensures Valid() && steps == old(steps) + [Woken] && stage == Looking(old(stage).settling)
    {
      ghost var was := View();
      stage := Looking(stage.settling);
      Took(Woken, was);
    }

    /** Drain's context has expired. */
    method GiveUp() returns (remaining: nat)
      requires Valid() && stage.Blocked?
      modifies this`stage, this`quiet, this`steps
      ensures Valid() && steps == old(steps) + [Expire] && remaining == |gate.calls|
      ensures stage == if old(stage).settling || remaining == 0 then Closing else Expired
      ensures stage.Closing? ==> quiet == (remaining == 0)
    {
      ghost var was := View();
      remaining := |gate.calls|;
      if stage.settling || remaining == 0 {
        stage, quiet := Closing, remaining == 0;
      } else {
        stage := Expired;
      }
      Took(Expire, was);
    }

    /** FailPending's snapshot. */
    method TakeSnapshot() returns (left: set<Call>)
      requires Valid() && stage == Expired
      modifies this`stage, this`steps
      ensures Valid() && steps == old(steps) + [Snapshot] && left == gate.calls && stage == Failing(left)
    {
      ghost var was := View();
      left := gate.calls;
      stage := Failing(left);
      Took(Snapshot, was);
    }

    method Cancel(call: Call)
      requires Valid() && stage.Failing? && call in stage.left
      modifies this`stage, this`cancelled, this`steps
      ensures Valid() && steps == old(steps) + [Fail(call)]
      ensures cancelled == old(cancelled) + {call} && stage == Failing(old(stage).left - {call})
    {
      ghost var was := View();
      cancelled := cancelled + {call};
      stage := Failing(stage.left - {call});
      Took(Fail(call), was);
    }

    method AllCancelled()
      requires Valid() && stage == Failing({})
      modifies this`stage, this`steps
      ensures Valid() && steps == old(steps) + [Failed] && stage == Looking(true)
    {
      ghost var was := View();
      stage := Looking(true);
      Took(Failed, was);
    }

    /** Hub, HTTP server and pool, one after the other. */
    method CloseNext()
      requires Valid() && (stage.Closing? || stage.HubClosed? || stage.KernelClosed?)
      modifies this`stage, this`steps
      ensures Valid() && old(steps) <= steps
      ensures stage == match old(stage) case Closing => HubClosed case HubClosed => KernelClosed case _ => PoolClosed
    {
      ghost var was := View();
      match stage
      case Closing => stage := HubClosed; Took(CloseHub, was);
      case HubClosed => stage := KernelClosed; Took(CloseKernel, was);
      case KernelClosed => stage := PoolClosed; Took(ClosePool, was);
    }

    /** Requests come and go while the shutdown is between two critical
        sections; once the gate is closed they only go. */
    method Meanwhile()
      requires Valid()
      modifies gate, this`used, this`steps
      ensures Valid() && old(steps) <= steps && stage == old(stage) && gate.closed == old(gate.closed)
      ensures gate.wake >= old(gate.wake)
      ensures gate.closed ==> gate.calls <= old(gate.calls)
      ensures gate.closed && gate.wake > old(gate.wake) ==> |gate.calls| < |old(gate.calls)|
    {
      var events: int := *;
      for i := 0 to if events < 0 then 0 else events
        invariant Valid() && old(steps) <= steps && gate.closed == old(gate.closed) && gate.wake >= old(gate.wake)
        invariant gate.closed ==> gate.calls <= old(gate.calls)
        invariant gate.closed && gate.wake > old(gate.wake) ==> gate.calls < old(gate.calls)
      {
        hide Inv, Reach;
        var call: Call, arrives: bool := *, *;
        if arrives && call !in used {
          var _ := Enter(call);
        } else if call in gate.calls {
          Leave(call);
        }
      }
      if gate.closed && gate.wake > old(gate.wake) { Fewer(gate.calls, old(gate.calls)); }
    }

    /** Waits for the calls to finish, as long as it is let, and returns how many
        are left. Every wait that ends by a wake leaves fewer calls than it
        found, so the loop ends. */
    method Drain(settling: bool) returns (remaining: nat)
      requires Valid() && stage == Looking(settling) && gate.closed
      modifies gate, this`used, this`stage, this`quiet, this`steps
      ensures Valid() && old(steps) <= steps && gate.closed
      ensures remaining == |gate.calls|
      ensures stage == if remaining == 0 || settling then Closing else Expired
      ensures stage.Closing? ==> quiet == (remaining == 0)
    {
      hide Inv, Reach, Next;
      while true
        invariant Valid() && stage == Looking(settling) && gate.closed && old(steps) <= steps
        decreases |gate.calls|
      {
        var waitOn := TakeLook();
        if waitOn.None? {
          return 0;
        }
        Meanwhile();
        var woken: bool := *;
        if woken && waitOn.value < gate.wake {
          Wake();
        } else {
          remaining := GiveUp();
          return;
        }
      }
    }

    /** Cancels the calls that were left when it looked, one after the other. */
    method FailPending()
      requires Valid() && stage == Expired && gate.closed
      modifies gate, this`used, this`cancelled, this`stage, this`steps
      ensures Valid() && old(steps) <= steps && gate.closed && stage == Looking(true)
      ensures cancelled == old(cancelled) + old(gate.calls)
    {
      hide Inv, Reach, Next;
      var left := TakeSnapshot();
      while left != {}
        invariant Valid() && old(steps) <= steps && gate.closed && stage == Failing(left)
        invariant left <= old(gate.calls) && cancelled == old(cancelled) + (old(gate.calls) - left)
        decreases |left|
      {
        Meanwhile();
        var call :| call in left;
        left := left - {call};
        Cancel(call);
      }
      AllCancelled();
    }

    /** Waits, then fails what is left and waits once more. */
    method Settle()
      requires Valid() && stage == Looking(false) && gate.closed
      modifies gate, this
      ensures Valid() && old(steps) <= steps && stage == Closing
    {
      hide Inv, Reach, Next;
      var remaining := Drain(false);
      if remaining > 0 {
        FailPending();
        Meanwhile();
        var _ := Drain(true);
      }
    }

    /** The teardown, with requests still coming and going. It always gets to
        its end, and every call it leaves behind was cancelled. */
    method Shutdown()
      requires Valid() && stage.Serving?
      modifies gate, this
      ensures Valid() && old(steps) <= steps && stage == PoolClosed
      ensures gate.closed && (quiet ==> gate.calls == {}) && (quiet || gate.calls <= cancelled)
    {
      hide Inv, Reach, Next;
      MarkUnready();
      Meanwhile();
      CloseWork();
      Meanwhile();
      Settle();
      Meanwhile();
      CloseNext();
      Meanwhile();
      CloseNext();
      Meanwhile();
      CloseNext();
      LeftBehind(View());
    }
  }

  lemma LeftBehind(s: State)
    requires Inv(s) && PastDrain(s.stage)
    ensures s.gate.closed && (s.quiet ==> s.gate.calls == {}) && (s.quiet || s.gate.calls <= s.cancelled)
  {
  }

  lemma Fewer(a: set<Call>, b: set<Call>)
    requires a < b
    ensures |a| < |b|
  {
    assert b == a + (b - a);
  }
}
