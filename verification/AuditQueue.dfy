/** The bounded audit queue: recorders that never block, one background drain
    and any number of flushes, interleaved at every unlock. */
module AuditQueue {
  type Event = nat

  // ------------------------------------------------------------ the runs

  /** What Serve does next. */
  datatype Server = Waiting | Looking | Draining(batch: nat) | Checking | Stopped

  /** A batch taken out of the queue: the accepted events from `lo` to `hi`,
      handed over up to `next`; `done` once it no longer counts as in flight. */
  datatype Batch = Batch(lo: nat, next: nat, hi: nat, done: bool)

  /** Events are named by their position in `accepted`; the buffer is its tail
      from `taken` on. `senders` are recorders that have appended and not yet
      tried to send the wake token. */
  datatype State = State(
    capacity: int,
    accepted: seq<Event>,
    taken: nat,
    dropped: nat,
    attempts: nat,
    inflight: int,
    wake: bool,
    senders: nat,
    server: Server,
    batches: seq<Batch>,
    handed: seq<nat>,
    serial: bool)

  function Initial(capacity: int): State {
    State(capacity, [], 0, 0, 0, 0, false, 0, Waiting, [], [], true)
  }

  datatype Step =
    | Append(event: Event)
    | SendWake
    | Wake
    | Look
    | Flush
    | Hand(batch: nat)
    | Finish(batch: nat)
    | Check(cancelled: bool)
    | Cancel

  function Buffered(s: State): int {
    |s.accepted| - s.taken
  }

  /** The locked half of drainOnce, with something to take. */
  function Taking(s: State): State
    requires s.taken < |s.accepted|
  {
    s.(taken := |s.accepted|, inflight := s.inflight + Buffered(s),
       batches := s.batches + [Batch(s.taken, s.taken, |s.accepted|, false)],
       serial := s.serial && (s.batches == [] || s.batches[|s.batches| - 1].done))
  }

  function Next(s: State, step: Step): State {
    match step
    case Append(event) =>
      if Buffered(s) >= s.capacity then s.(dropped := s.dropped + 1, attempts := s.attempts + 1)
      else s.(accepted := s.accepted + [event], attempts := s.attempts + 1, senders := s.senders + 1)
    case SendWake => if s.senders > 0 then s.(senders := s.senders - 1, wake := true) else s
    case Wake => if s.server.Waiting? && s.wake then s.(server := Looking, wake := false) else s
    case Look =>
      if !s.server.Looking? then s
      else if s.taken >= |s.accepted| then s.(server := Waiting)
      else Taking(s).(server := Draining(|s.batches|))
    case Flush =>
      if s.taken >= |s.accepted| then s else Taking(s)
    case Hand(b) =>
      if b < |s.batches| && s.batches[b].next < s.batches[b].hi && !s.batches[b].done
      then s.(handed := s.handed + [s.batches[b].next],
              batches := s.batches[b := s.batches[b].(next := s.batches[b].next + 1)])
      else s
    case Finish(b) =>
      if b < |s.batches| && !s.batches[b].done && s.batches[b].next >= s.batches[b].hi
      then s.(inflight := s.inflight - (s.batches[b].hi - s.batches[b].lo),
              batches := s.batches[b := s.batches[b].(done := true)],
              server := if s.server == Draining(b) then Checking else s.server)
      else s
    case Check(cancelled) => if s.server.Checking? then s.(server := if cancelled then Stopped else Looking) else s
    case Cancel => if s.server.Waiting? then s.(server := Stopped) else s
  }

  function Run(s: State, steps: seq<Step>): State
    decreases |steps|
  {
    if steps == [] then s else Run(Next(s, steps[0]), steps[1..])
  }

  // ---------------------------------------------------------- invariant

  /** Batches are non-empty stretches, each after the one before, up to `taken`. */
  ghost predicate BatchesInv(batches: seq<Batch>, taken: nat) {
    && (forall b :: 0 <= b < |batches| ==>
          && batches[b].lo < batches[b].hi <= taken && batches[b].lo <= batches[b].next <= batches[b].hi
          && (batches[b].done ==> batches[b].next == batches[b].hi))
    && (forall a, b :: 0 <= a < b < |batches| ==> batches[a].hi <= batches[b].lo)
    && (batches == [] ==> taken == 0)
    && (batches != [] ==> batches[|batches| - 1].hi == taken)
  }

  predicate Passed(batches: seq<Batch>, i: nat) {
    exists b :: 0 <= b < |batches| && batches[b].lo <= i < batches[b].next
  }

  /** An event is handed over once its batch has got past it, and only then,
      and once. */
  ghost predicate HandedInv(batches: seq<Batch>, handed: seq<nat>) {
    && (forall p :: 0 <= p < |handed| ==> Passed(batches, handed[p]))
    && (forall i :: Passed(batches, i) ==> i in handed)
    && (forall p, q :: 0 <= p < q < |handed| ==> handed[p] != handed[q])
  }

  function Unhanded(batches: seq<Batch>): int {
    if batches == [] then 0
    else Unhanded(batches[..|batches| - 1]) + (batches[|batches| - 1].hi - batches[|batches| - 1].next)
  }

  function Unfinished(batches: seq<Batch>): int {
    if batches == [] then 0
    else Unfinished(batches[..|batches| - 1])
         + (if batches[|batches| - 1].done then 0 else batches[|batches| - 1].hi - batches[|batches| - 1].lo)
  }

  ghost predicate CountInv(s: State) {
    && s.taken <= |s.accepted| && s.taken == |s.handed| + Unhanded(s.batches)
    && s.inflight == Unfinished(s.batches)
    && s.attempts == |s.accepted| + s.dropped
    && Buffered(s) <= s.capacity
  }

  /** With one drain at a time, events are handed over in order. */
  ghost predicate FifoInv(s: State) {
    s.serial ==>
      && (forall b :: 0 <= b < |s.batches| - 1 ==> s.batches[b].done)
      && |s.handed| == (if s.batches == [] then 0 else s.batches[|s.batches| - 1].next)
      && forall p :: 0 <= p < |s.handed| ==> s.handed[p] == p
  }

  ghost predicate ServerInv(s: State) {
    && (s.server.Draining? ==> s.server.batch < |s.batches| && !s.batches[s.server.batch].done)
    && (s.server.Waiting? && s.taken < |s.accepted| ==> s.wake || s.senders > 0)
  }

  ghost predicate Inv(s: State) {
    s.capacity > 0 && BatchesInv(s.batches, s.taken) && HandedInv(s.batches, s.handed) && CountInv(s) && FifoInv(s)
    && ServerInv(s)
  }

  lemma {:induction false} SumAt(batches: seq<Batch>, b: nat, n: Batch)
    requires b < |batches|
    ensures Unhanded(batches[b := n]) == Unhanded(batches) - (batches[b].hi - batches[b].next) + (n.hi - n.next)
    ensures Unfinished(batches[b := n]) == Unfinished(batches) - (if batches[b].done then 0
                                                                  else batches[b].hi - batches[b].lo)
                                           + (if n.done then 0 else n.hi - n.lo)
  {
    var last := |batches| - 1;
    if b < last {
      SumAt(batches[..last], b, n);
      assert batches[b := n][..last] == batches[..last][b := n];
    } else {
      assert batches[b := n][..last] == batches[..last];
    }
  }

  lemma SumAppend(batches: seq<Batch>, n: Batch)
    ensures Unhanded(batches + [n]) == Unhanded(batches) + (n.hi - n.next)
    ensures Unfinished(batches + [n]) == Unfinished(batches) + (if n.done then 0 else n.hi - n.lo)
  {
    assert (batches + [n])[..|batches|] == batches;
  }

  lemma TakingInv(s: State)
    requires Inv(s) && s.taken < |s.accepted|
    ensures var n := Taking(s);
            && BatchesInv(n.batches, n.taken) && HandedInv(n.batches, n.handed) && CountInv(n) && FifoInv(n)
  {
    var batch := Batch(s.taken, s.taken, |s.accepted|, false);
    var n := Taking(s);
    SumAppend(s.batches, batch);
    assert HandedInv(n.batches, n.handed) by { TakenHanded(s.batches, s.handed, batch); }
    hide HandedInv;
  }

  lemma TakenHanded(batches: seq<Batch>, handed: seq<nat>, batch: Batch)
    requires HandedInv(batches, handed) && batch.next == batch.lo
    ensures HandedInv(batches + [batch], handed)
  {
    forall i: nat ensures Passed(batches + [batch], i) <==> Passed(batches, i) {
      if Passed(batches, i) {
        var b :| 0 <= b < |batches| && batches[b].lo <= i < batches[b].next;
        assert (batches + [batch])[b] == batches[b];
      }
    }
  }

  /** Batches are disjoint, so the event a batch is about to hand over has not
      been handed over by any. */
  lemma NextIsNew(batches: seq<Batch>, taken: nat, b: nat)
    requires BatchesInv(batches, taken) && b < |batches| && batches[b].next < batches[b].hi
    ensures !Passed(batches, batches[b].next)
  {
    forall c | 0 <= c < |batches| ensures !(batches[c].lo <= batches[b].next < batches[c].next) {
      assert c < b ==> batches[c].hi <= batches[b].lo;
      assert b < c ==> batches[b].hi <= batches[c].lo;
    }
  }

  lemma HandedOver(batches: seq<Batch>, taken: nat, handed: seq<nat>, b: nat)
    requires BatchesInv(batches, taken) && HandedInv(batches, handed) && b < |batches|
             && batches[b].next < batches[b].hi
    ensures HandedInv(batches[b := batches[b].(next := batches[b].next + 1)], handed + [batches[b].next])
  {
    var e := batches[b].next;
    var after := batches[b := batches[b].(next := e + 1)];
    NextIsNew(batches, taken, b);
    forall i: nat ensures Passed(after, i) <==> Passed(batches, i) || i == e {
      if Passed(batches, i) {
        var c :| 0 <= c < |batches| && batches[c].lo <= i < batches[c].next;
        assert after[c].lo <= i < after[c].next;
      }
      if i == e { assert after[b].lo <= e < after[b].next; }
    }
    forall i: nat | Passed(after, i) ensures i in handed + [e] {
      if i != e { assert i in handed; }
    }
  }

  lemma BatchReplaced(batches: seq<Batch>, taken: nat, b: nat, n: Batch)
    requires BatchesInv(batches, taken) && b < |batches| && n.lo == batches[b].lo && n.hi == batches[b].hi
    requires n.lo <= n.next <= n.hi && (n.done ==> n.next == n.hi)
    ensures BatchesInv(batches[b := n], taken)
  {
  }

  lemma HandInv(s: State, b: nat)
    requires Inv(s) && b < |s.batches| && s.batches[b].next < s.batches[b].hi && !s.batches[b].done
    ensures Inv(Next(s, Hand(b)))
  {
    var n := Next(s, Hand(b));
    HandedOver(s.batches, s.taken, s.handed, b);
    SumAt(s.batches, b, n.batches[b]);
    hide HandedInv, Unhanded, Unfinished;
    assert s.serial ==> b == |s.batches| - 1;
    BatchReplaced(s.batches, s.taken, b, n.batches[b]);
    assert HandedInv(n.batches, n.handed);
    assert CountInv(n);
    assert FifoInv(n);
    assert ServerInv(n);
  }

  lemma FinishInv(s: State, b: nat)
    requires Inv(s) && b < |s.batches| && s.batches[b].next >= s.batches[b].hi && !s.batches[b].done
    ensures Inv(Next(s, Finish(b)))
  {
    var n := Next(s, Finish(b));
    SumAt(s.batches, b, n.batches[b]);
    FinishedHanded(s.batches, s.handed, b);
    hide HandedInv, Unhanded, Unfinished;
    BatchReplaced(s.batches, s.taken, b, n.batches[b]);
    assert HandedInv(n.batches, n.handed);
    assert CountInv(n);
    assert FifoInv(n);
    assert ServerInv(n);
  }

  lemma FinishedHanded(batches: seq<Batch>, handed: seq<nat>, b: nat)
    requires HandedInv(batches, handed) && b < |batches|
    ensures HandedInv(batches[b := batches[b].(done := true)], handed)
  {
    var after := batches[b := batches[b].(done := true)];
    forall i: nat ensures Passed(after, i) <==> Passed(batches, i) {
      if Passed(batches, i) {
        var c :| 0 <= c < |batches| && batches[c].lo <= i < batches[c].next;
        assert after[c].lo <= i < after[c].next;
      }
      if Passed(after, i) {
        var c :| 0 <= c < |after| && after[c].lo <= i < after[c].next;
        assert batches[c].lo <= i < batches[c].next;
      }
    }
  }

  lemma NextInv(s: State, step: Step)
    requires Inv(s)
    ensures Inv(Next(s, step))
  {
    hide Inv;
    match step
    case Append(event) => AppendInv(s, event);
    case Look => LookInv(s);
    case Flush => FlushInv(s);
    case Hand(b) => if b < |s.batches| && s.batches[b].next < s.batches[b].hi && !s.batches[b].done { HandInv(s, b); }
    case Finish(b) =>
      if b < |s.batches| && !s.batches[b].done && s.batches[b].next >= s.batches[b].hi { FinishInv(s, b); }
    case _ => WakeInv(s, step);
  }

  lemma AppendInv(s: State, event: Event)
    requires Inv(s)
    ensures Inv(Next(s, Append(event)))
  {
    hide HandedInv, Unhanded, Unfinished, BatchesInv;
  }

  lemma LookInv(s: State)
    requires Inv(s)
    ensures Inv(Next(s, Look))
  {
    hide HandedInv, Unhanded, Unfinished, BatchesInv, Taking;
    if s.server.Looking? && s.taken < |s.accepted| {
      TakingInv(s);
      TakingServer(s);
    }
  }

  lemma FlushInv(s: State)
    requires Inv(s)
    ensures Inv(Next(s, Flush))
  {
    hide HandedInv, Unhanded, Unfinished, BatchesInv, Taking;
    if s.taken < |s.accepted| {
      TakingInv(s);
      TakingServer(s);
    }
  }

  lemma TakingServer(s: State)
    requires s.taken < |s.accepted| && ServerInv(s)
    ensures var n := Taking(s);
            && n.server == s.server && n.taken == |n.accepted| && n.capacity == s.capacity
            && |n.batches| == |s.batches| + 1 && !n.batches[|s.batches|].done && ServerInv(n)
  {
  }

  lemma WakeInv(s: State, step: Step)
    requires Inv(s) && (step.SendWake? || step.Wake? || step.Check? || step.Cancel?)
    ensures Inv(Next(s, step))
  {
    hide HandedInv, Unhanded, Unfinished, BatchesInv;
  }

  lemma {:induction false} RunInv(s: State, steps: seq<Step>)
    requires Inv(s)
    ensures Inv(Run(s, steps))
    decreases |steps|
  {
    hide Inv, Next;
    if steps != [] {
      NextInv(s, steps[0]);
      RunInv(Next(s, steps[0]), steps[1..]);
    }
  }

  function Reach(capacity: int, steps: seq<Step>): State {
    Run(Initial(capacity), steps)
  }

  lemma ReachInv(capacity: int, steps: seq<Step>)
    requires capacity > 0
    ensures Inv(Reach(capacity, steps))
  {
    RunInv(Initial(capacity), steps);
  }

  // ----------------------------------------------------------- theorems

  /** Every event recorded was dropped and counted, or accepted; every event
      accepted is handed over, in a batch under way, or buffered; the buffer
      never exceeds the capacity. */
  lemma EventsConserved(capacity: int, steps: seq<Step>)
    requires capacity > 0
    ensures var s := Reach(capacity, steps);
            && s.attempts == |s.accepted| + s.dropped
            && |s.accepted| == |s.handed| + Unhanded(s.batches) + Buffered(s)
            && 0 <= Buffered(s) <= s.capacity
            && s.inflight == Unfinished(s.batches)
  {
    hide HandedInv, FifoInv, ServerInv, BatchesInv, Run, Unhanded, Unfinished;
    ReachInv(capacity, steps);
  }

  /** An event is accepted, behind those before it, exactly while fewer than the
      capacity are buffered, and otherwise dropped; nothing else adds or drops,
      whatever drains and flushes are under way. */
  lemma AcceptedExact(capacity: int, steps: seq<Step>, step: Step)
    requires capacity > 0
    ensures var s := Reach(capacity, steps);
            var n := Next(s, step);
            var room := |s.accepted| - |s.handed| - Unhanded(s.batches) < capacity;
            && n.accepted == (if step.Append? && room then s.accepted + [step.event] else s.accepted)
            && n.dropped == s.dropped + (if step.Append? && !room then 1 else 0)
  {
    hide HandedInv, FifoInv, ServerInv, BatchesInv, Run, Unhanded, Unfinished;
    ReachInv(capacity, steps);
    CapacityKept(Initial(capacity), steps);
  }

  lemma {:induction false} CapacityKept(s: State, steps: seq<Step>)
    ensures Run(s, steps).capacity == s.capacity
    decreases |steps|
  {
    if steps != [] {
      CapacityKept(Next(s, steps[0]), steps[1..]);
    }
  }

  /** A drain or a flush takes all that is buffered, as one batch at the end. */
  lemma TakenExact(capacity: int, steps: seq<Step>, step: Step)
    requires capacity > 0 && (step.Flush? || (step.Look? && Reach(capacity, steps).server.Looking?))
    ensures var s := Reach(capacity, steps);
            var n := Next(s, step);
            var from := |s.accepted| - Buffered(s);
            && Buffered(n) == 0 && n.accepted == s.accepted && n.handed == s.handed
            && n.batches == (if Buffered(s) == 0 then s.batches
                             else s.batches + [Batch(from, from, |s.accepted|, false)])
  {
    hide HandedInv, FifoInv, ServerInv, BatchesInv, Run, Unhanded, Unfinished;
    ReachInv(capacity, steps);
  }

  /** No event is handed over twice, and none before it was accepted. */
  lemma HandedAtMostOnce(capacity: int, steps: seq<Step>, p: nat, q: nat)
    requires capacity > 0 && p < q < |Reach(capacity, steps).handed|
    ensures var s := Reach(capacity, steps);
            s.handed[p] != s.handed[q] && s.handed[p] < |s.accepted| && s.handed[q] < |s.accepted|
  {
    ReachInv(capacity, steps);
    var s := Reach(capacity, steps);
    PassedIsTaken(s.batches, s.taken, s.handed[p]);
    PassedIsTaken(s.batches, s.taken, s.handed[q]);
    hide FifoInv, ServerInv, BatchesInv, Run;
  }

  lemma PassedIsTaken(batches: seq<Batch>, taken: nat, i: nat)
    requires BatchesInv(batches, taken) && Passed(batches, i)
    ensures i < taken
  {
  }

  /** Drained by one drain at a time, events come out in the order they went
      in. */
  lemma FifoWhenSerial(capacity: int, steps: seq<Step>, p: nat)
    requires capacity > 0 && Reach(capacity, steps).serial && p < |Reach(capacity, steps).handed|
    ensures Reach(capacity, steps).handed[p] == p
  {
    hide HandedInv, ServerInv, BatchesInv, CountInv, Run;
    ReachInv(capacity, steps);
  }

  ghost predicate NoFlush(steps: seq<Step>) {
    forall i :: 0 <= i < |steps| ==> !steps[i].Flush?
  }

  /** Serve finishes a batch before it takes the next. */
  ghost predicate OnlyServe(s: State) {
    s.serial && forall b :: 0 <= b < |s.batches| && !s.batches[b].done ==> s.server == Draining(b)
  }

  lemma OnlyServeStep(s: State, step: Step)
    requires OnlyServe(s) && !step.Flush?
    ensures OnlyServe(Next(s, step))
  {
  }

  /** Serve alone is a serial drain, so without flushes the queue is FIFO. */
  lemma {:induction false} ServeAloneIsSerial(s: State, steps: seq<Step>)
    requires OnlyServe(s) && NoFlush(steps)
    ensures Run(s, steps).serial
    decreases |steps|
  {
    hide Next;
    if steps != [] {
      OnlyServeStep(s, steps[0]);
      assert forall i :: 0 <= i < |steps[1..]| ==> steps[1..][i] == steps[i + 1];
      ServeAloneIsSerial(Next(s, steps[0]), steps[1..]);
    }
  }

  /** No lost wakeup: while Serve runs, a non-empty buffer always means that a
      wake token is there, that a recorder is about to send one, or that Serve
      is yet to look. */
  lemma NoLostWakeup(capacity: int, steps: seq<Step>)
    requires capacity > 0
    requires var s := Reach(capacity, steps); Buffered(s) > 0 && !s.server.Stopped?
    ensures var s := Reach(capacity, steps);
            s.wake || s.senders > 0 || s.server.Looking? || s.server.Draining? || s.server.Checking?
    ensures var s := Reach(capacity, steps);
            s.server.Waiting? && s.senders == 0 ==> Next(s, Wake).server.Looking?
  {
    hide HandedInv, FifoInv, CountInv, BatchesInv, Run;
    ReachInv(capacity, steps);
  }

  /** Where Serve goes: a wake token starts a look and is used up, a batch is
      finished before the next look, and only a cancellation, while it waits or
      between two batches, stops it. */
  lemma ServeExact(s: State, step: Step)
    ensures var n := Next(s, step);
            n.server == match step
                        case Wake => if s.server.Waiting? && s.wake then Looking else s.server
                        case Look =>
                          if !s.server.Looking? then s.server
                          else if Buffered(s) > 0 then Draining(|s.batches|) else Waiting
                        case Finish(b) =>
                          if s.server == Draining(b) && b < |s.batches| && !s.batches[b].done
                             && s.batches[b].next >= s.batches[b].hi then Checking else s.server
                        case Check(cancelled) =>
                          if !s.server.Checking? then s.server else if cancelled then Stopped else Looking
                        case Cancel => if s.server.Waiting? then Stopped else s.server
                        case _ => s.server
  {
  }

  /** Every accepted event has one wake token sent for it, and the channel holds
      one at most. */
  lemma TokensExact(s: State, step: Step)
    ensures var n := Next(s, step);
            var sends := step.SendWake? && s.senders > 0;
            && n.senders == s.senders + (|n.accepted| - |s.accepted|) - (if sends then 1 else 0)
            && (n.wake <==> sends || (s.wake && !(step.Wake? && s.server.Waiting?)))
  {
  }

  /** No batch counts as in flight only if every batch is done. */
  lemma {:induction false} AllHanded(batches: seq<Batch>)
    requires forall b :: 0 <= b < |batches| ==>
               batches[b].lo < batches[b].hi && (batches[b].done ==> batches[b].next == batches[b].hi)
    ensures Unfinished(batches) >= 0
    ensures Unfinished(batches) == 0 ==> Unhanded(batches) == 0
  {
    if batches != [] {
      var last := |batches| - 1;
      assert forall b :: 0 <= b < last ==> batches[..last][b] == batches[b];
      AllHanded(batches[..last]);
    }
  }

  /** What Flush waits for is enough: with nothing buffered and nothing in
      flight, every event ever accepted has been handed over. */
  lemma FlushedMeansHanded(capacity: int, steps: seq<Step>)
    requires capacity > 0
    requires var s := Reach(capacity, steps); Buffered(s) == 0 && s.inflight == 0
    ensures var s := Reach(capacity, steps);
            |s.handed| == |s.accepted| && forall i :: 0 <= i < |s.accepted| ==> i in s.handed
  {
    hide FifoInv, ServerInv, Run, HandedInv;
    ReachInv(capacity, steps);
    var s := Reach(capacity, steps);
    AllHanded(s.batches);
    hide BatchesInv;
    HandedAll(s);
  }

  lemma HandedAll(s: State)
    requires Inv(s) && |s.handed| == |s.accepted|
    ensures forall i :: 0 <= i < |s.accepted| ==> i in s.handed
  {
    hide FifoInv, ServerInv, CountInv;
    assert s.taken <= |s.accepted| by { assert CountInv(s); TakenIn(s); }
    forall p | 0 <= p < |s.handed| ensures s.handed[p] < |s.handed| {
      PassedIsTaken(s.batches, s.taken, s.handed[p]);
    }
    hide BatchesInv;
    Cover(s.handed);
  }

  lemma TakenIn(s: State)
    requires CountInv(s)
    ensures s.taken <= |s.accepted|
  {
  }

  /** n distinct numbers below n are all the numbers below n. */
  lemma Cover(q: seq<nat>)
    requires forall p :: 0 <= p < |q| ==> q[p] < |q|
    requires forall p, r :: 0 <= p < r < |q| ==> q[p] != q[r]
    ensures forall i :: 0 <= i < |q| ==> i in q
  {
    forall i | 0 <= i < |q| ensures i in q {
      if i !in q { NoMoreThan(q, Below(|q|) - {i}); }
    }
  }

  function Below(n: nat): (r: set<nat>)
    ensures |r| == n && forall i: nat :: i in r <==> i < n
  {
    if n == 0 then {} else Below(n - 1) + {n - 1}
  }

  lemma {:induction false} NoMoreThan(q: seq<nat>, s: set<nat>)
    requires forall p :: 0 <= p < |q| ==> q[p] in s
    requires forall p, r :: 0 <= p < r < |q| ==> q[p] != q[r]
    ensures |q| <= |s|
  {
    if q != [] {
      NoMoreThan(q[..|q| - 1], s - {q[|q| - 1]});
    }
  }

  // ------------------------------------------------------------- the queue

  lemma {:induction false} RunSnoc(s: State, steps: seq<Step>, step: Step)
    ensures Run(s, steps + [step]) == Next(Run(s, steps), step)
    decreases |steps|
  {
    hide Next;
    if steps == [] {
      assert Run(Next(s, step), []) == Next(s, step);
    } else {
      assert (steps + [step])[1..] == steps[1..] + [step];
      RunSnoc(Next(s, steps[0]), steps[1..], step);
    }
  }

  lemma ReachIs(capacity: int, steps: seq<Step>)
    ensures Reach(capacity, steps) == Run(Initial(capacity), steps)
  {
  }

  lemma NotDraining(s: State)
    requires Inv(s)
    ensures s.server != Draining(|s.batches|)
  {
    hide HandedInv, FifoInv, CountInv, BatchesInv;
  }

  /** The queue. Each critical section is one step, and `steps` is its history;
      `stored` is what the audit service was handed. */
  class Queue {
    const capacity: int
    var pending: seq<Event>
    var dropped: int
    var inflight: int
    var wake: bool
    var stored: seq<Event>
    ghost var steps: seq<Step>

    ghost function View(): State
      reads this
    {
      Reach(capacity, steps)
    }

    /** The fields are what the history leads to. */
    ghost predicate Matches(s: State)
      reads this
    {
      && s.capacity == capacity && s.taken <= |s.accepted| && pending == s.accepted[s.taken..]
      && dropped == s.dropped && inflight == s.inflight && wake == s.wake
      && |stored| == |s.handed|
      && forall p :: 0 <= p < |stored| ==> s.handed[p] < |s.accepted| && stored[p] == s.accepted[s.handed[p]]
    }

    ghost predicate Valid()
      reads this
    {
      capacity > 0 && Inv(View()) && Matches(View())
    }

    constructor (capacity: int)
      requires capacity > 0
      ensures Valid() && this.capacity == capacity && steps == [] && View() == Initial(capacity)
    {
      this.capacity := capacity;
      pending, dropped, inflight, wake, stored, steps := [], 0, 0, false, [], [];
      new;
      ReachInv(capacity, []);
    }

    ghost method Took(step: Step)
      requires Inv(View())
      modifies this`steps
      ensures steps == old(steps) + [step] && View() == Next(old(View()), step) && Inv(View())
    {
      hide Next, Inv;
      RunSnoc(Initial(capacity), steps, step);
      NextInv(View(), step);
      steps := steps + [step];
    }

    /** The locked half of Record. */
    method Append(event: Event) returns (queued: bool)
      requires Valid()
      modifies this`pending, this`dropped, this`steps
      ensures Valid() && steps == old(steps) + [Step.Append(event)] && View() == Next(old(View()), Step.Append(event))
      ensures queued <==> |old(pending)| < capacity
    {
      hide Inv, Reach;
      Took(Step.Append(event));
      if |pending| >= capacity {
        dropped := dropped + 1;
        return false;
      }
      pending := pending + [event];
      queued := true;
    }

    /** Its other half: the wake channel holds one token. */
    method SendWake()
      requires Valid() && View().senders > 0
      modifies this`wake, this`steps
      ensures Valid() && steps == old(steps) + [Step.SendWake] && View() == Next(old(View()), Step.SendWake)
    {
      hide Inv, Reach;
      Took(Step.SendWake);
      wake := true;
    }

    method Record(event: Event)
      requires Valid()
      modifies this`pending, this`dropped, this`wake, this`steps
      ensures Valid() && View().batches == old(View()).batches && View().server == old(View()).server
      ensures steps == old(steps) + (if |old(pending)| < capacity then [Step.Append(event), Step.SendWake]
                                     else [Step.Append(event)])
      ensures old(View()).accepted <= View().accepted
      ensures NoFlush(old(steps)) ==> NoFlush(steps)
    {
      hide Inv, Reach;
      var queued := Append(event);
      if queued {
        SendWake();
      }
    }

    /** Others record while a drain is unlocked. */
    method Recorders()
      requires Valid()
      modifies this`pending, this`dropped, this`wake, this`steps
      ensures Valid() && old(steps) <= steps
      ensures View().batches == old(View()).batches && View().server == old(View()).server
      ensures old(View()).accepted <= View().accepted
      ensures NoFlush(old(steps)) ==> NoFlush(steps)
    {
      hide Inv, Reach, Next, NoFlush;
      var events: int := *;
      for i := 0 to if events < 0 then 0 else events
        invariant Valid() && old(steps) <= steps
        invariant View().batches == old(View()).batches && View().server == old(View()).server
        invariant old(View()).accepted <= View().accepted
        invariant NoFlush(old(steps)) ==> NoFlush(steps)
      {
        var event: Event := *;
        Record(event);
      }
    }

    /** The locked first half of drainOnce, for Serve or for a flush. */
    method TakeBatch(serving: bool) returns (events: seq<Event>)
      requires Valid() && (serving ==> View().server.Looking?)
      modifies this`pending, this`inflight, this`steps
      ensures var was, step := old(View()), if serving then Look else Flush;
              && Valid() && steps == old(steps) + [step] && View() == Next(was, step)
              && events == old(pending) == was.accepted[was.taken..] && pending == [] && View().accepted == was.accepted
              && (events == [] ==> View().server == (if serving then Waiting else was.server))
              && (events != [] ==>
                    && View().batches == was.batches + [Batch(was.taken, was.taken, was.taken + |events|, false)]
                    && View().server == (if serving then Draining(|was.batches|) else was.server))
      ensures serving && NoFlush(old(steps)) ==> NoFlush(steps)
    {
      hide Inv, Reach;
      Took(if serving then Look else Flush);
      if |pending| == 0 {
        return [];
      }
      events := pending;
      pending := [];
      inflight := inflight + |events|;
    }

    /** One event of a batch is handed to the service, outside the lock. */
    method HandOver(event: Event, ghost b: nat)
      requires Valid() && b < |View().batches| && !View().batches[b].done
               && View().batches[b].next < View().batches[b].hi
      requires View().batches[b].next < |View().accepted| && event == View().accepted[View().batches[b].next]
      modifies this`stored, this`steps
      ensures var was := old(View());
              && Valid() && steps == old(steps) + [Hand(b)] && View() == Next(was, Hand(b))
              && View().batches == was.batches[b := was.batches[b].(next := was.batches[b].next + 1)]
              && View().server == was.server && View().accepted == was.accepted
      ensures stored == old(stored) + [event] && (NoFlush(old(steps)) ==> NoFlush(steps))
    {
      hide Inv, Reach;
      Took(Hand(b));
      stored := stored + [event];
    }

    /** The locked second half of drainOnce. */
    method Finish(n: int, ghost b: nat)
      requires Valid() && b < |View().batches| && !View().batches[b].done
      requires View().batches[b].next >= View().batches[b].hi && n == View().batches[b].hi - View().batches[b].lo
      modifies this`inflight, this`steps
      ensures Valid() && steps == old(steps) + [Step.Finish(b)] && View() == Next(old(View()), Step.Finish(b))
      ensures View().server == if old(View()).server == Draining(b) then Checking else old(View()).server
      ensures NoFlush(old(steps)) ==> NoFlush(steps)
    {
      hide Inv, Reach;
      Took(Step.Finish(b));
      inflight := inflight - n;
    }

    /** Hands over exactly what was buffered when it looked, in order, whatever
        is recorded meanwhile. */
    method DrainOnce(serving: bool) returns (drained: bool)
      requires Valid() && (serving ==> View().server.Looking?)
      modifies this
      ensures Valid() && old(steps) <= steps
      ensures drained <==> old(pending) != []
      ensures stored == old(stored) + old(pending)
      ensures View().server == if !serving then old(View()).server else if drained then Checking else Waiting
      ensures serving && NoFlush(old(steps)) ==> NoFlush(steps)
    {
      hide Inv, Reach, Next, NoFlush;
      ghost var was := View();
      ghost var b := |was.batches|;
      NotDraining(was);
      var events := TakeBatch(serving);
      if |events| == 0 {
        return false;
      }
      for i := 0 to |events|
        invariant Valid() && old(steps) <= steps && stored == old(stored) + events[..i]
        invariant was.accepted <= View().accepted
        invariant b < |View().batches|
        invariant View().batches[b] == Batch(was.taken, was.taken + i, was.taken + |events|, false)
        invariant View().server == if serving then Draining(b) else was.server
        invariant serving && NoFlush(old(steps)) ==> NoFlush(steps)
      {
        Recorders();
        assert events[i] == was.accepted[was.taken + i];
        HandOver(events[i], b);
        assert events[..i + 1] == events[..i] + [events[i]];
      }
      assert events[..|events|] == events;
      Finish(|events|, b);
      drained := true;
    }

    /** One turn of Flush. When it says done, every event ever accepted has been
        handed to the service. */
    method FlushTurn() returns (done: bool)
      requires Valid()
      modifies this
      ensures Valid() && old(steps) <= steps
      ensures done ==> |stored| == |View().accepted|
      ensures done ==> forall i :: 0 <= i < |View().accepted| ==> View().accepted[i] in stored
    {
      hide Inv, Reach, Next;
      var _ := DrainOnce(false);
      done := |pending| == 0 && inflight == 0;
      if done {
        FlushedMeansHanded(capacity, steps);
        forall i | 0 <= i < |View().accepted| ensures View().accepted[i] in stored {
          assert i in View().handed;
          var p :| 0 <= p < |View().handed| && View().handed[p] == i;
          assert stored[p] == View().accepted[i];
        }
      }
    }

    /** Serve's select, when it takes the token. */
    method ReceiveWake()
      requires Valid() && View().server.Waiting? && wake
      modifies this`wake, this`steps
      ensures Valid() && steps == old(steps) + [Wake] && View() == Next(old(View()), Wake)
      ensures View().server == Looking
      ensures NoFlush(old(steps)) ==> NoFlush(steps)
    {
      hide Inv, Reach;
      Took(Wake);
      wake := false;
    }

    /** Serve's select, when it finds its context cancelled, or its check after a
        batch. */
    ghost method Selects(step: Step)
      requires Valid() && (step == Cancel || step == Check(true) || step == Check(false))
      modifies this`steps
      ensures Valid() && steps == old(steps) + [step] && View() == Next(old(View()), step)
      ensures step == Check(false) && old(View()).server == Checking ==> View().server == Looking
      ensures NoFlush(old(steps)) ==> NoFlush(steps)
    {
      hide Inv, Reach;
      Took(step);
    }

    /** Serve, cut off after `turns` drains. While nobody has flushed, what the
        service was handed is what was accepted, in that order. */
    method Serve(turns: nat)
      requires Valid() && View().server == Waiting
      modifies this
      ensures Valid() && old(steps) <= steps
      ensures NoFlush(old(steps)) ==> NoFlush(steps)
      ensures NoFlush(steps) ==> stored <= View().accepted
    {
      ServeTurns(turns);
      if NoFlush(steps) { InOrder(); }
    }

    lemma InOrder()
      requires Valid() && NoFlush(steps)
      ensures stored <= View().accepted
    {
      hide Inv, Run, Reach;
      ServeAloneIsSerial(Initial(capacity), steps);
      assert View().serial by { ReachIs(capacity, steps); }
      forall p | 0 <= p < |stored| ensures View().handed[p] == p {
        FifoWhenSerial(capacity, steps, p);
      }
      if stored != [] { assert View().handed[|stored| - 1] == |stored| - 1; }
    }

    method ServeTurns(turns: nat)
      requires Valid() && View().server == Waiting
      modifies this
      ensures Valid() && old(steps) <= steps
      ensures NoFlush(old(steps)) ==> NoFlush(steps)
    {
      hide Inv, Reach, Next, NoFlush;
      var left := turns;
      while left > 0
        invariant Valid() && View().server == Waiting && old(steps) <= steps
        invariant NoFlush(old(steps)) ==> NoFlush(steps)
      {
        left := left - 1;
        Recorders();
        var cancelled: bool := *;
        if cancelled {
          Selects(Cancel);
          return;
        }
        if wake {
          ReceiveWake();
          var drained := DrainOnce(true);
          while left > 0 && drained
            invariant Valid() && old(steps) <= steps && View().server == if drained then Checking else Waiting
            invariant NoFlush(old(steps)) ==> NoFlush(steps)
          {
            left := left - 1;
            cancelled := *;
            Selects(Check(cancelled));
            if cancelled {
              return;
            }
            Recorders();
            drained := DrainOnce(true);
          }
          if drained {
            return;
          }
        }
      }
    }
  }
}
