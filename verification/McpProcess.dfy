/** The MCP child process: its pending ids, and the lifecycle its readiness
    hangs on. */
module McpProcess {
  import opened Common
  import opened McpChild
  import opened Wire

  /** `writerGone`: the write loop has returned after a failed write. */
  datatype Process = Process(pending: PendingCalls, started: bool, stopping: bool, writerGone: bool)

  const Fresh := Process(map[], false, false, false)

  /** What the process is asked to do and what happens to it: Start, which
      spawns or fails to; a turn of the write loop; a frame read from the child;
      Stop; and the exit that reap publishes. */
  datatype Event =
    | Starting(spawns: bool)
    | Writing(id: Option<JsonId>, fails: bool)
    | Reading(frame: Frame)
    | Stopping
    | Exiting

  /** A frame of the child's own passes; an answer passes while its id is
      pending. */
  predicate Passes(p: PendingCalls, f: Frame) {
    f.content.Method? || (f.id.Some? && HasPending(p, f.id.value))
  }

  /** The ids left pending once a frame was looked at. */
  function AfterReading(p: PendingCalls, f: Frame): PendingCalls {
    if Passes(p, f) && f.content.Outcome? then Removed(p, f.id.value) else p
  }

  function Next(p: Process, e: Event): Process {
    match e
    case Starting(spawns) => if spawns then p.(started := true) else p
    case Writing(id, fails) =>
      if !p.started || p.writerGone then p
      else if fails then p.(writerGone := true)
      else if id.Some? then p.(pending := Added(p.pending, id.value))
      else p
    case Reading(f) => if p.started then p.(pending := AfterReading(p.pending, f)) else p
    case Stopping => if p.started then p.(stopping := true) else p
    case Exiting => if p.started then p.(stopping := true) else p
  }

  function Run(p: Process, events: seq<Event>): Process
    decreases |events|
  {
    if events == [] then p else Run(Next(p, events[0]), events[1..])
  }

  lemma {:induction false} RunSnoc(p: Process, events: seq<Event>, e: Event)
    ensures Run(p, events + [e]) == Next(Run(p, events), e)
    decreases |events|
  {
    hide Next;
    if events == [] {
      assert Run(Next(p, e), []) == Next(p, e);
    } else {
      assert (events + [e])[1..] == events[1..] + [e];
      RunSnoc(Next(p, events[0]), events[1..], e);
    }
  }

  lemma {:induction false} RunPositive(p: Process, events: seq<Event>)
    requires Positive(p.pending)
    ensures Positive(Run(p, events).pending)
    decreases |events|
  {
    if events != [] {
      RunPositive(Next(p, events[0]), events[1..]);
    }
  }

  predicate Ready(p: Process) {
    p.started && !p.stopping
  }

  predicate Ends(e: Event) {
    e.Stopping? || e.Exiting?
  }

  /** `i` is the start that took effect. */
  ghost predicate FirstStart(events: seq<Event>, i: nat) {
    i < |events| && events[i] == Starting(true) && forall j :: 0 <= j < i ==> events[j] != Starting(true)
  }

  /** The child was started and nothing ended it after that. */
  ghost predicate RunsAfter(events: seq<Event>) {
    exists i: nat :: FirstStart(events, i) && forall j :: i < j < |events| ==> !Ends(events[j])
  }

  /** Readiness, at any point of any history. */
  lemma ReadinessExact(events: seq<Event>)
    ensures Ready(Run(Fresh, events)) <==> RunsAfter(events)
  {
    if i: nat :| FirstStart(events, i) {
      UntilStart(Fresh, events, i);
      AfterStart(Next(Run(Fresh, events[..i]), Starting(true)), events[i + 1..]);
      assert forall j :: i < j < |events| ==> events[j] == events[i + 1..][j - i - 1];
      assert forall k: nat :: FirstStart(events, k) ==> k == i;
    } else {
      forall j | 0 <= j < |events| ensures events[j] != Starting(true) { NoFirst(events, j); }
      NeverStarted(Fresh, events);
    }
  }

  lemma {:induction false} NoFirst(events: seq<Event>, j: nat)
    requires j < |events| && !exists i :: FirstStart(events, i)
    ensures events[j] != Starting(true)
  {
    forall k | 0 <= k < j ensures events[k] != Starting(true) { NoFirst(events, k); }
    assert !FirstStart(events, j);
  }

  lemma {:induction false} NeverStarted(p: Process, events: seq<Event>)
    requires !p.started && forall j :: 0 <= j < |events| ==> events[j] != Starting(true)
    ensures Run(p, events) == p
    decreases |events|
  {
    if events != [] {
      assert events[0] != Starting(true);
      assert forall k :: 0 <= k < |events[1..]| ==> events[1..][k] == events[k + 1];
      NeverStarted(p, events[1..]);
    }
  }

  lemma UntilStart(p: Process, events: seq<Event>, i: nat)
    requires p == Fresh && FirstStart(events, i)
    ensures Run(p, events[..i]) == p
    ensures Run(p, events) == Run(Next(p, Starting(true)), events[i + 1..])
  {
    NeverStarted(p, events[..i]);
    assert events == events[..i] + ([events[i]] + events[i + 1..]);
    RunAppend(p, events[..i], [events[i]] + events[i + 1..]);
    assert ([events[i]] + events[i + 1..])[1..] == events[i + 1..];
  }

  lemma {:induction false} RunAppend(p: Process, events: seq<Event>, more: seq<Event>)
    ensures Run(p, events + more) == Run(Run(p, events), more)
    decreases |events|
  {
    hide Next;
    if events == [] {
      assert events + more == more;
    } else {
      assert (events + more)[1..] == events[1..] + more;
      RunAppend(Next(p, events[0]), events[1..], more);
    }
  }

  lemma {:induction false} AfterStart(p: Process, events: seq<Event>)
    requires p.started
    ensures Ready(Run(p, events)) <==> !p.stopping && forall j :: 0 <= j < |events| ==> !Ends(events[j])
    decreases |events|
  {
    if events != [] {
      assert forall k :: 0 <= k < |events[1..]| ==> events[1..][k] == events[k + 1];
      assert forall j :: 0 < j < |events| ==> events[j] == events[1..][j - 1];
      AfterStart(Next(p, events[0]), events[1..]);
    }
  }

  /** Once the exit is published no commit runs, whatever follows. */
  lemma ExitIsFinal(before: seq<Event>, after: seq<Event>)
    requires Run(Fresh, before).started
    ensures !Ready(Run(Fresh, before + [Exiting] + after))
  {
    RunAppend(Fresh, before + [Exiting], after);
    RunSnoc(Fresh, before, Exiting);
    AfterStart(Next(Run(Fresh, before), Exiting), after);
  }

  /** How often `k` was written, and how often an answer to it was let through. */
  function Written(p: Process, events: seq<Event>, k: JsonId): nat
    decreases |events|
  {
    if events == [] then 0
    else (if events[0].Writing? && !events[0].fails && events[0].id == Some(k) && p.started && !p.writerGone then 1
          else 0)
         + Written(Next(p, events[0]), events[1..], k)
  }

  function Answered(p: Process, events: seq<Event>, k: JsonId): nat
    decreases |events|
  {
    if events == [] then 0
    else (if events[0].Reading? && events[0].frame.content.Outcome? && events[0].frame.id == Some(k)
             && p.started && Passes(p.pending, events[0].frame) then 1 else 0)
         + Answered(Next(p, events[0]), events[1..], k)
  }

  /** Every id's count is what was written less what was answered, so no more
      answers get through than requests went out. */
  lemma {:induction false} PendingConserved(p: Process, events: seq<Event>, k: JsonId)
    requires Positive(p.pending)
    ensures Count(Run(p, events).pending, k) == Count(p.pending, k) + Written(p, events, k) - Answered(p, events, k)
    ensures Answered(p, events, k) <= Count(p.pending, k) + Written(p, events, k)
    decreases |events|
  {
    hide Count, Added, Removed, HasPending, Positive;
    if events != [] {
      CountStep(p, events[0], k);
      PendingConserved(Next(p, events[0]), events[1..], k);
    }
    RunPositive(p, events);
    assert Count(Run(p, events).pending, k) >= 0 by { CountNat(Run(p, events).pending, k); }
  }

  /** After any history a frame is let through exactly if it is the child's own,
      or names an id that was written more often than it was answered. */
  lemma PassesExact(events: seq<Event>, f: Frame)
    ensures Passes(Run(Fresh, events).pending, f) <==>
              || f.content == Method
              || (f.id.Some? && Written(Fresh, events, f.id.value) > Answered(Fresh, events, f.id.value))
  {
    if f.id.Some? { PendingConserved(Fresh, events, f.id.value); }
    RunPositive(Fresh, events);
  }

  lemma CountNat(p: PendingCalls, k: JsonId)
    requires Positive(p)
    ensures Count(p, k) >= 0
  {
  }

  lemma CountStep(p: Process, e: Event, k: JsonId)
    requires Positive(p.pending)
    ensures Positive(Next(p, e).pending)
    ensures Count(Next(p, e).pending, k) == Count(p.pending, k) + Written(p, [e], k) - Answered(p, [e], k)
  {
    hide Positive, Count, Added, Removed, HasPending;
    assert Written(Next(p, e), [e][1..], k) == 0 && Answered(Next(p, e), [e][1..], k) == 0;
    if e.Writing? && e.id.Some? { AddRemove(p.pending, e.id.value); }
    if e.Reading? && e.frame.id.Some? { AddRemove(p.pending, e.frame.id.value); }
  }

  datatype Incoming = Deliver | Reject

  /** managedProcess. `events` is its history. */
  class ManagedProcess {
    var pendingCalls: PendingCalls
    var started: bool
    var stopping: bool
    var writerGone: bool
    ghost var events: seq<Event>

    ghost function View(): Process
      reads this
    {
      Process(pendingCalls, started, stopping, writerGone)
    }

    /** The process is where its history leads. */
    ghost predicate Valid()
      reads this
    {
      View() == Run(Fresh, events)
    }

    constructor ()
      ensures Valid() && View() == Fresh && events == []
    {
      pendingCalls := map[];
      started, stopping, writerGone, events := false, false, false, [];
    }

    method Start(spawns: bool) returns (ok: bool)
      requires Valid()
      modifies this
      ensures Valid() && ok == (!old(started) && spawns)
      ensures View() == Next(old(View()), Starting(spawns)) && events == old(events) + [Starting(spawns)]
    {
      RunSnoc(Fresh, events, Starting(spawns));
      events := events + [Starting(spawns)];
      if started {
        return false;
      }
      if spawns {
        started := true;
      }
      ok := spawns;
    }

    /** One turn of the write loop: the id is pending before the frame is out,
        and stays pending only if the write succeeded. */
    method WriteRequest(id: Option<JsonId>, fails: bool)
      requires Valid() && started && !writerGone
      modifies this
      ensures Valid() && View() == Next(old(View()), Writing(id, fails)) && events == old(events) + [Writing(id, fails)]
    {
      RunSnoc(Fresh, events, Writing(id, fails));
      RunPositive(Fresh, events);
      events := events + [Writing(id, fails)];
      if id.Some? {
        AddRemove(pendingCalls, id.value);
        pendingCalls := Added(pendingCalls, id.value);
      }
      if fails {
        if id.Some? {
          pendingCalls := Removed(pendingCalls, id.value);
        }
        writerGone := true;
      }
    }

    method ValidateIncoming(f: Frame) returns (r: Incoming)
      requires Valid() && started
      modifies this
      ensures Valid() && View() == Next(old(View()), Reading(f)) && events == old(events) + [Reading(f)]
      ensures r.Deliver? <==> Passes(old(pendingCalls), f)
    {
      RunSnoc(Fresh, events, Reading(f));
      events := events + [Reading(f)];
      if f.content.Method? {
        return Deliver;
      }
      if f.id.None? || !HasPending(pendingCalls, f.id.value) {
        return Reject;
      }
      pendingCalls := Removed(pendingCalls, f.id.value);
      r := Deliver;
    }

    method Stop() returns (ok: bool)
      requires Valid()
      modifies this
      ensures Valid() && View() == Next(old(View()), Stopping) && events == old(events) + [Stopping] && ok == started
    {
      RunSnoc(Fresh, events, Stopping);
      events := events + [Stopping];
      if !started {
        return false;
      }
      stopping := true;
      ok := true;
    }

    /** The exit is published as soon as it is known. */
    method Reap()
      requires Valid() && started
      modifies this
      ensures Valid() && View() == Next(old(View()), Exiting) && events == old(events) + [Exiting]
    {
      RunSnoc(Fresh, events, Exiting);
      events := events + [Exiting];
      stopping := true;
    }

    /** The commit runs, with the exit held off, if the child was started and
        neither stopped nor reaped at any time since. */
    method CommitReadiness() returns (committed: bool)
      requires Valid()
      ensures committed <==> RunsAfter(events)
    {
      ReadinessExact(events);
      committed := started && !stopping;
    }
  }
}
