/** The fixed window over whole runs, against the count it stands for. */
module FixedWindowRuns {
  import opened Common
  import opened Slots
  import opened FixedWindow

  datatype Admission = Admission(key: Key, now: int)

  datatype Tick = Tick(key: Key, index: int)

  /** `spent` counts, per key and window index and for ever, the calls that were
      not turned away by the clock or the key cap; `admitted` is the log of
      calls let through. The limiter sees neither. */
  datatype State = State(l: Limiter, outstanding: map<nat, Key>, spent: map<Tick, int>, admitted: seq<Admission>)

  const Initial := State(Fresh, map[], map[], [])

  datatype Step =
    | Allow(now: int, key: Key)
    | Acquire(key: Key, slot: nat)
    | Release(slot: nat)

  /** Turned away because the key is new and the limiter full. */
  predicate Capped(c: Config, l: Limiter, now: int, key: Key)
    requires ValidConfig(c)
  {
    key !in Observed(c, l, now).rate && Full(c, Observed(c, l, now))
  }

  function Spent(spent: map<Tick, int>, key: Key, index: int): int {
    if Tick(key, index) in spent then spent[Tick(key, index)] else 0
  }

  function Next(c: Config, s: State, step: Step): State
    requires ValidConfig(c)
  {
    match step
    case Allow(now, key) =>
      var (l, ok) := AllowResult(c, s.l, now, key);
      var logged := s.(l := l, admitted := if ok then s.admitted + [Admission(key, now)] else s.admitted);
      if Regressed(s.l, now) || Capped(c, s.l, now, key) then logged
      else logged.(spent := s.spent[Tick(key, Index(c, now)) := Spent(s.spent, key, Index(c, now)) + 1])
    case Acquire(key, slot) =>
      var (l, ok) := AcquireResult(c, s.l, key);
      if ok && slot !in s.outstanding then s.(l := l, outstanding := s.outstanding[slot := key]) else s
    case Release(slot) =>
      s.(l := s.l.(inflight := Slots.Release(s.l.inflight, s.outstanding, slot)), outstanding := s.outstanding - {slot})
  }

  function Run(c: Config, s: State, steps: seq<Step>): State
    requires ValidConfig(c)
    decreases |steps|
  {
    if steps == [] then s else Run(c, Next(c, s, steps[0]), steps[1..])
  }

  // --------------------------------------------------------------- time

  lemma DivMonotone(a: int, b: int, w: int)
    requires w > 0 && 0 <= a <= b
    ensures 0 <= a / w <= b / w
  {
    Quotient(a, w);
    Quotient(b, w);
    QuotientOrder(a, b, w, a / w, b / w);
    QuotientOrder(0, a, w, 0, a / w);
  }

  lemma QuotientOrder(a: int, b: int, w: int, x: int, y: int)
    requires w > 0 && w * x <= a <= b < w * (y + 1)
    ensures x <= y
  {
    if x >= y + 1 { MulMonotone(w, y + 1, x); }
  }

  lemma Quotient(a: int, w: int)
    requires w > 0
    ensures w * (a / w) <= a < w * (a / w + 1)
  {
  }

  lemma MulMonotone(w: int, x: int, y: int)
    requires w > 0 && x <= y
    ensures w * x <= w * y
  {
  }

  lemma IndexMonotone(c: Config, a: int, b: int)
    requires ValidConfig(c) && a <= b
    ensures Index(c, a) <= Index(c, b)
  {
    if a >= 0 {
      DivMonotone(a, b, c.window);
    } else if b >= 0 {
      DivMonotone(0, -a, c.window);
      DivMonotone(0, b, c.window);
    } else {
      DivMonotone(-b, -a, c.window);
    }
  }

  lemma DivNear(a: int, b: int, w: int)
    requires w > 0 && 0 <= a <= b <= a + w
    ensures b / w <= a / w + 1
  {
    Quotient(a, w);
    Quotient(b, w);
    assert b < w * (a / w + 1 + 1);
    QuotientOrder(b, b, w, b / w, a / w + 1);
  }

  /** Times no further apart than a window lie at most one index apart. */
  lemma IndexNear(c: Config, a: int, b: int)
    requires ValidConfig(c) && a <= b <= a + c.window
    ensures Index(c, a) <= Index(c, b) <= Index(c, a) + 1
  {
    IndexMonotone(c, a, b);
    if a >= 0 {
      DivNear(a, b, c.window);
    } else if b >= 0 {
      assert -a <= c.window && b <= c.window;
      Quotient(b, c.window);
      DivNear(0, -a, c.window);
      DivMonotone(0, b, c.window);
      assert b < c.window;
      if b / c.window >= 1 { MulMonotone(c.window, 1, b / c.window); }
    } else {
      DivNear(-b, -a, c.window);
    }
  }

  // ---------------------------------------------------------- invariant

  /** The bucket of the current window holds what was spent in it; nothing is
      spent in windows to come. */
  ghost predicate SpentInv(c: Config, l: Limiter, spent: map<Tick, int>)
    requires ValidConfig(c)
  {
    match l.lastObserved
    case None => spent == map[] && l.rate == map[]
    case Some(now) =>
      && (forall k :: k in l.rate ==> l.rate[k].window <= Index(c, now) && l.rate[k].count > 0)
      && (forall t :: t in spent ==> t.index <= Index(c, now) && spent[t] > 0)
      && (forall k :: Spent(spent, k, Index(c, now)) ==
            if k in l.rate && l.rate[k].window == Index(c, now) then l.rate[k].count else 0)
  }

  ghost predicate Bounded(c: Config, l: Limiter) {
    && |l.rate.Keys + l.inflight.Keys| <= c.maxKeys
    && SlotsBounded(c, l.inflight)
  }

  ghost predicate SlotsBounded(c: Config, inflight: map<Key, int>) {
    forall k :: k in inflight ==> inflight[k] <= c.maxInFlight
  }

  /** Per key and index, exactly the first `requests` of what was spent got in. */
  ghost predicate AdmittedInv(c: Config, spent: map<Tick, int>, admitted: seq<Admission>)
    requires ValidConfig(c)
  {
    forall k, i :: CountAt(c, admitted, k, i) == Min(Spent(spent, k, i), c.requests)
  }

  function CountAt(c: Config, log: seq<Admission>, key: Key, index: int): int
    requires ValidConfig(c)
  {
    if log == [] then 0
    else
      var last := log[|log| - 1];
      CountAt(c, log[..|log| - 1], key, index) + (if last.key == key && Index(c, last.now) == index then 1 else 0)
  }

  ghost predicate Inv(c: Config, s: State)
    requires ValidConfig(c)
  {
    && SpentInv(c, s.l, s.spent)
    && AdmittedInv(c, s.spent, s.admitted)
    && Conserved(s.l.inflight, s.outstanding)
    && Bounded(c, s.l)
  }

  /** Observing the time, sweep included, leaves the current window's count. */
  lemma ObservedInv(c: Config, l: Limiter, now: int, spent: map<Tick, int>)
    requires ValidConfig(c) && SpentInv(c, l, spent) && !Regressed(l, now)
    ensures SpentInv(c, Observed(c, l, now), spent)
  {
    if l.lastObserved.Some? { IndexMonotone(c, l.lastObserved.value, now); }
    hide Index;
  }

  lemma CountedInv(c: Config, l: Limiter, now: int, key: Key, spent: map<Tick, int>)
    requires ValidConfig(c) && SpentInv(c, l, spent) && l.lastObserved == Some(now)
    ensures var index := Index(c, now);
            var bucket := Counted(if key in l.rate then l.rate[key] else Bucket(0, 0), index);
            && SpentInv(c, l.(rate := l.rate[key := bucket]), spent[Tick(key, index) := Spent(spent, key, index) + 1])
            && bucket.count == Spent(spent, key, index) + 1
  {
    hide Index;
  }

  lemma ObservedKeys(c: Config, l: Limiter, now: int)
    requires ValidConfig(c)
    ensures var seen := Observed(c, l, now); seen.inflight == l.inflight && seen.rate.Keys <= l.rate.Keys
  {
    hide Index;
  }

  /** Which keys a call can leave tracked. */
  lemma KeysAfterAllow(c: Config, l: Limiter, now: int, key: Key)
    requires ValidConfig(c)
    ensures var n := AllowResult(c, l, now, key).0;
            var seen := Observed(c, l, now);
            && n.inflight == l.inflight && seen.inflight == l.inflight && seen.rate.Keys <= l.rate.Keys
            && (n.rate.Keys == l.rate.Keys || n.rate.Keys == seen.rate.Keys
                || (n.rate.Keys == seen.rate.Keys + {key}
                    && (key in seen.rate.Keys || |seen.rate.Keys| + |l.inflight.Keys| < c.maxKeys)))
  {
    hide Index, Counted, Observed;
    ObservedKeys(c, l, now);
  }

  lemma BoundedAfterAllow(c: Config, l: Limiter, now: int, key: Key)
    requires ValidConfig(c) && Bounded(c, l)
    ensures Bounded(c, AllowResult(c, l, now, key).0)
  {
    hide SlotsBounded, AllowResult, Observed;
    KeysAfterAllow(c, l, now, key);
    var seen := Observed(c, l, now).rate.Keys;
    SubsetSize(seen + l.inflight.Keys, l.rate.Keys + l.inflight.Keys);
    AddedKey(seen, l.inflight.Keys, key, c.maxKeys);
  }

  lemma AppendCount(c: Config, log: seq<Admission>, e: Admission)
    requires ValidConfig(c)
    ensures forall k, i :: CountAt(c, log + [e], k, i) ==
                             CountAt(c, log, k, i) + (if e.key == k && Index(c, e.now) == i then 1 else 0)
  {
    assert (log + [e])[..|log|] == log;
  }

  lemma AllowInv(c: Config, s: State, now: int, key: Key)
    requires ValidConfig(c) && Inv(c, s)
    ensures Inv(c, Next(c, s, Allow(now, key)))
    ensures AllowResult(c, s.l, now, key).1 <==>
              !Regressed(s.l, now) && !Capped(c, s.l, now, key) && Spent(s.spent, key, Index(c, now)) < c.requests
  {
    hide SpentInv, Bounded, Conserved, CountAt, Index;
    BoundedAfterAllow(c, s.l, now, key);
    if !Regressed(s.l, now) {
      var seen := Observed(c, s.l, now);
      ObservedInv(c, s.l, now, s.spent);
      CountedInv(c, seen, now, key, s.spent);
      AppendCount(c, s.admitted, Admission(key, now));
      SpentNotNegative(c, s.l, s.spent, key, Index(c, now));
    }
  }

  lemma SpentNotNegative(c: Config, l: Limiter, spent: map<Tick, int>, key: Key, index: int)
    requires ValidConfig(c) && SpentInv(c, l, spent)
    ensures Spent(spent, key, index) >= 0
  {
  }

  lemma AcquireInv(c: Config, s: State, key: Key, slot: nat)
    requires ValidConfig(c) && Inv(c, s)
    ensures Inv(c, Next(c, s, Acquire(key, slot)))
  {
    hide AdmittedInv, Conserved, Bounded, Taken;
    var (l, ok) := AcquireResult(c, s.l, key);
    if ok && slot !in s.outstanding {
      TakenConserved(s.l.inflight, s.outstanding, key, slot);
      BoundedAfterAcquire(c, s.l, key);
    }
  }

  lemma BoundedAfterAcquire(c: Config, l: Limiter, key: Key)
    requires Bounded(c, l) && AcquireResult(c, l, key).1
    ensures Bounded(c, AcquireResult(c, l, key).0)
  {
    hide SlotsBounded, Taken, Held;
    AddedKey(l.rate.Keys, l.inflight.Keys, key, c.maxKeys);
    TakenBounded(c, l.inflight, key);
  }

  lemma TakenBounded(c: Config, inflight: map<Key, int>, key: Key)
    requires SlotsBounded(c, inflight) && Held(inflight, key) < c.maxInFlight
    ensures SlotsBounded(c, Taken(inflight, key)) && Taken(inflight, key).Keys == inflight.Keys + {key}
  {
  }

  lemma ReleasedBounded(c: Config, inflight: map<Key, int>, outstanding: map<nat, Key>, slot: nat)
    requires ValidConfig(c) && SlotsBounded(c, inflight)
    ensures SlotsBounded(c, Slots.Release(inflight, outstanding, slot))
    ensures Conserved(inflight, outstanding) ==> Slots.Release(inflight, outstanding, slot).Keys <= inflight.Keys
  {
    if slot in outstanding && Conserved(inflight, outstanding) {
      assert slot in Holders(outstanding, outstanding[slot]);
      assert Held(inflight, outstanding[slot]) > 0;
    }
  }

  lemma ReleaseInv(c: Config, s: State, slot: nat)
    requires ValidConfig(c) && Inv(c, s)
    ensures Inv(c, Next(c, s, Release(slot)))
  {
    hide AdmittedInv, Conserved, Bounded, Slots.Release;
    ReleaseConserved(s.l.inflight, s.outstanding, slot);
    BoundedAfterRelease(c, s.l, s.outstanding, slot);
  }

  lemma BoundedAfterRelease(c: Config, l: Limiter, outstanding: map<nat, Key>, slot: nat)
    requires ValidConfig(c) && Bounded(c, l) && Conserved(l.inflight, outstanding)
    ensures Bounded(c, l.(inflight := Slots.Release(l.inflight, outstanding, slot)))
  {
    hide SlotsBounded, Slots.Release, Conserved;
    ReleasedBounded(c, l.inflight, outstanding, slot);
    var after := Slots.Release(l.inflight, outstanding, slot);
    SubsetSize(l.rate.Keys + after.Keys, l.rate.Keys + l.inflight.Keys);
  }

  lemma {:induction false} RunInv(c: Config, s: State, steps: seq<Step>)
    requires ValidConfig(c) && Inv(c, s)
    ensures Inv(c, Run(c, s, steps))
    decreases |steps|
  {
    hide Inv, Next;
    if steps != [] {
      match steps[0] {
        case Allow(now, key) => AllowInv(c, s, now, key);
        case Acquire(key, slot) => AcquireInv(c, s, key, slot);
        case Release(slot) => ReleaseInv(c, s, slot);
      }
      RunInv(c, Next(c, s, steps[0]), steps[1..]);
    }
  }

  function Reach(c: Config, steps: seq<Step>): State
    requires ValidConfig(c)
  {
    Run(c, Initial, steps)
  }

  lemma ReachInv(c: Config, steps: seq<Step>)
    requires ValidConfig(c)
    ensures Inv(c, Reach(c, steps))
  {
    assert Conserved<Key>(map[], map[]) by {
      forall k: Key ensures Holders<Key>(map[], k) == {} {}
    }
    RunInv(c, Initial, steps);
  }

  // ----------------------------------------------------------- theorems

  /** The limiter is the simple count: a call is let through exactly if the
      clock has not gone back, the key cap does not bite, and fewer than
      `requests` calls were counted for its key and index, sweeps or none. */
  lemma AllowIsTheSimpleCount(c: Config, steps: seq<Step>, now: int, key: Key)
    requires ValidConfig(c)
    ensures var s := Reach(c, steps);
            AllowResult(c, s.l, now, key).1 <==>
              !Regressed(s.l, now) && !Capped(c, s.l, now, key) && Spent(s.spent, key, Index(c, now)) < c.requests
  {
    ReachInv(c, steps);
    AllowInv(c, Reach(c, steps), now, key);
  }

  predicate SeenSince(l: Limiter, at: int) {
    l.lastObserved.Some? && l.lastObserved.value >= at
  }

  lemma {:induction false} ClockKept(c: Config, s: State, steps: seq<Step>, at: int)
    requires ValidConfig(c) && SeenSince(s.l, at)
    ensures SeenSince(Run(c, s, steps).l, at)
    decreases |steps|
  {
    hide SweptRate, Full, Index;
    if steps != [] {
      assert SeenSince(Next(c, s, steps[0]).l, at);
      ClockKept(c, Next(c, s, steps[0]), steps[1..], at);
    }
  }

  /** After a call at any time, let through or not, a call at an earlier time is
      refused without any effect for the rest of the run. */
  lemma RegressionAdmitsNothing(c: Config, before: seq<Step>, at: int, other: Key, after: seq<Step>, now: int, key: Key)
    requires ValidConfig(c) && now < at
    ensures var s := Run(c, Next(c, Reach(c, before), Allow(at, other)), after);
            Next(c, s, Allow(now, key)) == s && !AllowResult(c, s.l, now, key).1
  {
    var s := Next(c, Reach(c, before), Allow(at, other));
    assert SeenSince(s.l, at);
    hide Run;
    ClockKept(c, s, after, at);
  }

  predicate Grants(step: Step, slot: nat) {
    step.Acquire? && step.slot == slot
  }

  lemma {:induction false} StaysReleased(c: Config, s: State, steps: seq<Step>, slot: nat)
    requires ValidConfig(c) && slot !in s.outstanding
    requires forall i :: 0 <= i < |steps| ==> !Grants(steps[i], slot)
    ensures slot !in Run(c, s, steps).outstanding
    decreases |steps|
  {
    hide AllowResult, AcquireResult;
    if steps != [] {
      assert !Grants(steps[0], slot);
      assert forall i :: 0 <= i < |steps[1..]| ==> steps[1..][i] == steps[i + 1];
      StaysReleased(c, Next(c, s, steps[0]), steps[1..], slot);
    }
  }

  /** A slot is given back once: releasing it again, however much later, does
      nothing. */
  lemma ReleaseOnlyOnce(c: Config, before: seq<Step>, slot: nat, after: seq<Step>)
    requires ValidConfig(c) && forall i :: 0 <= i < |after| ==> !Grants(after[i], slot)
    ensures var s := Run(c, Next(c, Reach(c, before), Step.Release(slot)), after); Next(c, s, Step.Release(slot)) == s
  {
    hide Run, Grants;
    StaysReleased(c, Next(c, Reach(c, before), Step.Release(slot)), after, slot);
    var s := Run(c, Next(c, Reach(c, before), Step.Release(slot)), after);
    assert s.outstanding - {slot} == s.outstanding;
  }

  /** Per key and index, the calls let through are all that were counted, up to
      the budget. */
  lemma AtMostRequestsPerIndex(c: Config, steps: seq<Step>, key: Key, index: int)
    requires ValidConfig(c)
    ensures var s := Reach(c, steps);
            CountAt(c, s.admitted, key, index) == Min(Spent(s.spent, key, index), c.requests)
  {
    hide SpentInv, Bounded, Conserved, CountAt;
    ReachInv(c, steps);
  }

  /** Admissions of a key at times from `from` to `to`, both included. */
  function CountBetween(log: seq<Admission>, key: Key, from: int, to: int): int {
    if log == [] then 0
    else
      var last := log[|log| - 1];
      CountBetween(log[..|log| - 1], key, from, to) + (if last.key == key && from <= last.now <= to then 1 else 0)
  }

  lemma {:induction false} SpanWithinTwoIndexes(c: Config, log: seq<Admission>, key: Key, from: int, to: int)
    requires ValidConfig(c) && from <= to <= from + c.window
    ensures CountBetween(log, key, from, to)
            <= CountAt(c, log, key, Index(c, from)) + CountAt(c, log, key, Index(c, from) + 1)
  {
    hide Index;
    if log != [] {
      SpanWithinTwoIndexes(c, log[..|log| - 1], key, from, to);
      var last := log[|log| - 1];
      if from <= last.now <= to { IndexNear(c, from, last.now); }
    }
  }

  /** No span as long as one window sees more than twice the budget. */
  lemma AtMostTwiceRequestsPerSpan(c: Config, steps: seq<Step>, key: Key, from: int, to: int)
    requires ValidConfig(c) && from <= to <= from + c.window
    ensures CountBetween(Reach(c, steps).admitted, key, from, to) <= 2 * c.requests
  {
    hide Index, Run;
    SpanWithinTwoIndexes(c, Reach(c, steps).admitted, key, from, to);
    AtMostRequestsPerIndex(c, steps, key, Index(c, from));
    AtMostRequestsPerIndex(c, steps, key, Index(c, from) + 1);
  }

  /** Slots are conserved and bounded, and no more than maxKeys distinct keys
      are tracked. */
  lemma SlotsConserved(c: Config, steps: seq<Step>, key: Key)
    requires ValidConfig(c)
    ensures var s := Reach(c, steps);
            && Held(s.l.inflight, key) == |Holders(s.outstanding, key)| <= c.maxInFlight
            && |s.l.rate.Keys + s.l.inflight.Keys| <= c.maxKeys
  {
    hide SpentInv, AdmittedInv;
    ReachInv(c, steps);
  }

  /** The two maps together can hold more entries than maxKeys: one key may sit
      in both. */
  lemma EntriesMayExceedTheCap(key: Key)
    ensures var c := Config(1, 1, 1, 1);
            var l := Reach(c, [Allow(0, key), Acquire(key, 0)]).l;
            |l.rate.Keys| + |l.inflight.Keys| == 2 * c.maxKeys
  {
    var c := Config(1, 1, 1, 1);
    var steps := [Allow(0, key), Acquire(key, 0)];
    var s1 := Next(c, Initial, steps[0]);
    assert s1.l.rate == map[key := Bucket(0, 1)] && s1.l.inflight == map[];
    var s2 := Next(c, s1, steps[1]);
    assert s2.l.inflight == map[key := 1] && s2.l.rate == s1.l.rate;
    assert steps[1..][1..] == [] && Run(c, s2, []) == s2;
    assert Run(c, s1, steps[1..]) == s2;
  }
}
