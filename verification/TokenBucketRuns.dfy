/** The token bucket over whole runs: what the sweep hides and how much a key
    can spend. */
module TokenBucketRuns {
  import opened Common
  import opened TokenBucket

  datatype Admission = Admission(key: Key, now: int, cost: int)

  /** `unswept` is the limiter's twin that never sweeps. It sees the same calls,
      the key cap's refusals included. `admitted` logs what got through. */
  datatype State = State(l: Limiter, unswept: map<Key, Bucket>, outstanding: map<nat, Key>, admitted: seq<Admission>)

  datatype Step =
    | Allow(now: int, key: Key, cost: int)
    | Acquire(key: Key, slot: nat)
    | Release(slot: nat)

  predicate Reaches(l: Limiter, now: int, key: Key, cost: int) {
    Known(l, key, cost) && !Regressed(l, now) && !Capped(l, now, key)
  }

  /** The twin's decision on the same call. */
  predicate UnsweptAllows(s: State, now: int, key: Key, cost: int)
    requires ValidLimiter(s.l)
  {
    Reaches(s.l, now, key, cost) && Charged(s.l.budgets[key.cls], Find(s.unswept, key), now, cost).1
  }

  function Next(s: State, step: Step): State
    requires ValidLimiter(s.l)
  {
    match step
    case Allow(now, key, cost) =>
      var (l, d) := AllowResult(s.l, now, key, cost);
      s.(l := l,
         unswept := if Reaches(s.l, now, key, cost)
                    then s.unswept[key := Charged(s.l.budgets[key.cls], Find(s.unswept, key), now, cost).0]
                         else s.unswept,
         admitted := if d.allowed then s.admitted + [Admission(key, now, cost)] else s.admitted)
    case Acquire(key, slot) =>
      var (l, ok) := AcquireResult(s.l, key);
      if ok && slot !in s.outstanding then s.(l := l, outstanding := s.outstanding[slot := key]) else s
    case Release(slot) =>
      s.(l := s.l.(inflight := Slots.Release(s.l.inflight, s.outstanding, slot)), outstanding := s.outstanding - {slot})
  }

  lemma NextValid(s: State, step: Step)
    requires ValidLimiter(s.l)
    ensures ValidLimiter(Next(s, step).l)
    ensures Next(s, step).l.budgets == s.l.budgets && Next(s, step).l.horizon == s.l.horizon
  {
    hide Charged, Capped, Swept, Retry, AcquireResult;
    hide Slots.Release;
    if step.Acquire? { AcquireKeeps(s.l, step.key); }
  }

  lemma AcquireKeeps(l: Limiter, key: Key)
    ensures AcquireResult(l, key).0 == l.(inflight := AcquireResult(l, key).0.inflight)
  {
  }

  function Run(s: State, steps: seq<Step>): State
    requires ValidLimiter(s.l)
    decreases |steps|
  {
    if steps == [] then s
    else
      NextValid(s, steps[0]);
      Run(Next(s, steps[0]), steps[1..])
  }

  /** A limiter as NewLimiter makes it. */
  predicate NewlyMade(l: Limiter) {
    ValidLimiter(l) && l.buckets == map[] && l.inflight == map[] && l.lastObserved.None?
  }

  function Reach(l: Limiter, steps: seq<Step>): State
    requires NewlyMade(l)
  {
    Run(State(l, map[], map[], []), steps)
  }

  // ----------------------------------------------------------- arithmetic

  lemma GainSplits(b: Budget, x: int, y: int)
    requires ValidBudget(b)
    ensures Gain(b, x + y) == Gain(b, x) + Gain(b, y)
  {
    var r, i := b.refill as real, b.interval as real;
    assert (x + y) as real * r == x as real * r + y as real * r;
    DivAdds(x as real * r, y as real * r, i);
  }

  lemma DivAdds(x: real, y: real, i: real)
    requires i > 0.0
    ensures (x + y) / i == x / i + y / i
  {
  }

  lemma GainMonotone(b: Budget, x: int, y: int)
    requires ValidBudget(b) && x <= y
    ensures Gain(b, x) <= Gain(b, y)
    ensures x >= 0 ==> Gain(b, x) >= 0.0
    ensures Gain(b, 0) == 0.0
  {
    var r, i := b.refill as real, b.interval as real;
    MulReal(x as real, y as real, r);
    DivMonotone(x as real * r, y as real * r, i);
    if x >= 0 {
      MulReal(0.0, x as real, r);
      DivMonotone(0.0, x as real * r, i);
    }
  }

  lemma MulReal(x: real, y: real, r: real)
    requires x <= y && r > 0.0
    ensures x * r <= y * r
  {
  }

  lemma DivMonotone(x: real, y: real, i: real)
    requires x <= y && i > 0.0
    ensures x / i <= y / i && 0.0 / i == 0.0
  {
  }

  /** Waiting out the horizon refills a bucket of this class, or there is no
      sweep at all. */
  predicate SweepSafe(horizon: int, b: Budget) {
    horizon <= 0 || horizon * b.refill >= b.burst * b.interval
  }

  /** The same over reals. */
  lemma SafeMeansFull(horizon: int, b: Budget)
    requires ValidBudget(b) && horizon > 0
    ensures SweepSafe(horizon, b) <==> Gain(b, horizon) >= b.burst as real
  {
    var r, i := b.refill as real, b.interval as real;
    assert horizon as real * r == (horizon * b.refill) as real;
    assert b.burst as real * i == (b.burst * b.interval) as real;
    DivCross(horizon as real * r, b.burst as real, i);
  }

  lemma DivCross(x: real, y: real, i: real)
    requires i > 0.0
    ensures x / i >= y <==> x >= y * i
  {
    if x / i >= y { MulReal(y, x / i, i); }
    if x >= y * i { DivMonotone(y * i, x, i); }
  }

  /** A class whose refill divides its interval times its burst is safe under
      any horizon NewLimiter computes. */
  lemma DivisibleIsSafe(l: Limiter, cls: string)
    requires ValidLimiter(l) && cls in l.budgets
    requires (l.budgets[cls].interval * l.budgets[cls].burst) % l.budgets[cls].refill == 0
    ensures SweepSafe(l.horizon, l.budgets[cls])
  {
    var b := l.budgets[cls];
    var full := FullTime(b);
    assert full * b.refill == b.interval * b.burst;
    MulInt(full, l.horizon, b.refill);
  }

  lemma MulInt(x: int, y: int, r: int)
    requires x <= y && r > 0
    ensures x * r <= y * r
  {
  }

  // ------------------------------------------------- the sweep, hidden

  /** Limiter and twin agree on a key, or the limiter dropped a bucket that has
      rested for a whole horizon. */
  ghost predicate Agree(l: Limiter, unswept: map<Key, Bucket>, key: Key) {
    || Find(l.buckets, key) == Find(unswept, key)
    || (key !in l.buckets && key in unswept && l.horizon > 0 && l.lastObserved.Some?
        && l.lastObserved.value - unswept[key].last >= l.horizon)
  }

  ghost predicate BucketInv(l: Limiter, m: map<Key, Bucket>, key: Key) {
    key in m ==> key.cls in l.budgets && l.lastObserved.Some? && m[key].last <= l.lastObserved.value
                 && 0.0 <= m[key].tokens <= l.budgets[key.cls].burst as real
  }

  ghost predicate Inv(s: State) {
    && ValidLimiter(s.l)
    && forall key :: BucketInv(s.l, s.unswept, key) && BucketInv(s.l, s.l.buckets, key)
                     && (key.cls in s.l.budgets && SweepSafe(s.l.horizon, s.l.budgets[key.cls]) ==>
                           Agree(s.l, s.unswept, key))
  }

  /** A bucket that rested for a horizon is charged like one never made. */
  lemma RestedIsFresh(b: Budget, horizon: int, bucket: Bucket, now: int, cost: int)
    requires ValidBudget(b) && SweepSafe(horizon, b) && horizon > 0 && now - bucket.last >= horizon
             && bucket.tokens >= 0.0
    ensures Charged(b, Some(bucket), now, cost) == Charged(b, None, now, cost)
  {
    SafeMeansFull(horizon, b);
    GainMonotone(b, horizon, now - bucket.last);
    hide SweepSafe;
    hide Gain;
  }

  lemma ChargedBounds(b: Budget, bucket: Option<Bucket>, now: int, cost: int)
    requires ValidBudget(b) && cost > 0
    requires bucket.Some? ==> bucket.value.last <= now && 0.0 <= bucket.value.tokens <= b.burst as real
    ensures Charged(b, bucket, now, cost).0.last == now
    ensures 0.0 <= Charged(b, bucket, now, cost).0.tokens <= b.burst as real
  {
    if bucket.Some? { GainMonotone(b, 0, now - bucket.value.last); }
    hide Gain;
  }

  /** For a safe class, sweeping first or not, a call is charged alike. */
  lemma SameCharge(s: State, now: int, key: Key, cost: int)
    requires Inv(s) && Reaches(s.l, now, key, cost) && SweepSafe(s.l.horizon, s.l.budgets[key.cls])
    ensures Charged(s.l.budgets[key.cls], Find(Swept(s.l.buckets, s.l.horizon, now), key), now, cost)
         == Charged(s.l.budgets[key.cls], Find(s.unswept, key), now, cost)
  {
    var b := s.l.budgets[key.cls];
    assert BucketInv(s.l, s.unswept, key) && Agree(s.l, s.unswept, key);
    hide Charged, SweepSafe, Capped;
    if key in s.unswept && key !in Swept(s.l.buckets, s.l.horizon, now) {
      RestedIsFresh(b, s.l.horizon, s.unswept[key], now, cost);
    }
  }

  lemma AllowInv(s: State, now: int, key: Key, cost: int)
    requires Inv(s)
    ensures Inv(Next(s, Allow(now, key, cost)))
  {
    var n := Next(s, Allow(now, key, cost));
    NextValid(s, Allow(now, key, cost));
    forall k
      ensures BucketInv(n.l, n.unswept, k) && BucketInv(n.l, n.l.buckets, k)
      ensures k.cls in n.l.budgets && SweepSafe(n.l.horizon, n.l.budgets[k.cls]) ==> Agree(n.l, n.unswept, k)
    {
      AllowKey(s, now, key, cost, k);
    }
    hide Next, Agree, BucketInv, SweepSafe;
  }

  lemma AllowKey(s: State, now: int, key: Key, cost: int, k: Key)
    requires Inv(s)
    ensures var n := Next(s, Allow(now, key, cost));
            && BucketInv(n.l, n.unswept, k) && BucketInv(n.l, n.l.buckets, k)
            && (k.cls in n.l.budgets && SweepSafe(n.l.horizon, n.l.budgets[k.cls]) ==> Agree(n.l, n.unswept, k))
  {
    hide Charged, SweepSafe, Retry, Capped, ValidLimiter;
    assert BucketInv(s.l, s.unswept, k) && BucketInv(s.l, s.l.buckets, k);
    if Reaches(s.l, now, key, cost) && k == key {
      BudgetOf(s.l, key.cls);
      ChargedBounds(s.l.budgets[key.cls], Find(s.unswept, key), now, cost);
      ChargedBounds(s.l.budgets[key.cls], Find(Swept(s.l.buckets, s.l.horizon, now), key), now, cost);
      if SweepSafe(s.l.horizon, s.l.budgets[key.cls]) { SameCharge(s, now, key, cost); }
    }
  }

  lemma SlotInv(s: State, step: Step)
    requires Inv(s) && !step.Allow?
    ensures Inv(Next(s, step))
  {
    NextValid(s, step);
    hide AcquireResult, Slots.Release, SweepSafe, ValidLimiter;
    if step.Acquire? { AcquireKeeps(s.l, step.key); }
    var n := Next(s, step);
    forall k
      ensures BucketInv(n.l, n.unswept, k) && BucketInv(n.l, n.l.buckets, k)
      ensures k.cls in n.l.budgets && SweepSafe(n.l.horizon, n.l.budgets[k.cls]) ==> Agree(n.l, n.unswept, k)
    {
      assert BucketInv(s.l, s.unswept, k);
    }
  }

  lemma NextInv(s: State, step: Step)
    requires Inv(s)
    ensures Inv(Next(s, step))
  {
    hide Next, Inv;
    match step
    case Allow(now, key, cost) => AllowInv(s, now, key, cost);
    case _ => SlotInv(s, step);
  }

  lemma ValidOf(s: State)
    requires Inv(s)
    ensures ValidLimiter(s.l)
  {
  }

  lemma {:induction false} RunInv(s: State, steps: seq<Step>)
    requires Inv(s)
    ensures ValidLimiter(s.l) && Inv(Run(s, steps))
    ensures Run(s, steps).l.horizon == s.l.horizon && Run(s, steps).l.budgets == s.l.budgets
    decreases |steps|
  {
    hide Inv, Next;
    ValidOf(s);
    if steps != [] {
      NextInv(s, steps[0]);
      NextValid(s, steps[0]);
      RunInv(Next(s, steps[0]), steps[1..]);
    }
  }

  lemma ReachInv(l: Limiter, steps: seq<Step>)
    requires NewlyMade(l)
    ensures Inv(Reach(l, steps))
    ensures Reach(l, steps).l.horizon == l.horizon && Reach(l, steps).l.budgets == l.budgets
  {
    hide Run;
    RunInv(State(l, map[], map[], []), steps);
  }

  /** For a safe class no call is ever decided differently because of a sweep. */
  lemma SweepInvisible(l: Limiter, steps: seq<Step>, now: int, key: Key, cost: int)
    requires NewlyMade(l) && key.cls in l.budgets && SweepSafe(l.horizon, l.budgets[key.cls])
    ensures Inv(Reach(l, steps)) && ValidLimiter(Reach(l, steps).l)
    ensures AllowResult(Reach(l, steps).l, now, key, cost).1.allowed <==> UnsweptAllows(Reach(l, steps), now, key, cost)
  {
    hide Charged, SweepSafe, Run, Inv;
    ReachInv(l, steps);
    var s := Reach(l, steps);
    ValidOf(s);
    if Reaches(s.l, now, key, cost) { SameCharge(s, now, key, cost); }
  }

  // --------------------------------------------------------- the envelope

  /** What key `key` was let spend after `from` and no later than `to`. */
  function SpentBetween(log: seq<Admission>, key: Key, from: int, to: int): int {
    if log == [] then 0
    else
      var last := log[|log| - 1];
      SpentBetween(log[..|log| - 1], key, from, to) + (if last.key == key && from < last.now <= to then last.cost
                                                       else 0)
  }

  lemma SpentAppend(log: seq<Admission>, e: Admission, key: Key, from: int, to: int)
    ensures SpentBetween(log + [e], key, from, to)
         == SpentBetween(log, key, from, to) + (if e.key == key && from < e.now <= to then e.cost else 0)
  {
    assert (log + [e])[..|log|] == log;
  }

  /** The tokens a key could spend at `now`. */
  function Level(b: Budget, bucket: Option<Bucket>, now: int): real
    requires ValidBudget(b)
  {
    match bucket
    case None => b.burst as real
    case Some(k) => MinReal(b.burst as real, k.tokens + Gain(b, now - k.last))
  }

  /** The potential argument, on the twin: while the clock is inside the span,
      what was spent since `from` and what could be spent now together stay
      under the envelope; once it is past `to`, what was spent stays. */
  ghost predicate Envelope(b: Budget, bucket: Option<Bucket>, observed: Option<int>, spent: int, from: int, to: int)
    requires ValidBudget(b) && from <= to
  {
    match observed
    case None => spent == 0 && bucket.None?
    case Some(now) =>
      if now < from then spent == 0
      else if now <= to then spent as real + Level(b, bucket, now) <= b.burst as real + Gain(b, now - from)
      else spent as real <= b.burst as real + Gain(b, to - from)
  }

  lemma LevelGrows(b: Budget, bucket: Option<Bucket>, was: int, now: int)
    requires ValidBudget(b) && was <= now && (bucket.Some? ==> bucket.value.last <= was)
    ensures Level(b, bucket, now) <= Level(b, bucket, was) + Gain(b, now - was)
  {
    GainMonotone(b, 0, now - was);
    if bucket.Some? {
      GainSplits(b, was - bucket.value.last, now - was);
    }
    hide Gain;
  }

  /** The passage of time alone. */
  lemma EnvelopeAdvances(b: Budget, bucket: Option<Bucket>, observed: Option<int>, spent: int, from: int, to: int,
                         now: int)
    requires ValidBudget(b) && from <= to && Envelope(b, bucket, observed, spent, from, to)
    requires observed.Some? ==> observed.value <= now && (bucket.Some? ==> bucket.value.last <= observed.value)
    requires bucket.Some? ==> bucket.value.tokens >= 0.0 && bucket.value.last <= now
    ensures Envelope(b, bucket, Some(now), spent, from, to)
  {
    GainMonotone(b, 0, to - from);
    if from <= now { GainMonotone(b, 0, now - from); }
    if observed.Some? && from <= observed.value <= to {
      var was := observed.value;
      LevelGrows(b, bucket, was, now);
      GainSplits(b, was - from, now - was);
      if now > to { GainMonotone(b, was - from, to - from); LevelNotNegative(b, bucket, was); }
    }
    hide Gain;
  }

  lemma LevelNotNegative(b: Budget, bucket: Option<Bucket>, now: int)
    requires ValidBudget(b) && (bucket.Some? ==> bucket.value.tokens >= 0.0 && bucket.value.last <= now)
    ensures Level(b, bucket, now) >= 0.0
  {
    if bucket.Some? { GainMonotone(b, 0, now - bucket.value.last); }
    hide Gain;
  }

  /** A call at the observed time: what is spent leaves the level. */
  lemma EnvelopeCharges(b: Budget, bucket: Option<Bucket>, spent: int, from: int, to: int, now: int, cost: int)
    requires ValidBudget(b) && from <= to && Envelope(b, bucket, Some(now), spent, from, to) && cost > 0
    requires bucket.Some? ==> bucket.value.last <= now && 0.0 <= bucket.value.tokens <= b.burst as real
    ensures var (after, ok) := Charged(b, bucket, now, cost);
            Envelope(b, Some(after), Some(now), spent + (if ok && from < now <= to then cost else 0), from, to)
  {
    GainMonotone(b, 0, 0);
    ChargedBounds(b, bucket, now, cost);
    if bucket.Some? { GainMonotone(b, 0, now - bucket.value.last); }
    var (after, ok) := Charged(b, bucket, now, cost);
    hide Gain;
    assert Level(b, Some(after), now) == after.tokens;
  }

  ghost predicate KeyEnvelope(s: State, key: Key, from: int, to: int)
    requires ValidLimiter(s.l) && key.cls in s.l.budgets && from <= to
  {
    Envelope(s.l.budgets[key.cls], Find(s.unswept, key), s.l.lastObserved, SpentBetween(s.admitted, key, from, to),
             from, to)
  }

  lemma EnvelopeStep(s: State, step: Step, key: Key, from: int, to: int)
    requires Inv(s) && key.cls in s.l.budgets && SweepSafe(s.l.horizon, s.l.budgets[key.cls]) && from <= to
    requires ValidLimiter(s.l) && ValidLimiter(Next(s, step).l) && Next(s, step).l.budgets == s.l.budgets
    requires KeyEnvelope(s, key, from, to)
    ensures KeyEnvelope(Next(s, step), key, from, to)
  {
    var b := s.l.budgets[key.cls];
    assert BucketInv(s.l, s.unswept, key);
    hide Envelope, Inv, SweepSafe, Charged, Agree, Capped, AcquireResult, Slots.Release, Retry, Gain, Swept,
         ValidLimiter;
    match step
    case Allow(now, k, cost) =>
      EnvelopeAllow(s, now, k, cost, key, from, to);
    case Acquire(k, slot) => AcquireKeeps(s.l, k);
    case Release(slot) =>
  }

  lemma EnvelopeAllow(s: State, now: int, k: Key, cost: int, key: Key, from: int, to: int)
    requires Inv(s) && key.cls in s.l.budgets && SweepSafe(s.l.horizon, s.l.budgets[key.cls]) && from <= to
    requires ValidLimiter(s.l) && ValidLimiter(Next(s, Allow(now, k, cost)).l)
             && Next(s, Allow(now, k, cost)).l.budgets == s.l.budgets
    requires KeyEnvelope(s, key, from, to) && BucketInv(s.l, s.unswept, key)
    ensures KeyEnvelope(Next(s, Allow(now, k, cost)), key, from, to)
  {
    hide Envelope, Inv, SweepSafe, Charged, Agree, Capped, Retry, Gain, Swept, ValidLimiter, SpentBetween;
    var b := s.l.budgets[key.cls];
    BudgetOf(s.l, key.cls);
    var spent := SpentBetween(s.admitted, key, from, to);
    if Known(s.l, k, cost) && !Regressed(s.l, now) {
      EnvelopeAdvances(b, Find(s.unswept, key), s.l.lastObserved, spent, from, to, now);
      SpentAppend(s.admitted, Admission(k, now, cost), key, from, to);
      if !Capped(s.l, now, k) && k == key {
        SameCharge(s, now, key, cost);
        EnvelopeCharges(b, Find(s.unswept, key), spent, from, to, now, cost);
      }
    }
  }

  lemma {:induction false} EnvelopeRun(s: State, steps: seq<Step>, key: Key, from: int, to: int)
    requires Inv(s) && ValidLimiter(s.l) && key.cls in s.l.budgets && SweepSafe(s.l.horizon, s.l.budgets[key.cls])
             && from <= to
    requires KeyEnvelope(s, key, from, to)
    ensures ValidLimiter(Run(s, steps).l) && Run(s, steps).l.budgets == s.l.budgets
            && KeyEnvelope(Run(s, steps), key, from, to)
    decreases |steps|
  {
    hide Inv, Next, KeyEnvelope, SweepSafe, ValidLimiter;
    if steps != [] {
      NextInv(s, steps[0]);
      NextValid(s, steps[0]);
      EnvelopeStep(s, steps[0], key, from, to);
      EnvelopeRun(Next(s, steps[0]), steps[1..], key, from, to);
    }
  }

  ghost predicate UnderEnvelope(b: Budget, log: seq<Admission>, key: Key, from: int, to: int)
    requires ValidBudget(b)
  {
    SpentBetween(log, key, from, to) as real <= b.burst as real + Gain(b, to - from)
  }

  /** The token-bucket envelope: in any run, a key of a safe class spends in
      (from, to] at most its burst and what is refilled meanwhile. */
  lemma EnvelopeHolds(l: Limiter, steps: seq<Step>, key: Key, from: int, to: int)
    requires NewlyMade(l) && key.cls in l.budgets && SweepSafe(l.horizon, l.budgets[key.cls]) && from <= to
    ensures UnderEnvelope(l.budgets[key.cls], Reach(l, steps).admitted, key, from, to)
  {
    hide Run, Gain, SweepSafe;
    var s := State(l, map[], map[], []);
    RunInv(s, []);
    EnvelopeRun(s, steps, key, from, to);
    var n := Reach(l, steps);
    var b := l.budgets[key.cls];
    ReachInv(l, steps);
    assert BucketInv(n.l, n.unswept, key) by { BucketOf(n, key); }
    GainMonotone(b, 0, to - from);
    if n.l.lastObserved.Some? && from <= n.l.lastObserved.value <= to {
      GainMonotone(b, n.l.lastObserved.value - from, to - from);
      LevelNotNegative(b, Find(n.unswept, key), n.l.lastObserved.value);
    }
  }

  lemma BucketOf(s: State, key: Key)
    requires Inv(s)
    ensures BucketInv(s.l, s.unswept, key)
  {
  }
}
