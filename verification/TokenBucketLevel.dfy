/** The token bucket without buckets: a call gets through exactly if, over every
    stretch of time that ends with it, what its key has spent leaves room. */
module TokenBucketLevel {
  import opened Common
  import opened TokenBucket
  import opened TokenBucketRuns

  /** What key `key` was let spend from `from` to `to`, both included. */
  function SpentIn(log: seq<Admission>, key: Key, from: int, to: int): int {
    SpentBetween(log, key, from - 1, to)
  }

  /** Over the stretch from `from` to `now` there is room for `more`. */
  ghost predicate Room(b: Budget, log: seq<Admission>, key: Key, from: int, now: int, more: real)
    requires ValidBudget(b)
  {
    SpentIn(log, key, from, now) as real + more <= b.burst as real + Gain(b, now - from)
  }

  /** The tokens left are the room in the tightest stretch. */
  ghost predicate Exact(b: Budget, bucket: Option<Bucket>, log: seq<Admission>, key: Key, now: int)
    requires ValidBudget(b)
  {
    && (forall from :: from <= now ==> Room(b, log, key, from, now, Level(b, bucket, now)))
    && (exists from :: from <= now && Tight(b, log, key, from, now, Level(b, bucket, now)))
  }

  ghost predicate Tight(b: Budget, log: seq<Admission>, key: Key, from: int, now: int, more: real)
    requires ValidBudget(b)
  {
    SpentIn(log, key, from, now) as real + more == b.burst as real + Gain(b, now - from)
  }

  ghost predicate Past(log: seq<Admission>, now: int) {
    forall i :: 0 <= i < |log| ==> log[i].now <= now
  }

  lemma {:induction false} NothingLater(log: seq<Admission>, key: Key, from: int, was: int, now: int)
    requires Past(log, was) && was <= now
    ensures SpentBetween(log, key, from, now) == SpentBetween(log, key, from, was)
    ensures from >= was ==> SpentBetween(log, key, from, now) == 0
  {
    if log != [] {
      NothingLater(log[..|log| - 1], key, from, was, now);
      assert log[|log| - 1].now <= was;
    }
  }

  lemma LevelPasses(b: Budget, bucket: Option<Bucket>, was: int, now: int)
    requires ValidBudget(b) && was <= now && (bucket.Some? ==> bucket.value.last <= was)
    ensures Level(b, bucket, now) == MinReal(b.burst as real, Level(b, bucket, was) + Gain(b, now - was))
  {
    GainMonotone(b, 0, now - was);
    if bucket.Some? { GainSplits(b, was - bucket.value.last, now - was); }
    hide Gain;
  }

  lemma RoomPasses(b: Budget, bucket: Option<Bucket>, log: seq<Admission>, key: Key, was: int, now: int, from: int)
    requires ValidBudget(b) && was <= now && Past(log, was) && (bucket.Some? ==> bucket.value.last <= was)
    requires from <= was ==> Room(b, log, key, from, was, Level(b, bucket, was))
    requires from <= now
    ensures Room(b, log, key, from, now, Level(b, bucket, now))
  {
    LevelPasses(b, bucket, was, now);
    NothingLater(log, key, from - 1, was, now);
    GainMonotone(b, 0, now - from);
    if from <= was { GainSplits(b, was - from, now - was); }
    hide Gain, SpentBetween, Level;
  }

  /** Time alone keeps the level exact. */
  lemma ExactPasses(b: Budget, bucket: Option<Bucket>, log: seq<Admission>, key: Key, was: int, now: int)
    requires ValidBudget(b) && was <= now && Past(log, was) && (bucket.Some? ==> bucket.value.last <= was)
    requires Exact(b, bucket, log, key, was)
    ensures Exact(b, bucket, log, key, now)
  {
    forall from | from <= now ensures Room(b, log, key, from, now, Level(b, bucket, now)) {
      RoomPasses(b, bucket, log, key, was, now, from);
    }
    var from :| from <= was && Tight(b, log, key, from, was, Level(b, bucket, was));
    LevelPasses(b, bucket, was, now);
    NothingLater(log, key, from - 1, was, now);
    NothingLater(log, key, now - 1, was, now);
    GainSplits(b, was - from, now - was);
    GainMonotone(b, 0, 0);
    hide Gain, SpentBetween, Level, Room;
    if now > was {
      if Level(b, bucket, now) == b.burst as real {
        assert Tight(b, log, key, now, now, Level(b, bucket, now));
      } else {
        assert Tight(b, log, key, from, now, Level(b, bucket, now));
      }
    }
  }

  /** The level decides, and a call that gets through lowers it by its cost. */
  lemma LevelCharged(b: Budget, bucket: Option<Bucket>, now: int, cost: int)
    requires ValidBudget(b) && cost > 0
    requires bucket.Some? ==> bucket.value.last <= now && 0.0 <= bucket.value.tokens <= b.burst as real
    ensures var (after, ok) := Charged(b, bucket, now, cost);
            && (ok <==> Level(b, bucket, now) >= cost as real)
            && Level(b, Some(after), now) == Level(b, bucket, now) - (if ok then cost as real else 0.0)
  {
    GainMonotone(b, 0, 0);
    if bucket.Some? { GainMonotone(b, 0, now - bucket.value.last); }
    ChargedBounds(b, bucket, now, cost);
    hide Gain;
  }

  lemma ExactCharges(b: Budget, bucket: Option<Bucket>, log: seq<Admission>, key: Key, now: int, cost: int)
    requires ValidBudget(b) && cost > 0 && Exact(b, bucket, log, key, now)
    requires bucket.Some? ==> bucket.value.last <= now && 0.0 <= bucket.value.tokens <= b.burst as real
    ensures var (after, ok) := Charged(b, bucket, now, cost);
            Exact(b, Some(after), if ok then log + [Admission(key, now, cost)] else log, key, now)
  {
    hide Charged, Gain, SpentBetween, Level;
    LevelCharged(b, bucket, now, cost);
    var (after, ok) := Charged(b, bucket, now, cost);
    if ok {
      var grown := log + [Admission(key, now, cost)];
      forall from | from <= now ensures Room(b, grown, key, from, now, Level(b, Some(after), now)) {
        SpentAppend(log, Admission(key, now, cost), key, from - 1, now);
        assert Room(b, log, key, from, now, Level(b, bucket, now));
      }
      var from :| from <= now && Tight(b, log, key, from, now, Level(b, bucket, now));
      SpentAppend(log, Admission(key, now, cost), key, from - 1, now);
      assert Tight(b, grown, key, from, now, Level(b, Some(after), now));
    }
  }

  /** Somebody else's admission does not count. */
  lemma ExactOther(b: Budget, bucket: Option<Bucket>, log: seq<Admission>, e: Admission, key: Key, now: int)
    requires ValidBudget(b) && e.key != key && Exact(b, bucket, log, key, now)
    ensures Exact(b, bucket, log + [e], key, now)
  {
    hide Gain, SpentBetween, Level;
    forall from | from <= now ensures Room(b, log + [e], key, from, now, Level(b, bucket, now)) {
      SpentAppend(log, e, key, from - 1, now);
      assert Room(b, log, key, from, now, Level(b, bucket, now));
    }
    var from :| from <= now && Tight(b, log, key, from, now, Level(b, bucket, now));
    SpentAppend(log, e, key, from - 1, now);
    assert Tight(b, log + [e], key, from, now, Level(b, bucket, now));
  }

  /** A key that nobody has used has its whole burst. */
  lemma ExactUnused(b: Budget, key: Key, now: int)
    requires ValidBudget(b)
    ensures Exact(b, None, [], key, now)
  {
    forall from | from <= now ensures Room(b, [], key, from, now, Level(b, None, now)) {
      GainMonotone(b, 0, now - from);
    }
    GainMonotone(b, 0, 0);
    assert Tight(b, [], key, now, now, Level(b, None, now));
  }

  // ---------------------------------------------------------------- runs

  /** The twin's level for `key` is exact from the last observed time on. */
  ghost predicate KeyExact(s: State, key: Key)
    requires ValidLimiter(s.l) && key.cls in s.l.budgets
  {
    match s.l.lastObserved
    case None => s.admitted == [] && key !in s.unswept
    case Some(now) => Past(s.admitted, now) && Exact(s.l.budgets[key.cls], Find(s.unswept, key), s.admitted, key, now)
  }

  lemma PastGrows(log: seq<Admission>, e: Admission, was: int)
    requires Past(log, was) && was <= e.now
    ensures Past(log, e.now) && Past(log + [e], e.now)
  {
  }

  lemma KeyExactAt(s: State, key: Key, now: int)
    requires Inv(s) && ValidLimiter(s.l) && key.cls in s.l.budgets && KeyExact(s, key)
    requires s.l.lastObserved.Some? ==> s.l.lastObserved.value <= now
    ensures Past(s.admitted, now) && Exact(s.l.budgets[key.cls], Find(s.unswept, key), s.admitted, key, now)
    ensures key in s.unswept ==> s.unswept[key].last <= now
                                 && 0.0 <= s.unswept[key].tokens <= s.l.budgets[key.cls].burst as real
  {
    BucketOf(s, key);
    hide Inv, Exact, ValidLimiter, SweepSafe;
    BudgetOf(s.l, key.cls);
    if s.l.lastObserved.None? {
      ExactUnused(s.l.budgets[key.cls], key, now);
    } else {
      ExactPasses(s.l.budgets[key.cls], Find(s.unswept, key), s.admitted, key, s.l.lastObserved.value, now);
    }
  }

  lemma ExactAllow(s: State, now: int, k: Key, cost: int, key: Key)
    requires Inv(s) && ValidLimiter(s.l) && key.cls in s.l.budgets && SweepSafe(s.l.horizon, s.l.budgets[key.cls])
    requires KeyExact(s, key)
    requires ValidLimiter(Next(s, Allow(now, k, cost)).l) && Next(s, Allow(now, k, cost)).l.budgets == s.l.budgets
    ensures KeyExact(Next(s, Allow(now, k, cost)), key)
  {
    hide Inv, Exact, Charged, Capped, Swept, Retry, Gain, ValidLimiter, SweepSafe, Past;
    if Known(s.l, k, cost) && !Regressed(s.l, now) {
      var b := s.l.budgets[key.cls];
      BudgetOf(s.l, key.cls);
      KeyExactAt(s, key, now);
      PastGrows(s.admitted, Admission(k, now, cost), now);
      if k == key {
        if !Capped(s.l, now, k) {
          SameCharge(s, now, key, cost);
          ExactCharges(b, Find(s.unswept, key), s.admitted, key, now, cost);
        }
      } else {
        ExactOther(b, Find(s.unswept, key), s.admitted, Admission(k, now, cost), key, now);
      }
    }
  }

  lemma ExactStep(s: State, step: Step, key: Key)
    requires Inv(s) && ValidLimiter(s.l) && key.cls in s.l.budgets && SweepSafe(s.l.horizon, s.l.budgets[key.cls])
    requires KeyExact(s, key)
    requires ValidLimiter(Next(s, step).l) && Next(s, step).l.budgets == s.l.budgets
    ensures KeyExact(Next(s, step), key)
  {
    hide Inv, Exact, Charged, Capped, AcquireResult, Slots.Release, Retry, Gain, Swept, ValidLimiter, Past;
    match step
    case Allow(now, k, cost) => ExactAllow(s, now, k, cost, key);
    case Acquire(k, slot) => AcquireKeeps(s.l, k);
    case Release(slot) =>
  }

  lemma {:induction false} ExactRun(s: State, steps: seq<Step>, key: Key)
    requires Inv(s) && ValidLimiter(s.l) && key.cls in s.l.budgets && SweepSafe(s.l.horizon, s.l.budgets[key.cls])
    requires KeyExact(s, key)
    ensures ValidLimiter(Run(s, steps).l) && Run(s, steps).l.budgets == s.l.budgets && KeyExact(Run(s, steps), key)
    decreases |steps|
  {
    hide Inv, Next, KeyExact, SweepSafe, ValidLimiter;
    if steps != [] {
      NextInv(s, steps[0]);
      NextValid(s, steps[0]);
      ExactStep(s, steps[0], key);
      ExactRun(Next(s, steps[0]), steps[1..], key);
    }
  }

  lemma StartInv(l: Limiter)
    requires NewlyMade(l)
    ensures Inv(State(l, map[], map[], []))
  {
  }

  /** The last observed time is no later than every call so far. */
  lemma {:induction false} ObservedCall(s: State, steps: seq<Step>, latest: int)
    requires ValidLimiter(s.l)
    requires s.l.lastObserved.Some? ==> s.l.lastObserved.value <= latest
    requires forall i :: 0 <= i < |steps| && steps[i].Allow? ==> steps[i].now <= latest
    ensures ValidLimiter(Run(s, steps).l)
    ensures Run(s, steps).l.lastObserved.Some? ==> Run(s, steps).l.lastObserved.value <= latest
    decreases |steps|
  {
    hide ValidLimiter, Charged, Capped, Swept, Retry, AcquireResult, Slots.Release;
    if steps != [] {
      NextValid(s, steps[0]);
      if steps[0].Acquire? { AcquireKeeps(s.l, steps[0].key); }
      assert forall i :: 0 <= i < |steps[1..]| ==> steps[1..][i] == steps[i + 1];
      ObservedCall(Next(s, steps[0]), steps[1..], latest);
    }
  }

  /** The buckets that a sweep at `now` leaves. */
  ghost function Tracked(l: Limiter, now: int): set<Key> {
    set k | k in l.buckets && (l.horizon <= 0 || now - l.buckets[k].last < l.horizon)
  }

  /** Exactly who gets through. While the clock goes forward, a call of a safe
      class passes if and only if its cost is positive, its key is tracked or
      there is room for one more, and over every stretch of time ending now, both
      ends included, the key's admitted cost and this call's stay within the
      burst and what is refilled meanwhile. */
  lemma AllowExact(l: Limiter, steps: seq<Step>, now: int, key: Key, cost: int)
    requires NewlyMade(l) && key.cls in l.budgets && SweepSafe(l.horizon, l.budgets[key.cls])
    requires forall i :: 0 <= i < |steps| && steps[i].Allow? ==> steps[i].now <= now
    ensures var s := Reach(l, steps);
            var more := cost as real;
            && ValidLimiter(s.l)
            && (AllowResult(s.l, now, key, cost).1.allowed <==>
                  && cost > 0
                  && (key in Tracked(s.l, now) || |Tracked(s.l, now)| + |s.l.inflight.Keys| < s.l.maxKeys)
                  && forall from :: from <= now ==> Room(l.budgets[key.cls], s.admitted, key, from, now, more))
  {
    hide Charged, SweepSafe, Run, Inv, Gain, SpentBetween, Level, Retry;
    var start := State(l, map[], map[], []);
    StartInv(l);
    ReachInv(l, steps);
    ObservedCall(start, steps, now);
    ExactRun(start, steps, key);
    var s := Reach(l, steps);
    var b := l.budgets[key.cls];
    BudgetOf(l, key.cls);
    SweepInvisible(l, steps, now, key, cost);
    assert Swept(s.l.buckets, s.l.horizon, now).Keys == Tracked(s.l, now);
    KeyExactAt(s, key, now);
    if cost > 0 {
      LevelCharged(b, Find(s.unswept, key), now, cost);
      RoomIffLevel(b, Find(s.unswept, key), s.admitted, key, now, cost as real);
    }
  }

  lemma RoomIffLevel(b: Budget, bucket: Option<Bucket>, log: seq<Admission>, key: Key, now: int, more: real)
    requires ValidBudget(b) && Exact(b, bucket, log, key, now)
    ensures (forall from :: from <= now ==> Room(b, log, key, from, now, more)) <==> Level(b, bucket, now) >= more
  {
    hide Gain, SpentBetween, Level;
    var from :| from <= now && Tight(b, log, key, from, now, Level(b, bucket, now));
    if forall from :: from <= now ==> Room(b, log, key, from, now, more) {
      assert Room(b, log, key, from, now, more);
    } else if Level(b, bucket, now) >= more {
      forall from | from <= now ensures Room(b, log, key, from, now, more) {
        assert Room(b, log, key, from, now, Level(b, bucket, now));
      }
    }
  }

  // ----------------------------------------------------------- the hint

  /** The same call again, `wait` nanoseconds later and with nothing between. */
  predicate PassesAfter(b: Budget, tokens: real, now: int, wait: int, cost: int)
    requires ValidBudget(b)
  {
    Charged(b, Some(Bucket(tokens, now)), now + wait, cost).1
  }

  /** A call refused for want of tokens is told a wait that is right to the
      nanosecond: any longer one is enough, unless the cost is more than the
      burst, and any shorter one is not, unless a single nanosecond is. */
  lemma RetryHint(l: Limiter, steps: seq<Step>, now: int, key: Key, cost: int, wait: int)
    requires NewlyMade(l) && Known(l, key, cost) && wait >= 0
    requires var s := Reach(l, steps);
             Reaches(s.l, now, key, cost) && ValidLimiter(s.l) && !AllowResult(s.l, now, key, cost).1.allowed
    ensures var (n, d) := AllowResult(Reach(l, steps).l, now, key, cost);
            && key in n.buckets && n.buckets[key].last == now
            && var b, tokens := l.budgets[key.cls], n.buckets[key].tokens;
               && ValidBudget(b)
               && (wait > d.retryAfter && cost <= b.burst ==> PassesAfter(b, tokens, now, wait, cost))
               && (wait < d.retryAfter && !PassesAfter(b, tokens, now, 1, cost) ==>
                     !PassesAfter(b, tokens, now, wait, cost))
  {
    hide Inv, Run, Capped, PassesAfter, Retry, Gain;
    ReachInv(l, steps);
    var s := Reach(l, steps);
    var (n, d) := AllowResult(s.l, now, key, cost);
    BudgetOf(l, key.cls);
    LimiterBucketOf(s, key);
    RefusedHint(s.l, now, key, cost);
    var b, tokens := l.budgets[key.cls], n.buckets[key].tokens;
    if wait > d.retryAfter && cost <= b.burst { HintSufficient(b, tokens, now, cost, wait); }
    if wait < d.retryAfter && !PassesAfter(b, tokens, now, 1, cost) { HintNecessary(b, tokens, now, cost, wait); }
  }

  lemma LimiterBucketOf(s: State, key: Key)
    requires Inv(s)
    ensures BucketInv(s.l, s.l.buckets, key)
  {
  }

  lemma RefusedHint(l: Limiter, now: int, key: Key, cost: int)
    requires ValidLimiter(l) && Reaches(l, now, key, cost) && !AllowResult(l, now, key, cost).1.allowed
    requires BucketInv(l, l.buckets, key)
    ensures var (n, d) := AllowResult(l, now, key, cost);
            && key in n.buckets && n.buckets[key].last == now && 0.0 <= n.buckets[key].tokens < cost as real
            && d.retryAfter == Retry(l.budgets[key.cls], n.buckets[key].tokens, cost)
  {
    hide Capped, Gain, Retry;
    ChargedBounds(l.budgets[key.cls], Find(Swept(l.buckets, l.horizon, now), key), now, cost);
  }

  lemma PassesIff(b: Budget, tokens: real, now: int, wait: int, cost: int)
    requires ValidBudget(b) && 0.0 <= tokens < cost as real && wait >= 0 && cost > 0
    ensures PassesAfter(b, tokens, now, wait, cost) <==>
              wait > 0 && cost <= b.burst
              && (cost as real - tokens) * b.interval as real <= wait as real * b.refill as real
  {
    DivCross(wait as real * b.refill as real, cost as real - tokens, b.interval as real);
    GainMonotone(b, 0, wait);
  }

  function Need(b: Budget, tokens: real, cost: int): real
    requires ValidBudget(b)
  {
    (cost as real - tokens) * b.interval as real / b.refill as real
  }

  lemma NeedIs(b: Budget, tokens: real, cost: int, wait: int)
    requires ValidBudget(b)
    ensures (cost as real - tokens) * b.interval as real <= wait as real * b.refill as real <==>
              Need(b, tokens, cost) <= wait as real
  {
    var x, r := (cost as real - tokens) * b.interval as real, b.refill as real;
    if x <= wait as real * r { DivMonotone(x, wait as real * r, r); assert wait as real * r / r == wait as real; }
    if Need(b, tokens, cost) <= wait as real { MulReal(Need(b, tokens, cost), wait as real, r); assert x / r * r == x; }
  }

  lemma HintSufficient(b: Budget, tokens: real, now: int, cost: int, wait: int)
    requires ValidBudget(b) && 0.0 <= tokens < cost as real && cost > 0 && wait > Retry(b, tokens, cost)
             && cost <= b.burst
    ensures PassesAfter(b, tokens, now, wait, cost)
  {
    PassesIff(b, tokens, now, wait, cost);
    NeedIs(b, tokens, cost, wait);
  }

  lemma HintNecessary(b: Budget, tokens: real, now: int, cost: int, wait: int)
    requires ValidBudget(b) && 0.0 <= tokens < cost as real && cost > 0 && 0 <= wait < Retry(b, tokens, cost)
    requires !PassesAfter(b, tokens, now, 1, cost)
    ensures !PassesAfter(b, tokens, now, wait, cost)
  {
    PassesIff(b, tokens, now, wait, cost);
    PassesIff(b, tokens, now, 1, cost);
    NeedIs(b, tokens, cost, wait);
    NeedIs(b, tokens, cost, 1);
  }
}
