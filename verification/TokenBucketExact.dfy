/** Exactly which classes keep the limiter's two promises. The horizon is the
    longest refill time cut to whole nanoseconds, so a class can fall short of a
    full bucket when the sweep drops it. */
module TokenBucketExact {
  import opened Common
  import opened TokenBucket
  import opened TokenBucketRuns

  lemma {:induction false} RunAppend(s: State, a: seq<Step>, b: seq<Step>)
    requires ValidLimiter(s.l)
    ensures ValidLimiter(Run(s, a).l) && Run(s, a + b) == Run(Run(s, a), b)
    decreases |a|
  {
    hide Next, ValidLimiter;
    if a == [] {
      assert a + b == b;
    } else {
      NextValid(s, a[0]);
      assert (a + b)[0] == a[0] && (a + b)[1..] == a[1..] + b;
      RunAppend(Next(s, a[0]), a[1..], b);
    }
  }

  lemma RunOne(s: State, step: Step)
    requires ValidLimiter(s.l)
    ensures Run(s, [step]) == Next(s, step)
  {
    hide Next;
    NextValid(s, step);
    assert Run(Next(s, step), []) == Next(s, step);
  }

  /** Spend the whole burst at every multiple of the horizon. */
  function Drains(horizon: int, key: Key, burst: int, n: nat): seq<Step> {
    if n == 0 then [Allow(0, key, burst)] else Drains(horizon, key, burst, n - 1) + [Allow(n * horizon, key, burst)]
  }

  /** Every one of those calls gets through: the sweep has just dropped the
      bucket the last one emptied. */
  ghost predicate Drained(s: State, l: Limiter, key: Key, n: nat, to: int)
    requires key.cls in l.budgets
  {
    && s.l == l.(buckets := map[key := Bucket(0.0, n * l.horizon)], lastObserved := Some(n * l.horizon))
    && s.outstanding == map[]
    && SpentBetween(s.admitted, key, -1, to) == (n + 1) * l.budgets[key.cls].burst
  }

  /** One drain from a limiter whose bucket for the key, if any, is about to be
      swept. */
  lemma DrainStep(s: State, l: Limiter, key: Key, now: int)
    requires NewlyMade(l) && key.cls in l.budgets && l.horizon > 0
    requires s.l.(buckets := map[], lastObserved := None) == l && s.l.buckets.Keys <= {key}
    requires s.l.lastObserved.Some? ==> s.l.lastObserved.value <= now
    requires key in s.l.buckets ==> now - s.l.buckets[key].last >= l.horizon
    ensures ValidLimiter(s.l)
    ensures var n := Next(s, Allow(now, key, l.budgets[key.cls].burst));
            && n.l == l.(buckets := map[key := Bucket(0.0, now)], lastObserved := Some(now))
            && n.outstanding == s.outstanding
            && n.admitted == s.admitted + [Admission(key, now, l.budgets[key.cls].burst)]
  {
    hide Gain;
    assert ValidLimiter(s.l);
    var b := l.budgets[key.cls];
    assert Swept(s.l.buckets, l.horizon, now) == map[];
    assert !Capped(s.l, now, key);
    assert Charged(b, None, now, b.burst) == (Bucket(0.0, now), true);
  }

  lemma {:induction false} DrainsRun(l: Limiter, key: Key, n: nat, to: int)
    requires NewlyMade(l) && key.cls in l.budgets && l.horizon > 0 && n * l.horizon <= to
    ensures Drained(Reach(l, Drains(l.horizon, key, l.budgets[key.cls].burst, n)), l, key, n, to)
  {
    hide Next, Run, ValidLimiter;
    var start := State(l, map[], map[], []);
    var b := l.budgets[key.cls];
    if n == 0 {
      DrainStep(start, l, key, 0);
      RunOne(start, Allow(0, key, b.burst));
      SpentAppend([], Admission(key, 0, b.burst), key, -1, to);
    } else {
      MulInt(n - 1, n, l.horizon);
      DrainsRun(l, key, n - 1, to);
      var before := Drains(l.horizon, key, b.burst, n - 1);
      var s := Reach(l, before);
      assert n * l.horizon - (n - 1) * l.horizon == l.horizon;
      DrainStep(s, l, key, n * l.horizon);
      RunAppend(start, before, [Allow(n * l.horizon, key, b.burst)]);
      RunOne(s, Allow(n * l.horizon, key, b.burst));
      assert n * l.horizon >= 0 by { MulInt(0, n, l.horizon); }
      SpentAppend(s.admitted, Admission(key, n * l.horizon, b.burst), key, -1, to);
      assert (n - 1 + 1) * b.burst + b.burst == (n + 1) * b.burst;
    }
  }

  /** What refill + 1 drains gain on an unsafe class exceeds one nanosecond's
      refill. */
  lemma DrainsExceed(b: Budget, h: int)
    requires ValidBudget(b) && h > 0 && h * b.refill < b.burst * b.interval
    ensures var n := b.refill + 1;
            ((n + 1) * b.burst) as real > b.burst as real + Gain(b, n * h + 1)
  {
    var n := b.refill + 1;
    var r, i := b.refill as real, b.interval as real;
    assert n * (b.burst * b.interval) >= n * (h * b.refill + 1) by {
      MulInt(h * b.refill + 1, b.burst * b.interval, n);
    }
    assert n * (h * b.refill + 1) == (n * h + 1) * b.refill + 1;
    assert n * (b.burst * b.interval) == (n * b.burst) * b.interval;
    assert ((n * b.burst) * b.interval) as real == (n * b.burst) as real * i;
    assert ((n * h + 1) * b.refill) as real == (n * h + 1) as real * r;
    assert (n * b.burst) as real * i > (n * h + 1) as real * r;
    DivCross((n * h + 1) as real * r, (n * b.burst) as real, i);
    assert (n + 1) * b.burst == n * b.burst + b.burst;
  }

  /** An unsafe class breaks the envelope in some run. */
  lemma UnsafeBreaksEnvelope(l: Limiter, cls: string, id: string)
    requires NewlyMade(l) && cls in l.budgets && !SweepSafe(l.horizon, l.budgets[cls])
    ensures var b := l.budgets[cls];
            var to := (b.refill + 1) * l.horizon;
            && to >= -1
            && !UnderEnvelope(b, Reach(l, Drains(l.horizon, Key(cls, id), b.burst, b.refill + 1)).admitted,
                              Key(cls, id), -1, to)
  {
    hide Run, Gain;
    var b := l.budgets[cls];
    var n := b.refill + 1;
    MulInt(0, n, l.horizon);
    DrainsRun(l, Key(cls, id), n, n * l.horizon);
    DrainsExceed(b, l.horizon);
  }

  /** The envelope holds in every run for every key of a class if and only if
      the horizon refills that class's bucket. */
  lemma EnvelopeExact(l: Limiter, cls: string)
    requires NewlyMade(l) && cls in l.budgets
    ensures (forall steps: seq<Step>, id: string, from: int, to: int | from <= to ::
               UnderEnvelope(l.budgets[cls], Reach(l, steps).admitted, Key(cls, id), from, to))
            <==> SweepSafe(l.horizon, l.budgets[cls])
  {
    hide UnderEnvelope, Run;
    if SweepSafe(l.horizon, l.budgets[cls]) {
      forall steps: seq<Step>, id: string, from: int, to: int | from <= to
        ensures UnderEnvelope(l.budgets[cls], Reach(l, steps).admitted, Key(cls, id), from, to)
      {
        EnvelopeHolds(l, steps, Key(cls, id), from, to);
      }
    } else {
      UnsafeBreaksEnvelope(l, cls, "");
    }
  }

  /** Limiter and never-swept twin decide a call alike after this run. */
  ghost predicate SameDecision(l: Limiter, steps: seq<Step>, now: int, key: Key, cost: int)
    requires NewlyMade(l)
  {
    && ValidLimiter(Reach(l, steps).l)
    && (AllowResult(Reach(l, steps).l, now, key, cost).1.allowed <==> UnsweptAllows(Reach(l, steps), now, key, cost))
  }

  /** After one drain an unsafe class is let through a horizon later, where the
      twin has not quite refilled. */
  lemma UnsafeSweepShows(l: Limiter, key: Key)
    requires NewlyMade(l) && key.cls in l.budgets && !SweepSafe(l.horizon, l.budgets[key.cls])
    ensures !SameDecision(l, [Allow(0, key, l.budgets[key.cls].burst)], l.horizon, key, l.budgets[key.cls].burst)
  {
    hide Run, Gain;
    var b := l.budgets[key.cls];
    var start := State(l, map[], map[], []);
    var s := Reach(l, [Allow(0, key, b.burst)]);
    DrainStep(start, l, key, 0);
    RunOne(start, Allow(0, key, b.burst));
    DrainStep(s, l, key, l.horizon);
    SafeMeansFull(l.horizon, b);
    assert !Capped(l, 0, key);
    assert Charged(b, None, 0, b.burst).0 == Bucket(0.0, 0);
    assert s.unswept == map[key := Bucket(0.0, 0)];
    assert !Charged(b, Some(Bucket(0.0, 0)), l.horizon, b.burst).1;
  }

  /** The sweep changes no decision of a class in any run if and only if the
      horizon refills that class's bucket. */
  lemma SweepExact(l: Limiter, cls: string)
    requires NewlyMade(l) && cls in l.budgets
    ensures (forall steps: seq<Step>, now: int, id: string, cost: int ::
               SameDecision(l, steps, now, Key(cls, id), cost))
            <==> SweepSafe(l.horizon, l.budgets[cls])
  {
    hide SameDecision;
    if SweepSafe(l.horizon, l.budgets[cls]) {
      forall steps: seq<Step>, now: int, id: string, cost: int ensures SameDecision(l, steps, now, Key(cls, id), cost) {
        SafeDecides(l, steps, now, Key(cls, id), cost);
      }
    } else {
      UnsafeSweepShows(l, Key(cls, ""));
    }
  }

  lemma SafeDecides(l: Limiter, steps: seq<Step>, now: int, key: Key, cost: int)
    requires NewlyMade(l) && key.cls in l.budgets && SweepSafe(l.horizon, l.budgets[key.cls])
    ensures SameDecision(l, steps, now, key, cost)
  {
    hide Run, SweepSafe, Inv;
    SweepInvisible(l, steps, now, key, cost);
  }

  const Minute := 60 * Second

  /** The budgets the server ships with. */
  const Shipped: map<string, Budget> := map[
    "login" := Budget(10, 10, Minute, 0),
    "oauth" := Budget(20, 20, Minute, 0),
    "enrollment" := Budget(20, 20, Minute, 0),
    "wss" := Budget(10, 10, Minute, 0),
    "admin" := Budget(20, 20, Minute, 0),
    "mcp" := Budget(120, 120, Minute, 8)]

  /** Both promises hold for every shipped class. */
  lemma ShippedClassesAreSafe(l: Limiter, cls: string)
    requires ValidLimiter(l) && l.budgets == Shipped && cls in Shipped
    ensures SweepSafe(l.horizon, Shipped[cls])
  {
    DivisibleIsSafe(l, cls);
  }
}
