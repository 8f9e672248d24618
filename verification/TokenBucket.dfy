/** The general token-bucket limiter. Times and durations are whole nanoseconds;
    token counts are reals, standing for the code's floats without rounding. */
module TokenBucket {
  import opened Common
  import opened Slots

  datatype Key = Key(cls: string, id: string)

  datatype Budget = Budget(burst: int, refill: int, interval: int, maxInFlight: int)

  datatype Bucket = Bucket(tokens: real, last: int)

  datatype Decision = Decision(allowed: bool, retryAfter: int)

  datatype Limiter = Limiter(
    budgets: map<string, Budget>,
    maxKeys: int,
    horizon: int,
    buckets: map<Key, Bucket>,
    inflight: map<Key, int>,
    lastObserved: Option<int>)

  const Second := 1_000_000_000
  const Millisecond := 1_000_000
  const DefaultMaxKeys := 4096

  predicate ValidBudget(b: Budget) {
    b.burst > 0 && b.refill > 0 && b.interval > 0 && b.maxInFlight >= 0
  }

  predicate ValidLimiter(l: Limiter) {
    && (forall cls :: cls in l.budgets ==> ValidBudget(l.budgets[cls]))
    && l.maxKeys > 0
    && (forall cls :: cls in l.budgets ==> FullTime(l.budgets[cls]) <= l.horizon)
    && 0 <= l.horizon
  }

  /** The time to refill an empty bucket, cut to whole nanoseconds. */
  function FullTime(b: Budget): int
    requires ValidBudget(b)
  {
    b.interval * b.burst / b.refill
  }

  function Gain(b: Budget, elapsed: int): real
    requires ValidBudget(b)
  {
    elapsed as real * b.refill as real / b.interval as real
  }

  function MinReal(x: real, y: real): real {
    if x <= y then x else y
  }

  function Refilled(b: Budget, bucket: Bucket, now: int): Bucket
    requires ValidBudget(b)
  {
    if now > bucket.last then Bucket(MinReal(b.burst as real, bucket.tokens + Gain(b, now - bucket.last)), now)
    else bucket
  }

  /** What a call does to a key's bucket, existing or not. */
  function Charged(b: Budget, bucket: Option<Bucket>, now: int, cost: int): (r: (Bucket, bool))
    requires ValidBudget(b)
  {
    var full := Refilled(b, if bucket.Some? then bucket.value else Bucket(b.burst as real, now), now);
    if full.tokens >= cost as real then (full.(tokens := full.tokens - cost as real), true) else (full, false)
  }

  function Retry(b: Budget, tokens: real, cost: int): int
    requires ValidBudget(b)
  {
    var retry := ((cost as real - tokens) * b.interval as real / b.refill as real).Floor;
    if retry <= 0 then Millisecond else retry
  }

  function Swept(buckets: map<Key, Bucket>, horizon: int, now: int): map<Key, Bucket> {
    if horizon <= 0 then buckets
    else map k | k in buckets && now - buckets[k].last < horizon :: buckets[k]
  }

  predicate Known(l: Limiter, key: Key, cost: int) {
    key.cls in l.budgets && cost > 0
  }

  predicate Regressed(l: Limiter, now: int) {
    l.lastObserved.Some? && now < l.lastObserved.value
  }

  predicate Capped(l: Limiter, now: int, key: Key) {
    key !in Swept(l.buckets, l.horizon, now) && |Swept(l.buckets, l.horizon, now).Keys| + |l.inflight.Keys| >= l.maxKeys
  }

  function Find<V>(m: map<Key, V>, key: Key): Option<V> {
    if key in m then Some(m[key]) else None
  }

  function AllowResult(l: Limiter, now: int, key: Key, cost: int): (Limiter, Decision)
    requires ValidLimiter(l)
  {
    if !Known(l, key, cost) then (l, Decision(false, Second))
    else
      var b := l.budgets[key.cls];
      if Regressed(l, now) then (l, Decision(false, b.interval))
      else
        var seen := l.(lastObserved := Some(now), buckets := Swept(l.buckets, l.horizon, now));
        if Capped(l, now, key) then (seen, Decision(false, b.interval))
        else
          var (bucket, ok) := Charged(b, Find(seen.buckets, key), now, cost);
          (seen.(buckets := seen.buckets[key := bucket]),
           if ok then Decision(true, 0) else Decision(false, Retry(b, bucket.tokens, cost)))
  }

  /** A caller is told to wait exactly if it is turned away. */
  lemma RetryIffDenied(l: Limiter, now: int, key: Key, cost: int)
    requires ValidLimiter(l)
    ensures AllowResult(l, now, key, cost).1.retryAfter > 0 <==> !AllowResult(l, now, key, cost).1.allowed
  {
    hide Charged, Capped, Swept;
  }

  function AcquireResult(l: Limiter, key: Key): (Limiter, bool) {
    if key.cls !in l.budgets || l.budgets[key.cls].maxInFlight <= 0
       || Held(l.inflight, key) >= l.budgets[key.cls].maxInFlight
       || (key !in l.buckets && |l.buckets.Keys| + |l.inflight.Keys| >= l.maxKeys)
    then (l, false)
    else (l.(inflight := Taken(l.inflight, key)), true)
  }

  /** NewLimiter: the horizon is the longest refill time of any class. */
  method NewLimiter(budgets: map<string, Budget>, maxKeys: int) returns (r: Option<Limiter>)
    ensures r.None? <==> budgets == map[] || exists cls :: cls in budgets && !ValidBudget(budgets[cls])
    ensures r.Some? ==>
              && ValidLimiter(r.value) && r.value.budgets == budgets
              && r.value.maxKeys == (if maxKeys <= 0 then DefaultMaxKeys else maxKeys)
              && r.value.buckets == map[] && r.value.inflight == map[] && r.value.lastObserved.None?
              && (r.value.horizon == 0 || exists cls :: cls in budgets && r.value.horizon == FullTime(budgets[cls]))
  {
    if budgets == map[] {
      return None;
    }
    var horizon := 0;
    var left := budgets.Keys;
    while left != {}
      invariant left <= budgets.Keys && horizon >= 0
      invariant forall cls :: cls in budgets && cls !in left ==>
                  ValidBudget(budgets[cls]) && FullTime(budgets[cls]) <= horizon
      invariant horizon == 0 || exists cls :: cls in budgets && cls !in left && horizon == FullTime(budgets[cls])
      decreases |left|
    {
      var cls :| cls in left;
      left := left - {cls};
      var budget := budgets[cls];
      if budget.burst <= 0 || budget.refill <= 0 || budget.interval <= 0 || budget.maxInFlight < 0 {
        return None;
      }
      var full := budget.interval * budget.burst / budget.refill;
      if full > horizon {
        horizon := full;
      }
    }
    r := Some(Limiter(budgets, if maxKeys <= 0 then DefaultMaxKeys else maxKeys, horizon, map[], map[], None));
  }

  class RateLimiter {
    const budgets: map<string, Budget>
    const maxKeys: int
    const horizon: int
    var buckets: map<Key, Bucket>
    var inflight: map<Key, int>
    var lastObserved: Option<int>

    ghost function View(): Limiter
      reads this
    {
      Limiter(budgets, maxKeys, horizon, buckets, inflight, lastObserved)
    }

    constructor (l: Limiter)
      requires ValidLimiter(l)
      ensures View() == l
    {
      budgets, maxKeys, horizon := l.budgets, l.maxKeys, l.horizon;
      buckets, inflight, lastObserved := l.buckets, l.inflight, l.lastObserved;
    }

    method SweepLocked(now: int)
      modifies this`buckets
      ensures buckets == Swept(old(buckets), horizon, now)
    {
      if horizon <= 0 {
        return;
      }
      var left := buckets.Keys;
      while left != {}
        invariant left <= buckets.Keys <= old(buckets).Keys
        invariant forall k :: k in buckets ==> buckets[k] == old(buckets)[k]
        invariant forall k :: k in old(buckets) && k !in left ==>
                    (k in buckets <==> now - old(buckets)[k].last < horizon)
        decreases |left|
      {
        var k :| k in left;
        left := left - {k};
        if now - buckets[k].last >= horizon {
          buckets := buckets - {k};
        }
      }
    }

    method Allow(now: int, key: Key, cost: int) returns (d: Decision)
      requires ValidLimiter(View())
      modifies this`buckets, this`lastObserved
      ensures (View(), d) == AllowResult(old(View()), now, key, cost)
    {
      hide ValidLimiter, Retry, Swept;
      if key.cls !in budgets || cost <= 0 {
        return Decision(false, Second);
      }
      var b := budgets[key.cls];
      assert ValidBudget(b) by { BudgetOf(View(), key.cls); }
      if lastObserved.Some? && now < lastObserved.value {
        return Decision(false, b.interval);
      }
      lastObserved := Some(now);
      SweepLocked(now);
      var bucket;
      if key !in buckets {
        if |buckets.Keys| + |inflight.Keys| >= maxKeys {
          return Decision(false, b.interval);
        }
        bucket := Bucket(b.burst as real, now);
      } else {
        bucket := buckets[key];
      }
      var elapsed := now - bucket.last;
      if elapsed > 0 {
        bucket := Bucket(MinReal(b.burst as real, bucket.tokens + Gain(b, elapsed)), now);
      }
      if bucket.tokens >= cost as real {
        buckets := buckets[key := bucket.(tokens := bucket.tokens - cost as real)];
        return Decision(true, 0);
      }
      buckets := buckets[key := bucket];
      d := Decision(false, Retry(b, bucket.tokens, cost));
    }

    method Acquire(key: Key) returns (ok: bool)
      modifies this`inflight
      ensures (View(), ok) == AcquireResult(old(View()), key)
    {
      if key.cls !in budgets || budgets[key.cls].maxInFlight <= 0 {
        return false;
      }
      if Held(inflight, key) >= budgets[key.cls].maxInFlight {
        return false;
      }
      if key !in buckets && |buckets.Keys| + |inflight.Keys| >= maxKeys {
        return false;
      }
      inflight := inflight[key := Held(inflight, key) + 1];
      ok := true;
    }
  }

  lemma BudgetOf(l: Limiter, cls: string)
    requires ValidLimiter(l) && cls in l.budgets
    ensures ValidBudget(l.budgets[cls])
  {
  }
}
