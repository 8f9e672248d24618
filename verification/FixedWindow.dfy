/** The fixed-window limiter of the MCP gateway. */
module FixedWindow {
  import opened Common
  import opened Slots

  type Key = string

  datatype Bucket = Bucket(window: int, count: int)

  datatype Config = Config(requests: int, window: int, maxInFlight: int, maxKeys: int)

  predicate ValidConfig(c: Config) {
    c.requests > 0 && c.window > 0 && c.maxInFlight > 0 && c.maxKeys > 0
  }

  const DefaultMaxKeys := 4096

  /** Only a missing key cap has a default; every accepted configuration is valid. */
  function NewConfig(requests: int, window: int, maxInFlight: int, maxKeys: int): (r: Option<Config>)
    ensures r.Some? ==> ValidConfig(r.value)
    ensures r.Some? <==> exists cap :: ValidConfig(Config(requests, window, maxInFlight, cap))
    ensures r.Some? ==>
              && r.value.requests == requests && r.value.window == window && r.value.maxInFlight == maxInFlight
              && (maxKeys > 0 ==> r.value.maxKeys == maxKeys) && (maxKeys <= 0 ==> r.value.maxKeys == DefaultMaxKeys)
  {
    assert ValidConfig(Config(requests, window, maxInFlight, 1)) <==> requests > 0 && window > 0 && maxInFlight > 0;
    if requests <= 0 || window <= 0 || maxInFlight <= 0 then None
    else Some(Config(requests, window, maxInFlight, if maxKeys <= 0 then DefaultMaxKeys else maxKeys))
  }

  /** `lastObserved` is absent until the first call. */
  datatype Limiter = Limiter(rate: map<Key, Bucket>, inflight: map<Key, int>, lastSweep: int, lastObserved: Option<int>)

  const Fresh := Limiter(map[], map[], 0, None)

  /** Integer division as the machine does it, toward zero. */
  function TruncDiv(a: int, b: int): int
    requires b > 0
  {
    if a >= 0 then a / b else -((-a) / b)
  }

  function Index(c: Config, now: int): int
    requires ValidConfig(c)
  {
    TruncDiv(now, c.window)
  }

  function SweptRate(rate: map<Key, Bucket>, current: int): map<Key, Bucket> {
    map k | k in rate && rate[k].window >= current - 1 :: rate[k]
  }

  predicate Regressed(l: Limiter, now: int) {
    l.lastObserved.Some? && now < l.lastObserved.value
  }

  /** The state once the clock has been observed and old buckets swept. */
  function Observed(c: Config, l: Limiter, now: int): Limiter
    requires ValidConfig(c)
  {
    var index := Index(c, now);
    var seen := l.(lastObserved := Some(now));
    if index > l.lastSweep then seen.(rate := SweptRate(l.rate, index), lastSweep := index) else seen
  }

  predicate Full(c: Config, l: Limiter) {
    |l.rate.Keys| + |l.inflight.Keys| >= c.maxKeys
  }

  function Counted(b: Bucket, index: int): Bucket {
    if b.window != index then Bucket(index, 1) else Bucket(index, b.count + 1)
  }

  function AllowResult(c: Config, l: Limiter, now: int, key: Key): (Limiter, bool)
    requires ValidConfig(c)
  {
    if Regressed(l, now) then (l, false)
    else
      var seen := Observed(c, l, now);
      if key !in seen.rate && Full(c, seen) then (seen, false)
      else
        var bucket := Counted(if key in seen.rate then seen.rate[key] else Bucket(0, 0), Index(c, now));
        (seen.(rate := seen.rate[key := bucket]), bucket.count <= c.requests)
  }

  function AcquireResult(c: Config, l: Limiter, key: Key): (Limiter, bool) {
    if Held(l.inflight, key) >= c.maxInFlight || (key !in l.rate && Full(c, l)) then (l, false)
    else (l.(inflight := Taken(l.inflight, key)), true)
  }

  class MCPLimiter {
    const config: Config
    var rate: map<Key, Bucket>
    var inflight: map<Key, int>
    var lastSweep: int
    var lastObserved: Option<int>

    ghost function View(): Limiter
      reads this
    {
      Limiter(rate, inflight, lastSweep, lastObserved)
    }

    constructor (config: Config)
      requires ValidConfig(config)
      ensures View() == Fresh && this.config == config
    {
      this.config := config;
      rate, inflight, lastSweep, lastObserved := map[], map[], 0, None;
    }

    method SweepLocked(current: int)
      modifies this`rate
      ensures rate == SweptRate(old(rate), current)
    {
      var left := rate.Keys;
      while left != {}
        invariant left <= rate.Keys <= old(rate).Keys
        invariant forall k :: k in rate ==> rate[k] == old(rate)[k]
        invariant forall k :: k in old(rate) && k !in left ==> (k in rate <==> old(rate)[k].window >= current - 1)
        decreases |left|
      {
        var k :| k in left;
        left := left - {k};
        if rate[k].window < current - 1 {
          rate := rate - {k};
        }
      }
    }

    method Allow(now: int, key: Key) returns (ok: bool)
      requires ValidConfig(config)
      modifies this`rate, this`lastSweep, this`lastObserved
      ensures (View(), ok) == AllowResult(config, old(View()), now, key)
    {
      if lastObserved.Some? && now < lastObserved.value {
        return false;
      }
      lastObserved := Some(now);
      var index := TruncDiv(now, config.window);
      if index > lastSweep {
        SweepLocked(index);
        lastSweep := index;
      }
      if key !in rate && |rate.Keys| + |inflight.Keys| >= config.maxKeys {
        return false;
      }
      var bucket := if key in rate then rate[key] else Bucket(0, 0);
      if bucket.window != index {
        bucket := Bucket(index, 0);
      }
      bucket := bucket.(count := bucket.count + 1);
      rate := rate[key := bucket];
      ok := bucket.count <= config.requests;
    }

    method Acquire(key: Key) returns (ok: bool)
      modifies this`inflight
      ensures (View(), ok) == AcquireResult(config, old(View()), key)
    {
      if Held(inflight, key) >= config.maxInFlight {
        return false;
      }
      if key !in rate && |rate.Keys| + |inflight.Keys| >= config.maxKeys {
        return false;
      }
      inflight := inflight[key := Held(inflight, key) + 1];
      ok := true;
    }

    /** The once-guarded body of a release function. */
    method Release(key: Key)
      modifies this`inflight
      ensures inflight == Returned(old(inflight), key)
    {
      var held := Held(inflight, key);
      if held > 0 {
        held := held - 1;
        inflight := inflight[key := held];
      }
      if held == 0 {
        inflight := inflight - {key};
      }
    }
  }
}
