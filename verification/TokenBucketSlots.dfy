/** The token bucket's in-flight slots, its bound on tracked keys, and what it
    refuses without a trace. */
module TokenBucketSlots {
  import opened Slots
  import opened TokenBucket
  import opened TokenBucketRuns

  ghost predicate KeysBounded(l: Limiter) {
    |l.buckets.Keys + l.inflight.Keys| <= l.maxKeys
  }

  ghost predicate SlotsBounded(budgets: map<string, Budget>, inflight: map<Key, int>) {
    forall k :: k in inflight ==> k.cls in budgets && inflight[k] <= budgets[k.cls].maxInFlight
  }

  ghost predicate SlotInvariant(s: State) {
    ValidLimiter(s.l) && KeysBounded(s.l) && SlotsBounded(s.l.budgets, s.l.inflight)
    && Conserved(s.l.inflight, s.outstanding)
  }

  lemma SweptKeys(buckets: map<Key, Bucket>, horizon: int, now: int)
    ensures Swept(buckets, horizon, now).Keys <= buckets.Keys
  {
  }

  /** Which keys a call can leave tracked. */
  lemma KeysAfterAllow(l: Limiter, now: int, key: Key, cost: int)
    requires ValidLimiter(l)
    ensures var n := AllowResult(l, now, key, cost).0;
            var swept := Swept(l.buckets, l.horizon, now).Keys;
            && n.inflight == l.inflight && n.budgets == l.budgets && n.maxKeys == l.maxKeys && swept <= l.buckets.Keys
            && (n.buckets.Keys == l.buckets.Keys || n.buckets.Keys == swept
                || (n.buckets.Keys == swept + {key} && (key in swept || |swept| + |l.inflight.Keys| < l.maxKeys)))
  {
    hide Charged, Retry, Swept, ValidLimiter;
    BudgetsOf(l, key);
    SweptKeys(l.buckets, l.horizon, now);
  }

  lemma BudgetsOf(l: Limiter, key: Key)
    requires ValidLimiter(l)
    ensures key.cls in l.budgets ==> ValidBudget(l.budgets[key.cls])
  {
  }

  lemma AllowKeepsSlots(s: State, now: int, key: Key, cost: int)
    requires SlotInvariant(s)
    ensures SlotInvariant(Next(s, Allow(now, key, cost)))
  {
    hide AllowResult, SlotsBounded, Conserved, ValidLimiter, Swept, Charged, Reaches;
    KeysAfterAllow(s.l, now, key, cost);
    NextValid(s, Allow(now, key, cost));
    var swept := Swept(s.l.buckets, s.l.horizon, now).Keys;
    SubsetSize(swept + s.l.inflight.Keys, s.l.buckets.Keys + s.l.inflight.Keys);
    AddedKey(swept, s.l.inflight.Keys, key, s.l.maxKeys);
  }

  lemma AcquireKeepsSlots(s: State, key: Key, slot: nat)
    requires SlotInvariant(s)
    ensures SlotInvariant(Next(s, Acquire(key, slot)))
  {
    hide SlotsBounded, Conserved, ValidLimiter, Taken, Held;
    NextValid(s, Acquire(key, slot));
    if AcquireResult(s.l, key).1 && slot !in s.outstanding {
      TakenConserved(s.l.inflight, s.outstanding, key, slot);
      AddedKey(s.l.buckets.Keys, s.l.inflight.Keys, key, s.l.maxKeys);
      TakenBounded(s.l.budgets, s.l.inflight, key);
    }
  }

  lemma TakenBounded(budgets: map<string, Budget>, inflight: map<Key, int>, key: Key)
    requires SlotsBounded(budgets, inflight) && key.cls in budgets && Held(inflight, key) < budgets[key.cls].maxInFlight
    ensures SlotsBounded(budgets, Taken(inflight, key)) && Taken(inflight, key).Keys == inflight.Keys + {key}
  {
  }

  lemma ReleasedBounded(budgets: map<string, Budget>, inflight: map<Key, int>, outstanding: map<nat, Key>, slot: nat)
    requires SlotsBounded(budgets, inflight) && Conserved(inflight, outstanding)
    ensures SlotsBounded(budgets, Slots.Release(inflight, outstanding, slot))
    ensures Slots.Release(inflight, outstanding, slot).Keys <= inflight.Keys
  {
    if slot in outstanding {
      assert slot in Holders(outstanding, outstanding[slot]);
      assert Held(inflight, outstanding[slot]) > 0;
    }
  }

  lemma ReleaseKeepsSlots(s: State, slot: nat)
    requires SlotInvariant(s)
    ensures SlotInvariant(Next(s, Release(slot)))
  {
    hide SlotsBounded, Conserved, ValidLimiter, Slots.Release;
    NextValid(s, Release(slot));
    ReleaseConserved(s.l.inflight, s.outstanding, slot);
    ReleasedBounded(s.l.budgets, s.l.inflight, s.outstanding, slot);
    SubsetSize(s.l.buckets.Keys + Slots.Release(s.l.inflight, s.outstanding, slot).Keys,
               s.l.buckets.Keys + s.l.inflight.Keys);
  }

  lemma {:induction false} SlotRun(s: State, steps: seq<Step>)
    requires SlotInvariant(s)
    ensures ValidLimiter(s.l) && SlotInvariant(Run(s, steps))
    decreases |steps|
  {
    hide Next, KeysBounded, SlotsBounded, Conserved, ValidLimiter;
    if steps != [] {
      match steps[0] {
        case Allow(now, key, cost) => AllowKeepsSlots(s, now, key, cost);
        case Acquire(key, slot) => AcquireKeepsSlots(s, key, slot);
        case Release(slot) => ReleaseKeepsSlots(s, slot);
      }
      SlotRun(Next(s, steps[0]), steps[1..]);
    }
  }

  /** In any run a key holds as many slots as were granted and not released, no
      more than its class allows, and the keys tracked never exceed maxKeys. */
  lemma SlotsConserved(l: Limiter, steps: seq<Step>, key: Key)
    requires NewlyMade(l)
    ensures var s := Reach(l, steps);
            && Held(s.l.inflight, key) == |Holders(s.outstanding, key)|
            && (Held(s.l.inflight, key) > 0 ==>
                  key.cls in s.l.budgets && Held(s.l.inflight, key) <= s.l.budgets[key.cls].maxInFlight)
            && |s.l.buckets.Keys + s.l.inflight.Keys| <= s.l.maxKeys
  {
    hide Run, ValidLimiter;
    var start := State(l, map[], map[], []);
    assert Conserved<Key>(map[], map[]) by {
      forall k: Key ensures Holders<Key>(map[], k) == {} {}
    }
    assert KeysBounded(l) by { MaxKeysOf(l); }
    SlotRun(start, steps);
  }

  lemma MaxKeysOf(l: Limiter)
    requires ValidLimiter(l)
    ensures l.maxKeys > 0
  {
  }

  // ----------------------------------------------------------- refusals

  predicate SeenSince(l: Limiter, at: int) {
    l.lastObserved.Some? && l.lastObserved.value >= at
  }

  lemma {:induction false} ClockKept(s: State, steps: seq<Step>, at: int)
    requires ValidLimiter(s.l) && SeenSince(s.l, at)
    ensures var n := Run(s, steps); ValidLimiter(n.l) && n.l.budgets == s.l.budgets && SeenSince(n.l, at)
    decreases |steps|
  {
    hide Charged, Capped, Swept, Retry, ValidLimiter, Next;
    if steps != [] {
      NextValid(s, steps[0]);
      ClockStep(s, steps[0], at);
      ClockKept(Next(s, steps[0]), steps[1..], at);
    }
  }

  lemma ClockStep(s: State, step: Step, at: int)
    requires ValidLimiter(s.l) && SeenSince(s.l, at)
    ensures SeenSince(Next(s, step).l, at)
  {
    hide Charged, Capped, Swept, Retry;
  }

  /** An unknown class and a cost that is not positive are refused without any
      effect; so is, for the rest of the run, every call at an earlier time than
      some call of a known class before it, let through or not. */
  lemma RefusedWithoutEffect(l: Limiter, before: seq<Step>, at: int, other: Key, cost': int, after: seq<Step>,
                             now: int, key: Key, cost: int)
    requires NewlyMade(l) && Known(l, other, cost') && (now < at || !Known(l, key, cost))
    ensures var m := Reach(l, before);
            && ValidLimiter(m.l) && ValidLimiter(Next(m, Allow(at, other, cost')).l)
            && var s := Run(Next(m, Allow(at, other, cost')), after);
               && ValidLimiter(s.l)
               && Next(s, Allow(now, key, cost)) == s && !AllowResult(s.l, now, key, cost).1.allowed
  {
    hide Charged, Capped, Swept, Retry, Run, ValidLimiter;
    BudgetsKept(State(l, map[], map[], []), before);
    var m := Reach(l, before);
    NextValid(m, Allow(at, other, cost'));
    var s := Next(m, Allow(at, other, cost'));
    assert SeenSince(s.l, at);
    ClockKept(s, after, at);
  }

  lemma {:induction false} BudgetsKept(s: State, steps: seq<Step>)
    requires ValidLimiter(s.l)
    ensures ValidLimiter(Run(s, steps).l) && Run(s, steps).l.budgets == s.l.budgets
    decreases |steps|
  {
    hide Next, ValidLimiter;
    if steps != [] {
      NextValid(s, steps[0]);
      BudgetsKept(Next(s, steps[0]), steps[1..]);
    }
  }
}
