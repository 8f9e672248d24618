/** Which keys the token bucket tracks, and who gets a slot. */
module TokenBucketTracking {
  import opened Slots
  import opened TokenBucket
  import opened TokenBucketLevel
  import opened TokenBucketRuns
  import opened TokenBucketSlots

  /** A bucket was touched when its twin was; a twin alone was not for a horizon. */
  ghost predicate SameTouch(l: Limiter, unswept: map<Key, Bucket>, key: Key) {
    && (key in l.buckets ==> key in unswept && unswept[key].last == l.buckets[key].last)
    && (key in unswept && key !in l.buckets ==>
          l.horizon > 0 && l.lastObserved.Some? && l.lastObserved.value - unswept[key].last >= l.horizon)
  }

  lemma TouchStep(s: State, step: Step, key: Key)
    requires Inv(s) && ValidLimiter(s.l) && SameTouch(s.l, s.unswept, key)
    ensures SameTouch(Next(s, step).l, Next(s, step).unswept, key)
  {
    hide Charged, SweepSafe, Retry, Capped, ValidLimiter, AcquireResult, Slots.Release;
    assert BucketInv(s.l, s.unswept, key) && BucketInv(s.l, s.l.buckets, key);
    if step.Acquire? { AcquireKeeps(s.l, step.key); }
    if step.Allow? && Reaches(s.l, step.now, step.key, step.cost) && step.key == key {
      BudgetsOf(s.l, key);
      ChargedBounds(s.l.budgets[key.cls], Find(s.unswept, key), step.now, step.cost);
      ChargedBounds(s.l.budgets[key.cls], Find(Swept(s.l.buckets, s.l.horizon, step.now), key), step.now, step.cost);
    }
  }

  lemma {:induction false} TouchRun(s: State, steps: seq<Step>, key: Key)
    requires Inv(s) && ValidLimiter(s.l) && SameTouch(s.l, s.unswept, key)
    ensures var n := Run(s, steps); SameTouch(n.l, n.unswept, key)
    decreases |steps|
  {
    hide Inv, Next, SameTouch, ValidLimiter;
    if steps != [] {
      TouchStep(s, steps[0], key);
      NextInv(s, steps[0]);
      NextValid(s, steps[0]);
      TouchRun(Next(s, steps[0]), steps[1..], key);
    }
  }

  /** The keys a call finds tracked are those touched less than a horizon ago,
      however often the limiter swept. */
  lemma TrackedExact(l: Limiter, steps: seq<Step>, now: int)
    requires NewlyMade(l)
    requires forall i :: 0 <= i < |steps| && steps[i].Allow? ==> steps[i].now <= now
    ensures var s := Reach(l, steps);
            forall k :: k in Tracked(s.l, now) <==>
                          k in s.unswept && (l.horizon <= 0 || now - s.unswept[k].last < l.horizon)
  {
    hide Run, Inv, ValidLimiter;
    var start := State(l, map[], map[], []);
    StartInv(l);
    ReachInv(l, steps);
    ObservedCall(start, steps, now);
    var s := Reach(l, steps);
    forall k
      ensures k in Tracked(s.l, now) <==>
                k in s.unswept && (l.horizon <= 0 || now - s.unswept[k].last < l.horizon)
    {
      TouchRun(start, steps, k);
    }
  }

  /** A key is touched by every call of a known class at a positive cost that the
      clock and the cap do not turn away, let through or not. */
  lemma TouchedExact(l: Limiter, steps: seq<Step>, now: int, key: Key, cost: int, k: Key)
    requires NewlyMade(l)
    requires forall i :: 0 <= i < |steps| && steps[i].Allow? ==> steps[i].now <= now
    ensures var s := Reach(l, steps);
            && ValidLimiter(s.l)
            && var n := Next(s, Allow(now, key, cost));
               var touched := && key.cls in l.budgets && cost > 0
                              && (key in Tracked(s.l, now)
                                  || |Tracked(s.l, now)| + |s.outstanding.Values| < l.maxKeys);
               && (k in n.unswept <==> k in s.unswept || (k == key && touched))
               && (k in n.unswept ==> n.unswept[k].last == if k == key && touched then now else s.unswept[k].last)
  {
    hide Run, Inv, Charged, SweepSafe, Retry, SlotInvariant;
    var start := State(l, map[], map[], []);
    StartInv(l);
    ReachInv(l, steps);
    SlotsReach(l, steps);
    ObservedCall(start, steps, now);
    var s := Reach(l, steps);
    KeysOf(s);
    assert Swept(s.l.buckets, s.l.horizon, now).Keys == Tracked(s.l, now);
    if Reaches(s.l, now, key, cost) {
      BucketOf(s, key);
      ChargedBounds(s.l.budgets[key.cls], Find(s.unswept, key), now, cost);
    }
  }

  lemma KeysOf(s: State)
    requires SlotInvariant(s)
    ensures s.l.inflight.Keys == s.outstanding.Values
  {
    HeldKeys(s.l.inflight, s.outstanding);
  }

  /** A slot is granted exactly if the class allows slots at all, the key holds
      fewer than it may, and the key is tracked or there is room for it. */
  lemma AcquireExact(l: Limiter, steps: seq<Step>, key: Key)
    requires NewlyMade(l)
    ensures var s := Reach(l, steps);
            AcquireResult(s.l, key).1 <==>
              && key.cls in l.budgets && |Holders(s.outstanding, key)| < l.budgets[key.cls].maxInFlight
              && (key in s.l.buckets || |s.l.buckets| + |s.outstanding.Values| < l.maxKeys)
  {
    hide Run, ValidLimiter;
    SlotsReach(l, steps);
    var s := Reach(l, steps);
    KeysOf(s);
    assert Held(s.l.inflight, key) == |Holders(s.outstanding, key)|;
    hide Conserved, Holders;
  }

  lemma SlotsReach(l: Limiter, steps: seq<Step>)
    requires NewlyMade(l)
    ensures var s := Reach(l, steps);
            SlotInvariant(s) && s.l.budgets == l.budgets && s.l.maxKeys == l.maxKeys && s.l.horizon == l.horizon
  {
    hide Run, SlotInvariant, ValidLimiter;
    SlotsStart(l);
    SlotRun(State(l, map[], map[], []), steps);
    SettingsKept(State(l, map[], map[], []), steps);
  }

  lemma SlotsStart(l: Limiter)
    requires NewlyMade(l)
    ensures SlotInvariant(State(l, map[], map[], []))
  {
    assert Conserved<Key>(map[], map[]) by {
      forall k: Key ensures Holders<Key>(map[], k) == {} {}
    }
  }

  lemma {:induction false} SettingsKept(s: State, steps: seq<Step>)
    requires ValidLimiter(s.l)
    ensures var n := Run(s, steps);
            n.l.budgets == s.l.budgets && n.l.maxKeys == s.l.maxKeys && n.l.horizon == s.l.horizon
    decreases |steps|
  {
    hide ValidLimiter, Charged, Capped, Swept, Retry, AcquireResult, Slots.Release;
    if steps != [] {
      NextValid(s, steps[0]);
      if steps[0].Acquire? { AcquireKeeps(s.l, steps[0].key); }
      SettingsKept(Next(s, steps[0]), steps[1..]);
    }
  }
}
