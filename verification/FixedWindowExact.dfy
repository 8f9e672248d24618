/** The fixed window told without the limiter's state: who is let through, and
    who gets a slot, from the calls that were made. */
module FixedWindowExact {
  import opened Common
  import opened Slots
  import opened FixedWindow
  import opened FixedWindowRuns

  /** The times of all calls, let through or not. */
  function Times(steps: seq<Step>): set<int> {
    set i | 0 <= i < |steps| && steps[i].Allow? :: steps[i].now
  }

  /** A count of index `i` is remembered at `now`: sweeps go back one index and
      start at the epoch. */
  predicate Remembered(c: Config, i: int, now: int)
    requires ValidConfig(c)
  {
    Index(c, now) <= 0 || i >= Index(c, now) - 1
  }

  /** The keys with a count that is remembered. */
  function Tracked(c: Config, spent: map<Tick, int>, now: int): set<Key>
    requires ValidConfig(c)
  {
    set t | t in spent && Remembered(c, t.index, now) :: t.key
  }

  /** A key is tracked already, or there is room for one more. */
  predicate HasRoom(c: Config, s: State, now: int, key: Key)
    requires ValidConfig(c)
  {
    key in Tracked(c, s.spent, now) || |Tracked(c, s.spent, now)| + |s.outstanding.Values| < c.maxKeys
  }

  // ------------------------------------------------------------ invariant

  ghost predicate Clock(c: Config, l: Limiter, times: set<int>)
    requires ValidConfig(c)
  {
    match l.lastObserved
    case None => times == {} && l.lastSweep == 0
    case Some(now) =>
      && now in times && (forall t :: t in times ==> t <= now)
      && l.lastSweep == if Index(c, now) > 0 then Index(c, now) else 0
  }

  predicate Fresher(lastSweep: int, i: int) {
    lastSweep <= 0 || i >= lastSweep - 1
  }

  /** A bucket stands for its key's latest count, as long as that is remembered. */
  ghost predicate Buckets(l: Limiter, spent: map<Tick, int>) {
    && (forall k :: k in l.rate ==> Tick(k, l.rate[k].window) in spent && Fresher(l.lastSweep, l.rate[k].window))
    && (forall t :: t in spent && Fresher(l.lastSweep, t.index) ==> t.key in l.rate)
    && (forall t :: t in spent && t.key in l.rate ==> t.index <= l.rate[t.key].window)
  }

  ghost predicate ExactInv(c: Config, s: State, times: set<int>)
    requires ValidConfig(c)
  {
    Inv(c, s) && Clock(c, s.l, times) && Buckets(s.l, s.spent)
  }

  lemma SweptBuckets(l: Limiter, spent: map<Tick, int>, index: int)
    requires Buckets(l, spent) && index > l.lastSweep && l.lastSweep >= 0
    ensures Buckets(l.(rate := SweptRate(l.rate, index), lastSweep := index), spent)
  {
    var n := l.(rate := SweptRate(l.rate, index), lastSweep := index);
    forall t | t in spent && Fresher(index, t.index) ensures t.key in n.rate {
      assert Fresher(l.lastSweep, t.index);
    }
  }

  lemma ObservedBuckets(c: Config, l: Limiter, spent: map<Tick, int>, times: set<int>, now: int)
    requires ValidConfig(c) && Clock(c, l, times) && Buckets(l, spent) && !Regressed(l, now)
    ensures var seen := Observed(c, l, now);
            Buckets(seen, spent) && Clock(c, seen, times + {now})
  {
    hide Index, SweptRate, Buckets;
    if l.lastObserved.Some? { IndexMonotone(c, l.lastObserved.value, now); }
    ClockIrrelevant(l, spent, now);
    if Index(c, now) > l.lastSweep { SweptBuckets(l.(lastObserved := Some(now)), spent, Index(c, now)); }
    ClockIrrelevant(l.(rate := SweptRate(l.rate, Index(c, now)), lastSweep := Index(c, now)), spent, now);
  }

  lemma ClockIrrelevant(l: Limiter, spent: map<Tick, int>, now: int)
    ensures Buckets(l.(lastObserved := Some(now)), spent) <==> Buckets(l, spent)
  {
  }

  /** What is remembered is what the buckets stand for. */
  lemma TrackedKeys(c: Config, l: Limiter, spent: map<Tick, int>, times: set<int>, now: int)
    requires ValidConfig(c) && Clock(c, l, times) && Buckets(l, spent) && l.lastObserved == Some(now)
    ensures l.rate.Keys == Tracked(c, spent, now)
  {
    hide Index;
    forall k ensures k in l.rate <==> k in Tracked(c, spent, now) {
      if k in l.rate {
        var t := Tick(k, l.rate[k].window);
        assert t in spent && Remembered(c, t.index, now) && t.key == k;
      }
      if k in Tracked(c, spent, now) {
        var t :| t in spent && Remembered(c, t.index, now) && t.key == k;
        assert Fresher(l.lastSweep, t.index);
      }
    }
  }

  lemma CountedBuckets(c: Config, l: Limiter, spent: map<Tick, int>, now: int, key: Key, count: int, n: int)
    requires ValidConfig(c) && Buckets(l, spent) && SpentInv(c, l, spent) && l.lastObserved == Some(now)
    requires Fresher(l.lastSweep, Index(c, now))
    ensures var index := Index(c, now);
            Buckets(l.(rate := l.rate[key := Bucket(index, count)]), spent[Tick(key, index) := n])
  {
    hide Index;
  }

  lemma Freshest(c: Config, l: Limiter, times: set<int>, now: int)
    requires ValidConfig(c) && Clock(c, l, times) && l.lastObserved == Some(now)
    ensures Fresher(l.lastSweep, Index(c, now))
  {
    hide Index;
  }

  /** Whether the limiter turns a call away, without the limiter. */
  lemma CappedIfNoRoom(c: Config, s: State, times: set<int>, now: int, key: Key)
    requires ValidConfig(c) && ExactInv(c, s, times) && !Regressed(s.l, now)
    ensures Capped(c, s.l, now, key) <==> !HasRoom(c, s, now, key)
  {
    hide Index, SpentInv, AdmittedInv, Bounded, Buckets, Clock, Conserved, Tracked;
    ObservedBuckets(c, s.l, s.spent, times, now);
    ObservedKeys(c, s.l, now);
    TrackedKeys(c, Observed(c, s.l, now), s.spent, times + {now}, now);
    HeldKeys(s.l.inflight, s.outstanding);
  }

  lemma RegressedIfEarlier(c: Config, l: Limiter, times: set<int>, now: int)
    requires ValidConfig(c) && Clock(c, l, times)
    ensures Regressed(l, now) <==> exists t :: t in times && now < t
  {
    hide Index;
  }

  lemma AllowExactInv(c: Config, s: State, times: set<int>, now: int, key: Key)
    requires ValidConfig(c) && ExactInv(c, s, times)
    ensures ExactInv(c, Next(c, s, Allow(now, key)), times + {now})
  {
    hide Index, AdmittedInv, Bounded, Buckets, SpentInv, Observed, Conserved, Clock;
    AllowInv(c, s, now, key);
    if Regressed(s.l, now) {
      SameClock(c, s.l, times, now);
    } else {
      var seen := Observed(c, s.l, now);
      ObservedBuckets(c, s.l, s.spent, times, now);
      ObservedInv(c, s.l, now, s.spent);
      SeenNow(c, s.l, now);
      Freshest(c, seen, times + {now}, now);
      var bucket := Counted(if key in seen.rate then seen.rate[key] else Bucket(0, 0), Index(c, now));
      CountedBuckets(c, seen, s.spent, now, key, bucket.count, Spent(s.spent, key, Index(c, now)) + 1);
      RateIrrelevant(c, seen, times + {now}, seen.rate[key := bucket]);
    }
  }

  lemma SeenNow(c: Config, l: Limiter, now: int)
    requires ValidConfig(c)
    ensures Observed(c, l, now).lastObserved == Some(now)
  {
    hide Index;
  }

  lemma RateIrrelevant(c: Config, l: Limiter, times: set<int>, rate: map<Key, Bucket>)
    requires ValidConfig(c) && Clock(c, l, times)
    ensures Clock(c, l.(rate := rate), times)
  {
    hide Index;
  }

  lemma SameClock(c: Config, l: Limiter, times: set<int>, now: int)
    requires ValidConfig(c) && Clock(c, l, times) && Regressed(l, now)
    ensures Clock(c, l, times + {now})
  {
    hide Index;
  }

  lemma SlotStepExact(c: Config, s: State, times: set<int>, step: Step)
    requires ValidConfig(c) && ExactInv(c, s, times) && !step.Allow?
    ensures ExactInv(c, Next(c, s, step), times)
  {
    hide Index, Inv, Slots.Release, Taken;
    match step
    case Acquire(key, slot) => AcquireInv(c, s, key, slot);
    case Release(slot) => ReleaseInv(c, s, slot);
  }

  lemma {:induction false} ReachExact(c: Config, steps: seq<Step>)
    requires ValidConfig(c)
    ensures ExactInv(c, Reach(c, steps), Times(steps))
    decreases |steps|
  {
    hide Index, Next, Inv, Run, Buckets;
    if steps == [] {
      ReachInv(c, steps);
      assert Reach(c, []) == Initial by { NoSteps(c); }
      assert Buckets(Initial.l, Initial.spent) by { NoBuckets(); }
    } else {
      var before, last := steps[..|steps| - 1], steps[|steps| - 1];
      ReachExact(c, before);
      assert steps == before + [last];
      RunSnoc(c, Initial, before, last);
      TimesSnoc(before, last);
      hide ExactInv;
      if last.Allow? {
        AllowExactInv(c, Reach(c, before), Times(before), last.now, last.key);
      } else {
        SlotStepExact(c, Reach(c, before), Times(before), last);
      }
    }
  }

  lemma NoSteps(c: Config)
    requires ValidConfig(c)
    ensures Reach(c, []) == Initial
  {
  }

  lemma NoBuckets()
    ensures Buckets(Initial.l, Initial.spent)
  {
  }

  lemma TimesSnoc(steps: seq<Step>, step: Step)
    ensures Times(steps + [step]) == Times(steps) + (if step.Allow? then {step.now} else {})
  {
    var all := steps + [step];
    assert all[|steps|] == step;
    forall t | t in Times(steps) ensures t in Times(all) {
      var i :| 0 <= i < |steps| && steps[i].Allow? && steps[i].now == t;
      assert all[i] == steps[i];
    }
  }

  lemma {:induction false} RunSnoc(c: Config, s: State, steps: seq<Step>, step: Step)
    requires ValidConfig(c)
    ensures Run(c, s, steps + [step]) == Next(c, Run(c, s, steps), step)
    decreases |steps|
  {
    hide Next;
    if steps == [] {
      assert Run(c, Next(c, s, step), []) == Next(c, s, step);
    } else {
      assert (steps + [step])[1..] == steps[1..] + [step];
      RunSnoc(c, Next(c, s, steps[0]), steps[1..], step);
    }
  }

  // ------------------------------------------------------------- theorems

  /** In every run a call is let through exactly if no call came at a later time,
      its key is tracked or there is room for it, and fewer calls than the budget
      were let through for its key in this window. */
  lemma AllowExact(c: Config, steps: seq<Step>, now: int, key: Key)
    requires ValidConfig(c)
    ensures var s := Reach(c, steps);
            AllowResult(c, s.l, now, key).1 <==>
              && (forall t :: t in Times(steps) ==> t <= now)
              && HasRoom(c, s, now, key)
              && CountAt(c, s.admitted, key, Index(c, now)) < c.requests
  {
    hide Index, HasRoom, AllowResult, Capped, Run;
    ReachExact(c, steps);
    ReachInv(c, steps);
    var s := Reach(c, steps);
    AllowInv(c, s, now, key);
    AtMostRequestsPerIndex(c, steps, key, Index(c, now));
    RegressedIfEarlier(c, s.l, Times(steps), now);
    if !Regressed(s.l, now) { CappedIfNoRoom(c, s, Times(steps), now, key); }
  }

  /** And it is counted exactly if the clock and the room allow it. */
  lemma CountedExact(c: Config, steps: seq<Step>, now: int, key: Key, k: Key, i: int)
    requires ValidConfig(c)
    ensures var s := Reach(c, steps);
            Spent(Next(c, s, Allow(now, key)).spent, k, i) ==
              Spent(s.spent, k, i)
              + if (forall t :: t in Times(steps) ==> t <= now) && HasRoom(c, s, now, key)
                   && k == key && i == Index(c, now) then 1 else 0
  {
    hide Index, HasRoom, AllowResult, Capped, Run;
    ReachExact(c, steps);
    var s := Reach(c, steps);
    RegressedIfEarlier(c, s.l, Times(steps), now);
    if !Regressed(s.l, now) { CappedIfNoRoom(c, s, Times(steps), now, key); }
  }

  /** A slot is granted exactly if the key holds fewer than it may, and is tracked
      as of the latest call or fits. */
  lemma AcquireExact(c: Config, steps: seq<Step>, key: Key, latest: int)
    requires ValidConfig(c)
    requires Times(steps) != {} ==> latest in Times(steps) && forall t :: t in Times(steps) ==> t <= latest
    ensures var s := Reach(c, steps);
            AcquireResult(c, s.l, key).1 <==>
              && |Holders(s.outstanding, key)| < c.maxInFlight
              && if Times(steps) == {} then |s.outstanding.Values| < c.maxKeys else HasRoom(c, s, latest, key)
  {
    hide Index, Run, Tracked, Buckets, AdmittedInv, Bounded;
    ReachExact(c, steps);
    var s := Reach(c, steps);
    HeldKeys(s.l.inflight, s.outstanding);
    if Times(steps) == {} {
      NothingTracked(c, s.l, s.spent, Times(steps));
    } else {
      LatestObserved(c, s.l, Times(steps), latest);
      TrackedKeys(c, s.l, s.spent, Times(steps), latest);
    }
    assert Held(s.l.inflight, key) == |Holders(s.outstanding, key)|;
    hide Conserved, Holders, Clock, Times;
  }

  lemma NothingTracked(c: Config, l: Limiter, spent: map<Tick, int>, times: set<int>)
    requires ValidConfig(c) && Clock(c, l, times) && SpentInv(c, l, spent) && times == {}
    ensures l.rate == map[]
  {
    hide Index;
  }

  lemma LatestObserved(c: Config, l: Limiter, times: set<int>, latest: int)
    requires ValidConfig(c) && Clock(c, l, times) && latest in times && forall t :: t in times ==> t <= latest
    ensures l.lastObserved == Some(latest)
  {
    hide Index;
  }
}
