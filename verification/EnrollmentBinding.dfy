/** The end of an enrollment: what comes of binding the device, and of finishing. */
module EnrollmentBinding {
  import opened Common
  import E = Entitlements
  import R = EntitlementRuns
  import F = EntitlementEffects
  import opened Enrollment

  /** The tables are those of some run of their own transactions. */
  lemma {:induction false} StoreRun(s: State, steps: seq<Step>, inner: seq<R.Step>)
    requires s.store == R.Reach(inner)
    ensures exists more :: Run(s, steps).store == R.Reach(more)
    decreases |steps|
  {
    hide Next, R.Next, R.Run;
    if steps != [] {
      var more := StoreStep(s, steps[0], inner);
      StoreRun(Next(s, steps[0]), steps[1..], more);
    }
  }

  lemma StoreStep(s: State, step: Step, inner: seq<R.Step>) returns (more: seq<R.Step>)
    requires s.store == R.Reach(inner)
    ensures Next(s, step).store == R.Reach(more)
  {
    hide R.Next, R.Run, E.BindFirstDevice, Beginning, Approving, Reading, Consuming, Ending;
    OtherStores(s, step);
    more := inner;
    if step.Elsewhere? {
      more := inner + [step.step];
      StoreSnoc(R.Initial, inner, step.step);
    }
    if step.ExchangeBind? && step.t in s.exchanges && s.exchanges[step.t].Consumed? {
      var b := BindingOf(s.exchanges[step.t], step.credentialDigest);
      if E.BindFirstDevice(s.store.db, step.now, b, step.ids).Ok? {
        more := inner + [R.Bind(step.now, b, step.ids)];
        StoreSnoc(R.Initial, inner, R.Bind(step.now, b, step.ids));
      }
    }
  }

  lemma OtherStores(s: State, step: Step)
    ensures !step.Elsewhere? && !step.ExchangeBind? ==> Next(s, step).store == s.store
  {
  }

  lemma {:induction false} StoreSnoc(s: R.State, steps: seq<R.Step>, step: R.Step)
    ensures R.Run(s, steps + [step]) == R.Next(R.Run(s, steps), step)
    decreases |steps|
  {
    hide R.Next;
    if steps == [] {
      assert R.Run(R.Next(s, step), []) == R.Next(s, step);
    } else {
      assert (steps + [step])[1..] == steps[1..] + [step];
      StoreSnoc(R.Next(s, steps[0]), steps[1..], step);
    }
  }

  lemma StoreReached(steps: seq<Step>) returns (inner: seq<R.Step>)
    ensures Reach(steps).store == R.Reach(inner)
  {
    hide Run, R.Run, R.Next;
    assert Initial.store == R.Reach([]) by { NoTransactions(); }
    StoreRun(Initial, steps, []);
    inner :| Reach(steps).store == R.Reach(inner);
  }

  lemma NoTransactions()
    ensures R.Reach([]) == R.Initial
  {
  }

  /** An exchange past the consume mints its credential exactly if the device can
      be bound as the tables stand; a fingerprint in the way makes it end with a
      licence to ask for, and any other refusal without. */
  lemma BindExact(steps: seq<Step>, t: nat, credentialDigest: Id, ids: E.NewIds, now: int)
    requires t in Reach(steps).exchanges && Reach(steps).exchanges[t].Consumed?
    ensures var s := Reach(steps);
            var x := s.exchanges[t];
            var b := BindingOf(x, credentialDigest);
            var n := Next(s, ExchangeBind(t, credentialDigest, ids, now));
            && n.exchanges == s.exchanges[t := if F.Binds(s.store, b, ids) then Bound(x.digest, ids.credentialId)
                                               else Refused(x.digest, F.LicenceNeeded(s.store, b))]
            && n.store == (if F.Binds(s.store, b, ids) then R.Next(s.store, R.Bind(now, b, ids)) else s.store)
            && n.past.minted == (if F.Binds(s.store, b, ids)
                                 then s.past.minted[ids.credentialId := Minted(x.digest, b)] else s.past.minted)
            && n.pending == s.pending && n.codes == s.codes
  {
    hide Run, R.Run, R.Next, F.Binds, F.LicenceNeeded, E.BindFirstDevice;
    var s := Reach(steps);
    var b := BindingOf(s.exchanges[t], credentialDigest);
    var inner := StoreReached(steps);
    BoundIff(inner, now, b, ids);
    F.LicenceNeededExact(inner, now, b, ids);
  }

  lemma BoundIff(inner: seq<R.Step>, now: int, b: E.Binding, ids: E.NewIds)
    ensures E.BindFirstDevice(R.Reach(inner).db, now, b, ids).Ok? <==> F.Binds(R.Reach(inner), b, ids)
  {
    hide R.Run, R.Inv, F.DigestsInv, E.Reclaim, E.StartTrial;
    R.ReachInv(inner);
    F.ReachDigests(inner);
    F.BindIffBinds(R.Reach(inner), now, b, ids);
  }

  /** The entry of a pairing once exchange `x` is finished. */
  function EndedEntry(x: Exchange, e: Entry): Option<Entry> {
    match x
    case Bound(_, _) => None
    case Refused(_, licenceRequired) => Some(if licenceRequired then e.(status := LicenceRequired) else e)
    case _ => Some(e)
  }

  /** Finishing an exchange that minted its credential forgets the pairing, one
      that was refused for want of a licence marks it, any other refusal leaves
      it to be tried again; no other pairing is touched. */
  lemma EndExact(steps: seq<Step>, t: nat, d: Id)
    requires t in Reach(steps).exchanges
    ensures var s := Reach(steps);
            var x := s.exchanges[t];
            var n := Next(s, ExchangeEnd(t));
            && (d !in s.pending ==> d !in n.pending)
            && (d in s.pending ==>
                  var after := if d == x.digest then EndedEntry(x, s.pending[d]) else Some(s.pending[d]);
                  (d in n.pending <==> after.Some?) && (d in n.pending ==> n.pending[d] == after.value))
            && (d in n.past.ended <==> d in s.past.ended || (x.Bound? && d == x.digest))
            && (d in n.past.marked <==> d in s.past.marked || (x.Refused? && x.licenceRequired && d == x.digest))
            && n.exchanges == (if x.Bound? || x.Refused? then s.exchanges[t := Finished(x.digest)] else s.exchanges)
            && n.store == s.store && n.codes == s.codes
  {
    hide Run;
  }
}
