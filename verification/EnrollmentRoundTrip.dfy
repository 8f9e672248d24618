/** An enrollment that nobody disturbs comes to its end. */
module EnrollmentRoundTrip {
  import opened Common
  import E = Entitlements
  import R = EntitlementRuns
  import F = EntitlementEffects
  import opened Enrollment
  import opened EnrollmentBinding

  /** One code from its Begin to the end of its exchange `t`. */
  datatype Plan = Plan(digest: Id, claim: Claim, userId: Id, codeId: Id, t: nat, credentialDigest: Id, ids: E.NewIds,
                       begun: int, approved: int, read: int, bound: int)

  function Enrolling(p: Plan): seq<Step> {
    [Begin(p.digest, p.claim, p.begun), Approve(p.digest, p.userId, p.codeId, p.approved),
     ExchangeRead(p.t, p.digest, p.read), ExchangeConsume(p.t),
     ExchangeBind(p.t, p.credentialDigest, p.ids, p.bound), ExchangeEnd(p.t)]
  }

  /** What the plan binds, for the user's own identity. */
  function Planned(s: State, p: Plan): E.Binding
    requires p.userId in s.identityOf
  {
    E.Binding(p.userId, s.identityOf[p.userId], p.claim.deviceId, p.claim.fingerprint, p.credentialDigest)
  }

  ghost predicate InTime(p: Plan) {
    p.approved < p.begun + PendingTtl && p.read < p.begun + PendingTtl && p.read < p.approved + CodeTtl
  }

  /** A new code for which there is room, approved by a user with an identity and
      exchanged in time, yields the device's credential if the device can be
      bound; the pairing is then over, and the store has taken that one step. */
  lemma EnrollmentCompletes(steps: seq<Step>, p: Plan)
    requires var s := Reach(steps);
             && p.digest !in s.past.claimOf && |Unexpired(s.pending, p.begun).Keys| < MaxPending
             && p.userId != 0 && p.userId in s.identityOf && (forall d :: d in s.codes ==> s.codes[d].id != p.codeId)
             && p.t !in s.exchanges && InTime(p) && F.Binds(s.store, Planned(s, p), p.ids)
    ensures var s := Reach(steps);
            var n := Run(s, Enrolling(p));
            && n.store == R.Next(s.store, R.Bind(p.bound, Planned(s, p), p.ids))
            && n.past.minted == s.past.minted[p.ids.credentialId := Minted(p.digest, Planned(s, p))]
            && p.digest !in n.pending && p.digest in n.past.ended
            && n.exchanges == s.exchanges[p.t := Finished(p.digest)]
  {
    hide Run, Next, Inv, R.Run, R.Next, F.Binds, Unexpired, E.BindFirstDevice;
    var s := Reach(steps);
    var inner := StoreReached(steps);
    ReachInv(steps);
    NeverStored(s, p.digest);
    SixSteps(s, p);
    var s1 := Begun(s, p);
    var s2 := Accepted(s, s1, p);
    var s3 := Started(s, s2, p);
    var s4 := PastTheConsume(s, s3, p);
    BoundIff(inner, p.bound, Planned(s, p), p.ids);
    var s5 := Minting(s, s4, p);
    Over(s, s5, p);
  }

  lemma NeverStored(s: State, digest: Id)
    requires Inv(s) && digest !in s.past.claimOf
    ensures digest !in s.codes
  {
    hide PendingInv, ExchangesInv, MintedInv;
  }

  lemma SixSteps(s: State, p: Plan)
    ensures var e := Enrolling(p);
            Run(s, e) == Next(Next(Next(Next(Next(Next(s, e[0]), e[1]), e[2]), e[3]), e[4]), e[5])
  {
    hide Next, Run;
    var e := Enrolling(p);
    var s1 := OneStep(s, e, 0);
    var s2 := OneStep(s1, e, 1);
    var s3 := OneStep(s2, e, 2);
    var s4 := OneStep(s3, e, 3);
    var s5 := OneStep(s4, e, 4);
    var s6 := OneStep(s5, e, 5);
    assert e[0..] == e && e[6..] == [];
    NoSteps(s6);
  }

  lemma OneStep(s: State, e: seq<Step>, i: nat) returns (n: State)
    requires i < |e|
    ensures n == Next(s, e[i]) && Run(s, e[i..]) == Run(n, e[i + 1..])
  {
    hide Next;
    n := Next(s, e[i]);
    assert e[i..][0] == e[i] && e[i..][1..] == e[i + 1..];
  }

  lemma NoSteps(s: State)
    ensures Run(s, []) == s
  {
  }

  /** What the plan has not come to yet is as it was. */
  ghost predicate SameRest(s: State, n: State) {
    n.store == s.store && n.identityOf == s.identityOf && n.past.minted == s.past.minted
  }

  ghost predicate Waits(s: State, p: Plan, approved: bool) {
    && p.digest in s.pending
    && var e := s.pending[p.digest];
       && e.claim == p.claim && e.expiresAt == p.begun + PendingTtl && e.approved == approved
       && (approved ==> e.approvedBy == p.userId)
  }

  lemma Begun(s: State, p: Plan) returns (n: State)
    requires p.digest !in s.past.claimOf && |Unexpired(s.pending, p.begun).Keys| < MaxPending
    ensures n == Next(s, Enrolling(p)[0])
    ensures SameRest(s, n) && Waits(n, p, false) && n.codes == s.codes && n.exchanges == s.exchanges
  {
    hide Unexpired;
    n := Next(s, Begin(p.digest, p.claim, p.begun));
  }

  lemma Accepted(s: State, s1: State, p: Plan) returns (n: State)
    requires SameRest(s, s1) && Waits(s1, p, false) && s1.codes == s.codes && s1.exchanges == s.exchanges
    requires p.userId != 0 && p.digest !in s.codes && (forall d :: d in s.codes ==> s.codes[d].id != p.codeId)
             && InTime(p)
    ensures n == Next(s1, Enrolling(p)[1])
    ensures SameRest(s, n) && Waits(n, p, true) && n.exchanges == s.exchanges
    ensures p.digest in n.codes && n.codes[p.digest] == CodeRow(p.codeId, p.userId, p.approved + CodeTtl, false)
  {
    n := Next(s1, Approve(p.digest, p.userId, p.codeId, p.approved));
  }

  lemma Started(s: State, s2: State, p: Plan) returns (n: State)
    requires SameRest(s, s2) && Waits(s2, p, true) && s2.exchanges == s.exchanges && p.t !in s.exchanges && InTime(p)
    ensures n == Next(s2, Enrolling(p)[2])
    ensures SameRest(s, n) && n.codes == s2.codes
    ensures n.exchanges == s.exchanges[p.t := Read(p.digest, p.claim, p.userId, p.read)]
  {
    n := Next(s2, ExchangeRead(p.t, p.digest, p.read));
  }

  lemma PastTheConsume(s: State, s3: State, p: Plan) returns (n: State)
    requires SameRest(s, s3) && s3.exchanges == s.exchanges[p.t := Read(p.digest, p.claim, p.userId, p.read)]
    requires p.digest in s3.codes && s3.codes[p.digest] == CodeRow(p.codeId, p.userId, p.approved + CodeTtl, false)
    requires p.userId in s.identityOf && InTime(p)
    ensures n == Next(s3, Enrolling(p)[3])
    ensures SameRest(s, n)
    ensures n.exchanges == s.exchanges[p.t := Consumed(p.digest, p.claim, p.userId, s.identityOf[p.userId])]
  {
    n := Next(s3, ExchangeConsume(p.t));
  }

  lemma Minting(s: State, s4: State, p: Plan) returns (n: State)
    requires SameRest(s, s4) && p.userId in s.identityOf
    requires s4.exchanges == s.exchanges[p.t := Consumed(p.digest, p.claim, p.userId, s.identityOf[p.userId])]
    requires E.BindFirstDevice(s.store.db, p.bound, Planned(s, p), p.ids).Ok?
    ensures n == Next(s4, Enrolling(p)[4])
    ensures n.store == R.Next(s.store, R.Bind(p.bound, Planned(s, p), p.ids))
    ensures n.past.minted == s.past.minted[p.ids.credentialId := Minted(p.digest, Planned(s, p))]
    ensures n.exchanges == s.exchanges[p.t := Bound(p.digest, p.ids.credentialId)]
  {
    hide R.Next, E.BindFirstDevice;
    n := Next(s4, ExchangeBind(p.t, p.credentialDigest, p.ids, p.bound));
  }

  lemma Over(s: State, s5: State, p: Plan)
    requires s5.exchanges == s.exchanges[p.t := Bound(p.digest, p.ids.credentialId)]
    ensures var n := Next(s5, Enrolling(p)[5]);
            && n.store == s5.store && n.past.minted == s5.past.minted
            && p.digest !in n.pending && p.digest in n.past.ended
            && n.exchanges == s.exchanges[p.t := Finished(p.digest)]
  {
  }
}
