/** Enrollment against the clock: until when a pairing can be approved and
    exchanged, and that until then it can. */
module EnrollmentTimes {
  import opened Common
  import E = Entitlements
  import R = EntitlementRuns
  import opened Enrollment

  function StatusOf(h: History, d: Id): PairingStatus {
    if d in h.marked then LicenceRequired else if d in h.approverOf then Approved else Waiting
  }

  /** A pending pairing expires a pairing's lifetime after its Begin; one that an
      exchange ended is not pending; its status says what became of it. */
  ghost predicate EntryTimes(e: Entry, h: History, d: Id) {
    d in h.begunAt && e.expiresAt == h.begunAt[d] + PendingTtl && d !in h.ended && e.status == StatusOf(h, d)
  }

  ghost predicate PendingTimes(pending: map<Id, Entry>, h: History) {
    |pending.Keys| <= MaxPending && forall d :: d in pending ==> EntryTimes(pending[d], h, d)
  }

  ghost predicate CodeTimes(codes: map<Id, CodeRow>, h: History) {
    forall d :: d in codes ==> d in h.approvedAt && codes[d].expiresAt == h.approvedAt[d] + CodeTtl
  }

  /** Approved in time, and only what was approved was ended or marked. */
  ghost predicate PastTimes(h: History) {
    && h.begunAt.Keys == h.claimOf.Keys && h.approvedAt.Keys == h.approverOf.Keys
    && (forall d :: d in h.approvedAt ==> d in h.begunAt && h.approvedAt[d] < h.begunAt[d] + PendingTtl)
    && h.marked <= h.approverOf.Keys && h.ended <= h.approverOf.Keys
  }

  /** An exchange that is under way was begun on an approved pairing, in time. */
  ghost predicate ExchangeTimes(exchanges: map<nat, Exchange>, h: History) {
    forall t :: t in exchanges ==>
      && exchanges[t].digest in h.approverOf && exchanges[t].digest in h.begunAt
      && (exchanges[t].Read? ==> exchanges[t].now < h.begunAt[exchanges[t].digest] + PendingTtl)
  }

  ghost predicate TimesInv(s: State) {
    PendingTimes(s.pending, s.past) && CodeTimes(s.codes, s.past) && PastTimes(s.past)
    && ExchangeTimes(s.exchanges, s.past)
  }

  lemma FewerPendingTimes(pending: map<Id, Entry>, kept: map<Id, Entry>, h: History)
    requires PendingTimes(pending, h) && kept.Keys <= pending.Keys && forall d :: d in kept ==> kept[d] == pending[d]
    ensures PendingTimes(kept, h)
  {
    Smaller(kept.Keys, pending.Keys);
  }

  lemma Smaller(a: set<Id>, b: set<Id>)
    requires a <= b
    ensures |a| <= |b|
  {
    assert b == a + (b - a);
  }

  lemma BeginTimes(s: State, digest: Id, claim: Claim, now: int)
    requires Inv(s) && TimesInv(s) && digest !in s.past.claimOf
    ensures TimesInv(Beginning(s, digest, claim, now))
  {
    hide Inv, PendingTimes, CodeTimes, ExchangeTimes, PastTimes, Unexpired;
    var kept := Unexpired(s.pending, now);
    FewerUnexpired(s.pending, now);
    FewerPendingTimes(s.pending, kept, s.past);
    var h := s.past.(claimOf := s.past.claimOf[digest := claim], begunAt := s.past.begunAt[digest := now]);
    NeverBegun(s, digest);
    BegunTimes(s, h, digest, now);
    BegunPendingTimes(kept, s.past, h, digest, claim, now);
  }

  lemma FewerUnexpired(pending: map<Id, Entry>, now: int)
    ensures var kept := Unexpired(pending, now);
            kept.Keys <= pending.Keys && forall d :: d in kept ==> kept[d] == pending[d]
  {
  }

  lemma NeverBegun(s: State, digest: Id)
    requires Inv(s) && TimesInv(s) && digest !in s.past.claimOf
    ensures digest !in s.past.begunAt && digest !in s.past.approverOf && digest !in s.past.marked
            && digest !in s.past.ended
  {
    hide PendingTimes, CodeTimes, ExchangeTimes, PendingInv, ExchangesInv, MintedInv;
  }

  lemma BegunPendingTimes(kept: map<Id, Entry>, h: History, n: History, digest: Id, claim: Claim, now: int)
    requires PendingTimes(kept, h) && n == h.(claimOf := n.claimOf, begunAt := h.begunAt[digest := now])
    requires digest !in h.begunAt && digest !in h.approverOf && digest !in h.marked && digest !in h.ended
    ensures |kept.Keys| < MaxPending ==>
              PendingTimes(kept[digest := Entry(claim, Waiting, false, 0, now + PendingTtl)], n)
  {
    var entry := Entry(claim, Waiting, false, 0, now + PendingTtl);
    assert EntryTimes(entry, n, digest);
    forall d | d in kept ensures EntryTimes(kept[d], n, d) { EntryLater(kept[d], h, n, d, digest, now); }
    hide EntryTimes;
    OneMore(kept, digest, entry);
  }

  lemma EntryLater(e: Entry, h: History, n: History, d: Id, digest: Id, now: int)
    requires EntryTimes(e, h, d) && digest !in h.begunAt
    requires n == h.(claimOf := n.claimOf, begunAt := h.begunAt[digest := now])
    ensures EntryTimes(e, n, d)
  {
  }

  lemma OneMore(pending: map<Id, Entry>, digest: Id, entry: Entry)
    ensures |pending[digest := entry].Keys| <= |pending.Keys| + 1
    ensures digest in pending ==> |pending[digest := entry].Keys| == |pending.Keys|
  {
    assert pending[digest := entry].Keys == pending.Keys + {digest};
    if digest in pending { assert pending.Keys + {digest} == pending.Keys; }
  }

  lemma BegunTimes(s: State, h: History, digest: Id, now: int)
    requires TimesInv(s) && digest !in s.past.begunAt
    requires h == s.past.(claimOf := h.claimOf, begunAt := s.past.begunAt[digest := now])
    requires h.claimOf.Keys == s.past.claimOf.Keys + {digest}
    ensures CodeTimes(s.codes, h) && ExchangeTimes(s.exchanges, h) && PastTimes(h)
  {
    hide PendingTimes;
  }

  lemma LookTimes(s: State, digest: Id, now: int)
    requires TimesInv(s)
    ensures TimesInv(s.(pending := Kept(s.pending, digest, now)))
  {
    hide CodeTimes, ExchangeTimes, PastTimes;
    FewerPendingTimes(s.pending, Kept(s.pending, digest, now), s.past);
  }

  lemma ApproveTimes(s: State, digest: Id, userId: Id, codeId: Id, now: int)
    requires Inv(s) && TimesInv(s)
    ensures TimesInv(Approving(s, digest, userId, codeId, now))
  {
    hide Inv, PendingTimes, CodeTimes, ExchangeTimes, PastTimes;
    LookTimes(s, digest, now);
    var found := Found(s.pending, digest, now);
    if userId != 0 && found.Ok? && !found.value.approved {
      var h := s.past.(approverOf := s.past.approverOf[digest := userId],
                       approvedAt := s.past.approvedAt[digest := now]);
      NotApproved(s, digest);
      ApprovedPendingTimes(s.pending, s.past, h, digest, userId, now);
      ApprovedRestTimes(s, h, digest, userId, codeId, now);
    }
  }

  lemma NotApproved(s: State, digest: Id)
    requires Inv(s) && digest in s.pending && !s.pending[digest].approved
    ensures digest !in s.past.approverOf && digest !in s.codes && digest in s.past.claimOf
  {
    hide ExchangesInv, MintedInv;
  }

  lemma ApprovedPendingTimes(pending: map<Id, Entry>, h: History, n: History, digest: Id, userId: Id, now: int)
    requires PendingTimes(pending, h) && PastTimes(h) && digest in pending && digest !in h.approverOf
    requires n == h.(approverOf := h.approverOf[digest := userId], approvedAt := n.approvedAt)
    ensures PendingTimes(pending[digest := pending[digest].(approved := true, status := Approved,
                                                            approvedBy := userId)], n)
  {
    OneMore(pending, digest, pending[digest].(approved := true, status := Approved, approvedBy := userId));
  }

  lemma ApprovedRestTimes(s: State, h: History, digest: Id, userId: Id, codeId: Id, now: int)
    requires TimesInv(s) && digest in s.pending && now < s.pending[digest].expiresAt
    requires digest !in s.codes && digest !in s.past.approverOf && digest in s.past.claimOf
    requires h == s.past.(approverOf := s.past.approverOf[digest := userId],
                          approvedAt := s.past.approvedAt[digest := now])
    ensures CodeTimes(s.codes, h) && CodeTimes(s.codes[digest := CodeRow(codeId, userId, now + CodeTtl, false)], h)
    ensures PastTimes(h) && ExchangeTimes(s.exchanges, h)
  {
  }

  lemma ReadTimes(s: State, t: nat, digest: Id, now: int)
    requires Inv(s) && TimesInv(s) && t !in s.exchanges
    ensures TimesInv(Reading(s, t, digest, now))
  {
    hide Inv, CodeTimes, PastTimes;
    LookTimes(s, digest, now);
    if digest in s.pending && s.pending[digest].approved { ApprovedKnown(s, digest); }
    hide PendingTimes;
  }

  lemma ApprovedKnown(s: State, digest: Id)
    requires Inv(s) && digest in s.pending
    ensures s.pending[digest].approved <==> digest in s.past.approverOf
  {
    hide ExchangesInv, MintedInv, CodesInv;
  }

  lemma ConsumeTimes(s: State, t: nat)
    requires TimesInv(s) && t in s.exchanges && s.exchanges[t].Read?
    ensures TimesInv(Consuming(s, t))
  {
    hide Identified, PendingTimes, CodeTimes, PastTimes, ExchangeTimes;
    var x := s.exchanges[t];
    ConsumerIrrelevant(s, s.past.(consumer := s.past.consumer[x.digest := t]));
    ReplacedTimes(s.exchanges, s.past, t, Refused(x.digest, false));
    if x.digest in s.codes { ConsumedTimes(s.codes, s.past, x.digest); }
    var n := Consuming(s, t);
    ReplacedTimes(s.exchanges, s.past, t, n.exchanges[t]);
    SameTimes(s.codes, n.codes, n.exchanges, s.past, n.past);
  }

  lemma SameTimes(codes: map<Id, CodeRow>, after: map<Id, CodeRow>, exchanges: map<nat, Exchange>, h: History,
                  n: History)
    requires n == h.(consumer := n.consumer, minted := n.minted)
    ensures CodeTimes(codes, h) ==> CodeTimes(codes, n)
    ensures CodeTimes(after, h) ==> CodeTimes(after, n)
    ensures ExchangeTimes(exchanges, h) ==> ExchangeTimes(exchanges, n)
  {
  }

  lemma ConsumedTimes(codes: map<Id, CodeRow>, h: History, digest: Id)
    requires CodeTimes(codes, h) && digest in codes
    ensures CodeTimes(codes[digest := codes[digest].(consumed := true)], h)
  {
  }

  /** An exchange past its start needs no time any more. */
  lemma ReplacedTimes(exchanges: map<nat, Exchange>, h: History, t: nat, x: Exchange)
    requires ExchangeTimes(exchanges, h) && t in exchanges && x.digest == exchanges[t].digest && !x.Read?
    ensures ExchangeTimes(exchanges[t := x], h)
  {
  }

  /** Consumers and credentials have nothing to do with time. */
  lemma ConsumerIrrelevant(s: State, h: History)
    requires TimesInv(s) && h == s.past.(consumer := h.consumer, minted := h.minted)
    ensures TimesInv(s.(past := h))
  {
    assert forall d :: StatusOf(h, d) == StatusOf(s.past, d);
  }

  lemma BindTimes(s: State, t: nat, credentialDigest: Id, ids: E.NewIds, now: int)
    requires TimesInv(s) && t in s.exchanges && s.exchanges[t].Consumed?
    ensures TimesInv(BindingDevice(s, t, credentialDigest, ids, now))
  {
    hide R.Next, E.BindFirstDevice, PendingTimes, CodeTimes, PastTimes;
    var x := s.exchanges[t];
    var minted := Minted(x.digest, BindingOf(x, credentialDigest));
    ConsumerIrrelevant(s, s.past.(minted := s.past.minted[ids.credentialId := minted]));
  }

  lemma EndTimes(s: State, t: nat)
    requires Inv(s) && TimesInv(s) && t in s.exchanges
    ensures TimesInv(Ending(s, t))
  {
    hide Inv, CodeTimes, PastTimes, PendingTimes, EndedHistory;
    var x := s.exchanges[t];
    EndingHistory(s, t);
    EndedPastTimes(s, x);
    ReplacedTimes(s.exchanges, EndedHistory(s.past, x), t, Finished(x.digest));
    if x.Bound? {
      EndedPendingTimes(s, x);
    } else if x.Refused? {
      MarkedPendingTimes(s, x);
    }
  }

  lemma EndedPastTimes(s: State, x: Exchange)
    requires TimesInv(s) && x.digest in s.past.approverOf
    ensures var h := EndedHistory(s.past, x); CodeTimes(s.codes, h) && PastTimes(h) && ExchangeTimes(s.exchanges, h)
  {
    hide PendingTimes;
  }

  lemma EndedPendingTimes(s: State, x: Exchange)
    requires TimesInv(s) && x.Bound?
    ensures PendingTimes(s.pending - {x.digest}, EndedHistory(s.past, x))
  {
    hide CodeTimes, PastTimes, ExchangeTimes;
    Smaller((s.pending - {x.digest}).Keys, s.pending.Keys);
  }

  lemma MarkedPendingTimes(s: State, x: Exchange)
    requires TimesInv(s) && x.Refused?
    ensures var marked := if x.licenceRequired && x.digest in s.pending
                          then s.pending[x.digest := s.pending[x.digest].(status := LicenceRequired)] else s.pending;
            PendingTimes(marked, EndedHistory(s.past, x))
  {
    hide CodeTimes, PastTimes, ExchangeTimes;
    if x.licenceRequired && x.digest in s.pending {
      OneMore(s.pending, x.digest, s.pending[x.digest].(status := LicenceRequired));
    }
  }

  lemma NextTimes(s: State, step: Step)
    requires Inv(s) && TimesInv(s)
    ensures TimesInv(Next(s, step))
  {
    hide Inv, R.Next, R.Transaction, Beginning, Approving, Reading, Consuming, BindingDevice, Ending;
    hide PendingTimes, CodeTimes, PastTimes, ExchangeTimes;
    match step
    case Begin(digest, claim, now) => if digest !in s.past.claimOf { BeginTimes(s, digest, claim, now); }
    case Look(digest, now) => LookTimes(s, digest, now);
    case Approve(digest, userId, codeId, now) => ApproveTimes(s, digest, userId, codeId, now);
    case ExchangeRead(t, digest, now) => if t !in s.exchanges { ReadTimes(s, t, digest, now); }
    case ExchangeConsume(t) => if t in s.exchanges && s.exchanges[t].Read? { ConsumeTimes(s, t); }
    case ExchangeBind(t, credentialDigest, ids, now) =>
      if t in s.exchanges && s.exchanges[t].Consumed? { BindTimes(s, t, credentialDigest, ids, now); }
    case ExchangeEnd(t) => if t in s.exchanges { EndTimes(s, t); }
    case _ =>
  }

  lemma {:induction false} RunTimes(s: State, steps: seq<Step>)
    requires Inv(s) && TimesInv(s)
    ensures Inv(Run(s, steps)) && TimesInv(Run(s, steps))
    decreases |steps|
  {
    hide Inv, Next, TimesInv;
    if steps != [] {
      NextTimes(s, steps[0]);
      NextInv(s, steps[0]);
      RunTimes(Next(s, steps[0]), steps[1..]);
    }
  }

  lemma StartTimes(now: int)
    ensures Inv(Initial) && TimesInv(Initial) && Present(Initial, now)
  {
  }

  lemma ReachTimes(steps: seq<Step>)
    ensures Inv(Reach(steps)) && TimesInv(Reach(steps))
  {
    hide Inv, TimesInv;
    StartTimes(0);
    RunTimes(Initial, steps);
  }

  // ------------------------------------------------- nothing is lost early

  /** The clock at a step, if the step reads it. */
  predicate NotAfter(step: Step, now: int) {
    match step
    case Begin(_, _, at) => at <= now
    case Look(_, at) => at <= now
    case Approve(_, _, _, at) => at <= now
    case ExchangeRead(_, _, at) => at <= now
    case _ => true
  }

  /** What was begun, has not been ended and has not run out is pending. */
  ghost predicate Present(s: State, now: int) {
    forall d ::
      d in s.past.claimOf && d in s.past.begunAt && d !in s.past.ended && now < s.past.begunAt[d] + PendingTtl ==>
      d in s.pending
  }

  lemma PresentStep(s: State, step: Step, now: int)
    requires TimesInv(s) && Present(s, now) && NotAfter(step, now)
    ensures Present(Next(s, step), now)
  {
    hide R.Next, R.Transaction, E.BindFirstDevice, CodeTimes, PastTimes, ExchangeTimes, EndedHistory;
    match step
    case Begin(digest, claim, at) => if digest !in s.past.claimOf { PresentBegin(s, digest, claim, at, now); }
    case Approve(digest, userId, codeId, at) => PresentApprove(s, digest, userId, codeId, at, now);
    case ExchangeConsume(t) => if t in s.exchanges && s.exchanges[t].Read? { PresentConsume(s, t, now); }
    case ExchangeBind(t, credentialDigest, ids, at) =>
      if t in s.exchanges && s.exchanges[t].Consumed? { PresentBind(s, t, credentialDigest, ids, at, now); }
    case ExchangeEnd(t) => if t in s.exchanges { PresentEnd(s, t, now); }
    case _ =>
  }

  lemma PresentBegin(s: State, digest: Id, claim: Claim, at: int, now: int)
    requires TimesInv(s) && Present(s, now) && at <= now && digest !in s.past.claimOf
    ensures Present(Beginning(s, digest, claim, at), now)
  {
    hide CodeTimes, PastTimes, ExchangeTimes;
  }

  lemma PresentApprove(s: State, digest: Id, userId: Id, codeId: Id, at: int, now: int)
    requires TimesInv(s) && Present(s, now) && at <= now
    ensures Present(Approving(s, digest, userId, codeId, at), now)
  {
    hide CodeTimes, PastTimes, ExchangeTimes, InsertCode;
  }

  lemma PresentConsume(s: State, t: nat, now: int)
    requires Present(s, now) && t in s.exchanges && s.exchanges[t].Read?
    ensures Present(Consuming(s, t), now)
  {
    hide ConsumeCode, Identified;
  }

  lemma PresentBind(s: State, t: nat, credentialDigest: Id, ids: E.NewIds, at: int, now: int)
    requires Present(s, now) && t in s.exchanges && s.exchanges[t].Consumed?
    ensures Present(BindingDevice(s, t, credentialDigest, ids, at), now)
  {
    hide R.Next, E.BindFirstDevice;
  }

  lemma PresentEnd(s: State, t: nat, now: int)
    requires Present(s, now) && t in s.exchanges
    ensures Present(Ending(s, t), now)
  {
  }

  lemma {:induction false} PresentRun(s: State, steps: seq<Step>, now: int)
    requires Inv(s) && TimesInv(s) && Present(s, now) && forall i :: 0 <= i < |steps| ==> NotAfter(steps[i], now)
    ensures Present(Run(s, steps), now)
    decreases |steps|
  {
    hide Inv, Next, TimesInv, Present, NotAfter;
    if steps != [] {
      PresentStep(s, steps[0], now);
      NextTimes(s, steps[0]);
      NextInv(s, steps[0]);
      assert forall i :: 0 <= i < |steps[1..]| ==> steps[1..][i] == steps[i + 1];
      PresentRun(Next(s, steps[0]), steps[1..], now);
    }
  }

  // ------------------------------------------------------------ theorems

  /** Approvals come in time: within a pairing's lifetime of its Begin, in every
      run and under any clock. */
  lemma ApprovedInTime(steps: seq<Step>, digest: Id)
    requires digest in Reach(steps).past.approverOf
    ensures var h := Reach(steps).past;
            digest in h.approvedAt && digest in h.begunAt && h.approvedAt[digest] < h.begunAt[digest] + PendingTtl
  {
    hide Inv, Run, PendingTimes, CodeTimes, ExchangeTimes;
    ReachTimes(steps);
  }

  /** While the clock goes forward, a pairing is found exactly from its Begin to
      the end of its lifetime or of the exchange that ended it, with the claim of
      its Begin and the status that says what became of it. */
  lemma FoundExact(steps: seq<Step>, digest: Id, now: int)
    requires forall i :: 0 <= i < |steps| ==> NotAfter(steps[i], now)
    ensures var s := Reach(steps);
            var found := Found(s.pending, digest, now);
            && (found.Ok? <==>
                  digest in s.past.begunAt && digest !in s.past.ended && now < s.past.begunAt[digest] + PendingTtl)
            && (found.Ok? ==> digest in s.past.claimOf && found.value.claim == s.past.claimOf[digest]
                              && found.value.status == StatusOf(s.past, digest))
  {
    hide Inv, Run, TimesInv, Present, NotAfter;
    ReachTimes(steps);
    StartTimes(now);
    PresentRun(Initial, steps, now);
    FoundIs(Reach(steps), digest, now);
  }

  lemma FoundIs(s: State, digest: Id, now: int)
    requires Inv(s) && TimesInv(s) && Present(s, now)
    ensures var found := Found(s.pending, digest, now);
            && (found.Ok? <==>
                  digest in s.past.begunAt && digest !in s.past.ended && now < s.past.begunAt[digest] + PendingTtl)
            && (found.Ok? ==> digest in s.past.claimOf && found.value.claim == s.past.claimOf[digest]
                              && found.value.status == StatusOf(s.past, digest))
  {
    hide Inv, CodeTimes, ExchangeTimes;
    if digest in s.pending { ClaimOf(s, digest); }
  }

  lemma ClaimOf(s: State, digest: Id)
    requires Inv(s) && digest in s.pending
    ensures digest in s.past.claimOf && s.pending[digest].claim == s.past.claimOf[digest]
  {
    hide ExchangesInv, MintedInv, CodesInv;
  }

  /** An approval takes effect exactly for a user, on a pairing that is found and
      not approved yet, under a code id not used yet. */
  lemma ApproveExact(steps: seq<Step>, digest: Id, userId: Id, codeId: Id, now: int)
    requires forall i :: 0 <= i < |steps| ==> NotAfter(steps[i], now)
    requires digest !in Reach(steps).past.approverOf
    ensures var s := Reach(steps);
            var n := Next(s, Approve(digest, userId, codeId, now));
            && (digest in n.past.approverOf <==>
                  && userId != 0 && (forall d :: d in s.codes ==> s.codes[d].id != codeId)
                  && digest in s.past.begunAt && now < s.past.begunAt[digest] + PendingTtl)
            && (digest in n.past.approverOf ==>
                  && n.past.approverOf[digest] == userId && n.past.approvedAt[digest] == now
                  && digest in n.codes && n.codes[digest] == CodeRow(codeId, userId, now + CodeTtl, false))
  {
    hide Inv, Run, TimesInv, NotAfter, StatusOf;
    ReachTimes(steps);
    var s := Reach(steps);
    FoundExact(steps, digest, now);
    if digest in s.pending { ApprovedKnown(s, digest); }
    CodesApproved(s);
    NotEnded(s, digest);
  }

  lemma NotEnded(s: State, digest: Id)
    requires TimesInv(s) && digest !in s.past.approverOf
    ensures digest !in s.past.ended
  {
    hide PendingTimes, CodeTimes, ExchangeTimes;
  }

  lemma CodesApproved(s: State)
    requires Inv(s)
    ensures s.codes.Keys == s.past.approverOf.Keys
  {
    hide ExchangesInv, MintedInv, PendingInv;
  }

  /** An exchange starts exactly on a pairing that is found and approved. */
  lemma ExchangeStartsExact(steps: seq<Step>, t: nat, digest: Id, now: int)
    requires forall i :: 0 <= i < |steps| ==> NotAfter(steps[i], now)
    requires t !in Reach(steps).exchanges
    ensures var s := Reach(steps);
            var n := Next(s, ExchangeRead(t, digest, now));
            && (t in n.exchanges <==>
                  && digest in s.past.approverOf && digest !in s.past.ended
                  && digest in s.past.begunAt && now < s.past.begunAt[digest] + PendingTtl)
            && (t in n.exchanges ==>
                  && digest in s.past.claimOf
                  && n.exchanges[t] == Read(digest, s.past.claimOf[digest], s.past.approverOf[digest], now))
  {
    hide Inv, Run, TimesInv, NotAfter, StatusOf;
    ReachTimes(steps);
    FoundExact(steps, digest, now);
    if digest in Reach(steps).pending {
      ApprovedKnown(Reach(steps), digest);
      if digest in Reach(steps).past.approverOf { ApproverKnown(Reach(steps), digest); }
    }
  }

  lemma ApproverKnown(s: State, digest: Id)
    requires Inv(s) && digest in s.pending && s.pending[digest].approved
    ensures digest in s.past.approverOf && s.pending[digest].approvedBy == s.past.approverOf[digest]
  {
    hide ExchangesInv, MintedInv, CodesInv;
  }

  /** It gets past the consume exactly if nobody consumed the code before, the
      code's own lifetime since its approval is not over, and the approver has an
      identity. */
  lemma ConsumeExact(steps: seq<Step>, t: nat)
    requires t in Reach(steps).exchanges && Reach(steps).exchanges[t].Read?
    ensures var s := Reach(steps);
            var d, at := s.exchanges[t].digest, s.exchanges[t].now;
            var n := Next(s, ExchangeConsume(t));
            && d in s.past.approverOf && d in s.past.approvedAt && t in n.exchanges
            && (n.exchanges[t].Consumed? <==>
                  d !in s.past.consumer && at < s.past.approvedAt[d] + CodeTtl && s.past.approverOf[d] in s.identityOf)
            && (!n.exchanges[t].Consumed? ==> n == s.(exchanges := s.exchanges[t := Refused(d, false)]))
  {
    hide Inv, Run, PendingTimes;
    ReachTimes(steps);
    var s := Reach(steps);
    ExchangeOf(s, t);
    CodeKnown(s, s.exchanges[t].digest);
    ConsumeInv(s, t);
  }

  lemma CodeKnown(s: State, d: Id)
    requires Inv(s) && d in s.past.approverOf
    ensures d in s.codes && s.codes[d].userId == s.past.approverOf[d] && (s.codes[d].consumed <==> d in s.past.consumer)
  {
    hide PendingInv, ExchangesInv, MintedInv;
  }

  ghost function Living(pending: map<Id, Entry>, now: int): set<Id> {
    set d | d in pending && now < pending[d].expiresAt
  }

  /** A pairing is begun exactly while fewer than the bound are pending and
      unexpired; the bound is never exceeded. */
  lemma BeginExact(steps: seq<Step>, digest: Id, claim: Claim, now: int)
    requires digest !in Reach(steps).past.claimOf
    ensures var s := Reach(steps);
            var n := Next(s, Begin(digest, claim, now));
            var live := Living(s.pending, now);
            && |s.pending.Keys| <= MaxPending
            && n.pending.Keys == live + (if digest in n.past.claimOf then {digest} else {})
            && (digest in n.past.claimOf <==> |live| < MaxPending)
            && (digest in n.past.claimOf ==>
                  n.past.claimOf[digest] == claim && digest in n.past.begunAt && n.past.begunAt[digest] == now)
  {
    hide Inv, Run, TimesInv, Living, Beginning;
    ReachTimes(steps);
    PendingBound(Reach(steps));
    NeverPending(Reach(steps), digest);
    BeginIs(Reach(steps), digest, claim, now);
    BeginKeys(Reach(steps), digest, claim, now);
  }

  lemma BeginIs(s: State, digest: Id, claim: Claim, now: int)
    requires digest !in s.past.claimOf && digest !in s.pending
    ensures var n := Beginning(s, digest, claim, now);
            && (digest in n.past.claimOf <==> |Living(s.pending, now)| < MaxPending)
            && (digest in n.past.claimOf ==>
                  n.past.claimOf[digest] == claim && digest in n.past.begunAt && n.past.begunAt[digest] == now)
  {
    hide Unexpired, Living;
    LiveKeys(s.pending, now);
  }

  lemma BeginKeys(s: State, digest: Id, claim: Claim, now: int)
    requires digest !in s.past.claimOf && digest !in s.pending
    ensures var n := Beginning(s, digest, claim, now);
            n.pending.Keys == Living(s.pending, now) + (if digest in n.past.claimOf then {digest} else {})
  {
    hide Unexpired, Living, Beginning;
    LiveKeys(s.pending, now);
    BeginPending(s, digest, claim, now);
  }

  lemma BeginPending(s: State, digest: Id, claim: Claim, now: int)
    ensures var n, kept := Beginning(s, digest, claim, now), Unexpired(s.pending, now).Keys;
            if |kept| >= MaxPending then n.pending.Keys == kept && n.past == s.past
            else n.pending.Keys == kept + {digest} && digest in n.past.claimOf
  {
    hide Unexpired;
  }

  lemma PendingBound(s: State)
    requires TimesInv(s)
    ensures |s.pending.Keys| <= MaxPending
  {
    hide CodeTimes, ExchangeTimes, PastTimes, EntryTimes;
  }

  lemma LiveKeys(pending: map<Id, Entry>, now: int)
    ensures Unexpired(pending, now).Keys == Living(pending, now)
  {
  }

  lemma NeverPending(s: State, digest: Id)
    requires TimesInv(s) && digest !in s.past.claimOf
    ensures digest !in s.pending
  {
    hide CodeTimes, ExchangeTimes;
  }

  /** The steps that look a pairing up, and when. */
  predicate LooksUp(s: State, step: Step, digest: Id, now: int) {
    match step
    case Look(d, at) => d == digest && at == now
    case Approve(d, userId, _, at) => d == digest && at == now && userId != 0
    case ExchangeRead(t, d, at) => d == digest && at == now && t !in s.exchanges
    case _ => false
  }

  /** Looking a pairing up forgets it once its lifetime is over, and forgets no
      other. */
  lemma LookingUpForgets(steps: seq<Step>, step: Step, digest: Id, now: int)
    requires LooksUp(Reach(steps), step, digest, now)
    ensures var s := Reach(steps);
            forall d :: d in Next(s, step).pending <==>
                          d in s.pending
                          && !(d == digest && d in s.past.begunAt && s.past.begunAt[d] + PendingTtl <= now)
  {
    hide Inv, Run, CodeTimes, ExchangeTimes, PastTimes, InsertCode;
    ReachTimes(steps);
  }
}
