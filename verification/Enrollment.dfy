/** Device enrollment: pending pairings in memory, codes in the database, and an
    exchange that lets go of the mutex twice on its way.

    A pairing code is known by its digest and drawn afresh by every Begin.
  */
module Enrollment {
  import opened Common
  import E = Entitlements
  import R = EntitlementRuns

  type Id = nat

  const MaxPending := 10000
  const PendingTtl := 600 * 1_000_000_000
  const CodeTtl := 600 * 1_000_000_000

  datatype Claim = Claim(deviceId: Id, fingerprint: Option<Id>)

  datatype PairingStatus = Waiting | Approved | LicenceRequired

  /** `approvedBy` is 0 until the pairing is approved. */
  datatype Entry = Entry(claim: Claim, status: PairingStatus, approved: bool, approvedBy: Id, expiresAt: int)

  datatype CodeRow = CodeRow(id: Id, userId: Id, expiresAt: int, consumed: bool)

  datatype PairingError =
    | TooManyPending | NotFound | Expired | Pending | OwnerRequired
    | CodeNotFound | CodeConsumed | CodeExpired | NoIdentity | OwnerMismatch

  function Unexpired(pending: map<Id, Entry>, now: int): map<Id, Entry> {
    map d | d in pending && now < pending[d].expiresAt :: pending[d]
  }

  // ------------------------------------------------------- the code store

  function InsertCode(codes: map<Id, CodeRow>, digest: Id, row: CodeRow): Option<map<Id, CodeRow>> {
    if digest in codes || (exists d :: d in codes && codes[d].id == row.id) then None else Some(codes[digest := row])
  }

  /** ConsumeEnrollmentCode and classifyMissingCode; `hasIdentity` is the join
      with the owner's provider identity. */
  function ConsumeCode(codes: map<Id, CodeRow>, digest: Id, now: int,
                       hasIdentity: bool): Result<CodeRow, PairingError> {
    if digest !in codes then Err(CodeNotFound)
    else if codes[digest].consumed then Err(CodeConsumed)
    else if now >= codes[digest].expiresAt then Err(CodeExpired)
    else if !hasIdentity then Err(NoIdentity)
    else Ok(codes[digest])
  }

  // --------------------------------------- the methods under the mutex

  class Pairings {
    var pending: map<Id, Entry>

    constructor ()
      ensures pending == map[]
    {
      pending := map[];
    }

    method EvictExpiredLocked(now: int)
      modifies this
      ensures pending == Unexpired(old(pending), now)
    {
      var left := pending.Keys;
      while left != {}
        invariant left <= pending.Keys <= old(pending).Keys
        invariant forall d :: d in pending ==> pending[d] == old(pending)[d]
        invariant forall d :: d in old(pending) && d !in left ==> (d in pending <==> now < old(pending)[d].expiresAt)
        decreases |left|
      {
        var d :| d in left;
        left := left - {d};
        if now >= pending[d].expiresAt {
          pending := pending - {d};
        }
      }
    }

    method Begin(digest: Id, claim: Claim, now: int) returns (err: Option<PairingError>)
      modifies this
      ensures var kept := Unexpired(old(pending), now);
              && err == (if |kept.Keys| >= MaxPending then Some(TooManyPending) else None)
              && pending == if err.Some? then kept
                            else kept[digest := Entry(claim, Waiting, false, 0, now + PendingTtl)]
    {
      EvictExpiredLocked(now);
      if |pending.Keys| >= MaxPending {
        return Some(TooManyPending);
      }
      pending := pending[digest := Entry(claim, Waiting, false, 0, now + PendingTtl)];
      err := None;
    }

    method Lookup(digest: Id, now: int) returns (r: Result<Entry, PairingError>)
      modifies this
      ensures r == Found(old(pending), digest, now)
      ensures pending == Kept(old(pending), digest, now)
    {
      if digest !in pending {
        return Err(NotFound);
      }
      if now >= pending[digest].expiresAt {
        pending := pending - {digest};
        return Err(Expired);
      }
      r := Ok(pending[digest]);
    }

    /** The first half of Exchange, up to the unlock. */
    method ExchangeRead(digest: Id, now: int) returns (r: Result<Entry, PairingError>)
      modifies this
      ensures r == Readable(old(pending), digest, now)
      ensures pending == Kept(old(pending), digest, now)
    {
      r := Lookup(digest, now);
      if r.Ok? && !r.value.approved {
        return Err(Pending);
      }
    }
  }

  function Found(pending: map<Id, Entry>, digest: Id, now: int): Result<Entry, PairingError> {
    if digest !in pending then Err(NotFound)
    else if now >= pending[digest].expiresAt then Err(Expired)
    else Ok(pending[digest])
  }

  /** Looking a pairing up drops it once it has expired. */
  function Kept(pending: map<Id, Entry>, digest: Id, now: int): map<Id, Entry> {
    if digest in pending && now >= pending[digest].expiresAt then pending - {digest} else pending
  }

  function Readable(pending: map<Id, Entry>, digest: Id, now: int): Result<Entry, PairingError> {
    var found := Found(pending, digest, now);
    if found.Ok? && !found.value.approved then Err(Pending) else found
  }

  // ------------------------------------------------------------- the runs

  /** Where an exchange stands between its unlocked stretches. */
  datatype Exchange =
    | Read(digest: Id, claim: Claim, approvedBy: Id, now: int)
    | Consumed(digest: Id, claim: Claim, userId: Id, subject: E.Subject)
    | Bound(digest: Id, credentialId: Id)
    | Refused(digest: Id, licenceRequired: bool)
    | Finished(digest: Id)

  /** A credential minted for a code, and the binding it was minted by. */
  datatype Minted = Minted(code: Id, binding: E.Binding)

  /** What Begin stored and when, who approved and when, which exchange consumed
      a code, which credentials came of one, which pairings an exchange has
      ended, and which were marked for want of a licence. */
  datatype History = History(
    claimOf: map<Id, Claim>,
    begunAt: map<Id, int>,
    approverOf: map<Id, Id>,
    approvedAt: map<Id, int>,
    consumer: map<Id, nat>,
    minted: map<Id, Minted>,
    ended: set<Id>,
    marked: set<Id>)

  /** `identityOf` are the users' provider identities; `past` is history. */
  datatype State = State(
    pending: map<Id, Entry>,
    codes: map<Id, CodeRow>,
    store: R.State,
    identityOf: map<Id, E.Subject>,
    exchanges: map<nat, Exchange>,
    past: History)

  const Initial := State(map[], map[], R.Initial, map[], map[],
                         History(map[], map[], map[], map[], map[], map[], {}, {}))

  datatype Step =
    | Begin(digest: Id, claim: Claim, now: int)
    | Look(digest: Id, now: int)
    | Approve(digest: Id, userId: Id, codeId: Id, now: int)
    | ExchangeRead(t: nat, digest: Id, now: int)
    | ExchangeConsume(t: nat)
    | ExchangeBind(t: nat, credentialDigest: Id, ids: E.NewIds, now: int)
    | ExchangeEnd(t: nat)
    | SignUp(userId: Id, subject: E.Subject)
    | Elsewhere(step: R.Step)

  function Beginning(s: State, digest: Id, claim: Claim, now: int): State {
    var kept := Unexpired(s.pending, now);
    if |kept.Keys| >= MaxPending then s.(pending := kept)
    else s.(pending := kept[digest := Entry(claim, Waiting, false, 0, now + PendingTtl)],
            past := s.past.(claimOf := s.past.claimOf[digest := claim], begunAt := s.past.begunAt[digest := now]))
  }

  function Approving(s: State, digest: Id, userId: Id, codeId: Id, now: int): State {
    var found := Found(s.pending, digest, now);
    var kept := s.(pending := Kept(s.pending, digest, now));
    if userId == 0 then s
    else if found.Err? || found.value.approved then kept
    else
      var codes := InsertCode(s.codes, digest, CodeRow(codeId, userId, now + CodeTtl, false));
      if codes.None? then kept
      else kept.(codes := codes.value,
                 pending := s.pending[digest := found.value.(approved := true, status := Approved,
                                                             approvedBy := userId)],
                 past := s.past.(approverOf := s.past.approverOf[digest := userId],
                                 approvedAt := s.past.approvedAt[digest := now]))
  }

  function Reading(s: State, t: nat, digest: Id, now: int): State {
    var kept := s.(pending := Kept(s.pending, digest, now));
    var entry := Readable(s.pending, digest, now);
    if entry.Err? then kept
    else kept.(exchanges := s.exchanges[t := Read(digest, entry.value.claim, entry.value.approvedBy, now)])
  }

  /** The join of a code with its owner's identity. */
  predicate Identified(s: State, digest: Id) {
    digest in s.codes && s.codes[digest].userId in s.identityOf
  }

  function Consuming(s: State, t: nat): State
    requires t in s.exchanges && s.exchanges[t].Read?
  {
    var x := s.exchanges[t];
    var row := ConsumeCode(s.codes, x.digest, x.now, Identified(s, x.digest));
    if row.Err? then s.(exchanges := s.exchanges[t := Refused(x.digest, false)])
    else
      var userId := row.value.userId;
      s.(codes := s.codes[x.digest := row.value.(consumed := true)],
         past := s.past.(consumer := s.past.consumer[x.digest := t]),
         exchanges := s.exchanges[t := if userId != x.approvedBy then Refused(x.digest, false)
                                       else Consumed(x.digest, x.claim, userId, s.identityOf[userId])])
  }

  function BindingOf(x: Exchange, credentialDigest: Id): E.Binding
    requires x.Consumed?
  {
    E.Binding(x.userId, x.subject, x.claim.deviceId, x.claim.fingerprint, credentialDigest)
  }

  function BindingDevice(s: State, t: nat, credentialDigest: Id, ids: E.NewIds, now: int): State
    requires t in s.exchanges && s.exchanges[t].Consumed?
  {
    var x := s.exchanges[t];
    var b := BindingOf(x, credentialDigest);
    var done := E.BindFirstDevice(s.store.db, now, b, ids);
    if done.Err? then s.(exchanges := s.exchanges[t := Refused(x.digest, done.error == E.DeviceAlreadyUsed)])
    else s.(store := R.Next(s.store, R.Bind(now, b, ids)),
            past := s.past.(minted := s.past.minted[ids.credentialId := Minted(x.digest, b)]),
            exchanges := s.exchanges[t := Bound(x.digest, ids.credentialId)])
  }

  function EndedHistory(h: History, x: Exchange): History {
    match x
    case Bound(digest, _) => h.(ended := h.ended + {digest})
    case Refused(digest, licenceRequired) => if licenceRequired then h.(marked := h.marked + {digest}) else h
    case _ => h
  }

  function Ending(s: State, t: nat): State
    requires t in s.exchanges
  {
    match s.exchanges[t]
    case Bound(digest, _) =>
      s.(pending := s.pending - {digest}, exchanges := s.exchanges[t := Finished(digest)],
         past := EndedHistory(s.past, s.exchanges[t]))
    case Refused(digest, licenceRequired) =>
      var marked := if licenceRequired && digest in s.pending
                    then s.pending[digest := s.pending[digest].(status := LicenceRequired)] else s.pending;
      s.(pending := marked, exchanges := s.exchanges[t := Finished(digest)],
         past := EndedHistory(s.past, s.exchanges[t]))
    case _ => s
  }

  function Next(s: State, step: Step): State {
    match step
    case Begin(digest, claim, now) => if digest in s.past.claimOf then s else Beginning(s, digest, claim, now)
    case Look(digest, now) => s.(pending := Kept(s.pending, digest, now))
    case Approve(digest, userId, codeId, now) => Approving(s, digest, userId, codeId, now)
    case ExchangeRead(t, digest, now) => if t in s.exchanges then s else Reading(s, t, digest, now)
    case ExchangeConsume(t) => if t in s.exchanges && s.exchanges[t].Read? then Consuming(s, t) else s
    case ExchangeBind(t, credentialDigest, ids, now) =>
      if t in s.exchanges && s.exchanges[t].Consumed? then BindingDevice(s, t, credentialDigest, ids, now) else s
    case ExchangeEnd(t) => if t in s.exchanges then Ending(s, t) else s
    case SignUp(userId, subject) =>
      if userId in s.identityOf || subject in s.identityOf.Values then s
      else s.(identityOf := s.identityOf[userId := subject])
    case Elsewhere(inner) => s.(store := R.Next(s.store, inner))
  }

  function Run(s: State, steps: seq<Step>): State
    decreases |steps|
  {
    if steps == [] then s else Run(Next(s, steps[0]), steps[1..])
  }

  function Reach(steps: seq<Step>): State {
    Run(Initial, steps)
  }

  // ----------------------------------------------------------- invariant

  /** A pending pairing holds the claim Begin stored, and counts as approved
      exactly if somebody was recorded as its approver. */
  ghost predicate PendingInv(pending: map<Id, Entry>, h: History) {
    forall d :: d in pending ==>
      && d in h.claimOf && pending[d].claim == h.claimOf[d]
      && (pending[d].approved <==> d in h.approverOf)
      && (pending[d].approved ==> pending[d].approvedBy == h.approverOf[d])
  }

  ghost predicate CodesInv(codes: map<Id, CodeRow>, h: History) {
    && codes.Keys == h.approverOf.Keys && codes.Keys <= h.claimOf.Keys
    && (forall d :: d in codes ==> codes[d].userId == h.approverOf[d] && (codes[d].consumed <==> d in h.consumer))
    && h.consumer.Keys <= codes.Keys
  }

  /** What one exchange knows is what was stored; past the consume it is the
      code's only consumer. */
  ghost predicate ExchangeInv(t: nat, x: Exchange, h: History, identityOf: map<Id, E.Subject>) {
    match x
    case Read(d, claim, approver, _) =>
      d in h.approverOf && approver == h.approverOf[d] && d in h.claimOf && claim == h.claimOf[d]
    case Consumed(d, claim, user, subject) =>
      && d in h.approverOf && user == h.approverOf[d] && d in h.claimOf && claim == h.claimOf[d]
      && d in h.consumer && h.consumer[d] == t
      && user in identityOf && subject == identityOf[user]
      && (forall c :: c in h.minted ==> h.minted[c].code != d)
    case Bound(d, c) => d in h.consumer && h.consumer[d] == t && c in h.minted && h.minted[c].code == d
    case _ => true
  }

  ghost predicate ExchangesInv(exchanges: map<nat, Exchange>, h: History, identityOf: map<Id, E.Subject>) {
    && (forall t :: t in exchanges ==> ExchangeInv(t, exchanges[t], h, identityOf))
    && (forall d :: d in h.consumer ==> h.consumer[d] in exchanges && !exchanges[h.consumer[d]].Read?)
  }

  /** A code's credential: minted for its approver, under that user's identity,
      for exactly the claim that Begin stored. */
  ghost predicate MintedFor(m: Minted, credential: E.Credential, h: History, identityOf: map<Id, E.Subject>) {
    && m.code in h.approverOf && m.code in h.claimOf && h.approverOf[m.code] in identityOf
    && m.binding.userId == h.approverOf[m.code] && m.binding.subject == identityOf[h.approverOf[m.code]]
    && Claim(m.binding.deviceId, m.binding.fingerprint) == h.claimOf[m.code]
    && credential == E.Credential(m.binding.userId, m.binding.deviceId, m.binding.digest, credential.revokedAt)
  }

  /** One credential per code. */
  ghost predicate MintedInv(h: History, credentials: map<Id, E.Credential>, identityOf: map<Id, E.Subject>) {
    && (forall c :: c in h.minted ==>
          c in credentials && h.minted[c].code in h.consumer && MintedFor(h.minted[c], credentials[c], h, identityOf))
    && (forall c, d :: c in h.minted && d in h.minted && h.minted[c].code == h.minted[d].code ==> c == d)
  }

  ghost predicate Inv(s: State) {
    && PendingInv(s.pending, s.past)
    && CodesInv(s.codes, s.past)
    && ExchangesInv(s.exchanges, s.past, s.identityOf)
    && MintedInv(s.past, s.store.db.credentials, s.identityOf)
  }

  lemma FewerPending(pending: map<Id, Entry>, kept: map<Id, Entry>, h: History)
    requires PendingInv(pending, h)
    requires forall d :: d in kept ==> d in pending && kept[d] == pending[d]
    ensures PendingInv(kept, h)
  {
  }

  ghost predicate Grows<V>(was: map<Id, V>, now: map<Id, V>) {
    forall d :: d in was ==> d in now && now[d] == was[d]
  }

  /** Claims, approvers and consumers only ever join; `minted` is left alone. */
  ghost predicate PastGrows(h: History, n: History) {
    && Grows(h.claimOf, n.claimOf) && Grows(h.approverOf, n.approverOf) && Grows(h.consumer, n.consumer)
    && n.minted == h.minted
  }

  lemma ExchangesGrow(exchanges: map<nat, Exchange>, h: History, n: History, identityOf: map<Id, E.Subject>,
                      identityOf': map<Id, E.Subject>)
    requires ExchangesInv(exchanges, h, identityOf) && PastGrows(h, n) && n.consumer == h.consumer
             && Grows(identityOf, identityOf')
    ensures ExchangesInv(exchanges, n, identityOf')
  {
    forall t | t in exchanges ensures ExchangeInv(t, exchanges[t], n, identityOf') {
      assert ExchangeInv(t, exchanges[t], h, identityOf);
    }
  }

  lemma MintedGrows(h: History, n: History, credentials: map<Id, E.Credential>, identityOf: map<Id, E.Subject>,
                    identityOf': map<Id, E.Subject>)
    requires MintedInv(h, credentials, identityOf) && PastGrows(h, n) && Grows(identityOf, identityOf')
    ensures MintedInv(n, credentials, identityOf')
  {
  }

  lemma BeginPending(pending: map<Id, Entry>, h: History, digest: Id, claim: Claim, now: int)
    requires PendingInv(pending, h) && digest !in h.claimOf && digest !in h.approverOf
    ensures PendingInv(Unexpired(pending, now), h)
    ensures PendingInv(Unexpired(pending, now)[digest := Entry(claim, Waiting, false, 0, now + PendingTtl)],
                       h.(claimOf := h.claimOf[digest := claim], begunAt := h.begunAt[digest := now]))
  {
    FewerPending(pending, Unexpired(pending, now), h);
  }

  lemma BeginCodes(codes: map<Id, CodeRow>, h: History, digest: Id, claim: Claim, now: int)
    requires CodesInv(codes, h) && digest !in h.claimOf
    ensures digest !in h.approverOf
    ensures CodesInv(codes, h.(claimOf := h.claimOf[digest := claim], begunAt := h.begunAt[digest := now]))
  {
  }

  lemma BeginInv(s: State, digest: Id, claim: Claim, now: int)
    requires Inv(s) && digest !in s.past.claimOf
    ensures Inv(Beginning(s, digest, claim, now))
  {
    hide PendingInv, CodesInv, ExchangesInv, MintedInv, Unexpired;
    var n := s.past.(claimOf := s.past.claimOf[digest := claim], begunAt := s.past.begunAt[digest := now]);
    BeginCodes(s.codes, s.past, digest, claim, now);
    BeginPending(s.pending, s.past, digest, claim, now);
    ExchangesGrow(s.exchanges, s.past, n, s.identityOf, s.identityOf);
    MintedGrows(s.past, n, s.store.db.credentials, s.identityOf, s.identityOf);
  }

  lemma ApprovedPending(pending: map<Id, Entry>, h: History, digest: Id, userId: Id, now: int)
    requires PendingInv(pending, h) && digest in pending && !pending[digest].approved
    ensures digest !in h.approverOf && digest in h.claimOf
    ensures PendingInv(pending[digest := pending[digest].(approved := true, status := Approved, approvedBy := userId)],
                       h.(approverOf := h.approverOf[digest := userId], approvedAt := h.approvedAt[digest := now]))
  {
  }

  lemma ApprovedCodes(codes: map<Id, CodeRow>, h: History, digest: Id, row: CodeRow, now: int)
    requires CodesInv(codes, h) && digest !in h.approverOf && digest in h.claimOf && !row.consumed
    ensures CodesInv(codes[digest := row],
                     h.(approverOf := h.approverOf[digest := row.userId], approvedAt := h.approvedAt[digest := now]))
  {
  }

  lemma ApproveInv(s: State, digest: Id, userId: Id, codeId: Id, now: int)
    requires Inv(s)
    ensures Inv(Approving(s, digest, userId, codeId, now))
  {
    hide PendingInv, CodesInv, ExchangesInv, MintedInv;
    FewerPending(s.pending, Kept(s.pending, digest, now), s.past);
    var found := Found(s.pending, digest, now);
    if userId != 0 && found.Ok? && !found.value.approved {
      var n := s.past.(approverOf := s.past.approverOf[digest := userId],
                       approvedAt := s.past.approvedAt[digest := now]);
      ApprovedPending(s.pending, s.past, digest, userId, now);
      ApprovedCodes(s.codes, s.past, digest, CodeRow(codeId, userId, now + CodeTtl, false), now);
      ExchangesGrow(s.exchanges, s.past, n, s.identityOf, s.identityOf);
      MintedGrows(s.past, n, s.store.db.credentials, s.identityOf, s.identityOf);
    }
  }

  lemma ReadInv(s: State, t: nat, digest: Id, now: int)
    requires Inv(s) && t !in s.exchanges
    ensures Inv(Reading(s, t, digest, now))
  {
    hide CodesInv, MintedInv;
    FewerPending(s.pending, Kept(s.pending, digest, now), s.past);
    var entry := Readable(s.pending, digest, now);
    if entry.Ok? {
      var x := Read(digest, entry.value.claim, entry.value.approvedBy, now);
      assert ExchangeInv(t, x, s.past, s.identityOf);
      ReplaceExchange(s, t, x);
    }
    hide PendingInv, ExchangesInv;
  }

  /** One exchange moves on; nothing it shares with the others changes. */
  lemma ReplaceExchange(s: State, t: nat, x: Exchange)
    requires ExchangesInv(s.exchanges, s.past, s.identityOf)
    requires ExchangeInv(t, x, s.past, s.identityOf)
    requires x.Read? ==> t !in s.exchanges
    ensures ExchangesInv(s.exchanges[t := x], s.past, s.identityOf)
  {
    hide ExchangeInv;
  }

  lemma ExchangeOf(s: State, t: nat)
    requires Inv(s) && t in s.exchanges
    ensures ExchangeInv(t, s.exchanges[t], s.past, s.identityOf)
  {
    hide PendingInv, CodesInv, MintedInv, ExchangeInv;
  }

  lemma ConsumedCodes(codes: map<Id, CodeRow>, h: History, digest: Id, t: nat)
    requires CodesInv(codes, h) && digest in codes && !codes[digest].consumed
    ensures digest !in h.consumer && digest in h.approverOf && codes[digest].userId == h.approverOf[digest]
    ensures CodesInv(codes[digest := codes[digest].(consumed := true)], h.(consumer := h.consumer[digest := t]))
  {
  }

  lemma NotMinted(h: History, credentials: map<Id, E.Credential>, identityOf: map<Id, E.Subject>, digest: Id)
    requires MintedInv(h, credentials, identityOf) && digest !in h.consumer
    ensures forall c :: c in h.minted ==> h.minted[c].code != digest
  {
    hide MintedFor;
  }

  lemma ConsumeInv(s: State, t: nat)
    requires Inv(s) && t in s.exchanges && s.exchanges[t].Read?
    ensures Inv(Consuming(s, t))
    ensures var x := s.exchanges[t];
            ConsumeCode(s.codes, x.digest, x.now, Identified(s, x.digest)).Ok? ==>
              x.digest !in s.past.consumer && Consuming(s, t).exchanges[t].Consumed?
  {
    hide PendingInv, CodesInv, ExchangesInv, MintedInv;
    ExchangeOf(s, t);
    var x := s.exchanges[t];
    if ConsumeCode(s.codes, x.digest, x.now, Identified(s, x.digest)).Err? {
      ReplaceExchange(s, t, Refused(x.digest, false));
    } else {
      ConsumedCodes(s.codes, s.past, x.digest, t);
      NotMinted(s.past, s.store.db.credentials, s.identityOf, x.digest);
      ConsumedPending(s.pending, s.past, x.digest, t);
      var userId := s.past.approverOf[x.digest];
      var n := s.past.(consumer := s.past.consumer[x.digest := t]);
      ConsumedExchanges(s, t, x.digest, Consumed(x.digest, x.claim, userId, s.identityOf[userId]));
      MintedGrows(s.past, n, s.store.db.credentials, s.identityOf, s.identityOf);
    }
  }

  lemma ConsumedPending(pending: map<Id, Entry>, h: History, digest: Id, t: nat)
    requires PendingInv(pending, h)
    ensures PendingInv(pending, h.(consumer := h.consumer[digest := t]))
  {
  }

  lemma ConsumedExchanges(s: State, t: nat, digest: Id, x: Exchange)
    requires ExchangesInv(s.exchanges, s.past, s.identityOf) && digest !in s.past.consumer
    requires t in s.exchanges && s.exchanges[t].Read? && !x.Read?
    requires ExchangeInv(t, x, s.past.(consumer := s.past.consumer[digest := t]), s.identityOf)
    ensures ExchangesInv(s.exchanges[t := x], s.past.(consumer := s.past.consumer[digest := t]), s.identityOf)
  {
    var exchanges, n := s.exchanges[t := x], s.past.(consumer := s.past.consumer[digest := t]);
    forall u | u in exchanges ensures ExchangeInv(u, exchanges[u], n, s.identityOf) {
      if u != t { assert ExchangeInv(u, s.exchanges[u], s.past, s.identityOf); }
    }
  }

  /** Credentials keep their user and device, and none disappears. */
  ghost predicate CredentialsKept(was: map<Id, E.Credential>, now: map<Id, E.Credential>) {
    forall c :: c in was ==> c in now && now[c] == was[c].(revokedAt := now[c].revokedAt)
  }

  lemma StoreKeepsCredentials(s: R.State, step: R.Step)
    ensures CredentialsKept(s.db.credentials, R.Next(s, step).db.credentials)
  {
    hide R.Next, R.Transaction, CredentialsKept;
    NextDb(s, step);
    SameKept(s.db.credentials);
    if R.Transaction(s.db, step).Ok? { TransactionKeeps(s.db, step); }
  }

  lemma NextDb(s: R.State, step: R.Step)
    ensures R.Next(s, step).db == if R.Transaction(s.db, step).Ok? then R.Transaction(s.db, step).value else s.db
  {
    hide R.Transaction;
  }

  lemma TransactionKeeps(db: E.Db, step: R.Step)
    requires R.Transaction(db, step).Ok?
    ensures CredentialsKept(db.credentials, R.Transaction(db, step).value.credentials)
  {
    hide E.BindFirstDevice, E.RotateCredential, E.RevokeDevice, E.RecoverIdentity, CredentialsKept;
    match step
    case Bind(now, b, ids) => BindKeeps(db, now, b, ids);
    case Rotate(now, userId, deviceId, credentialId, digest) =>
      RotateKeeps(db, now, userId, deviceId, credentialId, digest);
    case Revoke(now, userId, deviceId) => RevokeKeeps(db, now, userId, deviceId);
    case Recover(now, userId, known) => RecoverKeeps(db, now, userId, known);
    case _ => SameKept(db.credentials);
  }

  lemma SameKept(c: map<Id, E.Credential>)
    ensures CredentialsKept(c, c)
  {
  }

  lemma RevokeKeeps(db: E.Db, now: int, userId: Id, deviceId: Id)
    ensures E.RevokeDevice(db, now, userId, deviceId).Ok? ==>
              CredentialsKept(db.credentials, E.RevokeDevice(db, now, userId, deviceId).value.credentials)
  {
  }

  lemma RecoverKeeps(db: E.Db, now: int, userId: Id, known: bool)
    ensures E.RecoverIdentity(db, now, userId, known).Ok? ==>
              CredentialsKept(db.credentials, E.RecoverIdentity(db, now, userId, known).value.credentials)
  {
  }

  lemma RotateKeeps(db: E.Db, now: int, userId: Id, deviceId: Id, credentialId: Id, digest: Id)
    ensures E.RotateCredential(db, now, userId, deviceId, credentialId, digest).Ok? ==>
              CredentialsKept(db.credentials,
                              E.RotateCredential(db, now, userId, deviceId, credentialId, digest).value.credentials)
  {
  }

  lemma BindKeeps(db: E.Db, now: int, b: E.Binding, ids: E.NewIds)
    ensures E.BindFirstDevice(db, now, b, ids).Ok? ==>
              CredentialsKept(db.credentials, E.BindFirstDevice(db, now, b, ids).value.credentials)
  {
    hide E.FingerprintTaken;
  }

  lemma KeptMinted(s: State, credentials: map<Id, E.Credential>)
    requires MintedInv(s.past, s.store.db.credentials, s.identityOf)
             && CredentialsKept(s.store.db.credentials, credentials)
    ensures MintedInv(s.past, credentials, s.identityOf)
  {
  }

  /** A successful binding inserts the one new credential. */
  lemma BoundCredential(s: R.State, now: int, b: E.Binding, ids: E.NewIds)
    requires E.BindFirstDevice(s.db, now, b, ids).Ok?
    ensures var n := R.Next(s, R.Bind(now, b, ids)).db.credentials;
            && ids.credentialId !in s.db.credentials && ids.credentialId in n
            && n[ids.credentialId] == E.Credential(b.userId, b.deviceId, b.digest, None)
  {
    hide E.FingerprintTaken, E.SetFingerprint;
    assert forall c, d, u, at :: E.RevokedCredentials(c, d, u, at).Keys == c.Keys;
    BoundKeys(s.db, now, b, ids);
  }

  lemma BoundKeys(db: E.Db, now: int, b: E.Binding, ids: E.NewIds)
    requires E.BindFirstDevice(db, now, b, ids).Ok?
    ensures ids.credentialId !in db.credentials
    ensures ids.credentialId in E.BindFirstDevice(db, now, b, ids).value.credentials
    ensures E.BindFirstDevice(db, now, b, ids).value.credentials[ids.credentialId]
            == E.Credential(b.userId, b.deviceId, b.digest, None)
  {
    hide E.FingerprintTaken;
  }

  lemma BindInv(s: State, t: nat, credentialDigest: Id, ids: E.NewIds, now: int)
    requires Inv(s) && t in s.exchanges && s.exchanges[t].Consumed?
    ensures Inv(BindingDevice(s, t, credentialDigest, ids, now))
  {
    hide PendingInv, CodesInv, MintedInv, ExchangesInv, R.Next, E.BindFirstDevice, CredentialsKept;
    ExchangeOf(s, t);
    var x := s.exchanges[t];
    var b := BindingOf(x, credentialDigest);
    if E.BindFirstDevice(s.store.db, now, b, ids).Err? {
      ReplaceExchange(s, t, Refused(x.digest, E.BindFirstDevice(s.store.db, now, b, ids).error == E.DeviceAlreadyUsed));
    } else {
      var credentials := R.Next(s.store, R.Bind(now, b, ids)).db.credentials;
      StoreKeepsCredentials(s.store, R.Bind(now, b, ids));
      BoundCredential(s.store, now, b, ids);
      KeptMinted(s, credentials);
      MintedIn(s, ids.credentialId);
      BoundPast(s, ids.credentialId, Minted(x.digest, b));
      BoundExchanges(s, t, ids.credentialId, b);
      BoundMinted(s, t, credentials, ids.credentialId, credentialDigest);
    }
  }

  lemma MintedIn(s: State, c: Id)
    requires Inv(s) && c !in s.store.db.credentials
    ensures c !in s.past.minted
  {
    hide PendingInv, CodesInv, ExchangesInv, MintedFor;
  }

  lemma BoundPast(s: State, c: Id, m: Minted)
    requires Inv(s)
    ensures var n := s.past.(minted := s.past.minted[c := m]); PendingInv(s.pending, n) && CodesInv(s.codes, n)
  {
    hide ExchangesInv, MintedInv;
  }

  lemma BoundExchanges(s: State, t: nat, c: Id, b: E.Binding)
    requires Inv(s) && t in s.exchanges && s.exchanges[t].Consumed? && c !in s.past.minted
    ensures var digest := s.exchanges[t].digest;
            ExchangesInv(s.exchanges[t := Bound(digest, c)], s.past.(minted := s.past.minted[c := Minted(digest, b)]),
                         s.identityOf)
  {
    hide PendingInv, CodesInv, MintedInv;
    ExchangeOf(s, t);
    var digest := s.exchanges[t].digest;
    var exchanges, n := s.exchanges[t := Bound(digest, c)], s.past.(minted := s.past.minted[c := Minted(digest, b)]);
    forall u | u in exchanges ensures ExchangeInv(u, exchanges[u], n, s.identityOf) {
      if u != t { ExchangeOf(s, u); }
    }
  }

  lemma BoundMinted(s: State, t: nat, credentials: map<Id, E.Credential>, c: Id, digest: Id)
    requires Inv(s) && t in s.exchanges && s.exchanges[t].Consumed? && c !in s.past.minted
    requires MintedInv(s.past, credentials, s.identityOf)
    requires var b := BindingOf(s.exchanges[t], digest);
             c in credentials && credentials[c] == E.Credential(b.userId, b.deviceId, digest, None)
    ensures var m := Minted(s.exchanges[t].digest, BindingOf(s.exchanges[t], digest));
            MintedInv(s.past.(minted := s.past.minted[c := m]), credentials, s.identityOf)
  {
    hide PendingInv, CodesInv, ExchangesInv;
    ExchangeOf(s, t);
  }

  lemma EndInv(s: State, t: nat)
    requires Inv(s) && t in s.exchanges
    ensures Inv(Ending(s, t))
  {
    hide CodesInv, MintedInv, ExchangesInv;
    ExchangeOf(s, t);
    var x := s.exchanges[t];
    if x.Bound? || x.Refused? {
      ReplaceExchange(s, t, Finished(x.digest));
      EndedPast(s.(exchanges := s.exchanges[t := Finished(x.digest)]), Ending(s, t).past);
    }
  }

  /** How a pairing ended is not looked at. */
  lemma EndedPast(s: State, n: History)
    requires Inv(s) && n == s.past.(ended := n.ended, marked := n.marked)
    ensures Inv(s.(past := n))
  {
    hide ExchangesInv, MintedInv;
    ExchangesGrow(s.exchanges, s.past, n, s.identityOf, s.identityOf);
    MintedGrows(s.past, n, s.store.db.credentials, s.identityOf, s.identityOf);
  }

  lemma SignUpInv(s: State, userId: Id, subject: E.Subject)
    requires Inv(s)
    ensures Inv(Next(s, SignUp(userId, subject)))
  {
    hide PendingInv, CodesInv, ExchangesInv, MintedInv;
    if userId !in s.identityOf {
      var identityOf := s.identityOf[userId := subject];
      ExchangesGrow(s.exchanges, s.past, s.past, s.identityOf, identityOf);
      MintedGrows(s.past, s.past, s.store.db.credentials, s.identityOf, identityOf);
    }
  }

  lemma LookInv(s: State, digest: Id, now: int)
    requires Inv(s)
    ensures Inv(s.(pending := Kept(s.pending, digest, now)))
  {
    hide CodesInv, ExchangesInv, MintedInv;
    FewerPending(s.pending, Kept(s.pending, digest, now), s.past);
  }

  lemma ElsewhereInv(s: State, inner: R.Step)
    requires Inv(s)
    ensures Inv(s.(store := R.Next(s.store, inner)))
  {
    hide PendingInv, CodesInv, ExchangesInv, R.Next, CredentialsKept, MintedInv;
    StoreKeepsCredentials(s.store, inner);
    KeptMinted(s, R.Next(s.store, inner).db.credentials);
  }

  lemma NextInv(s: State, step: Step)
    requires Inv(s)
    ensures Inv(Next(s, step))
  {
    hide Inv, R.Next, Beginning, Approving, Reading, Consuming, BindingDevice, Ending;
    match step
    case Begin(digest, claim, now) => if digest !in s.past.claimOf { BeginInv(s, digest, claim, now); }
    case Look(digest, now) => LookInv(s, digest, now);
    case Approve(digest, userId, codeId, now) => ApproveInv(s, digest, userId, codeId, now);
    case ExchangeRead(t, digest, now) => if t !in s.exchanges { ReadInv(s, t, digest, now); }
    case ExchangeConsume(t) => if t in s.exchanges && s.exchanges[t].Read? { ConsumeInv(s, t); }
    case ExchangeBind(t, credentialDigest, ids, now) =>
      if t in s.exchanges && s.exchanges[t].Consumed? { BindInv(s, t, credentialDigest, ids, now); }
    case ExchangeEnd(t) => if t in s.exchanges { EndInv(s, t); }
    case SignUp(userId, subject) => SignUpInv(s, userId, subject);
    case Elsewhere(inner) => ElsewhereInv(s, inner);
  }

  lemma {:induction false} RunInv(s: State, steps: seq<Step>)
    requires Inv(s)
    ensures Inv(Run(s, steps))
    decreases |steps|
  {
    hide Inv, Next;
    if steps != [] {
      NextInv(s, steps[0]);
      RunInv(Next(s, steps[0]), steps[1..]);
    }
  }

  lemma ReachInv(steps: seq<Step>)
    ensures Inv(Reach(steps))
  {
    RunInv(Initial, steps);
  }

  // ------------------------------------------------------------ theorems

  /** One credential per pairing code, whatever races: minted for the one user
      who approved the code, under that user's own identity, and for exactly the
      claim stored when the code was begun. */
  lemma OneCredentialPerCode(steps: seq<Step>, a: Id, b: Id)
    requires var minted := Reach(steps).past.minted; a in minted && b in minted && minted[a].code == minted[b].code
    ensures a == b
    ensures var s := Reach(steps);
            var code, binding := s.past.minted[a].code, s.past.minted[a].binding;
            && a in s.store.db.credentials && code in s.past.approverOf && code in s.past.claimOf
            && var userId, credential := s.past.approverOf[code], s.store.db.credentials[a];
               && userId in s.identityOf
               && binding == E.Binding(userId, s.identityOf[userId], s.past.claimOf[code].deviceId,
                                       s.past.claimOf[code].fingerprint, credential.digest)
               && credential.userId == userId && credential.deviceId == binding.deviceId
  {
    hide PendingInv, CodesInv, ExchangesInv, Run;
    ReachInv(steps);
  }

  /** Claims, approvers and consumers are settled once; `minted` may grow. */
  ghost predicate Settled(h: History, n: History) {
    Grows(h.claimOf, n.claimOf) && Grows(h.approverOf, n.approverOf) && Grows(h.consumer, n.consumer)
  }

  lemma SettledStep(s: State, step: Step)
    requires Inv(s)
    ensures Settled(s.past, Next(s, step).past)
  {
    hide Inv, R.Next, R.Transaction, Beginning, Approving, Reading, Consuming, BindingDevice, Ending;
    match step
    case Begin(digest, claim, now) => BeginSettles(s, digest, claim, now);
    case Approve(digest, userId, codeId, now) => ApproveSettles(s, digest, userId, codeId, now);
    case ExchangeRead(t, digest, now) => if t !in s.exchanges { ReadSettles(s, t, digest, now); }
    case ExchangeConsume(t) => if t in s.exchanges && s.exchanges[t].Read? { ConsumeSettles(s, t); }
    case ExchangeBind(t, credentialDigest, ids, now) =>
      if t in s.exchanges && s.exchanges[t].Consumed? { BindSettles(s, t, credentialDigest, ids, now); }
    case ExchangeEnd(t) => if t in s.exchanges { EndSettles(s, t); }
    case _ =>
  }

  lemma SettledBy(h: History, n: History)
    requires n == h.(claimOf := n.claimOf, begunAt := n.begunAt, minted := n.minted, ended := n.ended,
                     marked := n.marked)
    requires Grows(h.claimOf, n.claimOf)
    ensures Settled(h, n)
  {
  }

  lemma ClaimAdded(m: map<Id, Claim>, digest: Id, claim: Claim)
    ensures Grows(m, m) && (digest !in m ==> Grows(m, m[digest := claim]))
  {
  }

  lemma BeginSettles(s: State, digest: Id, claim: Claim, now: int)
    ensures digest !in s.past.claimOf ==> Settled(s.past, Beginning(s, digest, claim, now).past)
  {
    hide Unexpired, Settled, Grows;
    ClaimAdded(s.past.claimOf, digest, claim);
    SettledBy(s.past, s.past);
    if digest !in s.past.claimOf {
      SettledBy(s.past, s.past.(claimOf := s.past.claimOf[digest := claim], begunAt := s.past.begunAt[digest := now]));
    }
  }

  lemma ApproveSettles(s: State, digest: Id, userId: Id, codeId: Id, now: int)
    requires Inv(s)
    ensures Settled(s.past, Approving(s, digest, userId, codeId, now).past)
  {
    hide ExchangesInv, MintedInv, CodesInv, InsertCode;
  }

  lemma ReadSettles(s: State, t: nat, digest: Id, now: int)
    ensures Reading(s, t, digest, now).past == s.past
  {
    hide Kept, Readable;
  }

  lemma ConsumeSettles(s: State, t: nat)
    requires Inv(s) && t in s.exchanges && s.exchanges[t].Read?
    ensures Settled(s.past, Consuming(s, t).past)
  {
    hide PendingInv, ExchangesInv, MintedInv;
  }

  lemma BindSettles(s: State, t: nat, credentialDigest: Id, ids: E.NewIds, now: int)
    requires t in s.exchanges && s.exchanges[t].Consumed?
    ensures Settled(s.past, BindingDevice(s, t, credentialDigest, ids, now).past)
  {
    hide R.Next, E.BindFirstDevice;
  }

  lemma EndSettles(s: State, t: nat)
    requires t in s.exchanges
    ensures Settled(s.past, Ending(s, t).past)
  {
    EndedSettles(s.past, s.exchanges[t]);
    EndingHistory(s, t);
    hide Settled, Ending, EndedHistory;
  }

  lemma EndedSettles(h: History, x: Exchange)
    ensures Settled(h, EndedHistory(h, x)) && Settled(h, h)
  {
  }

  lemma EndingHistory(s: State, t: nat)
    requires t in s.exchanges
    ensures Ending(s, t).past == EndedHistory(s.past, s.exchanges[t])
  {
    hide EndedHistory;
    if s.exchanges[t].Read? || s.exchanges[t].Consumed? || s.exchanges[t].Finished? {
      NothingEnded(s.past, s.exchanges[t]);
    }
  }

  lemma NothingEnded(h: History, x: Exchange)
    requires x.Read? || x.Consumed? || x.Finished?
    ensures EndedHistory(h, x) == h
  {
  }

  lemma {:induction false} SettledRun(s: State, steps: seq<Step>)
    requires Inv(s)
    ensures Settled(s.past, Run(s, steps).past)
    decreases |steps|
  {
    hide Inv, Next;
    if steps != [] {
      SettledStep(s, steps[0]);
      NextInv(s, steps[0]);
      SettledRun(Next(s, steps[0]), steps[1..]);
    }
  }

  /** What Begin stored and who approved are settled once. */
  lemma ClaimAndApproverSettled(before: seq<Step>, after: seq<Step>, digest: Id)
    ensures var h, n := Reach(before).past, Run(Reach(before), after).past;
            && (digest in h.claimOf ==> digest in n.claimOf && n.claimOf[digest] == h.claimOf[digest])
            && (digest in h.approverOf ==> digest in n.approverOf && n.approverOf[digest] == h.approverOf[digest])
  {
    hide Inv, Run;
    ReachInv(before);
    SettledRun(Reach(before), after);
  }

  /** And so is the exchange that consumed a code: whatever follows, finished,
      refused or not, it remains the only one that ever did. */
  lemma ConsumerSettled(before: seq<Step>, after: seq<Step>, digest: Id)
    requires digest in Reach(before).past.consumer
    ensures var h, n := Reach(before).past, Run(Reach(before), after).past;
            digest in n.consumer && n.consumer[digest] == h.consumer[digest]
  {
    hide Inv, Run;
    ReachInv(before);
    SettledRun(Reach(before), after);
  }

  predicate PastConsume(x: Exchange) {
    x.Consumed? || x.Bound?
  }

  lemma PastConsumeIsConsumer(s: State, t: nat)
    requires Inv(s) && t in s.exchanges && PastConsume(s.exchanges[t])
    ensures s.exchanges[t].digest in s.past.consumer && s.past.consumer[s.exchanges[t].digest] == t
  {
    hide PendingInv, CodesInv, MintedInv;
    ExchangeOf(s, t);
  }

  /** Of the exchanges of one code at most one ever gets past the consume: none
      that does so at any time is another than the one that did before. */
  lemma OneExchangeConsumes(before: seq<Step>, t: nat, after: seq<Step>, u: nat)
    requires t in Reach(before).exchanges && PastConsume(Reach(before).exchanges[t])
    requires var n := Run(Reach(before), after);
             u in n.exchanges && PastConsume(n.exchanges[u])
             && n.exchanges[u].digest == Reach(before).exchanges[t].digest
    ensures t == u
  {
    hide Inv, Run, PastConsume;
    ReachInv(before);
    RunInv(Reach(before), after);
    PastConsumeIsConsumer(Reach(before), t);
    PastConsumeIsConsumer(Run(Reach(before), after), u);
    ConsumerSettled(before, after, Reach(before).exchanges[t].digest);
  }

  lemma OwnerMismatchNeverHappens(steps: seq<Step>, t: nat)
    requires var s := Reach(steps);
             && t in s.exchanges && s.exchanges[t].Read?
             && ConsumeCode(s.codes, s.exchanges[t].digest, s.exchanges[t].now,
                            Identified(s, s.exchanges[t].digest)).Ok?
    ensures var s := Reach(steps);
            && s.codes[s.exchanges[t].digest].userId == s.exchanges[t].approvedBy
            && Consuming(s, t).exchanges[t].Consumed?
  {
    hide PendingInv, MintedInv, Run;
    ReachInv(steps);
    ExchangeOf(Reach(steps), t);
    ConsumeInv(Reach(steps), t);
  }
}
