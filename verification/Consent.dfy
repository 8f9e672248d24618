/** Explicit approvals and codes issued without a prompt. An unprompted code is
    issued by two unlocked reads and one locked transaction; anything may
    happen between them, to any table. */
module Consent {
  import opened Common
  import opened Scopes
  import opened OAuthTables
  import TokenRuns

  datatype WebSession = WebSession(userId: Id, expiresAt: int, revoked: bool)
  datatype Device = Device(userId: Id, active: bool)
  datatype Studio = Studio(userId: Id, deviceId: Id, active: bool)
  datatype Entitlement = Entitlement(trialEndsAt: Option<int>, activeLicences: nat)

  /** What approvals check but never change. */
  datatype World = World(
    sessions: map<Id, WebSession>,
    devices: map<Id, Device>,
    studios: map<Id, Studio>,
    entitled: map<Id, Entitlement>)

  datatype Pair = Pair(webSessionId: Id, clientId: Id)
  datatype SessionConsent = SessionConsent(grantId: Id, scopes: seq<string>, resource: Id)

  datatype Db = Db(world: World, grants: Grants, consents: map<Pair, SessionConsent>, codes: Codes)

  datatype ConsentError = Denied | Failed

  predicate SessionActive(w: World, id: Id, userId: Id, now: int) {
    id != 0 && userId != 0 && id in w.sessions
    && w.sessions[id].userId == userId && !w.sessions[id].revoked && now < w.sessions[id].expiresAt
  }

  predicate DeviceActive(w: World, id: Id, userId: Id) {
    id != 0 && userId != 0 && id in w.devices && w.devices[id].userId == userId && w.devices[id].active
  }

  predicate StudioActive(w: World, id: Id, userId: Id, deviceId: Id) {
    id != 0 && deviceId != 0 && userId != 0 && id in w.studios
    && w.studios[id] == Studio(userId, deviceId, true)
  }

  predicate Permitted(w: World, userId: Id, now: int) {
    userId in w.entitled
    && ((w.entitled[userId].trialEndsAt.Some? && now < w.entitled[userId].trialEndsAt.value)
        || w.entitled[userId].activeLicences > 0)
  }

  /** The browser session a decision is made in, and what is decided on. */
  datatype Request = Request(webSessionId: Id, userId: Id, clientId: Id, scopes: seq<string>, resource: Id)

  datatype Target = Target(deviceId: Id, studioId: Id)

  /** The part of a code the issuing handler makes up. */
  datatype CodeSeed = CodeSeed(id: Id, redirectUri: Id, digest: Id, expiresAt: int)

  function PairOf(r: Request): Pair {
    Pair(r.webSessionId, r.clientId)
  }

  function NewCode(r: Request, target: Target, seed: CodeSeed): Code {
    Code(seed.id, r.userId, r.clientId, seed.redirectUri, r.scopes, target.deviceId, target.studioId, r.resource,
         seed.expiresAt, None)
  }

  function RecordApproval(db: Db, r: Request, target: Target, grantId: Id, seed: CodeSeed,
                          now: int): Result<Db, ConsentError> {
    if !SessionActive(db.world, r.webSessionId, r.userId, now) || !DeviceActive(db.world, target.deviceId, r.userId)
       || !StudioActive(db.world, target.studioId, r.userId, target.deviceId) || !Permitted(db.world, r.userId, now)
    then Err(Denied)
    else if grantId == 0 || r.clientId == 0 then Err(Failed)
    else
      var saved := UpsertGrant(db.grants, grantId,
                               Grant(r.userId, r.clientId, target.deviceId, target.studioId, r.scopes, r.resource,
                                     None));
      var codes := InsertCode(db.codes, NewCode(r, target, seed), seed.digest);
      if saved.Err? || codes.Err? then Err(Failed)
      else Ok(db.(grants := saved.value.0,
                  consents := db.consents[PairOf(r) := SessionConsent(saved.value.1, r.scopes, r.resource)],
                  codes := codes.value))
  }

  /** The first unlocked read of authorizeRemembered. */
  predicate ConsentMatches(db: Db, r: Request) {
    PairOf(r) in db.consents
    && db.consents[PairOf(r)].resource == r.resource && SameScopeSet(db.consents[PairOf(r)].scopes, r.scopes)
  }

  /** The second: the grant, and from it the target. */
  function GrantTarget(db: Db, r: Request, grantId: Id): Option<Target> {
    if grantId == 0 || r.userId == 0 || grantId !in db.grants.rows then None
    else
      var g := db.grants.rows[grantId];
      if g.userId != r.userId || g.revokedAt.Some? || g.clientId != r.clientId || g.deviceId == 0 || g.studioId == 0
         || !SameScopeSet(g.scopes, r.scopes)
      then None
      else Some(Target(g.deviceId, g.studioId))
  }

  function IssueRemembered(db: Db, r: Request, read: SessionConsent, target: Target, seed: CodeSeed,
                           now: int): Result<Db, ConsentError> {
    if !SessionActive(db.world, r.webSessionId, r.userId, now) || PairOf(r) !in db.consents then Err(Denied)
    else
      var row := db.consents[PairOf(r)];
      if row.grantId != read.grantId || row.resource != read.resource || !SameScopeSet(row.scopes, read.scopes)
      then Err(Denied)
      else if row.grantId == 0 || row.grantId !in db.grants.rows || db.grants.rows[row.grantId].userId != r.userId
           then Err(Denied)
      else
        var g := db.grants.rows[row.grantId];
        if g.revokedAt.Some? || g.clientId != r.clientId || Target(g.deviceId, g.studioId) != target
           || !SameScopeSet(g.scopes, r.scopes)
           || !DeviceActive(db.world, g.deviceId, g.userId) || !StudioActive(db.world, g.studioId, g.userId, g.deviceId)
           || !Permitted(db.world, r.userId, now)
        then Err(Denied)
        else
          var codes := InsertCode(db.codes, NewCode(r, target, seed), seed.digest);
          if codes.Err? then Err(Failed) else Ok(db.(codes := codes.value))
  }

  /** The two transactions check by check; a failed check or write leaves every
      table as it was. */
  class ConsentTables {
    var world: World
    var grants: Grants
    var consents: map<Pair, SessionConsent>
    var codes: Codes

    ghost function View(): Db
      reads this
    {
      Db(world, grants, consents, codes)
    }

    constructor (world: World)
      ensures View() == Db(world, Table(map[], map[]), map[], Table(map[], map[]))
    {
      this.world := world;
      grants, consents, codes := Table(map[], map[]), map[], Table(map[], map[]);
    }

    method RecordApprovalTx(r: Request, target: Target, grantId: Id, seed: CodeSeed,
                            now: int) returns (err: Option<ConsentError>)
      modifies this`grants, this`consents, this`codes
      ensures var done := RecordApproval(old(View()), r, target, grantId, seed, now);
              && err == (if done.Ok? then None else Some(done.error))
              && View() == if done.Ok? then done.value else old(View())
    {
      if !SessionActive(world, r.webSessionId, r.userId, now) {
        return Some(Denied);
      }
      if !DeviceActive(world, target.deviceId, r.userId) {
        return Some(Denied);
      }
      if !StudioActive(world, target.studioId, r.userId, target.deviceId) {
        return Some(Denied);
      }
      if !Permitted(world, r.userId, now) {
        return Some(Denied);
      }
      if grantId == 0 || r.clientId == 0 {
        return Some(Failed);
      }
      var saved := UpsertGrant(grants, grantId,
                               Grant(r.userId, r.clientId, target.deviceId, target.studioId, r.scopes, r.resource,
                                     None));
      if saved.Err? {
        return Some(Failed);
      }
      var inserted := InsertCode(codes, NewCode(r, target, seed), seed.digest);
      if inserted.Err? {
        return Some(Failed);
      }
      grants := saved.value.0;
      consents := consents[PairOf(r) := SessionConsent(saved.value.1, r.scopes, r.resource)];
      codes := inserted.value;
      err := None;
    }

    method IssueRememberedCodeTx(r: Request, read: SessionConsent, target: Target, seed: CodeSeed, now: int)
      returns (err: Option<ConsentError>)
      modifies this`codes
      ensures var done := IssueRemembered(old(View()), r, read, target, seed, now);
              && err == (if done.Ok? then None else Some(done.error))
              && View() == if done.Ok? then done.value else old(View())
    {
      if !SessionActive(world, r.webSessionId, r.userId, now) {
        return Some(Denied);
      }
      if PairOf(r) !in consents {
        return Some(Denied);
      }
      var row := consents[PairOf(r)];
      var same := CompareScopeSets(row.scopes, read.scopes);
      if row.grantId != read.grantId || row.resource != read.resource || !same {
        return Some(Denied);
      }
      if row.grantId == 0 || row.grantId !in grants.rows || grants.rows[row.grantId].userId != r.userId {
        return Some(Denied);
      }
      var g := grants.rows[row.grantId];
      same := CompareScopeSets(g.scopes, r.scopes);
      if g.revokedAt.Some? || g.clientId != r.clientId || g.deviceId != target.deviceId || g.studioId != target.studioId
         || !same {
        return Some(Denied);
      }
      if !DeviceActive(world, g.deviceId, g.userId) || !StudioActive(world, g.studioId, g.userId, g.deviceId) {
        return Some(Denied);
      }
      if !Permitted(world, r.userId, now) {
        return Some(Denied);
      }
      var inserted := InsertCode(codes, NewCode(r, target, seed), seed.digest);
      if inserted.Err? {
        return Some(Failed);
      }
      codes := inserted.value;
      err := None;
    }
  }

  // -------------------------------------------------------------- runs

  /** An unprompted request between its reads and its transaction. */
  datatype Pending = HasConsent(request: Request, read: SessionConsent)
                   | HasTarget(request: Request, read: SessionConsent, target: Target)

  /** `lastApproval` remembers the last explicit approval per session and
      client, whether or not its row survives. */
  datatype State = State(db: Db, pending: map<nat, Pending>, lastApproval: map<Pair, SessionConsent>)

  const NoTables := Db(World(map[], map[], map[], map[]), Table(map[], map[]), map[], Table(map[], map[]))
  const Initial := State(NoTables, map[], map[])

  /** Approvals and unprompted requests, plus everybody else: the world may become
      anything, the grants anything that keeps their keys, consents may be
      dropped and codes consumed. */
  datatype Step =
    | Approve(request: Request, target: Target, grantId: Id, seed: CodeSeed, now: int)
    | ReadConsent(t: nat, request: Request)
    | ReadGrant(t: nat)
    | Issue(t: nat, seed: CodeSeed, now: int)
    | WorldChanges(world: World)
    | GrantsChange(grants: Grants)
    | DropConsent(pair: Pair)
    | Consume(digest: Id, binding: Binding, now: int)

  ghost function Next(s: State, step: Step): State {
    match step
    case Approve(r, target, grantId, seed, now) =>
      var done := RecordApproval(s.db, r, target, grantId, seed, now);
      if done.Err? || PairOf(r) !in done.value.consents then s
      else s.(db := done.value, lastApproval := s.lastApproval[PairOf(r) := done.value.consents[PairOf(r)]])
    case ReadConsent(t, r) =>
      if t in s.pending || !ConsentMatches(s.db, r) then s
      else s.(pending := s.pending[t := HasConsent(r, s.db.consents[PairOf(r)])])
    case ReadGrant(t) =>
      if t !in s.pending || !s.pending[t].HasConsent? then s
      else
        var p := s.pending[t];
        var target := GrantTarget(s.db, p.request, p.read.grantId);
        if target.None? then s.(pending := s.pending - {t})
        else s.(pending := s.pending[t := HasTarget(p.request, p.read, target.value)])
    case Issue(t, seed, now) =>
      if t !in s.pending || !s.pending[t].HasTarget? then s
      else
        var p := s.pending[t];
        var done := IssueRemembered(s.db, p.request, p.read, p.target, seed, now);
        s.(db := if done.Ok? then done.value else s.db, pending := s.pending - {t})
    case WorldChanges(world) => s.(db := s.db.(world := world))
    case GrantsChange(grants) => if TokenRuns.GrantsInv(grants) then s.(db := s.db.(grants := grants)) else s
    case DropConsent(pair) => s.(db := s.db.(consents := s.db.consents - {pair}))
    case Consume(digest, binding, now) => s.(db := s.db.(codes := Consumed(s.db.codes, digest, binding, now)))
  }

  ghost function Run(s: State, steps: seq<Step>): State
    decreases |steps|
  {
    if steps == [] then s else Run(Next(s, steps[0]), steps[1..])
  }

  ghost function Reach(steps: seq<Step>): State {
    Run(Initial, steps)
  }

  /** A remembered consent is the last explicit approval of its session and
      client, and its scopes were validated. */
  ghost predicate ConsentsInv(consents: map<Pair, SessionConsent>, lastApproval: map<Pair, SessionConsent>) {
    forall k :: k in consents ==> k in lastApproval && lastApproval[k] == consents[k] && ValidScopes(consents[k].scopes)
  }

  ghost predicate PendingInv(pending: map<nat, Pending>) {
    forall t :: t in pending ==>
      && ValidScopes(pending[t].read.scopes)
      && pending[t].read.resource == pending[t].request.resource
      && SameScopeSet(pending[t].read.scopes, pending[t].request.scopes)
  }

  ghost predicate Inv(s: State) {
    ConsentsInv(s.db.consents, s.lastApproval) && PendingInv(s.pending) && TokenRuns.GrantsInv(s.db.grants)
  }

  lemma NextInv(s: State, step: Step)
    requires Inv(s)
    ensures Inv(Next(s, step))
  {
    hide ValidScopes, SameScopeSet, SessionActive, DeviceActive, StudioActive, Permitted, UpsertGrant,
         TokenRuns.GrantsInv;
    if step.Approve? && RecordApproval(s.db, step.request, step.target, step.grantId, step.seed, step.now).Ok? {
      ApprovedGrants(s.db, step.request, step.target, step.grantId, step.seed, step.now);
    }
  }

  /** The grant an approval saves: the row of its own user, client and device. */
  lemma ApprovedGrants(db: Db, r: Request, target: Target, grantId: Id, seed: CodeSeed, now: int)
    requires TokenRuns.GrantsInv(db.grants) && RecordApproval(db, r, target, grantId, seed, now).Ok?
    ensures var n := RecordApproval(db, r, target, grantId, seed, now).value;
            && TokenRuns.GrantsInv(n.grants) && PairOf(r) in n.consents
            && var stored := n.consents[PairOf(r)].grantId;
               stored in n.grants.rows && OwnerOf(n.grants.rows[stored]) == Owner(r.userId, r.clientId, target.deviceId)
  {
    hide ValidScopes, UpsertGrant, TokenRuns.GrantsInv, TokenRuns.GrantsLater, Permitted;
    TokenRuns.UpsertStep(db.grants, grantId,
                         Grant(r.userId, r.clientId, target.deviceId, target.studioId, r.scopes, r.resource, None));
  }

  lemma {:induction false} RunInv(s: State, steps: seq<Step>)
    requires Inv(s)
    ensures Inv(Run(s, steps))
    decreases |steps|
  {
    hide Inv, Next;
    if steps != [] {
      NextInv(s, steps[0]);
      RunInv(Next(s, steps[0]), steps[1..]);
    }
  }

  /** The user's session is neither revoked nor over, the device is an active one
      of theirs, the Studio is one of theirs on it, and their trial runs or they
      have a licence. */
  ghost predicate GoodStanding(w: World, sessionId: Id, userId: Id, target: Target, now: int) {
    && userId != 0 && sessionId != 0 && target.deviceId != 0 && target.studioId != 0
    && sessionId in w.sessions && target.deviceId in w.devices && target.studioId in w.studios && userId in w.entitled
    && w.sessions[sessionId].userId == userId && !w.sessions[sessionId].revoked && now < w.sessions[sessionId].expiresAt
    && w.devices[target.deviceId] == Device(userId, true)
    && w.studios[target.studioId] == Studio(userId, target.deviceId, true)
    && (match w.entitled[userId].trialEndsAt
        case Some(end) => now < end || w.entitled[userId].activeLicences > 0
        case None => w.entitled[userId].activeLicences > 0)
  }

  lemma StandingIs(w: World, sessionId: Id, userId: Id, target: Target, now: int)
    ensures GoodStanding(w, sessionId, userId, target, now) <==>
              SessionActive(w, sessionId, userId, now) && DeviceActive(w, target.deviceId, userId)
              && StudioActive(w, target.studioId, userId, target.deviceId) && Permitted(w, userId, now)
  {
  }

  /** What entitles `code` to exist in `db` at `now`: the session, its target
      and the entitlement are good, and a live grant of the same user and client
      names exactly that target and that scope set. */
  ghost predicate Backed(db: Db, r: Request, grantId: Id, code: Code, now: int) {
    && GoodStanding(db.world, r.webSessionId, r.userId, Target(code.deviceId, code.studioId), now)
    && code.userId == r.userId && code.clientId == r.clientId
    && grantId in db.grants.rows
    && var g := db.grants.rows[grantId];
       && g.revokedAt.None? && g.userId == code.userId && g.clientId == code.clientId
       && g.deviceId == code.deviceId && g.studioId == code.studioId
       && AsSet(g.scopes) == AsSet(code.scopes)
  }

  /** Provenance. A code issued without a prompt carries the scope set and the
      resource of the last explicit approval of that session and client, and is
      backed at the instant its transaction commits. */
  lemma UnpromptedCodeProvenance(steps: seq<Step>, t: nat, seed: CodeSeed, now: int)
    requires Next(Reach(steps), Issue(t, seed, now)).db != Reach(steps).db
    ensures var s := Reach(steps);
            var n := Next(s, Issue(t, seed, now));
            && t in s.pending && seed.id in n.db.codes.rows && seed.id !in s.db.codes.rows
            && var r, code := s.pending[t].request, n.db.codes.rows[seed.id];
               && n.db == s.db.(codes := n.db.codes) && n.db.codes.rows == s.db.codes.rows[seed.id := code]
               && PairOf(r) in s.lastApproval
               && var last := s.lastApproval[PairOf(r)];
                  && AsSet(code.scopes) == AsSet(last.scopes) && code.resource == last.resource
                  && ValidScopes(code.scopes)
                  && Backed(s.db, r, last.grantId, code, now)
  {
    hide ValidScopes, SameScopeSet, AsSet, SessionActive, DeviceActive, StudioActive, Permitted;
    RunInv(Initial, steps);
    var s := Reach(steps);
    var p := s.pending[t];
    var row := s.db.consents[PairOf(p.request)];
    assert ValidScopes(row.scopes) && ValidScopes(p.read.scopes) && ValidScopes(p.request.scopes);
    ValidMeansDistinct(p.request.scopes);
    ValidMeansDistinct(p.read.scopes);
    SameScopeSetIsEquality(row.scopes, p.read.scopes);
    SameScopeSetIsEquality(p.read.scopes, p.request.scopes);
    SameScopeSetIsEquality(s.db.grants.rows[row.grantId].scopes, p.request.scopes);
    StandingIs(s.db.world, p.request.webSessionId, p.request.userId, p.target, now);
    hide GoodStanding;
  }

  lemma ValidMeansDistinct(scopes: seq<string>)
    requires ValidScopes(scopes)
    ensures Distinct(scopes)
  {
  }

  /** An explicit approval backs its own code, and is what will be remembered.
      The grant id it was given may be new or that of the same owner's grant. */
  lemma ApprovalProvenance(steps: seq<Step>, r: Request, target: Target, grantId: Id, seed: CodeSeed, now: int)
    requires RecordApproval(Reach(steps).db, r, target, grantId, seed, now).Ok?
    requires var rows := Reach(steps).db.grants.rows;
             grantId in rows ==> OwnerOf(rows[grantId]) == Owner(r.userId, r.clientId, target.deviceId)
    ensures var n := Next(Reach(steps), Approve(r, target, grantId, seed, now));
            && seed.id in n.db.codes.rows && PairOf(r) in n.lastApproval
            && n.lastApproval[PairOf(r)].scopes == r.scopes && n.lastApproval[PairOf(r)].resource == r.resource
            && Backed(n.db, r, n.lastApproval[PairOf(r)].grantId, n.db.codes.rows[seed.id], now)
            && n.db.grants.rows[n.lastApproval[PairOf(r)].grantId].resource == n.db.codes.rows[seed.id].resource
               == r.resource
  {
    hide Run, ValidScopes, AsSet, SessionActive, DeviceActive, StudioActive, Permitted;
    RunInv(Initial, steps);
    ApprovedGrants(Reach(steps).db, r, target, grantId, seed, now);
    StandingIs(Reach(steps).db.world, r.webSessionId, r.userId, target, now);
    hide GoodStanding;
  }

  /** When nothing changes after the two reads, the transaction refuses exactly
      what no longer holds of session, device, Studio and entitlement, and what
      the code's own insert refuses. */
  lemma ReissueExact(db: Db, r: Request, grantId: Id, seed: CodeSeed, now: int)
    requires ConsentMatches(db, r) && db.consents[PairOf(r)].grantId == grantId && GrantTarget(db, r, grantId).Some?
    ensures var target := GrantTarget(db, r, grantId).value;
            IssueRemembered(db, r, db.consents[PairOf(r)], target, seed, now).Ok? <==>
              && GoodStanding(db.world, r.webSessionId, r.userId, target, now)
              && r.clientId != 0 && seed.id != 0 && seed.expiresAt != 0 && ValidScopes(r.scopes)
              && seed.id !in db.codes.rows && seed.digest !in db.codes.index
  {
    hide ValidScopes;
    SameAsItself(db.consents[PairOf(r)].scopes);
    StandingIs(db.world, r.webSessionId, r.userId, GrantTarget(db, r, grantId).value, now);
    hide GoodStanding;
  }

  lemma SameAsItself(scopes: seq<string>)
    ensures SameScopeSet(scopes, scopes)
  {
  }

  /** Nothing else creates codes. */
  lemma CodesComeFromApprovalsAndReissues(s: State, step: Step, id: Id)
    requires id in Next(s, step).db.codes.rows && id !in s.db.codes.rows
    ensures (step.Approve? || step.Issue?) && step.seed.id == id
  {
    hide ValidScopes, SameScopeSet, SessionActive, DeviceActive, StudioActive, Permitted, UpsertGrant;
  }

  /** A request that repeats a scope can pass both unlocked reads; validation at
      the insert is what stops it. */
  lemma DuplicatesStoppedAtInsert(db: Db, r: Request, read: SessionConsent, target: Target, seed: CodeSeed, now: int)
    requires !Distinct(r.scopes)
    ensures IssueRemembered(db, r, read, target, seed, now).Err?
    ensures SameScopeSet(["a", "b"], ["a", "a"]) && AsSet(["a", "b"]) != AsSet(["a", "a"])
  {
    hide SameScopeSet, SessionActive, DeviceActive, StudioActive, Permitted;
    DuplicatePasses();
  }

  lemma DuplicatePasses()
    ensures SameScopeSet(["a", "b"], ["a", "a"]) && AsSet(["a", "b"]) != AsSet(["a", "a"])
  {
    assert ["a", "b"][1] in AsSet(["a", "b"]);
    assert "b" !in AsSet(["a", "a"]) by { assert "b"[0] != "a"[0]; }
  }
}
