/** When an approval is recorded and when a remembered one yields a code without a
    prompt, in terms of the rows alone. */
module ConsentExact {
  import opened Common
  import opened Scopes
  import opened OAuthTables
  import opened Consent
  import CodeExchange
  import TokenRuns

  /** The code can be stored: complete, and neither id nor digest in use. */
  ghost predicate Storable(codes: Codes, r: Request, seed: CodeSeed) {
    && r.clientId != 0 && seed.id != 0 && seed.expiresAt != 0 && ValidScopes(r.scopes)
    && seed.id !in codes.rows && seed.digest !in codes.index
  }

  function CodeOf(r: Request, target: Target, seed: CodeSeed): Code {
    Code(seed.id, r.userId, r.clientId, seed.redirectUri, r.scopes, target.deviceId, target.studioId, r.resource,
         seed.expiresAt, None)
  }

  function GrantOf(r: Request, target: Target): Grant {
    Grant(r.userId, r.clientId, target.deviceId, target.studioId, r.scopes, r.resource, None)
  }

  lemma InsertIs(codes: Codes, r: Request, target: Target, seed: CodeSeed)
    requires r.userId != 0
    ensures var n := InsertCode(codes, NewCode(r, target, seed), seed.digest);
            && (n.Ok? <==> Storable(codes, r, seed))
            && (n.Ok? ==> n.value.rows == codes.rows[seed.id := CodeOf(r, target, seed)])
  {
    hide ValidScopes;
  }

  /** An approval is recorded exactly in good standing, for a code that can be
      stored, under a new grant id or one whose owner holds a grant. Then the
      grant of the user, client and device is saved, remembered for the session,
      and the code stored; otherwise nothing changes. */
  lemma ApprovalExact(steps: seq<Step>, r: Request, target: Target, grantId: Id, seed: CodeSeed, now: int, mine: Id)
    requires var g, owner := Reach(steps).db.grants, Owner(r.userId, r.clientId, target.deviceId);
             CodeExchange.Owned(g, owner, mine) || forall o :: !CodeExchange.Owned(g, owner, o)
    ensures var s := Reach(steps);
            var n := Next(s, Approve(r, target, grantId, seed, now));
            var held := CodeExchange.Owned(s.db.grants, Owner(r.userId, r.clientId, target.deviceId), mine);
            if GoodStanding(s.db.world, r.webSessionId, r.userId, target, now) && Storable(s.db.codes, r, seed)
               && grantId != 0 && (grantId in s.db.grants.rows ==> held)
            then
              && n.db.world == s.db.world
              && CodeExchange.SavedAs(s.db.grants, n.db.grants, grantId, GrantOf(r, target), mine)
              && n.db.codes.rows == s.db.codes.rows[seed.id := CodeOf(r, target, seed)]
              && n.db.consents == s.db.consents[Pair(r.webSessionId, r.clientId) :=
                                    SessionConsent(if held then mine else grantId, r.scopes, r.resource)]
            else n == s
  {
    hide Run, ValidScopes, SessionActive, DeviceActive, StudioActive, Permitted, InsertCode, UpsertGrant,
         CodeExchange.SavedAs, Storable;
    RunInv(Initial, steps);
    var s := Reach(steps);
    StandingIs(s.db.world, r.webSessionId, r.userId, target, now);
    OwnerIndex(s.db.grants, Owner(r.userId, r.clientId, target.deviceId), mine);
    hide TokenRuns.GrantsInv;
    if GoodStanding(s.db.world, r.webSessionId, r.userId, target, now) {
      InsertIs(s.db.codes, r, target, seed);
      hide GoodStanding;
      CodeExchange.SavedRows(s.db.grants, grantId, GrantOf(r, target), mine);
      if Storable(s.db.codes, r, seed) && grantId != 0 {
        StorableScopes(s.db.codes, r, seed);
        SavedIs(s.db.grants, grantId, GrantOf(r, target), mine);
      }
    }
  }

  lemma StorableScopes(codes: Codes, r: Request, seed: CodeSeed)
    requires Storable(codes, r, seed)
    ensures ValidScopes(r.scopes) && r.clientId != 0
  {
  }

  lemma OwnerIndex(g: Grants, owner: Owner, mine: Id)
    requires TokenRuns.GrantsInv(g)
    requires CodeExchange.Owned(g, owner, mine) || forall o :: !CodeExchange.Owned(g, owner, o)
    ensures CodeExchange.Owned(g, owner, mine) ==> owner in g.index && g.index[owner] == mine
    ensures !CodeExchange.Owned(g, owner, mine) ==> owner !in g.index
  {
    if owner in g.index { assert CodeExchange.Owned(g, owner, g.index[owner]); }
  }

  lemma SavedIs(g: Grants, grantId: Id, row: Grant, mine: Id)
    requires CodeExchange.Owned(g, OwnerOf(row), mine) ==> OwnerOf(row) in g.index && g.index[OwnerOf(row)] == mine
    requires !CodeExchange.Owned(g, OwnerOf(row), mine) ==> OwnerOf(row) !in g.index
    requires grantId != 0 && row.userId != 0 && row.clientId != 0 && row.deviceId != 0 && ValidScopes(row.scopes)
    ensures SaveGrant(g, grantId, row) == UpsertGrant(g, grantId, row)
    ensures var held := CodeExchange.Owned(g, OwnerOf(row), mine);
            && (UpsertGrant(g, grantId, row).Ok? <==> (grantId in g.rows ==> held))
            && (UpsertGrant(g, grantId, row).Ok? ==>
                  UpsertGrant(g, grantId, row).value.1 == if held then mine else grantId)
  {
    hide ValidScopes;
  }

  // ------------------------------------------------- without a prompt

  /** The same scopes, in as many entries. */
  ghost predicate SameScopes(a: seq<string>, b: seq<string>) {
    |a| == |b| && AsSet(a) == AsSet(b)
  }

  lemma SameIs(a: seq<string>, b: seq<string>)
    requires Distinct(b)
    ensures SameScopes(a, b) <==> SameScopeSet(a, b)
  {
    SameScopeSetIsEquality(a, b);
  }

  /** What is remembered for the session and client covers the request: the same
      resource and scopes, backed by a live grant of the same user and client
      for those scopes and the target. */
  ghost predicate Covers(db: Db, r: Request, target: Target) {
    var pair := Pair(r.webSessionId, r.clientId);
    && pair in db.consents
    && var row := db.consents[pair];
       && row.resource == r.resource && SameScopes(row.scopes, r.scopes)
       && row.grantId != 0 && row.grantId in db.grants.rows
       && var g := db.grants.rows[row.grantId];
          && g.userId == r.userId && g.clientId == r.clientId && g.revokedAt.None?
          && g.deviceId == target.deviceId && g.studioId == target.studioId && SameScopes(g.scopes, r.scopes)
  }

  /** An unprompted request from its first read to its transaction. */
  ghost function Unprompted(s: State, t: nat, r: Request, seed: CodeSeed, now: int): State {
    Next(Next(Next(s, ReadConsent(t, r)), ReadGrant(t)), Issue(t, seed, now))
  }

  ghost predicate Reissues(db: Db, r: Request, target: Target, seed: CodeSeed, now: int) {
    GoodStanding(db.world, r.webSessionId, r.userId, target, now) && Storable(db.codes, r, seed)
  }

  /** The three steps with nothing in between. */
  lemma UnpromptedIs(s: State, t: nat, r: Request, seed: CodeSeed, now: int)
    requires t !in s.pending
    ensures var n := Unprompted(s, t, r, seed, now);
            && n.pending == s.pending
            && n.db == if !ConsentMatches(s.db, r) || GrantTarget(s.db, r, s.db.consents[PairOf(r)].grantId).None?
                       then s.db
                       else
                         var read := s.db.consents[PairOf(r)];
                         var done := IssueRemembered(s.db, r, read, GrantTarget(s.db, r, read.grantId).value, seed,
                                                     now);
                         if done.Ok? then done.value else s.db
  {
    hide IssueRemembered, GrantTarget, ConsentMatches;
    MatchesHave(s.db, r);
    var s1 := Next(s, ReadConsent(t, r));
    var s2 := Next(s1, ReadGrant(t));
    assert s1.db == s.db && s2.db == s.db;
    assert s.pending == (s.pending[t := HasConsent(r, SessionConsent(0, [], 0))]) - {t};
  }

  lemma MatchesHave(db: Db, r: Request)
    ensures ConsentMatches(db, r) ==> PairOf(r) in db.consents
  {
  }

  lemma CoversIs(db: Db, r: Request, target: Target)
    requires ValidScopes(r.scopes) && r.userId != 0
    ensures Covers(db, r, target) && target.deviceId != 0 && target.studioId != 0 <==>
              ConsentMatches(db, r) && GrantTarget(db, r, db.consents[PairOf(r)].grantId) == Some(target)
  {
    hide ValidScopes, SameScopeSet, SameScopes;
    ValidMeansDistinct(r.scopes);
    assert target == Target(target.deviceId, target.studioId);
    if PairOf(r) in db.consents {
      var row := db.consents[PairOf(r)];
      SameIs(row.scopes, r.scopes);
      if row.grantId in db.grants.rows { SameIs(db.grants.rows[row.grantId].scopes, r.scopes); }
    }
  }

  lemma IssuedIs(db: Db, r: Request, seed: CodeSeed, now: int)
    requires ConsentMatches(db, r) && GrantTarget(db, r, db.consents[PairOf(r)].grantId).Some?
    ensures var read := db.consents[PairOf(r)];
            var target := GrantTarget(db, r, read.grantId).value;
            var done := IssueRemembered(db, r, read, target, seed, now);
            && (done.Ok? <==> Reissues(db, r, target, seed, now))
            && (done.Ok? ==> done.value == db.(codes := done.value.codes)
                             && done.value.codes.rows == db.codes.rows[seed.id := CodeOf(r, target, seed)])
  {
    hide ValidScopes, GoodStanding, SessionActive, DeviceActive, StudioActive, Permitted;
    ReissueExact(db, r, db.consents[PairOf(r)].grantId, seed, now);
  }

  /** With nothing in between, an unprompted request yields a code exactly if what
      is remembered covers it, for a target in good standing, and the code can be
      stored; that code is all it changes. */
  lemma UnpromptedExact(steps: seq<Step>, t: nat, r: Request, seed: CodeSeed, now: int)
    requires t !in Reach(steps).pending
    ensures var s := Reach(steps);
            var n := Unprompted(s, t, r, seed, now);
            && n.pending == s.pending
            && (n.db != s.db ==> exists target :: Covers(s.db, r, target) && Reissues(s.db, r, target, seed, now))
            && (forall target :: Covers(s.db, r, target) && Reissues(s.db, r, target, seed, now) ==>
                  && n.db == s.db.(codes := n.db.codes) && n.db != s.db
                  && n.db.codes.rows == s.db.codes.rows[seed.id := CodeOf(r, target, seed)])
  {
    hide Run, Inv, Covers, ConsentMatches, GrantTarget, IssueRemembered, Unprompted, ValidScopes;
    var s := Reach(steps);
    UnpromptedIs(s, t, r, seed, now);
    MatchesHave(s.db, r);
    if ConsentMatches(s.db, r) && GrantTarget(s.db, r, s.db.consents[PairOf(r)].grantId).Some? {
      IssuedIs(s.db, r, seed, now);
      var target := GrantTarget(s.db, r, s.db.consents[PairOf(r)].grantId).value;
      if Reissues(s.db, r, target, seed, now) { CoversIs(s.db, r, target); }
    }
    forall target | Covers(s.db, r, target) && Reissues(s.db, r, target, seed, now)
      ensures var n := Unprompted(s, t, r, seed, now);
              && n.db == s.db.(codes := n.db.codes) && n.db != s.db
              && n.db.codes.rows == s.db.codes.rows[seed.id := CodeOf(r, target, seed)]
    {
      CoversIs(s.db, r, target);
      assert seed.id !in s.db.codes.rows;
    }
  }

  // ---------------------------------------------- whatever happened meanwhile

  /** What the transaction of an unprompted request asks of the tables as they are
      by then: the remembered row is the one that was read, its grant is live and
      still names the target and the scopes, and all is in good standing. */
  ghost predicate StillCovers(db: Db, r: Request, read: SessionConsent, target: Target, now: int) {
    var pair := Pair(r.webSessionId, r.clientId);
    && GoodStanding(db.world, r.webSessionId, r.userId, target, now)
    && pair in db.consents
    && var row := db.consents[pair];
       && row.grantId == read.grantId && row.resource == read.resource && SameScopes(row.scopes, read.scopes)
       && row.grantId != 0 && row.grantId in db.grants.rows
       && var g := db.grants.rows[row.grantId];
          && g.userId == r.userId && g.clientId == r.clientId && g.revokedAt.None?
          && g.deviceId == target.deviceId && g.studioId == target.studioId && SameScopes(g.scopes, r.scopes)
  }

  /** In every run, whatever came between the reads and the transaction, a code is
      issued exactly if the tables still cover the request and it can be stored;
      the request is over either way. */
  lemma IssueExact(steps: seq<Step>, t: nat, seed: CodeSeed, now: int)
    requires t in Reach(steps).pending && Reach(steps).pending[t].HasTarget?
    ensures var s := Reach(steps);
            var p := s.pending[t];
            var n := Next(s, Issue(t, seed, now));
            && n.pending == s.pending - {t}
            && if StillCovers(s.db, p.request, p.read, p.target, now) && Storable(s.db.codes, p.request, seed)
               then
                 && n.db == s.db.(codes := n.db.codes)
                 && n.db.codes.rows == s.db.codes.rows[seed.id := CodeOf(p.request, p.target, seed)]
               else n.db == s.db
  {
    hide Run, ValidScopes, GoodStanding, SameScopes, SameScopeSet, SessionActive, DeviceActive, StudioActive, Permitted,
         Storable, InsertCode;
    RunInv(Initial, steps);
    var s := Reach(steps);
    var p := s.pending[t];
    StandingIs(s.db.world, p.request.webSessionId, p.request.userId, p.target, now);
    InsertNeeds(s.db.codes, p.request, p.target, seed);
    if p.request.userId != 0 { InsertIs(s.db.codes, p.request, p.target, seed); }
    ReadDistinct(s, t);
    if PairOf(p.request) in s.db.consents {
      var row := s.db.consents[PairOf(p.request)];
      SameIs(row.scopes, p.read.scopes);
      if row.grantId in s.db.grants.rows && ValidScopes(p.request.scopes) {
        ValidMeansDistinct(p.request.scopes);
        SameIs(s.db.grants.rows[row.grantId].scopes, p.request.scopes);
      }
    }
  }

  lemma InsertNeeds(codes: Codes, r: Request, target: Target, seed: CodeSeed)
    ensures InsertCode(codes, NewCode(r, target, seed), seed.digest).Ok? ==> ValidScopes(r.scopes) && r.userId != 0
    ensures Storable(codes, r, seed) ==> ValidScopes(r.scopes)
  {
    hide ValidScopes;
  }

  lemma ReadDistinct(s: State, t: nat)
    requires Inv(s) && t in s.pending
    ensures Distinct(s.pending[t].read.scopes)
  {
    hide ConsentsInv, ValidScopes;
    assert ValidScopes(s.pending[t].read.scopes);
    ValidMeansDistinct(s.pending[t].read.scopes);
  }
}
