/** What each transaction does to the tokens that exist already: exactly which of
    them stop working, and that no other does. */
module TokenEffects {
  import opened Common
  import opened OAuthTables
  import opened Scopes
  import opened TokenFamilies
  import opened TokenRuns
  import opened TokenTheorems

  // -------------------------------------------------------- access tokens

  ghost predicate AccessWorks(s: State, id: Id, at: int) {
    id in s.t.access.rows && AccessTokenByDigest(s.t, s.t.access.rows[id].digest, at) == Ok(id)
  }

  /** The grant of the refresh token a digest finds. */
  ghost predicate FindsGrant(s: State, digest: Id, grantId: Id) {
    digest in s.t.refresh.index && s.t.refresh.index[digest] in s.t.refresh.rows
    && s.t.refresh.rows[s.t.refresh.index[digest]].grantId == grantId
  }

  /** The refresh token a digest finds was used or revoked before. */
  ghost predicate FindsSpent(s: State, digest: Id) {
    digest in s.t.refresh.index && s.t.refresh.index[digest] in s.t.refresh.rows
    && var row := s.t.refresh.rows[s.t.refresh.index[digest]]; row.usedAt.Some? || row.revokedAt.Some?
  }

  /** The grant of the user, client and device a code was issued for. */
  ghost predicate CodeGrant(s: State, codeId: Id, grantId: Id) {
    codeId in s.t.codes.rows && grantId in s.t.grants.rows
    && var code, grant := s.t.codes.rows[codeId], s.t.grants.rows[grantId];
       code.userId == grant.userId && code.clientId == grant.clientId && code.deviceId == grant.deviceId
  }

  /** The steps that stop the access token `id` of grant `grantId` and `userId`. */
  ghost predicate StopsAccess(s: State, step: Step, id: Id)
    requires id in s.t.access.rows
  {
    var row := s.t.access.rows[id];
    match step
    case RevokingGrant(grantId, now) => grantId == row.grantId && grantId != 0 && now != 0
    case RevokingConnector(userId, grantId, now) =>
      grantId == row.grantId && userId == row.userId && userId != 0 && grantId != 0 && now != 0
    case RevokingAccess(digest, _) => digest == row.digest
    case RevokingRefresh(digest, now) => FindsGrant(s, digest, row.grantId) && now != 0
    case Rotating(digest, pair, now) =>
      FindsGrant(s, digest, row.grantId) && FindsSpent(s, digest) && PairComplete(pair) && now != 0
    case RevokingRequest(requestId, includeAccess, member, now) =>
      requestId != 0 && SomeMember(s.t.refresh, requestId, member)
      && if includeAccess && requestId in s.t.access.rows then requestId == id
         else if member.Some? then s.t.refresh.rows[member.value].grantId == row.grantId && now != 0
         else CodeGrant(s, requestId, row.grantId) && row.grantId != 0 && now != 0
    case _ => false
  }

  /** Any transaction but a new approval leaves an access token working exactly
      if it worked and the transaction is not one that stops it. */
  lemma AccessEffectExact(steps: seq<Step>, step: Step, id: Id, at: int)
    requires id in Reach(steps).t.access.rows && !step.Approve?
    ensures var s := Reach(steps);
            AccessWorks(Next(s, step), id, at) <==> AccessWorks(s, id, at) && !StopsAccess(s, step, id)
  {
    hide Inv, Run, Next, AccessWorks, StopsAccess;
    ReachInv(steps);
    AccessEffect(Reach(steps), step, id, at);
  }

  lemma AccessEffect(s: State, step: Step, id: Id, at: int)
    requires Inv(s) && id in s.t.access.rows && !step.Approve?
    ensures AccessWorks(Next(s, step), id, at) <==> AccessWorks(s, id, at) && !StopsAccess(s, step, id)
  {
    hide Inv, Later, Next, AccessWorks, StopsAccess, Good;
    NextStep(s, step);
    AccessKept(s, Next(s, step), id);
    WorksIfGood(s, id, at);
    WorksIfGood(Next(s, step), id, at);
    GrantOfToken(s, id);
    GrantOfToken(Next(s, step), id);
    match step
    case RevokingGrant(grantId, now) => GrantEffect(s, grantId, now, id, at);
    case RevokingConnector(userId, grantId, now) => ConnectorEffect(s, userId, grantId, now, id, at);
    case RevokingAccess(digest, now) => OneEffect(s, digest, now, id, at);
    case RevokingRefresh(digest, now) => RefreshEffect(s, digest, now, id, at);
    case Rotating(digest, pair, now) => RotatingEffect(s, digest, pair, now, id, at);
    case RevokingRequest(requestId, includeAccess, member, now) =>
      RequestEffect(s, requestId, includeAccess, member, now, id, at);
    case SettingTarget(userId, grantId, deviceId, studioId, owned) =>
      TargetEffect(s, userId, grantId, deviceId, studioId, owned, id, at);
    case Issue(x, pair) => IssueEffect(s, x, pair, id, at);
    case _ => OtherEffect(s, step, id, at);
  }

  /** The answer to a presented access token: the token's own revocation comes
      before its expiry, and that before the grant's revocation. */
  lemma AccessAnswer(steps: seq<Step>, id: Id, now: int)
    requires id in Reach(steps).t.access.rows && now != 0
    ensures var t := Reach(steps).t;
            var row := t.access.rows[id];
            && row.grantId in t.grants.rows
            && AccessTokenByDigest(t, row.digest, now) ==
                 if row.revokedAt.Some? then Err(TokenRevoked)
                 else if now >= row.expiresAt then Err(TokenExpired)
                 else if t.grants.rows[row.grantId].revokedAt.Some? then Err(GrantRevoked)
                 else Ok(id)
  {
    hide Inv, Run;
    ReachInv(steps);
    GrantOfToken(Reach(steps), id);
  }

  /** What acceptance comes to, row by row. */
  ghost predicate Good(t: Tables, id: Id, at: int)
    requires id in t.access.rows && t.access.rows[id].grantId in t.grants.rows
  {
    at != 0 && t.access.rows[id].revokedAt.None? && at < t.access.rows[id].expiresAt
    && t.grants.rows[t.access.rows[id].grantId].revokedAt.None?
  }

  lemma WorksIfGood(s: State, id: Id, at: int)
    requires Inv(s) && id in s.t.access.rows
    ensures s.t.access.rows[id].grantId in s.t.grants.rows
    ensures AccessWorks(s, id, at) <==> Good(s.t, id, at)
  {
    hide Inv;
    GrantOfToken(s, id);
  }

  lemma AccessKept(s: State, n: State, id: Id)
    requires Later(s.t, n.t) && id in s.t.access.rows
    ensures id in n.t.access.rows && n.t.access.rows[id].grantId == s.t.access.rows[id].grantId
    ensures n.t.access.rows[id].userId == s.t.access.rows[id].userId
    ensures n.t.access.rows[id].digest == s.t.access.rows[id].digest
    ensures n.t.access.rows[id].expiresAt == s.t.access.rows[id].expiresAt
  {
    hide CodesLater, GrantsLater, RefreshLater;
  }

  /** Revoking a grant with its access tokens stops those tokens and no other. */
  lemma WideEffect(t: Tables, n: Tables, grantId: Id, userId: Id, now: int, id: Id, at: int)
    requires GrantExists(t.grants, grantId, userId) && id in t.access.rows
    requires GrantExists(t.grants, t.access.rows[id].grantId, t.access.rows[id].userId)
    requires n.access == RevokedAccess(t.access, grantId, userId, now)
    requires n.grants == RevokedGrant(t.grants, grantId, userId, now)
    ensures id in n.access.rows && n.access.rows[id].grantId in n.grants.rows
    ensures Good(n, id, at) <==> Good(t, id, at) && t.access.rows[id].grantId != grantId
  {
  }

  lemma GrantEffect(s: State, grantId: Id, now: int, id: Id, at: int)
    requires Inv(s) && id in s.t.access.rows
    requires GrantExists(s.t.grants, s.t.access.rows[id].grantId, s.t.access.rows[id].userId)
    ensures var n, step := Next(s, RevokingGrant(grantId, now)).t, RevokingGrant(grantId, now);
            && id in n.access.rows && n.access.rows[id].grantId in n.grants.rows
            && (Good(n, id, at) <==> Good(s.t, id, at) && !StopsAccess(s, step, id))
  {
    hide Inv, RevokedAccess, RevokedGrant, RevokedByGrant;
    if grantId in s.t.grants.rows {
      WideEffect(s.t, RevokeAllOf(s.t, grantId, s.t.grants.rows[grantId].userId, now), grantId,
                 s.t.grants.rows[grantId].userId, now, id, at);
    }
  }

  lemma ConnectorEffect(s: State, userId: Id, grantId: Id, now: int, id: Id, at: int)
    requires Inv(s) && id in s.t.access.rows
    requires GrantExists(s.t.grants, s.t.access.rows[id].grantId, s.t.access.rows[id].userId)
    ensures var step := RevokingConnector(userId, grantId, now);
            var n := Next(s, step).t;
            && id in n.access.rows && n.access.rows[id].grantId in n.grants.rows
            && (Good(n, id, at) <==> Good(s.t, id, at) && !StopsAccess(s, step, id))
  {
    hide Inv, RevokedAccess, RevokedGrant, RevokedByGrant;
    if GrantExists(s.t.grants, grantId, userId) {
      WideEffect(s.t, RevokeAllOf(s.t, grantId, userId, now), grantId, userId, now, id, at);
    }
  }

  lemma OneEffect(s: State, digest: Id, now: int, id: Id, at: int)
    requires Inv(s) && id in s.t.access.rows
    requires GrantExists(s.t.grants, s.t.access.rows[id].grantId, s.t.access.rows[id].userId)
    ensures var step := RevokingAccess(digest, now);
            var n := Next(s, step).t;
            && id in n.access.rows && n.access.rows[id].grantId in n.grants.rows
            && (Good(n, id, at) <==> Good(s.t, id, at) && !StopsAccess(s, step, id))
  {
    hide FamiliesInv, ExchangesInv, RefreshInv, GrantsInv, CodesInv;
  }

  lemma FamilyEffect(s: State, refreshId: Id, now: int, id: Id, at: int)
    requires Inv(s) && id in s.t.access.rows && refreshId in s.t.refresh.rows
    requires GrantExists(s.t.grants, s.t.access.rows[id].grantId, s.t.access.rows[id].userId)
    ensures var row := s.t.refresh.rows[refreshId];
            var n := RevokeFamily(s.t, row, now);
            && id in n.access.rows && n.access.rows[id].grantId in n.grants.rows
            && (Good(n, id, at) <==> Good(s.t, id, at) && row.grantId != s.t.access.rows[id].grantId)
  {
    hide Inv, RevokedAccess, RevokedGrant, RevokedFamily;
    RefreshGrant(s, refreshId);
    var row := s.t.refresh.rows[refreshId];
    WideEffect(s.t, RevokeFamily(s.t, row, now), row.grantId, row.userId, now, id, at);
  }

  lemma RefreshEffect(s: State, digest: Id, now: int, id: Id, at: int)
    requires Inv(s) && id in s.t.access.rows
    requires GrantExists(s.t.grants, s.t.access.rows[id].grantId, s.t.access.rows[id].userId)
    ensures var step := RevokingRefresh(digest, now);
            var n := Next(s, step).t;
            && id in n.access.rows && n.access.rows[id].grantId in n.grants.rows
            && (Good(n, id, at) <==> Good(s.t, id, at) && !StopsAccess(s, step, id))
  {
    hide Inv, RevokeFamily, Good;
    var found := FindRefresh(s.t.refresh, digest);
    if found.Some? { FamilyEffect(s, found.value, now, id, at); }
  }

  /** New rows do not touch an old one. */
  lemma InsertEffect(t: Tables, pair: TokenPair, userId: Id, grantId: Id, familyId: Id, parentId: Id, id: Id, at: int)
    requires id in t.access.rows && t.access.rows[id].grantId in t.grants.rows
    ensures var n := InsertPair(t, pair, userId, grantId, familyId, parentId);
            n.Ok? ==> && id in n.value.access.rows && n.value.access.rows[id] == t.access.rows[id]
                      && n.value.grants == t.grants
  {
  }

  lemma RotatingEffect(s: State, digest: Id, pair: TokenPair, now: int, id: Id, at: int)
    requires Inv(s) && id in s.t.access.rows
    requires GrantExists(s.t.grants, s.t.access.rows[id].grantId, s.t.access.rows[id].userId)
    ensures var step := Rotating(digest, pair, now);
            var n := Next(s, step).t;
            && id in n.access.rows && n.access.rows[id].grantId in n.grants.rows
            && (Good(n, id, at) <==> Good(s.t, id, at) && !StopsAccess(s, step, id))
  {
    hide Inv, RevokeFamily, InsertPair;
    var found := FindRefresh(s.t.refresh, digest);
    if found.Some? {
      FamilyEffect(s, found.value, now, id, at);
      var row := s.t.refresh.rows[found.value];
      var used := s.t.(refresh := s.t.refresh.(rows := s.t.refresh.rows[found.value := row.(usedAt := Some(now))]));
      InsertEffect(used, pair, row.userId, row.grantId, row.familyId, found.value, id, at);
    }
  }

  lemma IssueEffect(s: State, x: nat, pair: TokenPair, id: Id, at: int)
    requires Inv(s) && id in s.t.access.rows
    requires GrantExists(s.t.grants, s.t.access.rows[id].grantId, s.t.access.rows[id].userId)
    ensures var step := Issue(x, pair);
            var n := Next(s, step).t;
            && id in n.access.rows && n.access.rows[id].grantId in n.grants.rows
            && (Good(n, id, at) <==> Good(s.t, id, at) && !StopsAccess(s, step, id))
  {
    hide Inv, InsertPair;
    if x in s.exchanges && s.exchanges[x].Checked? && s.exchanges[x].code in s.t.codes.rows {
      InsertEffect(s.t, pair, s.t.codes.rows[s.exchanges[x].code].userId, s.exchanges[x].grantId, pair.refresh.id, 0,
                   id, at);
    }
  }

  lemma RequestEffect(s: State, requestId: Id, includeAccess: bool, member: Option<Id>, now: int, id: Id, at: int)
    requires Inv(s) && id in s.t.access.rows
    requires GrantExists(s.t.grants, s.t.access.rows[id].grantId, s.t.access.rows[id].userId)
    ensures var step := RevokingRequest(requestId, includeAccess, member, now);
            var n := Next(s, step).t;
            && id in n.access.rows && n.access.rows[id].grantId in n.grants.rows
            && (Good(n, id, at) <==> Good(s.t, id, at) && !StopsAccess(s, step, id))
  {
    hide Inv, RevokeAccessToken, RevokeRefreshToken, RevokeGrant, Good;
    if requestId != 0 && SomeMember(s.t.refresh, requestId, member) {
      if includeAccess && requestId in s.t.access.rows {
        OneEffect(s, s.t.access.rows[requestId].digest, now, id, at);
        DigestsDiffer(s, requestId, id);
      } else if member.Some? {
        RefreshEffect(s, s.t.refresh.rows[member.value].digest, now, id, at);
        DigestFinds(s, member.value);
      } else if requestId in s.t.codes.rows {
        var code := s.t.codes.rows[requestId];
        OwnerGrant(s, Owner(code.userId, code.clientId, code.deviceId), s.t.access.rows[id].grantId);
        var grant := GrantByOwner(s.t.grants, Owner(code.userId, code.clientId, code.deviceId));
        if grant.Ok? { GrantEffect(s, grant.value, now, id, at); }
      }
    }
  }

  lemma DigestsDiffer(s: State, a: Id, b: Id)
    requires Inv(s) && a in s.t.access.rows && b in s.t.access.rows
    ensures s.t.access.rows[a].digest == s.t.access.rows[b].digest <==> a == b
  {
    hide Inv;
    GrantOfToken(s, a);
    GrantOfToken(s, b);
  }

  /** An owner triple names at most one grant. */
  lemma OwnerGrant(s: State, owner: Owner, grantId: Id)
    requires Inv(s) && grantId in s.t.grants.rows
    ensures GrantByOwner(s.t.grants, owner) == Ok(grantId) <==> OwnerOf(s.t.grants.rows[grantId]) == owner
  {
    hide FamiliesInv, ExchangesInv, AccessInv, RefreshInv, CodesInv, ValidScopes;
  }

  lemma TargetEffect(s: State, userId: Id, grantId: Id, deviceId: Id, studioId: Id, owned: bool, id: Id, at: int)
    requires Inv(s) && id in s.t.access.rows
    requires GrantExists(s.t.grants, s.t.access.rows[id].grantId, s.t.access.rows[id].userId)
    ensures var step := SettingTarget(userId, grantId, deviceId, studioId, owned);
            var n := Next(s, step).t;
            && id in n.access.rows && n.access.rows[id].grantId in n.grants.rows
            && (Good(n, id, at) <==> Good(s.t, id, at) && !StopsAccess(s, step, id))
  {
    hide Inv;
  }

  lemma OtherEffect(s: State, step: Step, id: Id, at: int)
    requires Inv(s) && id in s.t.access.rows
    requires GrantExists(s.t.grants, s.t.access.rows[id].grantId, s.t.access.rows[id].userId)
    requires step.SaveCode? || step.BeginExchange? || step.CheckGrant?
    ensures var n := Next(s, step).t;
            && id in n.access.rows && n.access.rows[id].grantId in n.grants.rows
            && (Good(n, id, at) <==> Good(s.t, id, at) && !StopsAccess(s, step, id))
  {
    hide Inv;
  }

  /** A new approval makes work again what only its grant's revocation kept out:
      the grant of that id if there is one, else the one of that owner. */
  lemma ApprovalEffectExact(steps: seq<Step>, grantId: Id, row: Grant, id: Id, at: int)
    requires id in Reach(steps).t.access.rows && at != 0
    ensures var s := Reach(steps);
            var token := s.t.access.rows[id];
            var n := Next(s, Approve(grantId, row));
            && token.grantId in s.t.grants.rows
            && (AccessWorks(n, id, at) <==>
                  && token.revokedAt.None? && at < token.expiresAt
                  && (s.t.grants.rows[token.grantId].revokedAt.None?
                      || (SaveGrant(s.t.grants, grantId, row).Ok?
                          && (grantId == token.grantId
                              || (grantId !in s.t.grants.rows
                                  && OwnerOf(s.t.grants.rows[token.grantId]) == OwnerOf(row))))))
  {
    hide Inv, Later, Run, AccessWorks, Next, SaveGrant;
    ReachInv(steps);
    var s := Reach(steps);
    NextStep(s, Approve(grantId, row));
    AccessKept(s, Next(s, Approve(grantId, row)), id);
    WorksIfGood(s, id, at);
    WorksIfGood(Next(s, Approve(grantId, row)), id, at);
    SavedGrantEffect(s, grantId, row, s.t.access.rows[id].grantId);
    SavedKeepsAccess(s, grantId, row);
  }

  lemma SavedKeepsAccess(s: State, grantId: Id, row: Grant)
    ensures Next(s, Approve(grantId, row)).t.access == s.t.access
  {
    hide SaveGrant;
  }

  lemma SavedGrantEffect(s: State, grantId: Id, row: Grant, id: Id)
    requires Inv(s) && id in s.t.grants.rows
    ensures var g := Next(s, Approve(grantId, row)).t.grants;
            && id in g.rows
            && (g.rows[id].revokedAt.None? <==>
                  || s.t.grants.rows[id].revokedAt.None?
                  || (SaveGrant(s.t.grants, grantId, row).Ok?
                      && (grantId == id || (grantId !in s.t.grants.rows
                                            && OwnerOf(s.t.grants.rows[id]) == OwnerOf(row)))))
  {
    hide FamiliesInv, ExchangesInv, AccessInv, RefreshInv, CodesInv, ValidScopes;
    OwnerGrant(s, OwnerOf(row), id);
  }

  // ------------------------------------------------------- refresh tokens

  /** What rotation asks of the token itself. */
  ghost predicate Rotatable(s: State, id: Id, at: int)
    requires id in s.t.refresh.rows
  {
    var row := s.t.refresh.rows[id];
    row.usedAt.None? && row.revokedAt.None? && at < row.expiresAt
  }

  lemma RotatesExactly(s: State, id: Id, pair: TokenPair, at: int)
    requires Inv(s) && id in s.t.refresh.rows && PairComplete(pair) && at != 0
    ensures Rotate(s.t, s.t.refresh.rows[id].digest, pair, at).1.Ok? <==> Rotatable(s, id, at) && FreshPair(s.t, pair)
  {
    hide Inv, InsertPair, RevokeFamily, FreshPair;
    DigestFinds(s, id);
    RefreshGrant(s, id);
    if s.t.refresh.rows[id].usedAt.None? { InsertedPair(s, id, pair, at); }
  }

  /** A pair with all it needs, at a time that is given. */
  predicate Filled(pair: TokenPair, now: int) {
    now != 0 && pair.access.id != 0 && pair.access.expiresAt != 0 && pair.refresh.id != 0 && pair.refresh.expiresAt != 0
  }

  /** The answer to a refresh token presented for rotation. */
  ghost predicate Answered(s: State, row: Refresh, pair: TokenPair, now: int, r: Result<(), OAuthError>) {
    if !Filled(pair, now) then r == Err(InvalidArgument)
    else if row.usedAt.Some? then r == Err(TokenReused)
    else if row.revokedAt.Some? then r == Err(TokenRevoked)
    else if now >= row.expiresAt then r == Err(TokenExpired)
    else if FreshPair(s.t, pair) then r == Ok(())
    else r == Err(Conflict)
  }

  /** What a rotation leaves: the old token used, a new one next in its family, an
      access token of the same grant, and all else as it was. */
  ghost predicate RotatedRows(t: Tables, n: Tables, id: Id, pair: TokenPair, now: int)
    requires id in t.refresh.rows
  {
    var row := t.refresh.rows[id];
    && n.codes == t.codes && n.grants == t.grants
    && n.access.rows == t.access.rows[pair.access.id :=
                          Access(row.userId, row.grantId, pair.access.digest, pair.access.expiresAt, None)]
    && n.refresh.rows == t.refresh.rows[id := row.(usedAt := Some(now))]
                           [pair.refresh.id := Refresh(row.userId, row.grantId, row.familyId, id, pair.refresh.digest,
                                                       pair.refresh.expiresAt, None, None)]
  }

  /** Which answer a rotation gives, and that it writes what it should: nothing
      at all if it refuses a token that was neither used nor revoked. */
  lemma RotationExact(steps: seq<Step>, id: Id, pair: TokenPair, now: int)
    requires id in Reach(steps).t.refresh.rows
    ensures var s := Reach(steps);
            var row := s.t.refresh.rows[id];
            var (t, r) := Rotate(s.t, row.digest, pair, now);
            && Answered(s, row, pair, now, r)
            && (r.Ok? ==> RotatedRows(s.t, t, id, pair, now))
            && (r.Err? && r.error != TokenReused && r.error != TokenRevoked ==> t == s.t)
  {
    hide Inv, Run, InsertPair, RevokeFamily, FreshPair, RotatedRows;
    ReachInv(steps);
    var s := Reach(steps);
    DigestFinds(s, id);
    RefreshGrant(s, id);
    if s.t.refresh.rows[id].usedAt.None? {
      InsertedPair(s, id, pair, now);
      InsertConflict(s, id, pair, now);
      InsertRotates(s, id, pair, now);
    }
  }

  lemma InsertConflict(s: State, id: Id, pair: TokenPair, now: int)
    requires id in s.t.refresh.rows
    ensures var row := s.t.refresh.rows[id];
            var used := s.t.(refresh := s.t.refresh.(rows := s.t.refresh.rows[id := row.(usedAt := Some(now))]));
            var t := InsertPair(used, pair, row.userId, row.grantId, row.familyId, id);
            t.Err? ==> t.error == Conflict
  {
  }

  lemma InsertRotates(s: State, id: Id, pair: TokenPair, now: int)
    requires id in s.t.refresh.rows
    ensures var row := s.t.refresh.rows[id];
            var used := s.t.(refresh := s.t.refresh.(rows := s.t.refresh.rows[id := row.(usedAt := Some(now))]));
            var t := InsertPair(used, pair, row.userId, row.grantId, row.familyId, id);
            t.Ok? ==> RotatedRows(s.t, t.value, id, pair, now)
  {
  }

  /** A digest that no refresh token has is refused without a trace. */
  lemma UnknownTokenRefused(steps: seq<Step>, digest: Id, pair: TokenPair, now: int)
    requires var rows := Reach(steps).t.refresh.rows; forall id :: id in rows ==> rows[id].digest != digest
    ensures var s := Reach(steps);
            Rotate(s.t, digest, pair, now) == (s.t, Err(if Filled(pair, now) then TokenNotFound else InvalidArgument))
  {
    hide Run, FamiliesInv, ExchangesInv, GrantsInv, CodesInv, AccessInv, InsertPair, RevokeFamily;
    ReachInv(steps);
  }

  ghost predicate FindsFamily(s: State, digest: Id, familyId: Id) {
    digest in s.t.refresh.index && s.t.refresh.index[digest] in s.t.refresh.rows
    && s.t.refresh.rows[s.t.refresh.index[digest]].familyId == familyId
  }

  /** The steps that stop the refresh token `id`. */
  ghost predicate StopsRefresh(s: State, step: Step, id: Id)
    requires id in s.t.refresh.rows
  {
    var row := s.t.refresh.rows[id];
    match step
    case RevokingGrant(grantId, now) => grantId == row.grantId && grantId != 0 && now != 0
    case RevokingConnector(userId, grantId, now) =>
      grantId == row.grantId && userId == row.userId && userId != 0 && grantId != 0 && now != 0
      && grantId in s.t.grants.rows && s.t.grants.rows[grantId].revokedAt.None?
    case RevokingRefresh(digest, now) => FindsFamily(s, digest, row.familyId) && now != 0
    case Rotating(digest, pair, now) =>
      FindsFamily(s, digest, row.familyId) && PairComplete(pair) && now != 0
      && (FindsSpent(s, digest) || (digest == row.digest && now < row.expiresAt && FreshPair(s.t, pair)))
    case RevokingRequest(requestId, includeAccess, member, now) =>
      requestId != 0 && SomeMember(s.t.refresh, requestId, member)
      && (includeAccess ==> requestId !in s.t.access.rows)
      && if member.Some? then requestId == row.familyId && now != 0
         else CodeGrant(s, requestId, row.grantId) && row.grantId != 0 && now != 0
    case _ => false
  }

  /** Any transaction leaves a refresh token rotatable exactly if it was and the
      transaction is not one that stops it; an approval brings none back. */
  lemma RefreshEffectExact(steps: seq<Step>, step: Step, id: Id, at: int)
    requires id in Reach(steps).t.refresh.rows
    ensures var s := Reach(steps);
            && id in Next(s, step).t.refresh.rows
            && (Rotatable(Next(s, step), id, at) <==> Rotatable(s, id, at) && !StopsRefresh(s, step, id))
  {
    hide Inv, Later, Run, Next, Rotatable, StopsRefresh;
    ReachInv(steps);
    RotatableEffect(Reach(steps), step, id, at);
  }

  lemma RotatableEffect(s: State, step: Step, id: Id, at: int)
    requires Inv(s) && id in s.t.refresh.rows
    ensures id in Next(s, step).t.refresh.rows
    ensures Rotatable(Next(s, step), id, at) <==> Rotatable(s, id, at) && !StopsRefresh(s, step, id)
  {
    hide Inv, Next, Rotatable, StopsRefresh;
    RefreshGrant(s, id);
    match step
    case RevokingGrant(grantId, now) => GrantStops(s, grantId, now, id, at);
    case RevokingConnector(userId, grantId, now) => ConnectorStops(s, userId, grantId, now, id, at);
    case RevokingRefresh(digest, now) => FamilyStops(s, digest, now, id, at);
    case Rotating(digest, pair, now) => RotatingStops(s, digest, pair, now, id, at);
    case RevokingRequest(requestId, includeAccess, member, now) =>
      RequestStops(s, requestId, includeAccess, member, now, id, at);
    case Issue(x, pair) => IssueStops(s, x, pair, id, at);
    case _ => OtherStops(s, step, id, at);
  }

  lemma GrantStops(s: State, grantId: Id, now: int, id: Id, at: int)
    requires Inv(s) && id in s.t.refresh.rows
    requires GrantExists(s.t.grants, s.t.refresh.rows[id].grantId, s.t.refresh.rows[id].userId)
    ensures var step := RevokingGrant(grantId, now);
            && id in Next(s, step).t.refresh.rows
            && (Rotatable(Next(s, step), id, at) <==> Rotatable(s, id, at) && !StopsRefresh(s, step, id))
  {
    hide Inv, RevokedAccess, RevokedGrant;
  }

  lemma ConnectorStops(s: State, userId: Id, grantId: Id, now: int, id: Id, at: int)
    requires Inv(s) && id in s.t.refresh.rows
    requires GrantExists(s.t.grants, s.t.refresh.rows[id].grantId, s.t.refresh.rows[id].userId)
    ensures var step := RevokingConnector(userId, grantId, now);
            && id in Next(s, step).t.refresh.rows
            && (Rotatable(Next(s, step), id, at) <==> Rotatable(s, id, at) && !StopsRefresh(s, step, id))
  {
    hide Inv, RevokedAccess, RevokedGrant;
  }

  lemma RevokedFamilyEffect(s: State, refreshId: Id, now: int, id: Id)
    requires Inv(s) && id in s.t.refresh.rows && refreshId in s.t.refresh.rows
    ensures var n := RevokeFamily(s.t, s.t.refresh.rows[refreshId], now);
            var row := s.t.refresh.rows[id];
            && id in n.refresh.rows
            && n.refresh.rows[id] == row.(revokedAt := n.refresh.rows[id].revokedAt)
            && (n.refresh.rows[id].revokedAt.None? <==>
                  row.revokedAt.None? && s.t.refresh.rows[refreshId].familyId != row.familyId)
  {
    hide Inv, RevokedAccess, RevokedGrant;
    if s.t.refresh.rows[refreshId].familyId == s.t.refresh.rows[id].familyId {
      FamilyRevoked(s, s.t.refresh.rows[refreshId], now);
    }
  }

  lemma FamilyStops(s: State, digest: Id, now: int, id: Id, at: int)
    requires Inv(s) && id in s.t.refresh.rows
    ensures var step := RevokingRefresh(digest, now);
            && id in Next(s, step).t.refresh.rows
            && (Rotatable(Next(s, step), id, at) <==> Rotatable(s, id, at) && !StopsRefresh(s, step, id))
  {
    hide Inv, RevokeFamily;
    var found := FindRefresh(s.t.refresh, digest);
    if found.Some? { RevokedFamilyEffect(s, found.value, now, id); }
  }

  lemma InsertKeepsRefresh(t: Tables, pair: TokenPair, userId: Id, grantId: Id, familyId: Id, parentId: Id, id: Id)
    requires id in t.refresh.rows
    ensures var n := InsertPair(t, pair, userId, grantId, familyId, parentId);
            n.Ok? ==> id in n.value.refresh.rows && n.value.refresh.rows[id] == t.refresh.rows[id]
  {
  }

  lemma RotatingStops(s: State, digest: Id, pair: TokenPair, now: int, id: Id, at: int)
    requires Inv(s) && id in s.t.refresh.rows
    ensures var step := Rotating(digest, pair, now);
            && id in Next(s, step).t.refresh.rows
            && (Rotatable(Next(s, step), id, at) <==> Rotatable(s, id, at) && !StopsRefresh(s, step, id))
  {
    hide Inv, RevokeFamily, InsertPair, FreshPair;
    DigestFinds(s, id);
    var found := FindRefresh(s.t.refresh, digest);
    if found.Some? {
      var row := s.t.refresh.rows[found.value];
      RefreshDigest(s, found.value, digest, id);
      RefreshGrant(s, found.value);
      if row.usedAt.Some? || row.revokedAt.Some? {
        RevokedFamilyEffect(s, found.value, now, id);
      } else {
        InsertedPair(s, found.value, pair, now);
        var used := s.t.(refresh := s.t.refresh.(rows := s.t.refresh.rows[found.value := row.(usedAt := Some(now))]));
        InsertKeepsRefresh(used, pair, row.userId, row.grantId, row.familyId, found.value, id);
      }
    }
  }

  lemma RefreshDigest(s: State, found: Id, digest: Id, id: Id)
    requires Inv(s) && FindRefresh(s.t.refresh, digest) == Some(found) && id in s.t.refresh.rows
    ensures s.t.refresh.rows[found].digest == digest && (digest == s.t.refresh.rows[id].digest <==> found == id)
  {
    hide FamiliesInv, ExchangesInv, AccessInv, GrantsInv, CodesInv;
  }

  lemma IssueStops(s: State, x: nat, pair: TokenPair, id: Id, at: int)
    requires id in s.t.refresh.rows
    ensures var step := Issue(x, pair);
            && id in Next(s, step).t.refresh.rows
            && (Rotatable(Next(s, step), id, at) <==> Rotatable(s, id, at) && !StopsRefresh(s, step, id))
  {
    hide InsertPair;
    if x in s.exchanges && s.exchanges[x].Checked? && s.exchanges[x].code in s.t.codes.rows {
      InsertKeepsRefresh(s.t, pair, s.t.codes.rows[s.exchanges[x].code].userId, s.exchanges[x].grantId,
                         pair.refresh.id, 0, id);
    }
  }

  lemma RequestStops(s: State, requestId: Id, includeAccess: bool, member: Option<Id>, now: int, id: Id, at: int)
    requires Inv(s) && id in s.t.refresh.rows
    requires GrantExists(s.t.grants, s.t.refresh.rows[id].grantId, s.t.refresh.rows[id].userId)
    ensures var step := RevokingRequest(requestId, includeAccess, member, now);
            && id in Next(s, step).t.refresh.rows
            && (Rotatable(Next(s, step), id, at) <==> Rotatable(s, id, at) && !StopsRefresh(s, step, id))
  {
    hide Inv, RevokeAccessToken, RevokeRefreshToken, RevokeGrant;
    if requestId != 0 && SomeMember(s.t.refresh, requestId, member) {
      if includeAccess && requestId in s.t.access.rows {
        AccessRevocationKeepsRefresh(s.t, s.t.access.rows[requestId].digest, now);
      } else if member.Some? {
        FamilyStops(s, s.t.refresh.rows[member.value].digest, now, id, at);
        DigestFinds(s, member.value);
      } else if requestId in s.t.codes.rows {
        var code := s.t.codes.rows[requestId];
        OwnerGrant(s, Owner(code.userId, code.clientId, code.deviceId), s.t.refresh.rows[id].grantId);
        var grant := GrantByOwner(s.t.grants, Owner(code.userId, code.clientId, code.deviceId));
        if grant.Ok? { GrantStops(s, grant.value, now, id, at); }
      }
    }
  }

  lemma AccessRevocationKeepsRefresh(t: Tables, digest: Id, now: int)
    ensures RevokeAccessToken(t, digest, now).refresh == t.refresh
  {
  }

  lemma OtherStops(s: State, step: Step, id: Id, at: int)
    requires id in s.t.refresh.rows
    requires step.SaveCode? || step.BeginExchange? || step.CheckGrant? || step.Approve? || step.RevokingAccess?
             || step.SettingTarget?
    ensures id in Next(s, step).t.refresh.rows
    ensures Rotatable(Next(s, step), id, at) <==> Rotatable(s, id, at) && !StopsRefresh(s, step, id)
  {
    hide SaveGrant, ConsumeCode, InsertCode;
  }

  lemma {:induction false} StoppedRun(s: State, steps: seq<Step>, id: Id, at: int)
    requires Inv(s) && id in s.t.refresh.rows && !Rotatable(s, id, at)
    ensures id in Run(s, steps).t.refresh.rows && Inv(Run(s, steps)) && !Rotatable(Run(s, steps), id, at)
    decreases |steps|
  {
    hide Inv, Later, Next, Rotatable, StopsRefresh;
    if steps != [] {
      RotatableEffect(s, steps[0], id, at);
      NextStep(s, steps[0]);
      StoppedRun(Next(s, steps[0]), steps[1..], id, at);
    }
  }

  /** A refresh token once stopped never rotates again, whatever follows, new
      approvals included: revoking the grant, or its live connector, is final
      for every refresh token it had. */
  lemma StoppedForEver(before: seq<Step>, step: Step, id: Id, after: seq<Step>, pair: TokenPair, at: int)
    requires id in Reach(before).t.refresh.rows && StopsRefresh(Reach(before), step, id)
    ensures var n := Run(Next(Reach(before), step), after);
            id in n.t.refresh.rows && Rotate(n.t, n.t.refresh.rows[id].digest, pair, at).1.Err?
  {
    hide Inv, Later, Next, Run, Rotatable, StopsRefresh, Rotate;
    ReachInv(before);
    var s := Reach(before);
    RotatableEffect(s, step, id, at);
    NextStep(s, step);
    StoppedRun(Next(s, step), after, id, at);
    var n := Run(Next(s, step), after);
    IncompleteFails(n.t, n.t.refresh.rows[id].digest, pair, at);
    if PairComplete(pair) && at != 0 { RotatesExactly(n, id, pair, at); }
  }

  lemma IncompleteFails(t: Tables, digest: Id, pair: TokenPair, at: int)
    ensures !PairComplete(pair) || at == 0 ==> Rotate(t, digest, pair, at).1.Err?
  {
  }

  lemma NoSteps(s: State)
    ensures Run(s, []) == s
  {
  }

  /** In particular, revoking a grant stops every refresh token it had. */
  lemma GrantRevocationStopsRotation(before: seq<Step>, grantId: Id, now: int, id: Id, after: seq<Step>,
                                     pair: TokenPair, at: int)
    requires id in Reach(before).t.refresh.rows && Reach(before).t.refresh.rows[id].grantId == grantId
    requires grantId != 0 && now != 0
    ensures var n := Run(Next(Reach(before), RevokingGrant(grantId, now)), after);
            id in n.t.refresh.rows && Rotate(n.t, n.t.refresh.rows[id].digest, pair, at).1.Err?
  {
    hide Inv, Later, Next, Run, Rotate;
    StoppedForEver(before, RevokingGrant(grantId, now), id, after, pair, at);
  }

  /** After the dashboard's revocation reported success, a refresh token of the
      grant rotates exactly if the grant was revoked already and it did before. */
  lemma ConnectorRevocationStopsRotation(before: seq<Step>, userId: Id, grantId: Id, now: int, id: Id, after: seq<Step>,
                                         pair: TokenPair, at: int)
    requires id in Reach(before).t.refresh.rows && Reach(before).t.refresh.rows[id].grantId == grantId
    requires RevokeConnector(Reach(before).t, userId, grantId, now).1.Ok?
    ensures var s := Reach(before);
            var m := Next(s, RevokingConnector(userId, grantId, now));
            var digest := s.t.refresh.rows[id].digest;
            && grantId in s.t.grants.rows
            && (Rotate(m.t, digest, pair, at).1.Ok? <==>
                  s.t.grants.rows[grantId].revokedAt.Some? && Rotate(s.t, digest, pair, at).1.Ok?)
            && (s.t.grants.rows[grantId].revokedAt.None? ==>
                  var n := Run(m, after);
                  id in n.t.refresh.rows && Rotate(n.t, n.t.refresh.rows[id].digest, pair, at).1.Err?)
  {
    hide Inv, Run, Rotate;
    ReachInv(before);
    var s := Reach(before);
    RefreshGrant(s, id);
    if s.t.grants.rows[grantId].revokedAt.None? {
      StoppedForEver(before, RevokingConnector(userId, grantId, now), id, after, pair, at);
      StoppedForEver(before, RevokingConnector(userId, grantId, now), id, [], pair, at);
      NoSteps(Next(s, RevokingConnector(userId, grantId, now)));
      assert Next(s, RevokingConnector(userId, grantId, now)).t.refresh.rows[id].digest == s.t.refresh.rows[id].digest;
    }
  }
}
