/** The store's methods, statement by statement inside their transactions: what
    a method leaves behind is the transaction of OAuthTables, all of it or, on
    an error, nothing. */
module OAuthStoreMethods {
  import opened Common
  import opened OAuthTables

  class OAuthStore {
    var codes: Codes
    var grants: Grants
    var access: AccessTokens
    var refresh: RefreshTokens

    ghost function View(): Tables
      reads this
    {
      Tables(codes, grants, access, refresh)
    }

    constructor ()
      ensures View() == EmptyTables
    {
      codes, grants := Table(map[], map[]), Table(map[], map[]);
      access, refresh := Table(map[], map[]), Table(map[], map[]);
    }

    method ConsumeAuthorizationCode(digest: Id, binding: Binding, now: int) returns (r: Result<Code, OAuthError>)
      modifies this`codes
      ensures r == ConsumeCode(old(codes), digest, binding, now)
      ensures codes == OAuthTables.Consumed(old(codes), digest, binding, now)
      ensures r.Err? ==> codes == old(codes)
    {
      if now == 0 {
        return Err(InvalidArgument);
      }
      if digest !in codes.index || codes.index[digest] !in codes.rows {
        return Err(CodeNotFound);
      }
      var code := codes.rows[codes.index[digest]];
      if code.consumedAt.Some? {
        return Err(CodeUsed);
      }
      if now >= code.expiresAt {
        return Err(CodeExpired);
      }
      if binding.clientId != code.clientId || binding.redirectUri != code.redirectUri
         || binding.resource != code.resource {
        return Err(CodeBinding);
      }
      code := code.(consumedAt := Some(now));
      codes := codes.(rows := codes.rows[codes.index[digest] := code]);
      r := Ok(code);
    }

    method IssueTokens(pair: TokenPair, userId: Id, grantId: Id) returns (r: Result<(), OAuthError>)
      modifies this`access, this`refresh
      ensures var t := OAuthTables.IssueTokens(old(View()), pair, userId, grantId);
              && r.Ok? == t.Ok?
              && View() == if t.Ok? then t.value else old(View())
    {
      if !PairComplete(pair) || userId == 0 || grantId == 0 {
        return Err(InvalidArgument);
      }
      r := InsertBoth(pair, userId, grantId, pair.refresh.id, 0, refresh);
    }

    /** The two inserts; `within` is the refresh table as the transaction has
        changed it so far. Nothing is committed unless both succeed. */
    method InsertBoth(pair: TokenPair, userId: Id, grantId: Id, familyId: Id, parentId: Id, within: RefreshTokens)
      returns (r: Result<(), OAuthError>)
      modifies this`access, this`refresh
      ensures var t := InsertPair(old(View()).(refresh := within), pair, userId, grantId, familyId, parentId);
              && r == (if t.Ok? then Ok(()) else Err(t.error))
              && View() == if t.Ok? then t.value else old(View())
    {
      var a := InsertAccess(access, grants, pair.access.id,
                            Access(userId, grantId, pair.access.digest, pair.access.expiresAt, None));
      if a.Err? {
        return Err(a.error);
      }
      var f := InsertRefresh(within, grants, pair.refresh.id,
                             Refresh(userId, grantId, familyId, parentId, pair.refresh.digest, pair.refresh.expiresAt,
                                     None, None));
      if f.Err? {
        return Err(f.error);
      }
      access, refresh := a.value, f.value;
      r := Ok(());
    }

    method RevokeFamilyTx(familyId: Id, grantId: Id, userId: Id, now: int)
      modifies this
      ensures codes == old(codes)
      ensures refresh == RevokedFamily(old(refresh), familyId, userId, now)
      ensures access == RevokedAccess(old(access), grantId, userId, now)
      ensures grants == RevokedGrant(old(grants), grantId, userId, now)
    {
      refresh := RevokedFamily(refresh, familyId, userId, now);
      access := RevokedAccess(access, grantId, userId, now);
      grants := RevokedGrant(grants, grantId, userId, now);
    }

    method RotateRefreshToken(oldDigest: Id, pair: TokenPair, now: int) returns (r: Result<(), OAuthError>)
      modifies this
      ensures (View(), r) == Rotate(old(View()), oldDigest, pair, now)
    {
      if !PairComplete(pair) || now == 0 {
        return Err(InvalidArgument);
      }
      var found := FindRefresh(refresh, oldDigest);
      if found.None? {
        return Err(TokenNotFound);
      }
      var parent := refresh.rows[found.value];
      if parent.usedAt.Some? || parent.revokedAt.Some? {
        RevokeFamilyTx(parent.familyId, parent.grantId, parent.userId, now);
        return Err(if parent.usedAt.Some? then TokenReused else TokenRevoked);
      }
      if now >= parent.expiresAt {
        return Err(TokenExpired);
      }
      var used := refresh.(rows := refresh.rows[found.value := parent.(usedAt := Some(now))]);
      r := InsertBoth(pair, parent.userId, parent.grantId, parent.familyId, found.value, used);
    }

    method RevokeRefreshToken(digest: Id, now: int) returns (r: Result<(), OAuthError>)
      modifies this
      ensures View() == OAuthTables.RevokeRefreshToken(old(View()), digest, now)
      ensures r.Err? <==> now == 0
    {
      if now == 0 {
        return Err(InvalidArgument);
      }
      var found := FindRefresh(refresh, digest);
      if found.Some? {
        var row := refresh.rows[found.value];
        RevokeFamilyTx(row.familyId, row.grantId, row.userId, now);
      }
      r := Ok(());
    }

    method RevokeGrant(grantId: Id, now: int) returns (r: Result<(), OAuthError>)
      modifies this
      ensures (View(), r) == OAuthTables.RevokeGrant(old(View()), grantId, now)
    {
      if grantId == 0 || now == 0 {
        return Err(InvalidArgument);
      }
      if grantId !in grants.rows {
        return Err(GrantNotFound);
      }
      var userId := grants.rows[grantId].userId;
      grants := RevokedGrant(grants, grantId, userId, now);
      access := RevokedAccess(access, grantId, userId, now);
      refresh := RevokedByGrant(refresh, grantId, userId, now);
      r := Ok(());
    }

    method RevokeConnector(userId: Id, grantId: Id, now: int) returns (r: Result<(), OAuthError>)
      modifies this
      ensures (View(), r) == OAuthTables.RevokeConnector(old(View()), userId, grantId, now)
    {
      if userId == 0 || grantId == 0 || now == 0 {
        return Err(InvalidArgument);
      }
      if grantId !in grants.rows || grants.rows[grantId].userId != userId {
        return Err(GrantNotFound);
      }
      if grants.rows[grantId].revokedAt.Some? {
        return Ok(());
      }
      grants := grants.(rows := grants.rows[grantId := grants.rows[grantId].(revokedAt := Some(now))]);
      access := RevokedAccess(access, grantId, userId, now);
      refresh := RevokedByGrant(refresh, grantId, userId, now);
      r := Ok(());
    }
  }
}
