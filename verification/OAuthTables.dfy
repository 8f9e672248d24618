/** The OAuth tables and their locked transactions. A transaction is one
    function from tables to tables; an error leaves the tables alone, as the
    rollback does.

    Ids, digests and URLs are numbers, 0 standing for an empty one; a digest
    stands for the plaintext it was taken from. A zero time is an absent one.
  */
module OAuthTables {
  import opened Common
  import opened Scopes

  type Id = nat

  datatype OAuthError =
    | InvalidArgument | Conflict
    | CodeNotFound | CodeUsed | CodeExpired | CodeBinding
    | GrantNotFound | GrantRevoked
    | TokenNotFound | TokenReused | TokenRevoked | TokenExpired

  datatype Code = Code(id: Id, userId: Id, clientId: Id, redirectUri: Id, scopes: seq<string>, deviceId: Id,
                       studioId: Id, resource: Id, expiresAt: int, consumedAt: Option<int>)

  datatype Binding = Binding(clientId: Id, redirectUri: Id, resource: Id)

  datatype Grant = Grant(userId: Id, clientId: Id, deviceId: Id, studioId: Id, scopes: seq<string>, resource: Id,
                         revokedAt: Option<int>)

  datatype Owner = Owner(userId: Id, clientId: Id, deviceId: Id)

  datatype Access = Access(userId: Id, grantId: Id, digest: Id, expiresAt: int, revokedAt: Option<int>)

  datatype Refresh = Refresh(userId: Id, grantId: Id, familyId: Id, parentId: Id, digest: Id, expiresAt: int,
                             usedAt: Option<int>, revokedAt: Option<int>)

  /** Rows by primary key, and the unique index beside it. */
  datatype Table<Key, Row> = Table(rows: map<Id, Row>, index: map<Key, Id>)

  type Codes = Table<Id, Code>
  type Grants = Table<Owner, Grant>
  type AccessTokens = Table<Id, Access>
  type RefreshTokens = Table<Id, Refresh>

  datatype Tables = Tables(codes: Codes, grants: Grants, access: AccessTokens, refresh: RefreshTokens)

  const EmptyTables := Tables(Table(map[], map[]), Table(map[], map[]), Table(map[], map[]), Table(map[], map[]))

  /** COALESCE(revoked_at, now). */
  function Coalesce(at: Option<int>, now: int): Option<int> {
    if at.Some? then at else Some(now)
  }

  // --------------------------------------------------------------- codes

  function InsertCode(c: Codes, code: Code, digest: Id): Result<Codes, OAuthError> {
    if code.id == 0 || code.userId == 0 || code.clientId == 0 || code.expiresAt == 0 || !ValidScopes(code.scopes)
    then Err(InvalidArgument)
    else if code.id in c.rows || digest in c.index then Err(Conflict)
    else Ok(Table(c.rows[code.id := code.(consumedAt := None)], c.index[digest := code.id]))
  }

  function ConsumeCode(c: Codes, digest: Id, binding: Binding, now: int): (r: Result<Code, OAuthError>) {
    if now == 0 then Err(InvalidArgument)
    else if digest !in c.index || c.index[digest] !in c.rows then Err(CodeNotFound)
    else
      var code := c.rows[c.index[digest]];
      if code.consumedAt.Some? then Err(CodeUsed)
      else if now >= code.expiresAt then Err(CodeExpired)
      else if binding != Binding(code.clientId, code.redirectUri, code.resource) then Err(CodeBinding)
      else Ok(code.(consumedAt := Some(now)))
  }

  function Consumed(c: Codes, digest: Id, binding: Binding, now: int): Codes {
    match ConsumeCode(c, digest, binding, now)
    case Ok(code) => c.(rows := c.rows[c.index[digest] := code])
    case Err(_) => c
  }

  // -------------------------------------------------------------- grants

  function OwnerOf(g: Grant): Owner {
    Owner(g.userId, g.clientId, g.deviceId)
  }

  /** The upsert: a row found by its primary key, or else by its owner triple,
      takes the new scopes, resource and Studio session and is live again. The
      id returned is that of the row the triple names. */
  function UpsertGrant(g: Grants, id: Id, row: Grant): Result<(Grants, Id), OAuthError> {
    var inserted := row.(revokedAt := None);
    if id in g.rows then
      var renewed := g.rows[id].(scopes := row.scopes, resource := row.resource, studioId := row.studioId,
                                 revokedAt := None);
      if OwnerOf(row) in g.index then Ok((g.(rows := g.rows[id := renewed]), g.index[OwnerOf(row)]))
      else Err(GrantNotFound)
    else if OwnerOf(row) in g.index && g.index[OwnerOf(row)] in g.rows then
      var found := g.index[OwnerOf(row)];
      Ok((g.(rows := g.rows[found := g.rows[found].(scopes := row.scopes, resource := row.resource,
                                                     studioId := row.studioId, revokedAt := None)]), found))
    else Ok((Table(g.rows[id := inserted], g.index[OwnerOf(row) := id]), id))
  }

  function SaveGrant(g: Grants, id: Id, row: Grant): Result<(Grants, Id), OAuthError> {
    if id == 0 || row.userId == 0 || row.clientId == 0 || row.deviceId == 0 || !ValidScopes(row.scopes)
    then Err(InvalidArgument)
    else UpsertGrant(g, id, row)
  }

  function GrantByOwner(g: Grants, owner: Owner): (r: Result<Id, OAuthError>)
    ensures r.Ok? ==> r.value in g.rows
  {
    if owner in g.index && g.index[owner] in g.rows then Ok(g.index[owner]) else Err(GrantNotFound)
  }

  function RevokedGrant(g: Grants, id: Id, userId: Id, now: int): Grants {
    if id in g.rows && g.rows[id].userId == userId
    then g.(rows := g.rows[id := g.rows[id].(revokedAt := Coalesce(g.rows[id].revokedAt, now))])
    else g
  }

  // -------------------------------------------------------------- tokens

  function RevokedAccess(a: AccessTokens, grantId: Id, userId: Id, now: int): AccessTokens {
    a.(rows := map id | id in a.rows ::
                 if a.rows[id].grantId == grantId && a.rows[id].userId == userId
                 then a.rows[id].(revokedAt := Coalesce(a.rows[id].revokedAt, now))
                 else a.rows[id])
  }

  function RevokedByGrant(r: RefreshTokens, grantId: Id, userId: Id, now: int): RefreshTokens {
    r.(rows := map id | id in r.rows ::
                 if r.rows[id].grantId == grantId && r.rows[id].userId == userId
                 then r.rows[id].(revokedAt := Coalesce(r.rows[id].revokedAt, now))
                 else r.rows[id])
  }

  function RevokedFamily(r: RefreshTokens, familyId: Id, userId: Id, now: int): RefreshTokens {
    r.(rows := map id | id in r.rows ::
                 if r.rows[id].familyId == familyId && r.rows[id].userId == userId
                 then r.rows[id].(revokedAt := Coalesce(r.rows[id].revokedAt, now))
                 else r.rows[id])
  }

  /** The foreign key (grant_id, user_id). */
  predicate GrantExists(g: Grants, grantId: Id, userId: Id) {
    grantId in g.rows && g.rows[grantId].userId == userId
  }

  function InsertAccess(a: AccessTokens, g: Grants, id: Id, row: Access): Result<AccessTokens, OAuthError> {
    if id in a.rows || row.digest in a.index || !GrantExists(g, row.grantId, row.userId) then Err(Conflict)
    else Ok(Table(a.rows[id := row], a.index[row.digest := id]))
  }

  function InsertRefresh(r: RefreshTokens, g: Grants, id: Id, row: Refresh): Result<RefreshTokens, OAuthError> {
    if id in r.rows || row.digest in r.index || !GrantExists(g, row.grantId, row.userId)
       || (row.parentId != 0 && !(row.parentId in r.rows && r.rows[row.parentId].userId == row.userId))
    then Err(Conflict)
    else Ok(Table(r.rows[id := row], r.index[row.digest := id]))
  }

  /** A token to be inserted; the transaction fills in the rest of its row. */
  datatype NewToken = NewToken(id: Id, digest: Id, expiresAt: int)

  datatype TokenPair = TokenPair(access: NewToken, refresh: NewToken)

  function InsertPair(t: Tables, pair: TokenPair, userId: Id, grantId: Id, familyId: Id,
                      parentId: Id): Result<Tables, OAuthError> {
    var a := InsertAccess(t.access, t.grants, pair.access.id,
                          Access(userId, grantId, pair.access.digest, pair.access.expiresAt, None));
    if a.Err? then Err(a.error)
    else
      var r := InsertRefresh(t.refresh, t.grants, pair.refresh.id,
                             Refresh(userId, grantId, familyId, parentId, pair.refresh.digest, pair.refresh.expiresAt,
                                     None, None));
      if r.Err? then Err(r.error) else Ok(t.(access := a.value, refresh := r.value))
  }

  predicate PairComplete(pair: TokenPair) {
    && pair.access.id != 0 && pair.refresh.id != 0
    && pair.access.expiresAt != 0 && pair.refresh.expiresAt != 0
  }

  /** IssueTokens as a code exchange calls it: a family root without a parent. */
  function IssueTokens(t: Tables, pair: TokenPair, userId: Id, grantId: Id): Result<Tables, OAuthError> {
    if !PairComplete(pair) || userId == 0 || grantId == 0 then Err(InvalidArgument)
    else InsertPair(t, pair, userId, grantId, pair.refresh.id, 0)
  }

  /** oauthRevokeFamilyTx: the family, the grant, and the grant's access tokens. */
  function RevokeFamily(t: Tables, row: Refresh, now: int): Tables {
    t.(refresh := RevokedFamily(t.refresh, row.familyId, row.userId, now),
       access := RevokedAccess(t.access, row.grantId, row.userId, now),
       grants := RevokedGrant(t.grants, row.grantId, row.userId, now))
  }

  function FindRefresh(r: RefreshTokens, digest: Id): (id: Option<Id>)
    ensures id.Some? ==> id.value in r.rows
  {
    if digest in r.index && r.index[digest] in r.rows then Some(r.index[digest]) else None
  }

  /** Tables after the rotation, and what the caller is told. A used or revoked
      token commits the family's revocation and still reports an error. */
  function Rotate(t: Tables, oldDigest: Id, pair: TokenPair, now: int): (Tables, Result<(), OAuthError>) {
    if !PairComplete(pair) || now == 0 then (t, Err(InvalidArgument))
    else
      var found := FindRefresh(t.refresh, oldDigest);
      if found.None? then (t, Err(TokenNotFound))
      else
        var parent := t.refresh.rows[found.value];
        if parent.usedAt.Some? || parent.revokedAt.Some? then
          (RevokeFamily(t, parent, now), Err(if parent.usedAt.Some? then TokenReused else TokenRevoked))
        else if now >= parent.expiresAt then (t, Err(TokenExpired))
        else
          var used := t.(refresh := t.refresh.(rows := t.refresh.rows[found.value := parent.(usedAt := Some(now))]));
          var inserted := InsertPair(used, pair, parent.userId, parent.grantId, parent.familyId, found.value);
          if inserted.Ok? then (inserted.value, Ok(())) else (t, Err(inserted.error))
  }

  function RevokeRefreshToken(t: Tables, digest: Id, now: int): Tables {
    var found := FindRefresh(t.refresh, digest);
    if now == 0 || found.None? then t else RevokeFamily(t, t.refresh.rows[found.value], now)
  }

  function RevokeAccessToken(t: Tables, digest: Id, now: int): Tables {
    if digest !in t.access.index || t.access.index[digest] !in t.access.rows then t
    else
      var id := t.access.index[digest];
      var row := t.access.rows[id];
      t.(access := t.access.(rows := t.access.rows[id := row.(revokedAt := Coalesce(row.revokedAt, now))]))
  }

  function RevokeAllOf(t: Tables, grantId: Id, userId: Id, now: int): Tables {
    t.(grants := RevokedGrant(t.grants, grantId, userId, now),
       access := RevokedAccess(t.access, grantId, userId, now),
       refresh := RevokedByGrant(t.refresh, grantId, userId, now))
  }

  function RevokeGrant(t: Tables, grantId: Id, now: int): (Tables, Result<(), OAuthError>) {
    if grantId == 0 || now == 0 then (t, Err(InvalidArgument))
    else if grantId !in t.grants.rows then (t, Err(GrantNotFound))
    else (RevokeAllOf(t, grantId, t.grants.rows[grantId].userId, now), Ok(()))
  }

  /** The dashboard's revocation: a grant already revoked is left as it is. */
  function RevokeConnector(t: Tables, userId: Id, grantId: Id, now: int): (Tables, Result<(), OAuthError>) {
    if userId == 0 || grantId == 0 || now == 0 then (t, Err(InvalidArgument))
    else if !GrantExists(t.grants, grantId, userId) then (t, Err(GrantNotFound))
    else if t.grants.rows[grantId].revokedAt.Some? then (t, Ok(()))
    else (RevokeAllOf(t, grantId, userId, now), Ok(()))
  }

  /** `owned`: the new device and Studio session belong to the user. */
  function SetConnectorTarget(t: Tables, userId: Id, grantId: Id, deviceId: Id, studioId: Id, owned: bool)
    : (Tables, Result<(), OAuthError>)
  {
    if userId == 0 || grantId == 0 || deviceId == 0 then (t, Err(InvalidArgument))
    else if !GrantExists(t.grants, grantId, userId) || t.grants.rows[grantId].revokedAt.Some? || !owned
         then (t, Err(GrantNotFound))
    else
      var row := t.grants.rows[grantId];
      var moved := row.(deviceId := deviceId, studioId := studioId);
      if OwnerOf(moved) in t.grants.index && t.grants.index[OwnerOf(moved)] != grantId then (t, Err(Conflict))
      else (t.(grants := Table(t.grants.rows[grantId := moved],
                               (t.grants.index - {OwnerOf(row)})[OwnerOf(moved) := grantId])), Ok(()))
  }

  /** The access token a presented digest is accepted as. */
  function AccessTokenByDigest(t: Tables, digest: Id, now: int): (r: Result<Id, OAuthError>) {
    if now == 0 then Err(InvalidArgument)
    else if digest !in t.access.index || t.access.index[digest] !in t.access.rows then Err(TokenNotFound)
    else
      var id := t.access.index[digest];
      var row := t.access.rows[id];
      if !GrantExists(t.grants, row.grantId, row.userId) then Err(TokenNotFound)
      else if row.revokedAt.Some? then Err(TokenRevoked)
      else if now >= row.expiresAt then Err(TokenExpired)
      else if t.grants.rows[row.grantId].revokedAt.Some? then Err(GrantRevoked)
      else Ok(id)
  }

  /** The row LIMIT 1 returns for a family: any member, or none if there is none. */
  ghost predicate SomeMember(r: RefreshTokens, familyId: Id, member: Option<Id>) {
    match member
    case Some(id) => id in r.rows && r.rows[id].familyId == familyId
    case None => forall id :: id in r.rows ==> r.rows[id].familyId != familyId
  }

  /** revokeByRequestID: an access token id, else a family id, else a code id. */
  function RevokeByRequestId(t: Tables, requestId: Id, includeAccess: bool, member: Option<Id>, now: int): Tables
    requires member.Some? ==> member.value in t.refresh.rows
  {
    if requestId == 0 then t
    else if includeAccess && requestId in t.access.rows then RevokeAccessToken(t, t.access.rows[requestId].digest, now)
    else if member.Some? then RevokeRefreshToken(t, t.refresh.rows[member.value].digest, now)
    else if requestId in t.codes.rows then
      var code := t.codes.rows[requestId];
      var grant := GrantByOwner(t.grants, Owner(code.userId, code.clientId, code.deviceId));
      if grant.Ok? then RevokeGrant(t, grant.value, now).0 else t
    else t
  }
}
