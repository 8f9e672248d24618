/** Runs of the OAuth store: every transaction is one step, and a code exchange
    is three of them, with anything in between. */
module TokenRuns {
  import opened Common
  import opened OAuthTables
  import opened Scopes
  import opened TokenFamilies

  /** How far the exchange of one code has come. */
  datatype Exchange =
    | CodeConsumed(code: Id)
    | Checked(code: Id, grantId: Id)
    | Issued(code: Id, refreshId: Id)
    | Abandoned(code: Id)

  /** `chains` and `rank` only remember the order in which each refresh family
      grew. */
  datatype State = State(t: Tables, exchanges: map<nat, Exchange>, chains: map<Id, seq<Id>>, rank: map<Id, nat>)

  const Initial := State(EmptyTables, map[], map[], map[])

  datatype Step =
    | SaveCode(code: Code, digest: Id)
    | Approve(grantId: Id, row: Grant)
    | BeginExchange(x: nat, digest: Id, binding: Binding, now: int)
    | CheckGrant(x: nat)
    | Issue(x: nat, pair: TokenPair)
    | Rotating(digest: Id, pair: TokenPair, now: int)
    | RevokingGrant(grantId: Id, now: int)
    | RevokingRefresh(digest: Id, now: int)
    | RevokingAccess(digest: Id, now: int)
    | RevokingConnector(userId: Id, grantId: Id, now: int)
    | RevokingRequest(requestId: Id, includeAccess: bool, member: Option<Id>, now: int)
    | SettingTarget(userId: Id, grantId: Id, deviceId: Id, studioId: Id, owned: bool)

  function Checking(s: State, x: nat): State
    requires x in s.exchanges && s.exchanges[x].code in s.t.codes.rows
  {
    var code := s.t.codes.rows[s.exchanges[x].code];
    var grant := GrantByOwner(s.t.grants, Owner(code.userId, code.clientId, code.deviceId));
    if grant.Err? || s.t.grants.rows[grant.value].revokedAt.Some?
    then s.(exchanges := s.exchanges[x := Abandoned(code.id)])
    else s.(exchanges := s.exchanges[x := Checked(code.id, grant.value)])
  }

  function Issuing(s: State, x: nat, pair: TokenPair): State
    requires x in s.exchanges && s.exchanges[x].Checked? && s.exchanges[x].code in s.t.codes.rows
  {
    var code := s.t.codes.rows[s.exchanges[x].code];
    var issued := IssueTokens(s.t, pair, code.userId, s.exchanges[x].grantId);
    var id := pair.refresh.id;
    if issued.Err? then s.(exchanges := s.exchanges[x := Abandoned(code.id)])
    else State(issued.value, s.exchanges[x := Issued(code.id, id)], s.chains[id := [id]], s.rank[id := 0])
  }

  function RotatingState(s: State, digest: Id, pair: TokenPair, now: int): State {
    var (t, r) := Rotate(s.t, digest, pair, now);
    var found := FindRefresh(s.t.refresh, digest);
    if r.Ok? && found.Some? && s.t.refresh.rows[found.value].familyId in s.chains then
      var family := s.t.refresh.rows[found.value].familyId;
      s.(t := t, chains := s.chains[family := s.chains[family] + [pair.refresh.id]],
         rank := s.rank[pair.refresh.id := |s.chains[family]|])
    else s.(t := t)
  }

  ghost function Next(s: State, step: Step): State {
    match step
    case SaveCode(code, digest) =>
      var c := InsertCode(s.t.codes, code, digest);
      if c.Ok? then s.(t := s.t.(codes := c.value)) else s
    case Approve(grantId, row) =>
      var g := SaveGrant(s.t.grants, grantId, row);
      if g.Ok? then s.(t := s.t.(grants := g.value.0)) else s
    case BeginExchange(x, digest, binding, now) =>
      var code := ConsumeCode(s.t.codes, digest, binding, now);
      if x in s.exchanges || code.Err? then s
      else s.(t := s.t.(codes := Consumed(s.t.codes, digest, binding, now)),
              exchanges := s.exchanges[x := CodeConsumed(code.value.id)])
    case CheckGrant(x) =>
      if x in s.exchanges && s.exchanges[x].CodeConsumed? && s.exchanges[x].code in s.t.codes.rows
      then Checking(s, x)
      else s
    case Issue(x, pair) =>
      if x in s.exchanges && s.exchanges[x].Checked? && s.exchanges[x].code in s.t.codes.rows
      then Issuing(s, x, pair)
      else s
    case Rotating(digest, pair, now) => RotatingState(s, digest, pair, now)
    case RevokingGrant(grantId, now) => s.(t := RevokeGrant(s.t, grantId, now).0)
    case RevokingRefresh(digest, now) => s.(t := RevokeRefreshToken(s.t, digest, now))
    case RevokingAccess(digest, now) => s.(t := RevokeAccessToken(s.t, digest, now))
    case RevokingConnector(userId, grantId, now) => s.(t := RevokeConnector(s.t, userId, grantId, now).0)
    case RevokingRequest(requestId, includeAccess, member, now) =>
      if SomeMember(s.t.refresh, requestId, member)
      then s.(t := RevokeByRequestId(s.t, requestId, includeAccess, member, now))
      else s
    case SettingTarget(userId, grantId, deviceId, studioId, owned) =>
      s.(t := SetConnectorTarget(s.t, userId, grantId, deviceId, studioId, owned).0)
  }

  ghost function Run(s: State, steps: seq<Step>): State
    decreases |steps|
  {
    if steps == [] then s else Run(Next(s, steps[0]), steps[1..])
  }

  ghost function Reach(steps: seq<Step>): State {
    Run(Initial, steps)
  }

  // ------------------------------------------------------- what only grows

  /** No row is deleted and no mark taken back; a grant's revocation alone can
      be cleared. */
  ghost predicate CodesLater(c: Codes, d: Codes) {
    forall id :: id in c.rows ==> id in d.rows && d.rows[id] == c.rows[id].(consumedAt := d.rows[id].consumedAt)
                                  && (c.rows[id].consumedAt.Some? ==> d.rows[id].consumedAt.Some?)
  }

  ghost predicate GrantsLater(g: Grants, h: Grants) {
    forall id :: id in g.rows ==>
      id in h.rows && h.rows[id].userId == g.rows[id].userId && h.rows[id].clientId == g.rows[id].clientId
  }

  ghost predicate AccessLater(a: AccessTokens, b: AccessTokens) {
    && (forall id :: id in a.rows ==> id in b.rows && b.rows[id] == a.rows[id].(revokedAt := b.rows[id].revokedAt)
                                      && (a.rows[id].revokedAt.Some? ==> b.rows[id].revokedAt.Some?))
  }

  ghost predicate RefreshLater(a: RefreshTokens, b: RefreshTokens) {
    && (forall id :: id in a.rows ==> id in b.rows
                                      && b.rows[id]
                                         == a.rows[id].(revokedAt := b.rows[id].revokedAt, usedAt := b.rows[id].usedAt)
                                      && (a.rows[id].revokedAt.Some? ==> b.rows[id].revokedAt.Some?)
                                      && (a.rows[id].usedAt.Some? ==> b.rows[id].usedAt.Some?))
  }

  ghost predicate Later(t: Tables, n: Tables) {
    CodesLater(t.codes, n.codes) && GrantsLater(t.grants, n.grants) && AccessLater(t.access, n.access)
    && RefreshLater(t.refresh, n.refresh)
  }

  lemma LaterTrans(t: Tables, m: Tables, n: Tables)
    requires Later(t, m) && Later(m, n)
    ensures Later(t, n)
  {
  }

  // ------------------------------------------------------------ invariant

  ghost predicate CodesInv(c: Codes) {
    && (forall id :: id in c.rows ==> c.rows[id].id == id)
    && (forall d :: d in c.index ==> c.index[d] in c.rows)
  }

  /** A code is in at most one exchange, and consumed if it is in one. */
  ghost predicate ExchangesInv(exchanges: map<nat, Exchange>, c: Codes) {
    && (forall x :: x in exchanges ==> exchanges[x].code in c.rows && c.rows[exchanges[x].code].consumedAt.Some?)
    && (forall x, y :: x in exchanges && y in exchanges && x != y ==> exchanges[x].code != exchanges[y].code)
  }

  /** At most one grant for a user, client and device. */
  ghost predicate GrantsInv(g: Grants) {
    && (forall id :: id in g.rows ==> OwnerOf(g.rows[id]) in g.index && g.index[OwnerOf(g.rows[id])] == id
                                      && g.rows[id].userId != 0 && g.rows[id].clientId != 0 && g.rows[id].deviceId != 0
                                      && ValidScopes(g.rows[id].scopes))
    && (forall o :: o in g.index ==> g.index[o] in g.rows && OwnerOf(g.rows[g.index[o]]) == o)
  }

  ghost predicate AccessInv(a: AccessTokens, g: Grants) {
    && (forall id :: id in a.rows ==>
          && GrantExists(g, a.rows[id].grantId, a.rows[id].userId)
          && a.rows[id].digest in a.index && a.index[a.rows[id].digest] == id)
    && (forall d :: d in a.index ==> a.index[d] in a.rows && a.rows[a.index[d]].digest == d)
  }

  ghost predicate RefreshInv(r: RefreshTokens, g: Grants) {
    && (forall id :: id in r.rows ==>
          && GrantExists(g, r.rows[id].grantId, r.rows[id].userId)
          && r.rows[id].digest in r.index && r.index[r.rows[id].digest] == id)
    && (forall d :: d in r.index ==> r.index[d] in r.rows && r.rows[r.index[d]].digest == d)
  }

  ghost predicate TablesInv(t: Tables) {
    CodesInv(t.codes) && GrantsInv(t.grants) && AccessInv(t.access, t.grants) && RefreshInv(t.refresh, t.grants)
  }

  ghost predicate Inv(s: State) {
    && TablesInv(s.t)
    && ExchangesInv(s.exchanges, s.t.codes)
    && FamiliesInv(s.t.refresh.rows, s.rank, s.chains)
  }

  /** One step: the invariant holds after it, and tables only moved on. */
  ghost predicate StepsTo(s: State, n: State) {
    Inv(n) && Later(s.t, n.t)
  }

  // --------------------------------------------------- table by table

  lemma TokensKeepGrants(a: AccessTokens, r: RefreshTokens, g: Grants, h: Grants)
    requires GrantsLater(g, h)
    ensures AccessInv(a, g) ==> AccessInv(a, h)
    ensures RefreshInv(r, g) ==> RefreshInv(r, h)
  {
  }

  lemma Same(t: Tables)
    ensures Later(t, t)
  {
  }

  /** Grants replaced by later ones, everything else as it was. */
  lemma GrantsStep(s: State, h: Grants)
    requires Inv(s) && GrantsInv(h) && GrantsLater(s.t.grants, h)
    ensures StepsTo(s, s.(t := s.t.(grants := h)))
  {
    hide GrantsInv, GrantsLater, CodesInv, ExchangesInv, FamiliesInv, AccessInv, RefreshInv;
    TokensKeepGrants(s.t.access, s.t.refresh, s.t.grants, h);
    Same(s.t);
  }

  lemma UpsertStep(g: Grants, id: Id, row: Grant)
    requires GrantsInv(g) && row.userId != 0 && row.clientId != 0 && row.deviceId != 0 && ValidScopes(row.scopes)
    ensures UpsertGrant(g, id, row).Ok? ==>
              var (h, stored) := UpsertGrant(g, id, row).value;
              GrantsInv(h) && GrantsLater(g, h) && stored in h.rows && OwnerOf(h.rows[stored]) == OwnerOf(row)
  {
    hide ValidScopes;
    var renew := if id in g.rows then Some(id) else if OwnerOf(row) in g.index then Some(g.index[OwnerOf(row)])
                 else None;
    if renew.Some? {
      RenewedStep(g, renew.value, row);
    } else {
      AddedStep(g, id, row);
    }
    hide GrantsLater;
  }

  lemma RenewedStep(g: Grants, id: Id, row: Grant)
    requires GrantsInv(g) && id in g.rows && ValidScopes(row.scopes)
    ensures var renewed := g.rows[id].(scopes := row.scopes, resource := row.resource, studioId := row.studioId,
                                       revokedAt := None);
            GrantsInv(g.(rows := g.rows[id := renewed])) && GrantsLater(g, g.(rows := g.rows[id := renewed]))
  {
    hide ValidScopes;
  }

  lemma AddedStep(g: Grants, id: Id, row: Grant)
    requires GrantsInv(g) && id !in g.rows && OwnerOf(row) !in g.index
    requires row.userId != 0 && row.clientId != 0 && row.deviceId != 0 && ValidScopes(row.scopes)
    ensures var h := Table(g.rows[id := row.(revokedAt := None)], g.index[OwnerOf(row) := id]);
            GrantsInv(h) && GrantsLater(g, h)
  {
    hide ValidScopes;
  }

  lemma RevokedGrantStep(g: Grants, id: Id, userId: Id, now: int)
    requires GrantsInv(g)
    ensures GrantsInv(RevokedGrant(g, id, userId, now)) && GrantsLater(g, RevokedGrant(g, id, userId, now))
  {
    hide ValidScopes;
  }

  lemma TargetStep(t: Tables, userId: Id, grantId: Id, deviceId: Id, studioId: Id, owned: bool)
    requires GrantsInv(t.grants)
    ensures var h := SetConnectorTarget(t, userId, grantId, deviceId, studioId, owned).0;
            && h == t.(grants := h.grants) && GrantsInv(h.grants) && GrantsLater(t.grants, h.grants)
  {
    hide ValidScopes;
    var h := SetConnectorTarget(t, userId, grantId, deviceId, studioId, owned).0.grants;
    if grantId in t.grants.rows {
      var row := t.grants.rows[grantId];
      var moved := row.(deviceId := deviceId, studioId := studioId);
      if h == Table(t.grants.rows[grantId := moved], (t.grants.index - {OwnerOf(row)})[OwnerOf(moved) := grantId]) {
        forall id | id in h.rows ensures OwnerOf(h.rows[id]) in h.index && h.index[OwnerOf(h.rows[id])] == id {
          if id != grantId { assert t.grants.index[OwnerOf(t.grants.rows[id])] == id; }
        }
      }
    }
  }

  lemma AccessRevokedStep(a: AccessTokens, g: Grants, grantId: Id, userId: Id, now: int)
    requires AccessInv(a, g)
    ensures AccessInv(RevokedAccess(a, grantId, userId, now), g)
            && AccessLater(a, RevokedAccess(a, grantId, userId, now))
  {
  }

  lemma ByGrantRevokedStep(r: RefreshTokens, g: Grants, grantId: Id, userId: Id, now: int)
    requires RefreshInv(r, g)
    ensures RefreshInv(RevokedByGrant(r, grantId, userId, now), g)
            && RefreshLater(r, RevokedByGrant(r, grantId, userId, now))
  {
  }

  lemma FamilyRevokedStep(r: RefreshTokens, g: Grants, familyId: Id, userId: Id, now: int)
    requires RefreshInv(r, g)
    ensures RefreshInv(RevokedFamily(r, familyId, userId, now), g)
            && RefreshLater(r, RevokedFamily(r, familyId, userId, now))
  {
  }

  lemma RevokeFamilyStep(s: State, row: Refresh, now: int)
    requires Inv(s)
    ensures StepsTo(s, s.(t := RevokeFamily(s.t, row, now)))
  {
    hide GrantsInv, GrantsLater, CodesInv, CodesLater, ExchangesInv, FamiliesInv, AccessInv, RefreshInv, AccessLater,
         RefreshLater;
    hide RevokedFamily, RevokedAccess, RevokedGrant;
    var n := RevokeFamily(s.t, row, now);
    RevokedGrantStep(s.t.grants, row.grantId, row.userId, now);
    AccessRevokedStep(s.t.access, s.t.grants, row.grantId, row.userId, now);
    FamilyRevokedStep(s.t.refresh, s.t.grants, row.familyId, row.userId, now);
    TokensKeepGrants(n.access, n.refresh, s.t.grants, n.grants);
    RevokedFamilyUniform(s.t.refresh, row.familyId, row.userId, now);
    RevocationKeepsFamilies(s.t.refresh.rows, n.refresh.rows, s.rank, s.chains);
    assert CodesLater(s.t.codes, n.codes) by { Same(s.t); }
  }

  lemma RevokeAllStep(s: State, grantId: Id, userId: Id, now: int)
    requires Inv(s)
    ensures StepsTo(s, s.(t := RevokeAllOf(s.t, grantId, userId, now)))
  {
    hide GrantsInv, GrantsLater, CodesInv, CodesLater, ExchangesInv, FamiliesInv, AccessInv, RefreshInv, AccessLater,
         RefreshLater;
    hide RevokedByGrant, RevokedAccess, RevokedGrant;
    var n := RevokeAllOf(s.t, grantId, userId, now);
    RevokedGrantStep(s.t.grants, grantId, userId, now);
    AccessRevokedStep(s.t.access, s.t.grants, grantId, userId, now);
    ByGrantRevokedStep(s.t.refresh, s.t.grants, grantId, userId, now);
    TokensKeepGrants(n.access, n.refresh, s.t.grants, n.grants);
    RevokedByGrantUniform(s.t.refresh, grantId, userId, now);
    RevocationKeepsFamilies(s.t.refresh.rows, n.refresh.rows, s.rank, s.chains);
    assert CodesLater(s.t.codes, n.codes) by { Same(s.t); }
  }

  lemma RevokeOneStep(s: State, digest: Id, now: int)
    requires Inv(s)
    ensures StepsTo(s, s.(t := RevokeAccessToken(s.t, digest, now)))
  {
    hide GrantsInv, CodesInv, ExchangesInv, FamiliesInv, RefreshInv;
    Same(s.t);
    hide GrantsLater, CodesLater, RefreshLater;
  }

  /** A pair inserted: both tables grow by one row, which nothing else reads. */
  lemma InsertPairStep(t: Tables, pair: TokenPair, userId: Id, grantId: Id, familyId: Id, parentId: Id)
    requires TablesInv(t) && InsertPair(t, pair, userId, grantId, familyId, parentId).Ok?
    ensures var n := InsertPair(t, pair, userId, grantId, familyId, parentId).value;
            && TablesInv(n) && Later(t, n) && n.codes == t.codes && n.grants == t.grants
            && pair.refresh.id !in t.refresh.rows && pair.access.id !in t.access.rows
            && n.refresh.rows == t.refresh.rows[pair.refresh.id :=
                  Refresh(userId, grantId, familyId, parentId, pair.refresh.digest, pair.refresh.expiresAt, None, None)]
            && n.access.rows == t.access.rows[pair.access.id :=
                  Access(userId, grantId, pair.access.digest, pair.access.expiresAt, None)]
  {
    hide GrantsInv, CodesInv, AccessInv, RefreshInv, InsertAccess, InsertRefresh;
    Same(t);
    hide CodesLater, GrantsLater, AccessLater, RefreshLater;
    AccessInserted(t.access, t.grants, pair.access.id,
                   Access(userId, grantId, pair.access.digest, pair.access.expiresAt, None));
    RefreshInserted(t.refresh, t.grants, pair.refresh.id,
                    Refresh(userId, grantId, familyId, parentId, pair.refresh.digest, pair.refresh.expiresAt, None,
                            None));
  }

  lemma AccessInserted(a: AccessTokens, g: Grants, id: Id, row: Access)
    requires AccessInv(a, g)
    ensures InsertAccess(a, g, id, row).Ok? ==>
              var n := InsertAccess(a, g, id, row).value;
              id !in a.rows && AccessInv(n, g) && AccessLater(a, n) && n.rows == a.rows[id := row]
  {
  }

  lemma RefreshInserted(r: RefreshTokens, g: Grants, id: Id, row: Refresh)
    requires RefreshInv(r, g)
    ensures InsertRefresh(r, g, id, row).Ok? ==>
              var n := InsertRefresh(r, g, id, row).value;
              id !in r.rows && RefreshInv(n, g) && RefreshLater(r, n) && n.rows == r.rows[id := row]
  {
  }

  // ------------------------------------------------------- step by step

  lemma SaveCodeStep(s: State, code: Code, digest: Id)
    requires Inv(s)
    ensures StepsTo(s, Next(s, SaveCode(code, digest)))
  {
    hide GrantsInv, FamiliesInv, AccessInv, RefreshInv;
    Same(s.t);
    hide GrantsLater, AccessLater, RefreshLater;
  }

  lemma ConsumeStep(s: State, x: nat, digest: Id, binding: Binding, now: int)
    requires Inv(s)
    ensures StepsTo(s, Next(s, BeginExchange(x, digest, binding, now)))
  {
    hide GrantsInv, FamiliesInv, AccessInv, RefreshInv, CodesInv, ExchangesInv, Consumed, ConsumeCode;
    Same(s.t);
    hide GrantsLater, AccessLater, RefreshLater, CodesLater;
    if x !in s.exchanges && ConsumeCode(s.t.codes, digest, binding, now).Ok? {
      ConsumedCodes(s.t.codes, digest, binding, now);
      ConsumedExchanges(s.exchanges, s.t.codes, x, digest, binding, now);
    }
  }

  lemma ConsumedCodes(c: Codes, digest: Id, binding: Binding, now: int)
    requires CodesInv(c)
    ensures CodesInv(Consumed(c, digest, binding, now)) && CodesLater(c, Consumed(c, digest, binding, now))
  {
  }

  lemma ConsumedExchanges(exchanges: map<nat, Exchange>, c: Codes, x: nat, digest: Id, binding: Binding, now: int)
    requires CodesInv(c) && ExchangesInv(exchanges, c) && x !in exchanges && ConsumeCode(c, digest, binding, now).Ok?
    ensures ExchangesInv(exchanges[x := CodeConsumed(ConsumeCode(c, digest, binding, now).value.id)],
                         Consumed(c, digest, binding, now))
  {
  }

  lemma CheckStep(s: State, x: nat)
    requires Inv(s)
    ensures StepsTo(s, Next(s, CheckGrant(x)))
  {
    hide TablesInv, FamiliesInv;
    CodesOf(s);
    Same(s.t);
    hide Later;
  }

  lemma IssueStep(s: State, x: nat, pair: TokenPair)
    requires Inv(s) && x in s.exchanges && s.exchanges[x].Checked?
    ensures s.exchanges[x].code in s.t.codes.rows && StepsTo(s, Issuing(s, x, pair))
  {
    hide TablesInv, FamiliesInv, Later, InsertPair;
    CodesOf(s);
    var code := s.t.codes.rows[s.exchanges[x].code];
    assert code.id == s.exchanges[x].code;
    Same(s.t);
    var n := Issuing(s, x, pair);
    var id := pair.refresh.id;
    if IssueTokens(s.t, pair, code.userId, s.exchanges[x].grantId).Ok? {
      InsertPairStep(s.t, pair, code.userId, s.exchanges[x].grantId, id, 0);
      NewRoot(s.t.refresh.rows, s.rank, s.chains, id, n.t.refresh.rows[id]);
    }
  }

  lemma CodesOf(s: State)
    requires Inv(s)
    ensures CodesInv(s.t.codes)
  {
  }

  lemma UsedStep(t: Tables, id: Id, now: int)
    requires TablesInv(t) && id in t.refresh.rows && t.refresh.rows[id].usedAt.None?
    ensures var row := t.refresh.rows[id].(usedAt := Some(now));
            var used := t.(refresh := t.refresh.(rows := t.refresh.rows[id := row]));
            TablesInv(used) && Later(t, used)
  {
    hide GrantsInv, CodesInv, AccessInv;
    Same(t);
    hide CodesLater, GrantsLater, AccessLater;
  }

  lemma RotatedStep(s: State, parent: Id, pair: TokenPair, now: int)
    requires Inv(s) && parent in s.t.refresh.rows
    requires s.t.refresh.rows[parent].usedAt.None? && s.t.refresh.rows[parent].revokedAt.None?
    ensures var row := s.t.refresh.rows[parent];
            var used := s.t.(refresh := s.t.refresh.(rows := s.t.refresh.rows[parent := row.(usedAt := Some(now))]));
            var t := InsertPair(used, pair, row.userId, row.grantId, row.familyId, parent);
            && row.familyId in s.chains
            && (t.Ok? ==> StepsTo(s, s.(t := t.value,
                                        chains := s.chains[row.familyId := s.chains[row.familyId] + [pair.refresh.id]],
                                        rank := s.rank[pair.refresh.id := |s.chains[row.familyId]|])))
  {
    FamilyOf(s, parent);
    hide TablesInv, FamiliesInv, Later, InsertPair;
    var row := s.t.refresh.rows[parent];
    var used := s.t.(refresh := s.t.refresh.(rows := s.t.refresh.rows[parent := row.(usedAt := Some(now))]));
    UsedStep(s.t, parent, now);
    var t := InsertPair(used, pair, row.userId, row.grantId, row.familyId, parent);
    if t.Ok? {
      InsertPairStep(used, pair, row.userId, row.grantId, row.familyId, parent);
      LaterTrans(s.t, used, t.value);
      Extended(s.t.refresh.rows, s.rank, s.chains, parent, row.(usedAt := Some(now)), pair.refresh.id,
               t.value.refresh.rows[pair.refresh.id]);
    }
  }

  /** A refresh token lies on its family's chain. */
  lemma FamilyOf(s: State, id: Id)
    requires Inv(s) && id in s.t.refresh.rows
    ensures s.t.refresh.rows[id].familyId in s.chains
    ensures var chain := s.chains[s.t.refresh.rows[id].familyId];
            && Chain(s.t.refresh.rows, s.rank, s.t.refresh.rows[id].familyId, chain)
            && id in s.rank && s.rank[id] < |chain| && chain[s.rank[id]] == id && id in chain
            && Link(s.t.refresh.rows, chain, s.rank[id]) && Link(s.t.refresh.rows, chain, 0)
  {
    hide TablesInv, ExchangesInv;
    var chain := s.chains[s.t.refresh.rows[id].familyId];
    assert Chain(s.t.refresh.rows, s.rank, s.t.refresh.rows[id].familyId, chain);
  }

  lemma RotatingStep(s: State, digest: Id, pair: TokenPair, now: int)
    requires Inv(s)
    ensures StepsTo(s, RotatingState(s, digest, pair, now))
  {
    hide Inv, Later, InsertPair, RevokeFamily;
    Same(s.t);
    var found := FindRefresh(s.t.refresh, digest);
    if found.Some? {
      var parent := s.t.refresh.rows[found.value];
      if parent.usedAt.None? && parent.revokedAt.None? {
        RotatedStep(s, found.value, pair, now);
      } else {
        RevokeFamilyStep(s, parent, now);
      }
    }
  }

  lemma NextStep(s: State, step: Step)
    requires Inv(s)
    ensures StepsTo(s, Next(s, step))
  {
    hide Inv, Later;
    Same(s.t);
    GrantsOf(s);
    match step
    case SaveCode(code, digest) => SaveCodeStep(s, code, digest);
    case Approve(grantId, row) => ApproveStep(s, grantId, row);
    case BeginExchange(x, digest, binding, now) => ConsumeStep(s, x, digest, binding, now);
    case CheckGrant(x) => CheckStep(s, x);
    case Issue(x, pair) => if x in s.exchanges && s.exchanges[x].Checked? { IssueStep(s, x, pair); }
    case Rotating(digest, pair, now) => RotatingStep(s, digest, pair, now);
    case RevokingGrant(grantId, now) =>
      if grantId in s.t.grants.rows { RevokeAllStep(s, grantId, s.t.grants.rows[grantId].userId, now); }
    case RevokingRefresh(digest, now) => RefreshRevocationStep(s, digest, now);
    case RevokingAccess(digest, now) => RevokeOneStep(s, digest, now);
    case RevokingConnector(userId, grantId, now) => RevokeAllStep(s, grantId, userId, now);
    case RevokingRequest(requestId, includeAccess, member, now) =>
      if SomeMember(s.t.refresh, requestId, member) { RequestStep(s, requestId, includeAccess, member, now); }
    case SettingTarget(userId, grantId, deviceId, studioId, owned) =>
      TargetStep(s.t, userId, grantId, deviceId, studioId, owned);
      GrantsStep(s, SetConnectorTarget(s.t, userId, grantId, deviceId, studioId, owned).0.grants);
  }

  lemma GrantsOf(s: State)
    requires Inv(s)
    ensures GrantsInv(s.t.grants)
  {
  }

  lemma ApproveStep(s: State, grantId: Id, row: Grant)
    requires Inv(s)
    ensures StepsTo(s, Next(s, Approve(grantId, row)))
  {
    hide Inv, Later, UpsertGrant;
    Same(s.t);
    GrantsOf(s);
    var g := SaveGrant(s.t.grants, grantId, row);
    if g.Ok? {
      UpsertStep(s.t.grants, grantId, row);
      GrantsStep(s, g.value.0);
    }
  }

  lemma RefreshRevocationStep(s: State, digest: Id, now: int)
    requires Inv(s)
    ensures StepsTo(s, s.(t := RevokeRefreshToken(s.t, digest, now)))
  {
    hide Inv, Later;
    Same(s.t);
    var found := FindRefresh(s.t.refresh, digest);
    if found.Some? { RevokeFamilyStep(s, s.t.refresh.rows[found.value], now); }
  }

  lemma RequestStep(s: State, requestId: Id, includeAccess: bool, member: Option<Id>, now: int)
    requires Inv(s) && SomeMember(s.t.refresh, requestId, member)
    ensures StepsTo(s, s.(t := RevokeByRequestId(s.t, requestId, includeAccess, member, now)))
  {
    hide Inv, Later, RevokeAccessToken, RevokeRefreshToken, RevokeAllOf;
    Same(s.t);
    if includeAccess && requestId in s.t.access.rows {
      RevokeOneStep(s, s.t.access.rows[requestId].digest, now);
    } else if member.Some? {
      RefreshRevocationStep(s, s.t.refresh.rows[member.value].digest, now);
    } else if requestId in s.t.codes.rows {
      var code := s.t.codes.rows[requestId];
      var grant := GrantByOwner(s.t.grants, Owner(code.userId, code.clientId, code.deviceId));
      if grant.Ok? { RevokeAllStep(s, grant.value, s.t.grants.rows[grant.value].userId, now); }
    }
  }

  lemma {:induction false} RunStep(s: State, steps: seq<Step>)
    requires Inv(s)
    ensures StepsTo(s, Run(s, steps))
    decreases |steps|
  {
    hide Inv, Later, Next;
    Same(s.t);
    if steps != [] {
      NextStep(s, steps[0]);
      RunStep(Next(s, steps[0]), steps[1..]);
      LaterTrans(s.t, Next(s, steps[0]).t, Run(s, steps).t);
    }
  }

  lemma ReachInv(steps: seq<Step>)
    ensures Inv(Reach(steps))
  {
    RunStep(Initial, steps);
  }

  // ------------------------------------------------- one row, later on

  lemma AccessAfter(s: State, steps: seq<Step>, id: Id)
    requires Inv(s) && id in s.t.access.rows
    ensures var n := Run(s, steps);
            && Inv(n) && id in n.t.access.rows
            && n.t.access.rows[id].expiresAt == s.t.access.rows[id].expiresAt
            && (s.t.access.rows[id].revokedAt.Some? ==> n.t.access.rows[id].revokedAt.Some?)
  {
    hide Inv, Run, CodesLater, GrantsLater, RefreshLater;
    RunStep(s, steps);
  }

  lemma RefreshAfter(s: State, steps: seq<Step>, id: Id)
    requires Inv(s) && id in s.t.refresh.rows
    ensures var n := Run(s, steps);
            && Inv(n) && id in n.t.refresh.rows
            && n.t.refresh.rows[id].familyId == s.t.refresh.rows[id].familyId
            && (s.t.refresh.rows[id].revokedAt.Some? ==> n.t.refresh.rows[id].revokedAt.Some?)
  {
    hide Inv, Run, CodesLater, GrantsLater, AccessLater;
    RunStep(s, steps);
  }

  lemma CodeAfter(s: State, steps: seq<Step>, id: Id)
    requires Inv(s) && id in s.t.codes.rows && s.t.codes.rows[id].consumedAt.Some?
    ensures id in Run(s, steps).t.codes.rows && Run(s, steps).t.codes.rows[id].consumedAt.Some?
  {
    hide Inv, Run, RefreshLater, GrantsLater, AccessLater;
    RunStep(s, steps);
  }

  lemma {:induction false} RunAppend(s: State, steps: seq<Step>, more: seq<Step>)
    ensures Run(s, steps + more) == Run(Run(s, steps), more)
    decreases |steps|
  {
    hide Next;
    if steps == [] {
      assert steps + more == more;
    } else {
      assert (steps + more)[1..] == steps[1..] + more;
      RunAppend(Next(s, steps[0]), steps[1..], more);
    }
  }

  lemma OneStep(s: State, step: Step)
    ensures Run(s, [step]) == Next(s, step)
  {
    hide Next;
    assert Run(Next(s, step), []) == Next(s, step);
  }
}
