/** What the OAuth store guarantees over whole runs. */
module TokenTheorems {
  import opened Common
  import opened OAuthTables
  import opened Scopes
  import opened TokenFamilies
  import opened TokenRuns

  // ------------------------------------------------------------- families

  /** `chain` lists the family from its root, each token the child of the one
      before, and only the last unused. */
  ghost predicate LinearFamily(rows: map<Id, Refresh>, family: Id, chain: seq<Id>) {
    && |chain| > 0 && chain[0] == family
    && (forall i, j :: 0 <= i < j < |chain| ==> chain[i] != chain[j])
    && (forall i :: 0 <= i < |chain| ==> Link(rows, chain, i))
    && (forall id :: id in rows && rows[id].familyId == family ==> id in chain)
  }

  /** Every family is one parent chain with one user, one grant and one unused
      token, its tip. */
  lemma FamiliesAreLinear(steps: seq<Step>, id: Id)
    requires id in Reach(steps).t.refresh.rows
    ensures var s := Reach(steps);
            var family := s.t.refresh.rows[id].familyId;
            exists chain :: LinearFamily(s.t.refresh.rows, family, chain)
                            && (s.t.refresh.rows[id].usedAt.None? <==> id == chain[|chain| - 1])
  {
    hide Inv, Link, Chain;
    ReachInv(steps);
    var s := Reach(steps);
    FamilyOf(s, id);
    var family := s.t.refresh.rows[id].familyId;
    var chain := s.chains[family];
    forall k | k in s.t.refresh.rows && s.t.refresh.rows[k].familyId == family ensures k in chain { FamilyOf(s, k); }
    RanksDistinct(s.t.refresh.rows, s.rank, family, chain);
    LastUnused(s.t.refresh.rows, chain, s.rank[id]);
    assert LinearFamily(s.t.refresh.rows, family, chain);
  }

  lemma RanksDistinct(rows: map<Id, Refresh>, rank: map<Id, nat>, family: Id, chain: seq<Id>)
    requires Chain(rows, rank, family, chain)
    ensures |chain| > 0 && chain[0] == family
    ensures forall i, j :: 0 <= i < j < |chain| ==> chain[i] != chain[j]
    ensures forall i :: 0 <= i < |chain| ==> Link(rows, chain, i)
  {
    hide Link;
  }

  lemma LastUnused(rows: map<Id, Refresh>, chain: seq<Id>, i: nat)
    requires i < |chain| && Link(rows, chain, i) && forall j, k :: 0 <= j < k < |chain| ==> chain[j] != chain[k]
    ensures rows[chain[i]].usedAt.None? <==> chain[i] == chain[|chain| - 1]
  {
  }

  /** The tip of the family a token belongs to. */
  function TipOf(s: State, id: Id): Id
    requires id in s.t.refresh.rows && s.t.refresh.rows[id].familyId in s.chains
    requires |s.chains[s.t.refresh.rows[id].familyId]| > 0
  {
    var chain := s.chains[s.t.refresh.rows[id].familyId];
    chain[|chain| - 1]
  }

  /** Neither the ids nor the digests of the pair are in use. */
  predicate FreshPair(t: Tables, pair: TokenPair) {
    && pair.access.id !in t.access.rows && pair.access.digest !in t.access.index
    && pair.refresh.id !in t.refresh.rows && pair.refresh.digest !in t.refresh.index
  }

  /** Rotation succeeds exactly for the unrevoked, unexpired tip, and moves the
      tip to the new token; any other member presented is refused and takes its
      family down. */
  lemma OnlyTheTipRotates(steps: seq<Step>, id: Id, pair: TokenPair, now: int)
    requires id in Reach(steps).t.refresh.rows && PairComplete(pair) && now != 0
    ensures var s := Reach(steps);
            var row := s.t.refresh.rows[id];
            var (t, r) := Rotate(s.t, row.digest, pair, now);
            && row.familyId in s.chains && |s.chains[row.familyId]| > 0
            && (r.Ok? <==> id == TipOf(s, id) && row.revokedAt.None? && now < row.expiresAt && FreshPair(s.t, pair))
            && (r.Ok? ==> pair.refresh.id in t.refresh.rows && t.refresh.rows[pair.refresh.id].familyId == row.familyId
                          && TipOf(RotatingState(s, row.digest, pair, now), pair.refresh.id) == pair.refresh.id)
            && (id != TipOf(s, id) ==> r == Err(TokenReused))
            && (id != TipOf(s, id) || row.revokedAt.Some? ==>
                  r.Err? && forall k :: k in t.refresh.rows && t.refresh.rows[k].familyId == row.familyId ==>
                                          t.refresh.rows[k].revokedAt.Some?)
  {
    hide Inv, Link, Chain, InsertPair, RevokeFamily, StepsTo, FreshPair;
    ReachInv(steps);
    var s := Reach(steps);
    FamilyOf(s, id);
    var row := s.t.refresh.rows[id];
    var chain := s.chains[row.familyId];
    RanksDistinct(s.t.refresh.rows, s.rank, row.familyId, chain);
    LastUnused(s.t.refresh.rows, chain, s.rank[id]);
    DigestFinds(s, id);
    FamilyRevoked(s, row, now);
    RevokedRows(s.t, row, now);
    if row.usedAt.None? && row.revokedAt.None? {
      RefreshGrant(s, id);
      InsertedPair(s, id, pair, now);
    }
  }

  /** Its foreign keys hold, so the insert can only fail on a key in use. */
  lemma InsertedPair(s: State, id: Id, pair: TokenPair, now: int)
    requires Inv(s) && id in s.t.refresh.rows
    requires s.t.refresh.rows[id].usedAt.None?
    requires GrantExists(s.t.grants, s.t.refresh.rows[id].grantId, s.t.refresh.rows[id].userId)
    ensures var row := s.t.refresh.rows[id];
            var used := s.t.(refresh := s.t.refresh.(rows := s.t.refresh.rows[id := row.(usedAt := Some(now))]));
            var t := InsertPair(used, pair, row.userId, row.grantId, row.familyId, id);
            && (t.Ok? <==> FreshPair(s.t, pair))
            && (t.Ok? ==> pair.refresh.id in t.value.refresh.rows
                          && t.value.refresh.rows[pair.refresh.id].familyId == row.familyId)
  {
    hide Inv;
  }

  lemma DigestFinds(s: State, id: Id)
    requires Inv(s) && id in s.t.refresh.rows
    ensures FindRefresh(s.t.refresh, s.t.refresh.rows[id].digest) == Some(id)
  {
    hide FamiliesInv, ExchangesInv, GrantsInv, CodesInv, AccessInv;
  }

  /** A family shares one user, so revoking it reaches every member. */
  lemma FamilyRevoked(s: State, row: Refresh, now: int)
    requires Inv(s) && exists id :: id in s.t.refresh.rows && s.t.refresh.rows[id] == row
    ensures forall k :: k in s.t.refresh.rows && s.t.refresh.rows[k].familyId == row.familyId ==>
              && RevokeFamily(s.t, row, now).refresh.rows[k].revokedAt.Some?
              && s.t.refresh.rows[k].userId == row.userId && s.t.refresh.rows[k].grantId == row.grantId
  {
    hide TablesInv, ExchangesInv, FamiliesInv, Chain;
    var id :| id in s.t.refresh.rows && s.t.refresh.rows[id] == row;
    FamilyOf(s, id);
    forall k | k in s.t.refresh.rows && s.t.refresh.rows[k].familyId == row.familyId
      ensures s.t.refresh.rows[k].userId == row.userId && s.t.refresh.rows[k].grantId == row.grantId
    {
      FamilyOf(s, k);
    }
  }

  /** Whichever member the database returns for a family id, revoking by that
      request id does the same. */
  lemma MemberChoiceIrrelevant(steps: seq<Step>, requestId: Id, includeAccess: bool, a: Option<Id>, b: Option<Id>,
                               now: int)
    requires SomeMember(Reach(steps).t.refresh, requestId, a) && SomeMember(Reach(steps).t.refresh, requestId, b)
    ensures RevokeByRequestId(Reach(steps).t, requestId, includeAccess, a, now)
         == RevokeByRequestId(Reach(steps).t, requestId, includeAccess, b, now)
  {
    ReachInv(steps);
    var s := Reach(steps);
    if a.Some? && b.Some? {
      DigestFinds(s, a.value);
      DigestFinds(s, b.value);
      FamilyRevoked(s, s.t.refresh.rows[a.value], now);
    }
    hide Inv;
  }

  ghost predicate FamilyDead(s: State, family: Id) {
    family in s.t.refresh.rows && s.t.refresh.rows[family].revokedAt.Some?
  }

  lemma DeadFamilyStep(s: State, step: Step, family: Id)
    requires Inv(s) && family in s.chains && FamilyDead(s, family)
    ensures Inv(Next(s, step)) && FamilyDead(Next(s, step), family)
    ensures family in Next(s, step).chains && Next(s, step).chains[family] == s.chains[family]
  {
    hide Inv, Later, Next, Issuing, RotatingState;
    NextStep(s, step);
    OneStep(s, step);
    RefreshAfter(s, [step], family);
    match step
    case Issue(x, pair) => DeadFamilyIssue(s, x, pair, family);
    case Rotating(digest, pair, now) => DeadFamilyRotate(s, digest, pair, now, family);
    case _ => ChainsKept(s, step);
  }

  lemma ChainsKept(s: State, step: Step)
    requires !step.Issue? && !step.Rotating?
    ensures Next(s, step).chains == s.chains
  {
  }

  lemma DeadFamilyIssue(s: State, x: nat, pair: TokenPair, family: Id)
    requires FamilyDead(s, family) && family in s.chains
    ensures var n := Next(s, Issue(x, pair)); family in n.chains && n.chains[family] == s.chains[family]
  {
  }

  lemma DeadFamilyRotate(s: State, digest: Id, pair: TokenPair, now: int, family: Id)
    requires Inv(s) && FamilyDead(s, family) && family in s.chains
    ensures var n := Next(s, Rotating(digest, pair, now)); family in n.chains && n.chains[family] == s.chains[family]
  {
    hide Inv, Chain, InsertPair, RevokeFamily;
    var found := FindRefresh(s.t.refresh, digest);
    if found.Some? {
      FamilyOf(s, found.value);
      var f := s.t.refresh.rows[found.value].familyId;
      RanksDistinct(s.t.refresh.rows, s.rank, f, s.chains[f]);
    }
  }

  lemma {:induction false} DeadFamilyRun(s: State, steps: seq<Step>, family: Id)
    requires Inv(s) && family in s.chains && FamilyDead(s, family)
    ensures Inv(Run(s, steps)) && FamilyDead(Run(s, steps), family)
    ensures family in Run(s, steps).chains && Run(s, steps).chains[family] == s.chains[family]
    decreases |steps|
  {
    hide Inv, Next, FamilyDead;
    if steps != [] {
      DeadFamilyStep(s, steps[0], family);
      DeadFamilyRun(Next(s, steps[0]), steps[1..], family);
    }
  }

  /** Reuse is final. Present a used or revoked refresh token once, and whatever
      happens afterwards, re-approval included, its family has no new members
      and none of its members rotates again. */
  lemma ReuseKillsTheFamily(before: seq<Step>, id: Id, pair: TokenPair, now: int, after: seq<Step>,
                            other: Id, pair': TokenPair, now': int)
    requires id in Reach(before).t.refresh.rows && PairComplete(pair) && now != 0
    requires var row := Reach(before).t.refresh.rows[id]; row.usedAt.Some? || row.revokedAt.Some?
    requires var s := Reach(before);
             var n := Run(Next(s, Rotating(s.t.refresh.rows[id].digest, pair, now)), after);
             other in n.t.refresh.rows && n.t.refresh.rows[other].familyId == s.t.refresh.rows[id].familyId
    ensures var s := Reach(before);
            var n := Run(Next(s, Rotating(s.t.refresh.rows[id].digest, pair, now)), after);
            && other in s.t.refresh.rows
            && Rotate(n.t, n.t.refresh.rows[other].digest, pair', now').1.Err?
  {
    hide Inv, Next, Run, Chain, Link, StepsTo;
    ReachInv(before);
    var s := Reach(before);
    var row := s.t.refresh.rows[id];
    var m := Next(s, Rotating(row.digest, pair, now));
    var n := Run(m, after);
    ReuseStep(s, id, pair, now);
    DeadFamilyRun(m, after, row.familyId);
    FamilyOf(n, other);
    DigestFinds(n, other);
    InChain(s, row.familyId, other);
    RevokedTogether(n, other);
  }

  /** Presenting a used or revoked token leaves its family dead and no longer. */
  lemma ReuseStep(s: State, id: Id, pair: TokenPair, now: int)
    requires Inv(s) && id in s.t.refresh.rows && PairComplete(pair) && now != 0
    requires var row := s.t.refresh.rows[id]; row.usedAt.Some? || row.revokedAt.Some?
    ensures var m := Next(s, Rotating(s.t.refresh.rows[id].digest, pair, now));
            var family := s.t.refresh.rows[id].familyId;
            && Inv(m) && m.t == RevokeFamily(s.t, s.t.refresh.rows[id], now) && m.chains == s.chains
            && family in s.chains && FamilyDead(m, family)
  {
    hide Inv, Chain, RevokeFamily, InsertPair;
    var row := s.t.refresh.rows[id];
    NextStep(s, Rotating(row.digest, pair, now));
    DigestFinds(s, id);
    FamilyOf(s, id);
    RanksDistinct(s.t.refresh.rows, s.rank, row.familyId, s.chains[row.familyId]);
    FamilyRevoked(s, row, now);
    RevokedRows(s.t, row, now);
  }

  lemma RevokedRows(t: Tables, row: Refresh, now: int)
    ensures var n := RevokeFamily(t, row, now);
            && n.refresh.rows.Keys == t.refresh.rows.Keys
            && forall k :: k in t.refresh.rows ==> n.refresh.rows[k].familyId == t.refresh.rows[k].familyId
  {
  }

  lemma RevokedTogether(s: State, id: Id)
    requires Inv(s) && id in s.t.refresh.rows
    ensures var family := s.t.refresh.rows[id].familyId;
            && family in s.t.refresh.rows
            && s.t.refresh.rows[id].revokedAt.Some? == s.t.refresh.rows[family].revokedAt.Some?
  {
    hide Inv, Chain;
    FamilyOf(s, id);
    var f := s.t.refresh.rows[id].familyId;
    RanksDistinct(s.t.refresh.rows, s.rank, f, s.chains[f]);
  }

  lemma InChain(s: State, family: Id, id: Id)
    requires Inv(s) && family in s.chains && id in s.chains[family]
    ensures id in s.t.refresh.rows
  {
    hide TablesInv, ExchangesInv;
    var i :| 0 <= i < |s.chains[family]| && s.chains[family][i] == id;
    assert Chain(s.t.refresh.rows, s.rank, family, s.chains[family]) && Link(s.t.refresh.rows, s.chains[family], i);
  }

  /** Family revocation is not grant-wide. Once a token's family was revoked,
      by presenting the token again or by revoking it, a refresh token rotates
      if and only if it is of another family and rotated before, whatever the
      grants of the two are; such a sibling does not notice. */
  lemma SiblingFamilySurvives(steps: seq<Step>, id: Id, other: Id, pair: TokenPair, now: int, pair': TokenPair,
                              now': int)
    requires id in Reach(steps).t.refresh.rows && other in Reach(steps).t.refresh.rows
    requires PairComplete(pair) && now != 0
    ensures var s := Reach(steps);
            var row, sibling := s.t.refresh.rows[id], s.t.refresh.rows[other];
            var n := Next(s, RevokingRefresh(row.digest, now));
            var r := Rotate(n.t, sibling.digest, pair', now').1;
            && (r.Ok? <==> sibling.familyId != row.familyId && Rotate(s.t, sibling.digest, pair', now').1.Ok?)
            && (sibling.familyId != row.familyId ==> r == Rotate(s.t, sibling.digest, pair', now').1)
            && (row.usedAt.Some? || row.revokedAt.Some? ==> Next(s, Rotating(row.digest, pair, now)) == n)
  {
    hide Inv, RevokeFamily, InsertPair;
    ReachInv(steps);
    var s := Reach(steps);
    var row, sibling := s.t.refresh.rows[id], s.t.refresh.rows[other];
    DigestFinds(s, id);
    DigestFinds(s, other);
    assert Next(s, RevokingRefresh(row.digest, now)).t == RevokeFamily(s.t, row, now);
    if sibling.familyId != row.familyId {
      SiblingUntouched(s.t, row, other, now, pair', now');
    } else {
      FamilyRevoked(s, row, now);
      RevokedRows(s.t, row, now);
      MemberRefused(s.t, row, other, now, pair', now');
    }
  }

  lemma MemberRefused(t: Tables, row: Refresh, member: Id, now: int, pair: TokenPair, now': int)
    requires member in t.refresh.rows
    requires FindRefresh(t.refresh, t.refresh.rows[member].digest) == Some(member)
    requires var n := RevokeFamily(t, row, now); member in n.refresh.rows && n.refresh.rows[member].revokedAt.Some?
    ensures Rotate(RevokeFamily(t, row, now), t.refresh.rows[member].digest, pair, now').1.Err?
  {
  }

  lemma SiblingUntouched(t: Tables, row: Refresh, sibling: Id, now: int, pair: TokenPair, now': int)
    requires sibling in t.refresh.rows && t.refresh.rows[sibling].familyId != row.familyId
    requires FindRefresh(t.refresh, t.refresh.rows[sibling].digest) == Some(sibling)
    ensures var digest := t.refresh.rows[sibling].digest;
            Rotate(RevokeFamily(t, row, now), digest, pair, now').1 == Rotate(t, digest, pair, now').1
  {
    hide RevokedFamily, RevokedAccess, RevokedGrant;
    var n := RevokeFamily(t, row, now);
    assert n.refresh.rows[sibling] == t.refresh.rows[sibling] && n.refresh.rows.Keys == t.refresh.rows.Keys
           && n.refresh.index == t.refresh.index by { RefreshUntouched(t.refresh, row, sibling, now); }
    assert n.access.rows.Keys == t.access.rows.Keys && n.access.index == t.access.index by {
      AccessKeys(t.access, row, now);
    }
    assert forall g, u :: GrantExists(n.grants, g, u) == GrantExists(t.grants, g, u) by {
      GrantsKept(t.grants, row, now);
    }
  }

  lemma RefreshUntouched(r: RefreshTokens, row: Refresh, sibling: Id, now: int)
    requires sibling in r.rows && r.rows[sibling].familyId != row.familyId
    ensures var n := RevokedFamily(r, row.familyId, row.userId, now);
            sibling in n.rows && n.rows[sibling] == r.rows[sibling] && n.rows.Keys == r.rows.Keys && n.index == r.index
  {
  }

  lemma AccessKeys(a: AccessTokens, row: Refresh, now: int)
    ensures var n := RevokedAccess(a, row.grantId, row.userId, now); n.rows.Keys == a.rows.Keys && n.index == a.index
  {
  }

  lemma GrantsKept(g: Grants, row: Refresh, now: int)
    ensures forall id, u :: GrantExists(RevokedGrant(g, row.grantId, row.userId, now), id, u) == GrantExists(g, id, u)
  {
  }

  /** The three transactions of one code exchange. */
  function Exchanging(x: nat, digest: Id, binding: Binding, now: int, pair: TokenPair): seq<Step> {
    [BeginExchange(x, digest, binding, now), CheckGrant(x), Issue(x, pair)]
  }

  /** An unhindered exchange of an unused code under a live grant succeeds: it
      adds a family root and an access token of the grant, uses up the code and
      changes nothing else. */
  lemma ExchangeStartsAFamily(s: State, x: nat, digest: Id, binding: Binding, now: int, pair: TokenPair, grantId: Id)
    requires Inv(s) && x !in s.exchanges && PairComplete(pair) && FreshPair(s.t, pair)
    requires ConsumeCode(s.t.codes, digest, binding, now).Ok?
    requires var code := ConsumeCode(s.t.codes, digest, binding, now).value;
             && GrantByOwner(s.t.grants, Owner(code.userId, code.clientId, code.deviceId)) == Ok(grantId)
             && s.t.grants.rows[grantId].revokedAt.None? && grantId != 0
    ensures var code := ConsumeCode(s.t.codes, digest, binding, now).value;
            var n := Run(s, Exchanging(x, digest, binding, now, pair));
            var root := Refresh(code.userId, grantId, pair.refresh.id, 0, pair.refresh.digest, pair.refresh.expiresAt,
                                None, None);
            && n.exchanges == s.exchanges[x := Issued(code.id, pair.refresh.id)]
            && n.t == Tables(Consumed(s.t.codes, digest, binding, now), s.t.grants,
                             Table(s.t.access.rows[pair.access.id := Access(code.userId, grantId, pair.access.digest,
                                                                            pair.access.expiresAt, None)],
                                   s.t.access.index[pair.access.digest := pair.access.id]),
                             Table(s.t.refresh.rows[pair.refresh.id := root],
                                   s.t.refresh.index[pair.refresh.digest := pair.refresh.id]))
  {
    hide Inv, Next, ConsumeCode, Consumed, InsertPair;
    var code := ConsumeCode(s.t.codes, digest, binding, now).value;
    var s1 := Next(s, BeginExchange(x, digest, binding, now));
    BegunExchange(s, x, digest, binding, now);
    CheckedExchange(s1, x, grantId);
    var s2 := Next(s1, CheckGrant(x));
    IssuedExchange(s2, x, pair);
    ThreeSteps(s, BeginExchange(x, digest, binding, now), CheckGrant(x), Issue(x, pair));
  }

  lemma BegunExchange(s: State, x: nat, digest: Id, binding: Binding, now: int)
    requires Inv(s) && x !in s.exchanges && ConsumeCode(s.t.codes, digest, binding, now).Ok?
    ensures var code := ConsumeCode(s.t.codes, digest, binding, now).value;
            var n := Next(s, BeginExchange(x, digest, binding, now));
            && n == s.(t := s.t.(codes := Consumed(s.t.codes, digest, binding, now)),
                       exchanges := s.exchanges[x := CodeConsumed(code.id)])
            && code.id in n.t.codes.rows && n.t.codes.rows[code.id] == code && GrantsInv(n.t.grants)
  {
    hide FamiliesInv, ExchangesInv, AccessInv, RefreshInv, GrantsInv;
  }

  lemma CheckedExchange(s: State, x: nat, grantId: Id)
    requires x in s.exchanges && s.exchanges[x].CodeConsumed? && s.exchanges[x].code in s.t.codes.rows
    requires var code := s.t.codes.rows[s.exchanges[x].code];
             && code.id == s.exchanges[x].code
             && GrantByOwner(s.t.grants, Owner(code.userId, code.clientId, code.deviceId)) == Ok(grantId)
             && s.t.grants.rows[grantId].revokedAt.None?
    ensures Next(s, CheckGrant(x)) == s.(exchanges := s.exchanges[x := Checked(s.exchanges[x].code, grantId)])
  {
  }

  lemma IssuedExchange(s: State, x: nat, pair: TokenPair)
    requires x in s.exchanges && s.exchanges[x].Checked? && s.exchanges[x].code in s.t.codes.rows
    requires PairComplete(pair) && FreshPair(s.t, pair) && s.exchanges[x].grantId != 0
    requires var code := s.t.codes.rows[s.exchanges[x].code];
             && code.id == s.exchanges[x].code && code.userId != 0
             && GrantExists(s.t.grants, s.exchanges[x].grantId, code.userId)
    ensures var userId, grantId := s.t.codes.rows[s.exchanges[x].code].userId, s.exchanges[x].grantId;
            var n := Next(s, Issue(x, pair));
            var root := Refresh(userId, grantId, pair.refresh.id, 0, pair.refresh.digest, pair.refresh.expiresAt, None,
                                None);
            && n.exchanges == s.exchanges[x := Issued(s.exchanges[x].code, pair.refresh.id)]
            && n.t == Tables(s.t.codes, s.t.grants,
                             Table(s.t.access.rows[pair.access.id := Access(userId, grantId, pair.access.digest,
                                                                            pair.access.expiresAt, None)],
                                   s.t.access.index[pair.access.digest := pair.access.id]),
                             Table(s.t.refresh.rows[pair.refresh.id := root],
                                   s.t.refresh.index[pair.refresh.digest := pair.refresh.id]))
  {
  }

  lemma ThreeSteps(s: State, a: Step, b: Step, c: Step)
    ensures Run(s, [a, b, c]) == Next(Next(Next(s, a), b), c)
  {
    hide Next;
    assert [a, b, c] == [a] + ([b] + [c]);
    Unroll(s, a, [b] + [c]);
    Unroll(Next(s, a), b, [c]);
    OneStep(Next(Next(s, a), b), c);
  }

  const TwoCodes := [
    Approve(9, Grant(2, 3, 5, 6, ["scope"], 7, None)),
    SaveCode(Code(1, 2, 3, 4, ["scope"], 5, 6, 7, 100, None), 11),
    SaveCode(Code(2, 2, 3, 4, ["scope"], 5, 6, 7, 100, None), 12)]

  const FirstPair := TokenPair(NewToken(20, 21, 200), NewToken(30, 31, 300))
  const SecondPair := TokenPair(NewToken(22, 23, 200), NewToken(40, 41, 300))
  const ThirdPair := TokenPair(NewToken(24, 25, 200), NewToken(50, 51, 300))

  const TwoFamilies := TwoCodes + (Exchanging(0, 11, Binding(3, 4, 7), 50, FirstPair)
                                   + Exchanging(1, 12, Binding(3, 4, 7), 51, SecondPair))

  /** The case arises: one grant, two codes, two families. Revoking the first
      family revokes the grant and leaves the second family's root to rotate. */
  lemma RevokedGrantStillRotates()
    ensures var s := Reach(TwoFamilies);
            var n := Next(s, RevokingRefresh(31, 60));
            && 30 in n.t.refresh.rows && n.t.refresh.rows[30].revokedAt == Some(60) && n.t.refresh.rows[30].grantId == 9
            && 9 in n.t.grants.rows && n.t.grants.rows[9].revokedAt == Some(60)
            && 40 in n.t.refresh.rows && n.t.refresh.rows[40].grantId == 9
            && Rotate(n.t, 41, ThirdPair, 61).1.Ok?
  {
    hide *;
    TwoFamiliesState();
    SecondRotates(Reach(TwoFamilies).t);
    FirstRevoked(Reach(TwoFamilies));
    SiblingFamilySurvives(TwoFamilies, 30, 40, FirstPair, 60, ThirdPair, 61);
  }

  ghost predicate TwoRoots(t: Tables) {
    && t.grants.rows == map[9 := Grant(2, 3, 5, 6, ["scope"], 7, None)]
    && t.refresh == Table(map[30 := Refresh(2, 9, 30, 0, 31, 300, None, None),
                              40 := Refresh(2, 9, 40, 0, 41, 300, None, None)],
                          map[31 := 30, 41 := 40])
    && t.access == Table(map[20 := Access(2, 9, 21, 200, None), 22 := Access(2, 9, 23, 200, None)],
                         map[21 := 20, 23 := 22])
  }

  lemma SecondRotates(t: Tables)
    requires TwoRoots(t)
    ensures PairComplete(FirstPair)
    ensures 30 in t.refresh.rows && t.refresh.rows[30].familyId == 30 && t.refresh.rows[30].digest == 31
    ensures 40 in t.refresh.rows && t.refresh.rows[40].familyId == 40 && t.refresh.rows[40].digest == 41
    ensures Rotate(t, 41, ThirdPair, 61).1.Ok?
  {
  }

  lemma FirstRevoked(s: State)
    requires TwoRoots(s.t)
    ensures var n := Next(s, RevokingRefresh(31, 60));
            && 30 in n.t.refresh.rows && n.t.refresh.rows[30].revokedAt == Some(60) && n.t.refresh.rows[30].grantId == 9
            && 9 in n.t.grants.rows && n.t.grants.rows[9].revokedAt == Some(60)
            && 40 in n.t.refresh.rows && n.t.refresh.rows[40].grantId == 9
  {
    hide RevokedAccess;
    assert FindRefresh(s.t.refresh, 31) == Some(30);
  }

  lemma TwoFamiliesState()
    ensures TwoRoots(Reach(TwoFamilies).t)
  {
    hide Inv, Next, Run;
    var binding := Binding(3, 4, 7);
    var s := Reach(TwoCodes);
    ReachInv(TwoCodes);
    TwoCodesState();
    var m := Run(s, Exchanging(0, 11, binding, 50, FirstPair));
    ExchangeStartsAFamily(s, 0, 11, binding, 50, FirstPair, 9);
    RunStep(s, Exchanging(0, 11, binding, 50, FirstPair));
    ExchangeStartsAFamily(m, 1, 12, binding, 51, SecondPair, 9);
    RunAppend(s, Exchanging(0, 11, binding, 50, FirstPair), Exchanging(1, 12, binding, 51, SecondPair));
    RunAppend(Initial, TwoCodes,
              Exchanging(0, 11, binding, 50, FirstPair) + Exchanging(1, 12, binding, 51, SecondPair));
  }

  lemma TwoCodesState()
    ensures var s := Reach(TwoCodes);
            && s.exchanges == map[]
            && s.t.codes == Table(map[1 := Code(1, 2, 3, 4, ["scope"], 5, 6, 7, 100, None),
                                      2 := Code(2, 2, 3, 4, ["scope"], 5, 6, 7, 100, None)], map[11 := 1, 12 := 2])
            && s.t.grants == Table(map[9 := Grant(2, 3, 5, 6, ["scope"], 7, None)], map[Owner(2, 3, 5) := 9])
            && s.t.access == EmptyTables.access && s.t.refresh == EmptyTables.refresh
  {
    ThreeSteps(Initial, TwoCodes[0], TwoCodes[1], TwoCodes[2]);
    assert TwoCodes == [TwoCodes[0], TwoCodes[1], TwoCodes[2]];
    var s1 := Next(Initial, TwoCodes[0]);
    assert s1.t.grants == Table(map[9 := Grant(2, 3, 5, 6, ["scope"], 7, None)], map[Owner(2, 3, 5) := 9]);
    var s2 := Next(s1, TwoCodes[1]);
    assert s2.t.codes == Table(map[1 := Code(1, 2, 3, 4, ["scope"], 5, 6, 7, 100, None)], map[11 := 1]);
  }

  // -------------------------------------------------------- access tokens

  /** Some presented digest is accepted as access token `id`. */
  ghost predicate Accepted(s: State, id: Id, now: int) {
    exists digest :: AccessTokenByDigest(s.t, digest, now) == Ok(id)
  }

  /** A token is accepted exactly while it is unrevoked and unexpired and its
      grant is live: its own digest finds it, and its grant is never missing. */
  lemma AcceptedExactly(steps: seq<Step>, id: Id, now: int)
    requires id in Reach(steps).t.access.rows && now != 0
    ensures var t := Reach(steps).t;
            var row := t.access.rows[id];
            && row.grantId in t.grants.rows
            && (Accepted(Reach(steps), id, now) <==>
                  row.revokedAt.None? && now < row.expiresAt && t.grants.rows[row.grantId].revokedAt.None?)
            && (Accepted(Reach(steps), id, now) <==> AccessTokenByDigest(t, row.digest, now) == Ok(id))
  {
    hide Inv, Run;
    ReachInv(steps);
    GrantOfToken(Reach(steps), id);
    var s := Reach(steps);
    if AccessTokenByDigest(s.t, s.t.access.rows[id].digest, now) == Ok(id) { assert Accepted(s, id, now); }
  }

  /** A revoked access token is never accepted again, whatever follows. */
  lemma DeadStaysDead(s: State, steps: seq<Step>, id: Id, now: int)
    requires Inv(s) && id in s.t.access.rows && s.t.access.rows[id].revokedAt.Some?
    ensures !Accepted(Run(s, steps), id, now)
  {
    hide Inv, Run;
    AccessAfter(s, steps, id);
  }

  /** Revoking a grant kills every access token issued under it so far. */
  lemma GrantRevocationIsFinal(before: seq<Step>, grantId: Id, now: int, after: seq<Step>, id: Id, at: int)
    requires id in Reach(before).t.access.rows && Reach(before).t.access.rows[id].grantId == grantId
    requires grantId != 0 && now != 0
    ensures !Accepted(Run(Next(Reach(before), RevokingGrant(grantId, now)), after), id, at)
  {
    hide Inv, Run, Later, Accepted;
    ReachInv(before);
    var s := Reach(before);
    GrantOfToken(s, id);
    NextStep(s, RevokingGrant(grantId, now));
    RevokedHere(s.t, grantId, s.t.access.rows[id].userId, now, id);
    DeadStaysDead(Next(s, RevokingGrant(grantId, now)), after, id, at);
  }

  lemma RevokedHere(t: Tables, grantId: Id, userId: Id, now: int, id: Id)
    requires id in t.access.rows && t.access.rows[id].grantId == grantId && t.access.rows[id].userId == userId
    ensures id in RevokedAccess(t.access, grantId, userId, now).rows
    ensures RevokedAccess(t.access, grantId, userId, now).rows[id].revokedAt.Some?
  {
  }

  lemma GrantOfToken(s: State, id: Id)
    requires Inv(s) && id in s.t.access.rows
    ensures var row := s.t.access.rows[id];
            && GrantExists(s.t.grants, row.grantId, row.userId)
            && row.digest in s.t.access.index && s.t.access.index[row.digest] == id
            && GrantsInv(s.t.grants)
  {
    hide FamiliesInv, ExchangesInv, RefreshInv, GrantsInv, CodesInv;
  }

  /** So does refresh-token reuse, and revoking any refresh token of the grant. */
  lemma FamilyRevocationIsFinal(before: seq<Step>, refreshId: Id, pair: TokenPair, now: int, after: seq<Step>, id: Id,
                                at: int)
    requires var t := Reach(before).t;
             && id in t.access.rows && refreshId in t.refresh.rows
             && t.access.rows[id].grantId == t.refresh.rows[refreshId].grantId
    requires PairComplete(pair) && now != 0
    ensures var s := Reach(before);
            var row := s.t.refresh.rows[refreshId];
            && !Accepted(Run(Next(s, RevokingRefresh(row.digest, now)), after), id, at)
            && (row.usedAt.Some? || row.revokedAt.Some? ==>
                  !Accepted(Run(Next(s, Rotating(row.digest, pair, now)), after), id, at))
  {
    hide Inv, Run, Accepted, StepsTo, RevokeFamily, InsertPair;
    ReachInv(before);
    var s := Reach(before);
    var row := s.t.refresh.rows[refreshId];
    DigestFinds(s, refreshId);
    var n := s.(t := RevokeFamily(s.t, row, now));
    FamilyRevocationKills(s, refreshId, now, id);
    DeadStaysDead(n, after, id, at);
    assert Next(s, RevokingRefresh(row.digest, now)) == n;
    if row.usedAt.Some? || row.revokedAt.Some? {
      assert Next(s, Rotating(row.digest, pair, now)) == n;
    }
  }

  lemma FamilyRevocationKills(s: State, refreshId: Id, now: int, id: Id)
    requires Inv(s) && id in s.t.access.rows && refreshId in s.t.refresh.rows
    requires s.t.access.rows[id].grantId == s.t.refresh.rows[refreshId].grantId
    ensures var n := s.(t := RevokeFamily(s.t, s.t.refresh.rows[refreshId], now));
            Inv(n) && id in n.t.access.rows && n.t.access.rows[id].revokedAt.Some?
  {
    hide Inv, Later, RevokedAccess, RevokedFamily, RevokedGrant;
    var row := s.t.refresh.rows[refreshId];
    GrantOfToken(s, id);
    RefreshGrant(s, refreshId);
    RevokeFamilyStep(s, row, now);
    RevokedHere(s.t, row.grantId, row.userId, now, id);
  }

  lemma RefreshGrant(s: State, id: Id)
    requires Inv(s) && id in s.t.refresh.rows
    ensures GrantExists(s.t.grants, s.t.refresh.rows[id].grantId, s.t.refresh.rows[id].userId)
  {
    hide FamiliesInv, ExchangesInv, AccessInv, GrantsInv, CodesInv;
  }

  /** Some run from here ends with the token accepted, no earlier than `from`. */
  ghost predicate AcceptableAgain(s: State, id: Id, from: int) {
    exists steps: seq<Step>, at: int :: at >= from && Accepted(Run(s, steps), id, at)
  }

  /** RevokeConnector is weaker. A token outlives it exactly when the grant was
      revoked already at the call, so that the call did nothing, while the
      token was neither revoked nor expired: a later re-approval revives it. */
  lemma ConnectorRevocationExact(before: seq<Step>, userId: Id, grantId: Id, now: int, id: Id)
    requires var t := Reach(before).t;
             && id in t.access.rows && t.access.rows[id].grantId == grantId
             && RevokeConnector(t, userId, grantId, now).1.Ok?
    ensures var s := Reach(before);
            var row := s.t.access.rows[id];
            && grantId in s.t.grants.rows
            && (AcceptableAgain(Next(s, RevokingConnector(userId, grantId, now)), id, now) <==>
                  s.t.grants.rows[grantId].revokedAt.Some? && row.revokedAt.None? && now < row.expiresAt)
  {
    hide Inv, Run, Accepted, Later;
    ReachInv(before);
    var s := Reach(before);
    var step := RevokingConnector(userId, grantId, now);
    var n := Next(s, step);
    NextStep(s, step);
    GrantOfToken(s, id);
    if s.t.grants.rows[grantId].revokedAt.None? || s.t.access.rows[id].revokedAt.Some? {
      RevokedHere(s.t, grantId, userId, now, id);
      NeverAgain(n, id, now);
    } else {
      assert n == s;
      if now < s.t.access.rows[id].expiresAt {
        ReapprovalRevives(s, id, now);
      } else {
        NeverAgain(n, id, now);
      }
    }
  }

  lemma NeverAgain(s: State, id: Id, from: int)
    requires Inv(s) && id in s.t.access.rows
    requires s.t.access.rows[id].revokedAt.Some? || from >= s.t.access.rows[id].expiresAt
    ensures !AcceptableAgain(s, id, from)
  {
    hide Inv, Run, Accepted;
    forall steps: seq<Step>, at: int | at >= from ensures !Accepted(Run(s, steps), id, at) {
      if s.t.access.rows[id].revokedAt.Some? {
        DeadStaysDead(s, steps, id, at);
      } else {
        ExpiredStaysExpired(s, steps, id, at);
      }
    }
  }

  lemma ExpiredStaysExpired(s: State, steps: seq<Step>, id: Id, at: int)
    requires Inv(s) && id in s.t.access.rows && at >= s.t.access.rows[id].expiresAt
    ensures !Accepted(Run(s, steps), id, at)
  {
    hide Inv, Run;
    AccessAfter(s, steps, id);
  }

  /** Saving the same grant again clears its revocation and with it the only
      thing that kept an unrevoked token out. */
  lemma ReapprovalRevives(s: State, id: Id, now: int)
    requires Inv(s) && id in s.t.access.rows && now != 0
    requires s.t.access.rows[id].grantId != 0 && s.t.access.rows[id].revokedAt.None?
             && now < s.t.access.rows[id].expiresAt
    ensures AcceptableAgain(s, id, now)
  {
    hide Inv;
    GrantOfToken(s, id);
    var row := s.t.access.rows[id];
    var grant := s.t.grants.rows[row.grantId];
    var steps := [Approve(row.grantId, grant)];
    var n := Next(s, steps[0]);
    OneStep(s, steps[0]);
    assert n.t.access == s.t.access && n.t.grants.rows[row.grantId].revokedAt.None?
           && n.t.grants.rows[row.grantId].userId == row.userId;
    assert AccessTokenByDigest(n.t, row.digest, now) == Ok(id);
    assert Accepted(Run(s, steps), id, now);
  }

  const LateRun := [
    Approve(9, Grant(2, 3, 5, 6, ["scope"], 7, None)),
    SaveCode(Code(1, 2, 3, 4, ["scope"], 5, 6, 7, 100, None), 11),
    BeginExchange(0, 11, Binding(3, 4, 7), 50),
    CheckGrant(0),
    RevokingConnector(2, 9, 51),
    Issue(0, TokenPair(NewToken(20, 21, 200), NewToken(30, 31, 300)))]

  /** The case arises: a code exchange that checked the grant just before the
      user revoked the connector issues its tokens just after. Revoking the
      connector once more reports success, and the token can come back. */
  lemma LateTokenOutlivesTheRevocation()
    ensures var s := Reach(LateRun);
            && RevokeConnector(s.t, 2, 9, 60).1.Ok?
            && AcceptableAgain(Next(s, RevokingConnector(2, 9, 60)), 20, 60)
  {
    hide AcceptableAgain, Inv, Next, Run, Accepted;
    LateReaches();
    LateStates();
    ConnectorRevocationExact(LateRun, 2, 9, 60, 20);
  }

  ghost function LateExchange(): State {
    Next(Next(Next(Next(Initial, LateRun[0]), LateRun[1]), LateRun[2]), LateRun[3])
  }

  lemma LateExchangeState()
    ensures var s := LateExchange();
            && s.exchanges == map[0 := Checked(1, 9)] && s.t.codes.rows.Keys == {1} && s.t.codes.rows[1].userId == 2
            && s.t.codes.rows[1].id == 1
            && s.t.grants.rows == map[9 := Grant(2, 3, 5, 6, ["scope"], 7, None)]
            && s.t.access == EmptyTables.access && s.t.refresh == EmptyTables.refresh
  {
    var s2 := Next(Next(Initial, LateRun[0]), LateRun[1]);
    assert s2.t.grants.index == map[Owner(2, 3, 5) := 9] && s2.t.codes.index == map[11 := 1];
    var s3 := Next(s2, LateRun[2]);
    assert s3.exchanges == map[0 := CodeConsumed(1)] && s3.t.codes.rows[1].deviceId == 5;
  }

  lemma LateStates()
    ensures var s := Next(Next(LateExchange(), LateRun[4]), LateRun[5]);
            && s.t.grants.rows.Keys == {9} && s.t.grants.rows[9].userId == 2 && s.t.grants.rows[9].revokedAt.Some?
            && s.t.access.rows == map[20 := Access(2, 9, 21, 200, None)]
  {
    hide LateExchange;
    LateExchangeState();
    var s5 := Next(LateExchange(), LateRun[4]);
    assert s5.t.grants.rows == map[9 := Grant(2, 3, 5, 6, ["scope"], 7, Some(51))];
    assert s5.t.access.rows == map[] && s5.t.refresh.rows == map[] && s5.exchanges == map[0 := Checked(1, 9)];
  }

  lemma LateReaches()
    ensures Reach(LateRun) == Next(Next(LateExchange(), LateRun[4]), LateRun[5])
  {
    hide Next;
    assert LateRun == [LateRun[0]] + ([LateRun[1]] + ([LateRun[2]] + ([LateRun[3]] + ([LateRun[4]] + [LateRun[5]]))));
    var s1 := Next(Initial, LateRun[0]);
    var s2 := Next(s1, LateRun[1]);
    var s3 := Next(s2, LateRun[2]);
    var s4 := Next(s3, LateRun[3]);
    Unroll(Initial, LateRun[0], [LateRun[1]] + ([LateRun[2]] + ([LateRun[3]] + ([LateRun[4]] + [LateRun[5]]))));
    Unroll(s1, LateRun[1], [LateRun[2]] + ([LateRun[3]] + ([LateRun[4]] + [LateRun[5]])));
    Unroll(s2, LateRun[2], [LateRun[3]] + ([LateRun[4]] + [LateRun[5]]));
    Unroll(s3, LateRun[3], [LateRun[4]] + [LateRun[5]]);
    Unroll(s4, LateRun[4], [LateRun[5]]);
    OneStep(Next(s4, LateRun[4]), LateRun[5]);
  }

  lemma Unroll(s: State, step: Step, rest: seq<Step>)
    ensures Run(s, [step] + rest) == Run(Next(s, step), rest)
  {
    hide Next;
    assert ([step] + rest)[1..] == rest;
  }

  /** Retargeting moves a grant to its new owner triple and nowhere else: the
      new triple finds it, the old one, if different, finds nothing. */
  lemma RetargetingMoves(steps: seq<Step>, userId: Id, grantId: Id, deviceId: Id, studioId: Id, owned: bool)
    requires SetConnectorTarget(Reach(steps).t, userId, grantId, deviceId, studioId, owned).1.Ok?
    ensures var t := Reach(steps).t;
            var n := SetConnectorTarget(t, userId, grantId, deviceId, studioId, owned).0;
            && grantId in t.grants.rows && grantId in n.grants.rows
            && var was := OwnerOf(t.grants.rows[grantId]);
               var target := Owner(userId, t.grants.rows[grantId].clientId, deviceId);
               && GrantByOwner(n.grants, target) == Ok(grantId) && n.grants.rows[grantId].studioId == studioId
               && (was != target ==> GrantByOwner(n.grants, was) == Err(GrantNotFound))
               && forall o :: o != was && o != target ==> GrantByOwner(n.grants, o) == GrantByOwner(t.grants, o)
  {
    hide Run, FamiliesInv, ExchangesInv, AccessInv, RefreshInv, CodesInv, ValidScopes;
    ReachInv(steps);
  }

  // ---------------------------------------------------------------- codes

  /** A code is consumed at most once: after an exchange began, the code found
      by any digest that leads to its row is refused as used, for ever. */
  lemma CodeIsSingleUse(before: seq<Step>, x: nat, digest: Id, binding: Binding, now: int, after: seq<Step>,
                        digest': Id, binding': Binding, now': int)
    requires ConsumeCode(Reach(before).t.codes, digest, binding, now).Ok? && x !in Reach(before).exchanges && now' != 0
    requires var c := Run(Next(Reach(before), BeginExchange(x, digest, binding, now)), after).t.codes;
             digest' in c.index && c.index[digest'] == Reach(before).t.codes.index[digest]
    ensures var c := Run(Next(Reach(before), BeginExchange(x, digest, binding, now)), after).t.codes;
            ConsumeCode(c, digest', binding', now') == Err(CodeUsed)
  {
    hide Inv, Run, Later;
    ReachInv(before);
    var s := Reach(before);
    NextStep(s, BeginExchange(x, digest, binding, now));
    CodeAfter(Next(s, BeginExchange(x, digest, binding, now)), after, s.t.codes.index[digest]);
  }

  /** No two exchanges are for the same code, so a code yields at most one
      token family. */
  lemma OneExchangePerCode(steps: seq<Step>, x: nat, y: nat)
    requires x in Reach(steps).exchanges && y in Reach(steps).exchanges
    requires Reach(steps).exchanges[x].code == Reach(steps).exchanges[y].code
    ensures x == y
  {
    hide FamiliesInv, TablesInv, Run;
    ReachInv(steps);
  }
}
