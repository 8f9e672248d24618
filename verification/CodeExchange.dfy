/** The life of an authorization code: who can exchange it, until when, and what
    comes of the exchange. */
module CodeExchange {
  import opened Common
  import opened OAuthTables
  import opened Scopes
  import opened TokenFamilies
  import opened TokenRuns
  import opened TokenTheorems

  /** A code is stored exactly if it is complete and its id and digest are new;
      its digest then finds it, as it was given and unconsumed. */
  lemma SavingExact(steps: seq<Step>, code: Code, digest: Id)
    ensures var c, n := Reach(steps).t.codes, Next(Reach(steps), SaveCode(code, digest)).t.codes;
            var unused := code.id !in c.rows && digest !in c.index;
            var complete := code.id != 0 && code.userId != 0 && code.clientId != 0 && code.expiresAt != 0
                            && ValidScopes(code.scopes);
            if unused && complete
            then n == Table(c.rows[code.id := code.(consumedAt := None)], c.index[digest := code.id])
            else n == c
  {
    hide ValidScopes, Reach;
  }

  /** An exchange begins exactly if the presented digest finds a code that is
      neither consumed nor expired and was issued to this very client, for this
      redirect URI and resource. Otherwise nothing changes, the code included. */
  lemma BeginExact(steps: seq<Step>, x: nat, digest: Id, binding: Binding, now: int)
    requires x !in Reach(steps).exchanges
    ensures var s := Reach(steps);
            var n := Next(s, BeginExchange(x, digest, binding, now));
            && (x in n.exchanges <==>
                  && digest in s.t.codes.index && s.t.codes.index[digest] in s.t.codes.rows
                  && var row := s.t.codes.rows[s.t.codes.index[digest]];
                     && row.consumedAt.None? && now != 0 && now < row.expiresAt
                     && row.clientId == binding.clientId && row.redirectUri == binding.redirectUri
                     && row.resource == binding.resource)
            && (x !in n.exchanges ==> n == s)
            && (x in n.exchanges ==>
                  var id := s.t.codes.index[digest];
                  && n.exchanges == s.exchanges[x := CodeConsumed(id)]
                  && n.t == s.t.(codes := n.t.codes) && n.t.codes.index == s.t.codes.index
                  && n.t.codes.rows == s.t.codes.rows[id := s.t.codes.rows[id].(consumedAt := Some(now))])
  {
    hide Reach, GrantsInv, AccessInv, RefreshInv, FamiliesInv, ExchangesInv;
    ReachInv(steps);
  }

  /** Why an exchange does not begin: a code used before says so before its expiry
      is looked at, and both before the binding is. */
  lemma RefusalExact(steps: seq<Step>, id: Id, binding: Binding, digest: Id, now: int)
    requires var c := Reach(steps).t.codes; now != 0 && digest in c.index && c.index[digest] == id
    ensures var c := Reach(steps).t.codes;
            && id in c.rows
            && var r := ConsumeCode(c, digest, binding, now);
               var row := c.rows[id];
               && (r == Err(CodeUsed) <==> row.consumedAt.Some?)
               && (r == Err(CodeExpired) <==> row.consumedAt.None? && now >= row.expiresAt)
               && (r == Err(CodeBinding) <==>
                     row.consumedAt.None? && now < row.expiresAt
                     && !(row.clientId == binding.clientId && row.redirectUri == binding.redirectUri
                          && row.resource == binding.resource))
  {
    hide Reach, GrantsInv, AccessInv, RefreshInv, FamiliesInv, ExchangesInv;
    ReachInv(steps);
  }

  /** So a wrong client, redirect URI or resource spoils nothing: the right one
      begins its exchange afterwards as if nobody had tried. */
  lemma WrongBindingSpoilsNothing(steps: seq<Step>, x: nat, digest: Id, wrong: Binding, at: int, y: nat, right: Binding,
                                  now: int)
    requires var s := Reach(steps); x !in s.exchanges && y !in s.exchanges
    requires var c := Reach(steps).t.codes;
             && digest in c.index && c.index[digest] in c.rows
             && var row := c.rows[c.index[digest]]; wrong != Binding(row.clientId, row.redirectUri, row.resource)
    ensures var m := Next(Reach(steps), BeginExchange(x, digest, wrong, at));
            Next(m, BeginExchange(y, digest, right, now)) == Next(Reach(steps), BeginExchange(y, digest, right, now))
  {
    hide Reach, Next;
    BeginExact(steps, x, digest, wrong, at);
  }

  /** The grant check lets an exchange through exactly if the code's user holds a
      live grant for its client and device. */
  lemma CheckExact(steps: seq<Step>, x: nat)
    requires x in Reach(steps).exchanges && Reach(steps).exchanges[x].CodeConsumed?
    ensures var s := Reach(steps);
            var n := Next(s, CheckGrant(x));
            && s.exchanges[x].code in s.t.codes.rows
            && var code := s.t.codes.rows[s.exchanges[x].code];
               && n.t == s.t && x in n.exchanges && n.exchanges == s.exchanges[x := n.exchanges[x]]
               && (n.exchanges[x].Checked? || n.exchanges[x] == Abandoned(s.exchanges[x].code))
               && (forall g :: n.exchanges[x] == Checked(s.exchanges[x].code, g) <==>
                     g in s.t.grants.rows && s.t.grants.rows[g].revokedAt.None?
                     && OwnerOf(s.t.grants.rows[g]) == Owner(code.userId, code.clientId, code.deviceId))
               && (n.exchanges[x].Checked? ==> n.exchanges[x].code == s.exchanges[x].code)
  {
    hide Reach, AccessInv, RefreshInv, FamiliesInv, ValidScopes;
    ReachInv(steps);
  }

  /** Past the check the tokens are issued exactly if the new pair is complete and
      unused, whatever happened to the grant meanwhile; they are for the code's
      user and the grant that was checked, and the refresh token is a new root. */
  lemma IssueExact(steps: seq<Step>, x: nat, pair: TokenPair)
    requires x in Reach(steps).exchanges && Reach(steps).exchanges[x].Checked?
    ensures var s := Reach(steps);
            var n := Next(s, Issue(x, pair));
            var code, grantId := s.exchanges[x].code, s.exchanges[x].grantId;
            && code in s.t.codes.rows && x in n.exchanges
            && (n.exchanges[x].Issued? <==>
                  && pair.access.id != 0 && pair.access.expiresAt != 0
                  && pair.refresh.id != 0 && pair.refresh.expiresAt != 0
                  && FreshPair(s.t, pair) && GrantExists(s.t.grants, grantId, s.t.codes.rows[code].userId)
                  && s.t.codes.rows[code].userId != 0 && grantId != 0)
            && (!n.exchanges[x].Issued? ==> n.t == s.t && n.exchanges[x] == Abandoned(code))
            && (n.exchanges[x].Issued? ==>
                  && pair.access.id in n.t.access.rows && pair.refresh.id in n.t.refresh.rows
                  && n.t.access.rows[pair.access.id] ==
                       Access(s.t.codes.rows[code].userId, grantId, pair.access.digest, pair.access.expiresAt, None)
                  && n.t.refresh.rows[pair.refresh.id] ==
                       Refresh(s.t.codes.rows[code].userId, grantId, pair.refresh.id, 0, pair.refresh.digest,
                               pair.refresh.expiresAt, None, None))
  {
    hide Reach, GrantsInv, AccessInv, RefreshInv, FamiliesInv, ValidScopes;
    ReachInv(steps);
  }

  ghost predicate IssuedRoot(exchanges: map<nat, Exchange>, x: nat, family: Id) {
    x in exchanges && exchanges[x].Issued? && exchanges[x].refreshId == family
  }

  ghost predicate IssuedInv(s: State) {
    forall f :: f in s.chains ==> exists x :: IssuedRoot(s.exchanges, x, f)
  }

  /** An exchange that has issued its tokens is over. */
  lemma IssuedStays(s: State, step: Step, x: nat, family: Id)
    requires IssuedRoot(s.exchanges, x, family)
    ensures IssuedRoot(Next(s, step).exchanges, x, family)
  {
    hide InsertPair, ConsumeCode, SaveGrant, InsertCode, Rotate;
  }

  lemma NewFamilies(s: State, step: Step, family: Id)
    requires family in Next(s, step).chains && family !in s.chains
    ensures step.Issue? && IssuedRoot(Next(s, step).exchanges, step.x, family)
  {
    hide InsertPair, ConsumeCode, SaveGrant, InsertCode, Rotate;
  }

  lemma {:induction false} IssuedRun(s: State, steps: seq<Step>)
    requires IssuedInv(s)
    ensures IssuedInv(Run(s, steps))
    decreases |steps|
  {
    hide Next, IssuedRoot;
    if steps != [] {
      forall f | f in Next(s, steps[0]).chains ensures exists x :: IssuedRoot(Next(s, steps[0]).exchanges, x, f) {
        if f in s.chains {
          var x :| IssuedRoot(s.exchanges, x, f);
          IssuedStays(s, steps[0], x, f);
        } else {
          NewFamilies(s, steps[0], f);
        }
      }
      IssuedRun(Next(s, steps[0]), steps[1..]);
    }
  }

  /** Every refresh token belongs to the family that an exchange, the only one of
      its code, issued: a code yields at most one family. */
  lemma FamiliesComeFromCodes(steps: seq<Step>, id: Id)
    requires id in Reach(steps).t.refresh.rows
    ensures var s := Reach(steps);
            exists x :: IssuedRoot(s.exchanges, x, s.t.refresh.rows[id].familyId)
                        && forall y :: y in s.exchanges && s.exchanges[y].code == s.exchanges[x].code ==> y == x
  {
    hide Inv, Run, IssuedInv;
    ReachInv(steps);
    var s := Reach(steps);
    FamilyOf(s, id);
    assert IssuedInv(Initial) by { NoFamilies(); }
    IssuedRun(Initial, steps);
    var x := IssuerOf(s, s.t.refresh.rows[id].familyId);
    forall y | y in s.exchanges && s.exchanges[y].code == s.exchanges[x].code ensures y == x {
      OneExchangePerCode(steps, x, y);
    }
  }

  lemma NoFamilies()
    ensures IssuedInv(Initial)
  {
  }

  lemma IssuerOf(s: State, family: Id) returns (x: nat)
    requires IssuedInv(s) && family in s.chains
    ensures IssuedRoot(s.exchanges, x, family)
  {
    x :| IssuedRoot(s.exchanges, x, family);
  }

  /** Retargeting is granted exactly to the owner of a live grant, for a device
      and Studio session of their own, unless another grant is there already. */
  lemma RetargetExact(steps: seq<Step>, userId: Id, grantId: Id, deviceId: Id, studioId: Id, owned: bool)
    ensures var s := Reach(steps);
            var r := SetConnectorTarget(s.t, userId, grantId, deviceId, studioId, owned);
            && (r.1.Ok? <==>
                  && userId != 0 && deviceId != 0 && owned && grantId != 0
                  && grantId in s.t.grants.rows && s.t.grants.rows[grantId].userId == userId
                  && s.t.grants.rows[grantId].revokedAt.None?
                  && forall g :: g in s.t.grants.rows
                                 && OwnerOf(s.t.grants.rows[g])
                                    == Owner(userId, s.t.grants.rows[grantId].clientId, deviceId)
                                 ==> g == grantId)
            && (r.1.Err? ==> r.0 == s.t)
            && (r.1 == Err(InvalidArgument) <==> userId == 0 || grantId == 0 || deviceId == 0)
            && (r.1.Ok? ==> forall g :: g in s.t.grants.rows ==>
                              && g in r.0.grants.rows
                              && r.0.grants.rows[g] == if g == grantId
                                                       then s.t.grants.rows[g].(deviceId := deviceId,
                                                                                studioId := studioId)
                                                       else s.t.grants.rows[g])
  {
    hide Reach, AccessInv, RefreshInv, FamiliesInv, ExchangesInv, CodesInv, ValidScopes;
    ReachInv(steps);
  }

  ghost predicate Owned(g: Grants, owner: Owner, id: Id) {
    id in g.rows && OwnerOf(g.rows[id]) == owner
  }

  /** Saving a grant changes one row: that of the given id, else that of the same
      user, client and device, else a new one. It ends up live, with the new
      scopes, resource and Studio session; no other grant is touched. An id in
      use while the owner holds no grant fails, as does an incomplete grant. */
  lemma ApprovalExact(steps: seq<Step>, grantId: Id, row: Grant, mine: Id)
    requires var g := Reach(steps).t.grants;
             Owned(g, OwnerOf(row), mine) || forall o :: !Owned(g, OwnerOf(row), o)
    ensures SavedAs(Reach(steps).t.grants, Next(Reach(steps), Approve(grantId, row)).t.grants, grantId, row, mine)
  {
    hide Reach, ValidScopes, SaveGrant, SavedAs;
    ReachInv(steps);
    var s := Reach(steps);
    IndexIsOwner(s, OwnerOf(row), mine);
    hide Inv;
    SavedRows(s.t.grants, grantId, row, mine);
  }

  ghost predicate SavedAs(g: Grants, n: Grants, grantId: Id, row: Grant, mine: Id) {
    var held := Owned(g, OwnerOf(row), mine);
    var complete := grantId != 0 && row.userId != 0 && row.clientId != 0 && row.deviceId != 0
                    && ValidScopes(row.scopes);
    if !complete || (grantId in g.rows && !held) then n == g
    else
      var id := if held && grantId !in g.rows then mine else grantId;
      n.rows == g.rows[id := (if id in g.rows then g.rows[id] else row).(
        scopes := row.scopes, resource := row.resource, studioId := row.studioId, revokedAt := None)]
  }

  lemma SavedRows(g: Grants, grantId: Id, row: Grant, mine: Id)
    requires Owned(g, OwnerOf(row), mine) ==> OwnerOf(row) in g.index && g.index[OwnerOf(row)] == mine
    requires !Owned(g, OwnerOf(row), mine) ==> OwnerOf(row) !in g.index
    ensures var saved := SaveGrant(g, grantId, row);
            SavedAs(g, if saved.Ok? then saved.value.0 else g, grantId, row, mine)
  {
    hide ValidScopes;
  }

  lemma IndexIsOwner(s: State, owner: Owner, mine: Id)
    requires Inv(s) && (Owned(s.t.grants, owner, mine) || forall o :: !Owned(s.t.grants, owner, o))
    ensures Owned(s.t.grants, owner, mine) ==> owner in s.t.grants.index && s.t.grants.index[owner] == mine
    ensures !Owned(s.t.grants, owner, mine) ==> owner !in s.t.grants.index
  {
    hide AccessInv, RefreshInv, FamiliesInv, ExchangesInv, CodesInv, ValidScopes;
    if owner in s.t.grants.index { assert Owned(s.t.grants, owner, s.t.grants.index[owner]); }
  }
}
