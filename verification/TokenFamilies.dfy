/** The shape of refresh-token families, transaction by transaction. */
module TokenFamilies {
  import opened OAuthTables

  /** One link of a family's chain: its parent is the link before it, it is used
      unless it is the tip, and user, grant and revocation are the root's. */
  ghost predicate Link(rows: map<Id, Refresh>, chain: seq<Id>, i: nat)
    requires i < |chain|
  {
    && chain[i] in rows && chain[0] in rows
    && var row, root := rows[chain[i]], rows[chain[0]];
       && row.familyId == chain[0]
       && row.parentId == (if i == 0 then 0 else chain[i - 1])
       && (row.usedAt.Some? <==> i < |chain| - 1)
       && row.userId == root.userId && row.grantId == root.grantId
       && row.revokedAt.Some? == root.revokedAt.Some?
  }

  ghost predicate Chain(rows: map<Id, Refresh>, rank: map<Id, nat>, family: Id, chain: seq<Id>) {
    && |chain| > 0 && chain[0] == family
    && forall i :: 0 <= i < |chain| ==> chain[i] in rank && rank[chain[i]] == i && Link(rows, chain, i)
  }

  /** Every refresh token sits in its family's chain, at its own rank. */
  ghost predicate Ranked(rows: map<Id, Refresh>, rank: map<Id, nat>, chains: map<Id, seq<Id>>) {
    && rank.Keys == rows.Keys
    && forall id :: id in rows ==>
         && rows[id].familyId in chains
         && rank[id] < |chains[rows[id].familyId]| && chains[rows[id].familyId][rank[id]] == id
  }

  ghost predicate FamiliesInv(rows: map<Id, Refresh>, rank: map<Id, nat>, chains: map<Id, seq<Id>>) {
    && Ranked(rows, rank, chains)
    && forall f :: f in chains ==> Chain(rows, rank, f, chains[f])
  }

  /** Rows changed only in when they were revoked, family by family. */
  ghost predicate SameButRevoked(was: map<Id, Refresh>, rows: map<Id, Refresh>) {
    && rows.Keys == was.Keys
    && (forall id :: id in rows ==> rows[id] == was[id].(revokedAt := rows[id].revokedAt))
    && (forall id :: id in was && was[id].revokedAt.Some? ==> rows[id].revokedAt == was[id].revokedAt)
  }

  ghost predicate UniformlyRevoked(was: map<Id, Refresh>, rows: map<Id, Refresh>) {
    forall id, other :: id in rows && other in rows && id in was && other in was
                        && was[id].familyId == was[other].familyId && was[id].grantId == was[other].grantId
                        && was[id].userId == was[other].userId && was[id].revokedAt.Some? == was[other].revokedAt.Some?
                        ==> rows[id].revokedAt.Some? == rows[other].revokedAt.Some?
  }

  lemma RevocationKeepsChain(was: map<Id, Refresh>, rows: map<Id, Refresh>, rank: map<Id, nat>, f: Id, chain: seq<Id>)
    requires Chain(was, rank, f, chain) && SameButRevoked(was, rows) && UniformlyRevoked(was, rows)
    ensures Chain(rows, rank, f, chain)
  {
    forall i | 0 <= i < |chain| ensures chain[i] in rank && rank[chain[i]] == i && Link(rows, chain, i) {
      assert Link(was, chain, i) && Link(was, chain, 0);
      assert rows[chain[i]] == was[chain[i]].(revokedAt := rows[chain[i]].revokedAt);
    }
  }

  lemma RevocationKeepsFamilies(was: map<Id, Refresh>, rows: map<Id, Refresh>, rank: map<Id, nat>,
                                chains: map<Id, seq<Id>>)
    requires FamiliesInv(was, rank, chains) && SameButRevoked(was, rows) && UniformlyRevoked(was, rows)
    ensures FamiliesInv(rows, rank, chains)
  {
    hide Chain, UniformlyRevoked;
    forall f | f in chains ensures Chain(rows, rank, f, chains[f]) {
      RevocationKeepsChain(was, rows, rank, f, chains[f]);
    }
  }

  lemma RevokedByGrantUniform(r: RefreshTokens, grantId: Id, userId: Id, now: int)
    ensures SameButRevoked(r.rows, RevokedByGrant(r, grantId, userId, now).rows)
    ensures UniformlyRevoked(r.rows, RevokedByGrant(r, grantId, userId, now).rows)
  {
  }

  lemma RevokedFamilyUniform(r: RefreshTokens, familyId: Id, userId: Id, now: int)
    ensures SameButRevoked(r.rows, RevokedFamily(r, familyId, userId, now).rows)
    ensures UniformlyRevoked(r.rows, RevokedFamily(r, familyId, userId, now).rows)
  {
  }

  // ------------------------------------------------------------ new rows

  lemma NewRoot(rows: map<Id, Refresh>, rank: map<Id, nat>, chains: map<Id, seq<Id>>, id: Id, row: Refresh)
    requires FamiliesInv(rows, rank, chains) && id !in rows
    requires row.familyId == id && row.parentId == 0 && row.usedAt.None?
    ensures id !in chains
    ensures FamiliesInv(rows[id := row], rank[id := 0], chains[id := [id]])
  {
    var rows', rank', chains' := rows[id := row], rank[id := 0], chains[id := [id]];
    assert id !in chains;
    forall f | f in chains' ensures Chain(rows', rank', f, chains'[f]) {
      if f == id {
        assert Link(rows', [id], 0);
      } else {
        ChainKept(rows, rank, f, chains[f], id, row, 0);
      }
    }
    forall k | k in rows' ensures rows'[k].familyId in chains' && rank'[k] < |chains'[rows'[k].familyId]|
      ensures chains'[rows'[k].familyId][rank'[k]] == k {
      if k != id { assert rows[k].familyId in chains; }
    }
  }

  /** A row added elsewhere leaves a chain alone. */
  lemma ChainKept(rows: map<Id, Refresh>, rank: map<Id, nat>, f: Id, chain: seq<Id>, id: Id, row: Refresh, n: nat)
    requires Chain(rows, rank, f, chain) && id !in rows
    ensures Chain(rows[id := row], rank[id := n], f, chain)
  {
    forall i | 0 <= i < |chain|
      ensures chain[i] in rank[id := n] && rank[id := n][chain[i]] == i && Link(rows[id := row], chain, i)
    {
      assert Link(rows, chain, i) && Link(rows, chain, 0);
    }
  }

  /** Rotation: the tip is used and the new token becomes the tip. */
  lemma Extended(rows: map<Id, Refresh>, rank: map<Id, nat>, chains: map<Id, seq<Id>>, tip: Id, used: Refresh, id: Id,
                 row: Refresh)
    requires FamiliesInv(rows, rank, chains) && id !in rows && tip in rows
    requires rows[tip].usedAt.None? && rows[tip].revokedAt.None? && used.usedAt.Some?
             && used == rows[tip].(usedAt := used.usedAt)
    requires row.familyId == used.familyId && row.parentId == tip && row.usedAt.None? && row.revokedAt.None?
    requires row.userId == used.userId && row.grantId == used.grantId
    ensures var f := used.familyId;
            && f in chains && rank[tip] == |chains[f]| - 1
            && FamiliesInv(rows[tip := used][id := row], rank[id := |chains[f]|], chains[f := chains[f] + [id]])
  {
    hide Chain;
    var f := used.familyId;
    var chain := chains[f];
    TipIsLast(rows, rank, f, chain, tip);
    var rows', rank', chains' := rows[tip := used][id := row], rank[id := |chain|], chains[f := chain + [id]];
    GrownChain(rows, rank, f, chain, tip, used, id, row);
    forall g | g in chains' ensures Chain(rows', rank', g, chains'[g]) {
      if g != f { OtherChain(rows, rank, g, chains[g], tip, used, id, row, |chain|); }
    }
    ExtendedRanks(rows, rank, chains, tip, used, id, row);
  }

  lemma TipIsLast(rows: map<Id, Refresh>, rank: map<Id, nat>, f: Id, chain: seq<Id>, tip: Id)
    requires Chain(rows, rank, f, chain) && tip in rows && tip in rank && rank[tip] < |chain| && chain[rank[tip]] == tip
    requires rows[tip].usedAt.None?
    ensures rank[tip] == |chain| - 1
  {
    assert Link(rows, chain, rank[tip]);
  }

  lemma ExtendedRanks(rows: map<Id, Refresh>, rank: map<Id, nat>, chains: map<Id, seq<Id>>, tip: Id, used: Refresh,
                      id: Id, row: Refresh)
    requires Ranked(rows, rank, chains) && id !in rows && tip in rows && used == rows[tip].(usedAt := used.usedAt)
    requires row.familyId == used.familyId
    ensures var f := used.familyId;
            Ranked(rows[tip := used][id := row], rank[id := |chains[f]|], chains[f := chains[f] + [id]])
  {
    var f := used.familyId;
    var rows', rank', chains' := rows[tip := used][id := row], rank[id := |chains[f]|], chains[f := chains[f] + [id]];
    forall k | k in rows' ensures rows'[k].familyId in chains' && rank'[k] < |chains'[rows'[k].familyId]|
      ensures chains'[rows'[k].familyId][rank'[k]] == k {
      if k != id { assert rows'[k].familyId == rows[k].familyId && rank'[k] == rank[k]; }
    }
  }

  lemma GrownChain(rows: map<Id, Refresh>, rank: map<Id, nat>, f: Id, chain: seq<Id>, tip: Id, used: Refresh, id: Id,
                   row: Refresh)
    requires Chain(rows, rank, f, chain) && id !in rows && tip == chain[|chain| - 1] && tip in rows
    requires rows[tip].revokedAt.None? && used.usedAt.Some? && used == rows[tip].(usedAt := used.usedAt)
    requires row.familyId == f && row.parentId == tip && row.usedAt.None? && row.revokedAt.None?
    requires row.userId == used.userId && row.grantId == used.grantId
    ensures Chain(rows[tip := used][id := row], rank[id := |chain|], f, chain + [id])
  {
    var rows', rank', grown := rows[tip := used][id := row], rank[id := |chain|], chain + [id];
    assert Link(rows, chain, 0) && Link(rows, chain, |chain| - 1);
    forall i | 0 <= i < |grown| ensures grown[i] in rank' && rank'[grown[i]] == i && Link(rows', grown, i) {
      if i < |chain| {
        assert Link(rows, chain, i) && grown[i] == chain[i];
        if i > 0 { assert grown[i - 1] == chain[i - 1]; }
        assert chain[i] == tip ==> i == |chain| - 1;
      }
    }
  }

  lemma OtherChain(rows: map<Id, Refresh>, rank: map<Id, nat>, g: Id, chain: seq<Id>, tip: Id, used: Refresh, id: Id,
                   row: Refresh, n: nat)
    requires Chain(rows, rank, g, chain) && id !in rows && tip in rows && rows[tip].familyId != g
    ensures Chain(rows[tip := used][id := row], rank[id := n], g, chain)
  {
    var rows', rank' := rows[tip := used][id := row], rank[id := n];
    forall i | 0 <= i < |chain| ensures chain[i] in rank' && rank'[chain[i]] == i && Link(rows', chain, i) {
      assert Link(rows, chain, i) && Link(rows, chain, 0);
    }
  }
}
