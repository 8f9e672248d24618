/** The pending-id table of the MCP child process. A response is let through
    only while its id is pending. */
module McpChild {
  import opened Wire

  type PendingCalls = map<JsonId, int>

  predicate HasPending(p: PendingCalls, k: JsonId) {
    k in p && p[k] > 0
  }

  function Added(p: PendingCalls, k: JsonId): (r: PendingCalls) {
    p[k := (if k in p then p[k] else 0) + 1]
  }

  function Removed(p: PendingCalls, k: JsonId): (r: PendingCalls) {
    if k !in p || p[k] <= 1 then p - {k} else p[k := p[k] - 1]
  }

  ghost predicate Positive(p: PendingCalls) {
    forall k :: k in p ==> p[k] > 0
  }

  function Count(p: PendingCalls, k: JsonId): int {
    if k in p then p[k] else 0
  }

  /** Only the named id's count moves, by exactly one, and no zero counts are
      stored; a removal undoes an addition. */
  lemma AddRemove(p: PendingCalls, k: JsonId)
    requires Positive(p)
    ensures Positive(Added(p, k)) && Positive(Removed(p, k))
    ensures forall j :: Count(Added(p, k), j) == Count(p, j) + (if j == k then 1 else 0)
    ensures forall j :: Count(Removed(p, k), j) == Count(p, j) - (if j == k && HasPending(p, k) then 1 else 0)
    ensures Removed(Added(p, k), k) == p
  {
    var q := Removed(Added(p, k), k);
    assert q.Keys == p.Keys;
    assert forall j :: j in p ==> q[j] == p[j];
  }
}
