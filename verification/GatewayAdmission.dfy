/** In-flight reservations of the MCP gateway: one slot under the grant's key and
    one under the user's, or none. */
module GatewayAdmission {
  import opened Slots
  import opened FixedWindow

  function GrantRateKey(grantId: string): Key {
    "grant:" + grantId
  }

  function UserRateKey(userId: string): Key {
    "user:" + userId
  }

  /** The two namespaces never meet, and within one the id is the key. */
  lemma NamespacesApart(grantId: string, userId: string, other: string)
    ensures GrantRateKey(grantId) != UserRateKey(userId)
    ensures GrantRateKey(grantId) == GrantRateKey(other) ==> grantId == other
    ensures UserRateKey(userId) == UserRateKey(other) ==> userId == other
  {
    assert GrantRateKey(grantId)[0] == 'g' && UserRateKey(userId)[0] == 'u';
    assert GrantRateKey(grantId)[6..] == grantId && GrantRateKey(other)[6..] == other;
    assert UserRateKey(userId)[5..] == userId && UserRateKey(other)[5..] == other;
  }

  datatype Body = ReadFailure | TooLarge | Read(toolCall: bool)

  /** Whether the request goes on, and whether it holds slots to release. */
  datatype Reservation = Refused | Unslotted | Slotted

  /** A release undoes an acquisition exactly, because no zero is ever stored. */
  lemma TakeThenReturn(inflight: map<Key, int>, k: Key)
    requires forall j :: j in inflight ==> inflight[j] > 0
    ensures Returned(Taken(inflight, k), k) == inflight
  {
  }

  /** Whether there is a slot for each key: neither holds all it may, and every
      key not tracked by its rate fits under the cap, the grant's coming first. */
  predicate BothFree(c: Config, l: Limiter, grant: Key, user: Key) {
    && Held(l.inflight, grant) < c.maxInFlight && Held(l.inflight, user) < c.maxInFlight
    && (grant in l.rate || |l.rate| + |l.inflight| < c.maxKeys)
    && (user in l.rate || |l.rate| + |l.inflight| + (if grant in l.inflight then 0 else 1) < c.maxKeys)
  }

  /** One acquisition after the other succeeds exactly then. */
  lemma BothFreeExact(c: Config, l: Limiter, grant: Key, user: Key)
    requires grant != user && forall j :: j in l.inflight ==> l.inflight[j] > 0
    ensures var (n, ok) := AcquireResult(c, l, grant);
            BothFree(c, l, grant, user) <==> ok && AcquireResult(c, n, user).1
  {
    assert Taken(l.inflight, grant).Keys == l.inflight.Keys + {grant};
  }

  method ReserveInFlight(l: MCPLimiter, body: Body, grantId: string, userId: string) returns (r: Reservation)
    requires forall j :: j in l.inflight ==> l.inflight[j] > 0
    modifies l`inflight
    ensures forall j :: j in l.inflight ==> l.inflight[j] > 0
    ensures r.Slotted? <==>
              body == Read(true) && BothFree(l.config, old(l.View()), GrantRateKey(grantId), UserRateKey(userId))
    ensures !r.Slotted? ==> l.inflight == old(l.inflight)
    ensures r.Slotted? ==> l.inflight == Taken(Taken(old(l.inflight), GrantRateKey(grantId)), UserRateKey(userId))
    ensures r.Slotted? ==> forall j :: Held(l.inflight, j) == Held(old(l.inflight), j)
                                         + (if j == GrantRateKey(grantId) || j == UserRateKey(userId) then 1 else 0)
    ensures r.Unslotted? <==> body == ReadFailure || body == Read(false)
    ensures body.TooLarge? ==> r.Refused?
  {
    if body.ReadFailure? {
      return Unslotted;
    }
    if body.TooLarge? {
      return Refused;
    }
    if !body.toolCall {
      return Unslotted;
    }
    NamespacesApart(grantId, userId, "");
    TakeThenReturn(l.inflight, GrantRateKey(grantId));
    var ok := l.Acquire(GrantRateKey(grantId));
    if !ok {
      return Refused;
    }
    ok := l.Acquire(UserRateKey(userId));
    if !ok {
      l.Release(GrantRateKey(grantId));
      return Refused;
    }
    r := Slotted;
  }

  /** The release handed out with both slots. */
  method ReleaseBoth(l: MCPLimiter, grantId: string, userId: string)
    requires GrantRateKey(grantId) in l.inflight && UserRateKey(userId) in l.inflight
    requires forall j :: j in l.inflight ==> l.inflight[j] > 0
    modifies l`inflight
    ensures forall j :: Held(l.inflight, j) == Held(old(l.inflight), j)
                          - (if j == GrantRateKey(grantId) || j == UserRateKey(userId) then 1 else 0)
    ensures forall j :: j in l.inflight ==> l.inflight[j] > 0
  {
    NamespacesApart(grantId, userId, "");
    l.Release(GrantRateKey(grantId));
    l.Release(UserRateKey(userId));
  }
}
