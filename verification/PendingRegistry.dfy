/** The gateway's correlation registry with its three indexes, as it is kept in
    memory: the inner maps of the session and device indexes are shared objects
    that CancelSession and FailDevice detach and then walk without the lock. */
module PendingRegistry {
  import opened Common
  import opened Wire

  datatype PendingError = InvalidRequest | TooManyPending | IdsExhausted | UnknownCorrelation

  datatype Cause = DeadlineExceeded | Cancelled | DeviceFailed

  datatype Outcome = Response(payload: Frame) | Failure(cause: Cause)

  /** `deviceId` is empty until the request is associated with a device. */
  datatype Entry = Entry(sessionId: string, originalId: JsonId, deviceId: string)

  /** The abstract registry. An index is a partial function from live requests
      to keys; how it is laid out as nested maps is `IndexInv`'s business. */
  datatype Registry = Registry(
    entries: map<GatewayId, Entry>,
    bySession: map<GatewayId, string>,
    byDevice: map<GatewayId, string>)

  const Empty := Registry(map[], map[], map[])

  function MembersOf(want: map<GatewayId, string>, k: string): set<GatewayId> {
    set g | g in want && want[g] == k
  }

  function Registered(r: Registry, g: GatewayId, sessionId: string, originalId: JsonId): Registry {
    r.(entries := r.entries[g := Entry(sessionId, originalId, "")], bySession := r.bySession[g := sessionId])
  }

  function Associated(r: Registry, g: GatewayId, deviceId: string): Registry
    requires g in r.entries
  {
    r.(entries := r.entries[g := r.entries[g].(deviceId := deviceId)], byDevice := r.byDevice[g := deviceId])
  }

  /** removeLocked, for a whole set at once. */
  function Removed(r: Registry, gone: set<GatewayId>): Registry {
    Registry(r.entries - gone, r.bySession - gone, r.byDevice - gone)
  }

  function DetachedSession(r: Registry, sessionId: string): Registry {
    r.(bySession := r.bySession - MembersOf(r.bySession, sessionId))
  }

  function DetachedDevice(r: Registry, deviceId: string): Registry {
    r.(byDevice := r.byDevice - MembersOf(r.byDevice, deviceId))
  }

  /** What holds at every unlock: the indexes name live requests only, each
      under the key its entry records. */
  ghost predicate Consistent(r: Registry) {
    && (forall g :: g in r.bySession ==> g in r.entries && r.entries[g].sessionId == r.bySession[g])
    && (forall g :: g in r.byDevice ==> g in r.entries && r.entries[g].deviceId == r.byDevice[g] && r.byDevice[g] != "")
  }

  /** The indexes agree with the entries exactly. */
  ghost predicate Agree(r: Registry) {
    && (forall g :: g in r.entries ==> g in r.bySession && r.bySession[g] == r.entries[g].sessionId)
    && (forall g :: g in r.entries && r.entries[g].deviceId != "" ==>
          g in r.byDevice && r.byDevice[g] == r.entries[g].deviceId)
    && r.bySession.Keys <= r.entries.Keys
    && r.byDevice.Keys <= r.entries.Keys
    && (forall g :: g in r.byDevice ==> r.byDevice[g] != "")
  }

  // ------------------------------------------------------------ in memory

  /** One inner map of an index. */
  class IndexSet {
    var members: set<GatewayId>

    constructor ()
      ensures members == {}
    {
      members := {};
    }
  }

  /** The nested maps hold exactly the pairs of `want`: each key its own object,
      no empty object, nothing missing. */
  ghost predicate IndexInv(sets: map<string, IndexSet>, want: map<GatewayId, string>)
    reads sets.Values
  {
    && (forall a, b :: a in sets && b in sets && a != b ==> sets[a] != sets[b])
    && (forall k :: k in sets ==> sets[k].members == MembersOf(want, k) && sets[k].members != {})
    && (forall g :: g in want ==> want[g] in sets)
  }

  /** A two-level index: a key's inner set is an object of its own, created with
      its first member and dropped with its last. */
  class Index {
    var sets: map<string, IndexSet>
    ghost var want: map<GatewayId, string>
    ghost var Repr: set<object>

    ghost predicate Valid()
      reads this, Repr
    {
      this in Repr && (forall k :: k in sets ==> sets[k] in Repr) && IndexInv(sets, want)
    }

    constructor ()
      ensures Valid() && fresh(Repr) && sets == map[] && want == map[]
    {
      sets, want, Repr := map[], map[], {this};
    }

    method Add(k: string, g: GatewayId)
      requires Valid() && (g in want ==> want[g] == k)
      modifies Repr
      ensures Valid() && want == old(want)[g := k] && fresh(Repr - old(Repr))
    {
      if k !in sets {
        var cell := new IndexSet();
        sets := sets[k := cell];
        Repr := Repr + {cell};
        assert MembersOf(want, k) == {};
      }
      sets[k].members := sets[k].members + {g};
      want := want[g := k];
      forall j | j in sets
        ensures sets[j].members == MembersOf(want, j) && sets[j].members != {}
      {
      }
    }

    method Remove(k: string, g: GatewayId)
      requires Valid() && (g in want ==> want[g] == k)
      modifies Repr
      ensures Valid() && want == old(want) - {g} && Repr == old(Repr)
    {
      if k in sets {
        var cell := sets[k];
        cell.members := cell.members - {g};
        assert MembersOf(want - {g}, k) == MembersOf(want, k) - {g};
        if cell.members == {} {
          sets := sets - {k};
        }
      }
      want := want - {g};
    }

    /** Taking a key out hands over its object: the index no longer reaches it,
        so nothing can change it through the index again. */
    method Detach(k: string) returns (cell: IndexSet?)
      requires Valid()
      modifies Repr
      ensures Valid() && want == old(want) - MembersOf(old(want), k) && Repr <= old(Repr)
      ensures cell == null ==> MembersOf(old(want), k) == {}
      ensures cell != null ==> cell in old(Repr) && cell !in Repr && cell.members == MembersOf(old(want), k)
    {
      cell := null;
      if k in sets {
        cell := sets[k];
        sets := sets - {k};
        Repr := Repr - {cell};
      }
      want := want - MembersOf(want, k);
    }
  }

  const MaxIdAttempts := 8

  class Pending {
    const maxEntries: int
    const sessions: Index
    const devices: Index
    var entries: map<GatewayId, Entry>
    /** The content of each registration's capacity-one result channel. */
    var channels: map<GatewayId, seq<Outcome>>

    ghost function View(): Registry
      reads this, sessions, devices
    {
      Registry(entries, sessions.want, devices.want)
    }

    ghost predicate Valid()
      reads this, sessions, devices, sessions.Repr, devices.Repr
    {
      && sessions.Valid() && devices.Valid()
      && sessions.Repr !! devices.Repr && this !in sessions.Repr && this !in devices.Repr
      && Consistent(View())
      && ChannelsEmpty(entries.Keys, channels)
    }

    constructor (maxEntries: int)
      ensures Valid() && View() == Empty && channels == map[] && this.maxEntries == maxEntries
    {
      this.maxEntries := maxEntries;
      entries, channels := map[], map[];
      sessions := new Index();
      devices := new Index();
    }

    /** `random` is what the random source yields; only live ids are rejected. */
    method FreshIdLocked(random: seq<GatewayId>) returns (r: Result<GatewayId, PendingError>)
      requires |random| == MaxIdAttempts
      ensures r.Err? <==> forall i :: 0 <= i < MaxIdAttempts ==> random[i] in entries
      ensures r.Ok? ==> exists i :: 0 <= i < MaxIdAttempts && random[i] == r.value && r.value !in entries
                                    && forall j :: 0 <= j < i ==> random[j] in entries
      ensures r.Err? ==> r.error.IdsExhausted?
    {
      for attempt := 0 to MaxIdAttempts
        invariant forall i :: 0 <= i < attempt ==> random[i] in entries
      {
        if random[attempt] !in entries {
          return Ok(random[attempt]);
        }
      }
      r := Err(IdsExhausted);
    }

    method Register(sessionId: string, originalId: Option<JsonId>, random: seq<GatewayId>)
      returns (r: Result<GatewayId, PendingError>)
      requires Valid() && |random| == MaxIdAttempts
      modifies this, sessions.Repr
      ensures Valid() && fresh(sessions.Repr - old(sessions.Repr))
      ensures r.Ok? ==> originalId.Some? && sessionId != "" && r.value !in old(entries)
                        && View() == Registered(old(View()), r.value, sessionId, originalId.value)
                        && channels == old(channels)[r.value := []]
      ensures r.Err? ==> View() == old(View()) && channels == old(channels)
      ensures r == Err(InvalidRequest) <==> sessionId == "" || originalId.None?
      ensures r == Err(TooManyPending) <==>
                sessionId != "" && originalId.Some? && maxEntries > 0 && |old(entries)| >= maxEntries
      ensures maxEntries > 0 && |old(entries)| <= maxEntries ==> |entries| <= maxEntries
    {
      hide IndexInv, Consistent, ChannelsEmpty;
      if sessionId == "" || originalId.None? {
        return Err(InvalidRequest);
      }
      if maxEntries > 0 && |entries| >= maxEntries {
        return Err(TooManyPending);
      }
      r := FreshIdLocked(random);
      if r.Ok? {
        var g := r.value;
        StepsConsistent(View(), g, sessionId);
        ChannelsAdded(entries.Keys, channels, g);
        NotIndexed(View(), g);
        entries := entries[g := Entry(sessionId, originalId.value, "")];
        channels := channels[g := []];
        sessions.Add(sessionId, g);
        assert View() == Registered(old(View()), g, sessionId, originalId.value);
        assert entries.Keys == old(entries).Keys + {g};
      }
    }

    method Associate(g: GatewayId, deviceId: string) returns (r: Result<(), PendingError>)
      requires Valid()
      modifies this, devices.Repr
      ensures Valid() && channels == old(channels) && fresh(devices.Repr - old(devices.Repr))
      ensures r.Ok? <==> deviceId != "" && g in old(entries)
      ensures r.Ok? ==> View() == Associated(old(View()), g, deviceId)
      ensures r.Err? ==> View() == old(View())
      ensures r.Err? ==> r.error == if deviceId == "" then InvalidRequest else UnknownCorrelation
    {
      hide IndexInv, Consistent;
      StepsConsistent(View(), g, deviceId);
      if deviceId == "" {
        return Err(InvalidRequest);
      }
      if g !in entries {
        return Err(UnknownCorrelation);
      }
      var entry := entries[g];
      if entry.deviceId != deviceId {
        if entry.deviceId != "" {
          devices.Remove(entry.deviceId, g);
        }
        entries := entries[g := entry.(deviceId := deviceId)];
      }
      devices.Add(deviceId, g);
      r := Ok(());
      assert sessions.want == old(sessions.want) && devices.want == old(devices.want)[g := deviceId];
      assert entries == old(entries)[g := old(entries)[g].(deviceId := deviceId)];
    }

    method RemoveLocked(g: GatewayId)
      requires Valid() && g in entries
      modifies this, sessions.Repr, devices.Repr
      ensures Valid() && View() == Removed(old(View()), {g}) && channels == old(channels)
      ensures sessions.Repr == old(sessions.Repr) && devices.Repr == old(devices.Repr)
    {
      hide IndexInv;
      var entry := entries[g];
      entries := entries - {g};
      sessions.Remove(entry.sessionId, g);
      if entry.deviceId != "" {
        devices.Remove(entry.deviceId, g);
      }
      assert devices.want == old(devices.want) - {g};
    }

    /** The channel is empty whenever the send happens, so capacity one is
        enough for the send never to block. */
    method Deliver(g: GatewayId, result: Outcome) returns (ok: bool)
      requires Valid()
      modifies this, sessions.Repr, devices.Repr
      ensures Valid() && View() == Removed(old(View()), {g})
      ensures ok <==> g in old(entries)
      ensures channels == if ok then old(channels)[g := [result]] else old(channels)
      ensures sessions.Repr == old(sessions.Repr) && devices.Repr == old(devices.Repr)
    {
      hide IndexInv;
      if g !in entries {
        NothingToRemove(View(), g);
        return false;
      }
      RemoveLocked(g);
      assert |channels[g]| < 1 && channels[g] + [result] == [result];
      channels := channels[g := channels[g] + [result]];
      ok := true;
    }

    method Resolve(g: GatewayId, result: Outcome) returns (r: Result<(), PendingError>)
      requires Valid()
      modifies this, sessions.Repr, devices.Repr
      ensures Valid() && View() == Removed(old(View()), {g})
      ensures r == if g in old(entries) then Ok(()) else Err(UnknownCorrelation)
      ensures channels == if r.Ok? then old(channels)[g := [result]] else old(channels)
    {
      hide IndexInv;
      var ok := Deliver(g, result);
      r := if ok then Ok(()) else Err(UnknownCorrelation);
    }

    /** The unlocked walk over a detached set, with nobody else running. The set
        is read as it stands: nothing changes it while it is walked. */
    method DeliverAll(cell: IndexSet, result: Outcome)
      requires Valid() && cell !in sessions.Repr && cell !in devices.Repr
      modifies this, sessions.Repr, devices.Repr
      ensures Valid() && View() == Removed(old(View()), cell.members)
      ensures cell.members == old(cell.members)
      ensures Completed(old(channels), channels, cell.members * old(entries).Keys, result)
    {
      hide IndexInv, Consistent, Removed, Completed;
      ghost var before, chans := View(), channels;
      var todo := cell.members;
      ghost var done: set<GatewayId> := {};
      RemovedNone(before, chans, result);
      while todo != {}
        invariant Valid() && cell.members == old(cell.members) && done == cell.members - todo && todo <= cell.members
        invariant View() == Removed(before, done)
        invariant sessions.Repr == old(sessions.Repr) && devices.Repr == old(devices.Repr)
        invariant Completed(chans, channels, done * before.entries.Keys, result)
        decreases |todo|
      {
        var g :| g in todo;
        todo := todo - {g};
        ghost var sofar := channels;
        var ok := Deliver(g, result);
        RemovedMore(before, done, g);
        CompletedMore(chans, sofar, before, done, g, ok, result);
        done := done + {g};
      }
      assert done == cell.members;
    }

    method CancelSession(sessionId: string)
      requires Valid()
      modifies this, sessions.Repr, devices.Repr
      ensures Valid()
      ensures var gone := MembersOf(old(sessions.want), sessionId);
              && View() == Removed(old(View()), gone)
              && Completed(old(channels), channels, gone, Failure(Cancelled))
              && (Agree(old(View())) ==>
                    Agree(View()) && forall g :: g in gone <==> OfSession(old(entries), g, sessionId))
    {
      hide IndexInv, Agree, OfSession;
      SessionMembers(View(), sessionId);
      var cell := sessions.Detach(sessionId);
      if cell != null {
        DeliverAll(cell, Failure(Cancelled));
      }
      assert View() == Removed(old(View()), MembersOf(old(sessions.want), sessionId));
    }

    /** `cause` is the reason given, or none. */
    method FailDevice(deviceId: string, cause: Option<Cause>)
      requires Valid()
      modifies this, sessions.Repr, devices.Repr
      ensures Valid()
      ensures var gone := MembersOf(old(devices.want), deviceId);
              && View() == Removed(old(View()), gone)
              && Completed(old(channels), channels, gone, Failure(if cause.None? then DeviceFailed else cause.value))
              && (Agree(old(View())) ==>
                    Agree(View()) && forall g :: g in gone <==> OfDevice(old(entries), g, deviceId))
    {
      hide IndexInv, Agree, OfDevice;
      DeviceMembers(View(), deviceId);
      var cell := devices.Detach(deviceId);
      if cell != null {
        DeliverAll(cell, Failure(if cause.None? then DeviceFailed else cause.value));
      }
      assert View() == Removed(old(View()), MembersOf(old(devices.want), deviceId));
    }
  }

  predicate OfSession(entries: map<GatewayId, Entry>, g: GatewayId, sessionId: string) {
    g in entries && entries[g].sessionId == sessionId
  }

  /** No request is on a device without a name. */
  predicate OfDevice(entries: map<GatewayId, Entry>, g: GatewayId, deviceId: string) {
    g in entries && deviceId != "" && entries[g].deviceId == deviceId
  }

  /** With the indexes in agreement, what a session's cancellation removes is all
      of the session, and they agree afterwards. */
  lemma SessionMembers(r: Registry, sessionId: string)
    ensures Agree(r) ==>
              && (forall g :: g in MembersOf(r.bySession, sessionId) <==> OfSession(r.entries, g, sessionId))
              && Agree(Removed(r, MembersOf(r.bySession, sessionId)))
  {
  }

  lemma DeviceMembers(r: Registry, deviceId: string)
    requires Consistent(r)
    ensures Agree(r) ==>
              && (forall g :: g in MembersOf(r.byDevice, deviceId) <==> OfDevice(r.entries, g, deviceId))
              && Agree(Removed(r, MembersOf(r.byDevice, deviceId)))
  {
  }

  /** Every operation keeps the indexes in agreement with the entries. */
  lemma StepsAgree(r: Registry, g: GatewayId, sessionId: string, originalId: JsonId, deviceId: string)
    requires Agree(r)
    ensures g !in r.entries ==> Agree(Registered(r, g, sessionId, originalId))
    ensures g in r.entries && deviceId != "" ==> Agree(Associated(r, g, deviceId))
    ensures Agree(Removed(r, {g}))
  {
    if g in r.entries && deviceId != "" {
      var n := Associated(r, g, deviceId);
      assert n.entries.Keys == r.entries.Keys && n.byDevice.Keys == r.byDevice.Keys + {g};
    }
  }

  ghost predicate ChannelsEmpty(live: set<GatewayId>, channels: map<GatewayId, seq<Outcome>>) {
    forall g :: g in live ==> g in channels && channels[g] == []
  }

  lemma ChannelsAdded(live: set<GatewayId>, channels: map<GatewayId, seq<Outcome>>, g: GatewayId)
    requires ChannelsEmpty(live, channels)
    ensures ChannelsEmpty(live + {g}, channels[g := []])
  {
  }

  lemma NotIndexed(r: Registry, g: GatewayId)
    requires Consistent(r) && g !in r.entries
    ensures g !in r.bySession
  {
  }

  /** Exactly the channels in `gone` got the one result. */
  ghost predicate Completed(before: map<GatewayId, seq<Outcome>>, after: map<GatewayId, seq<Outcome>>,
                            gone: set<GatewayId>, result: Outcome) {
    && after.Keys == before.Keys
    && forall g :: g in after ==> after[g] == if g in gone then [result] else before[g]
  }

  /** Associating, registering and removing keep the indexes within the entries. */
  lemma StepsConsistent(r: Registry, g: GatewayId, key: string)
    requires Consistent(r)
    ensures g in r.entries && key != "" ==> Consistent(Associated(r, g, key))
    ensures g in r.bySession ==> r.bySession[g] == r.entries[g].sessionId
    ensures g in r.byDevice ==> r.byDevice[g] == r.entries[g].deviceId && r.byDevice[g] != ""
    ensures forall id :: g !in r.entries ==> Consistent(Registered(r, g, key, id))
    ensures Consistent(Removed(r, {g}))
  {
  }

  lemma NothingToRemove(r: Registry, g: GatewayId)
    requires Consistent(r) && g !in r.entries
    ensures Removed(r, {g}) == r
  {
  }

  lemma RemovedNone(r: Registry, channels: map<GatewayId, seq<Outcome>>, result: Outcome)
    ensures Removed(r, {}) == r && Completed(channels, channels, {} * r.entries.Keys, result)
  {
  }

  lemma RemovedMore(r: Registry, done: set<GatewayId>, g: GatewayId)
    ensures Removed(Removed(r, done), {g}) == Removed(r, done + {g})
    ensures Removed(r, done).entries == r.entries - done
  {
  }

  lemma CompletedMore(before: map<GatewayId, seq<Outcome>>, sofar: map<GatewayId, seq<Outcome>>, r: Registry,
                      done: set<GatewayId>, g: GatewayId, ok: bool, result: Outcome)
    requires Completed(before, sofar, done * r.entries.Keys, result) && g !in done
    requires ok <==> g in r.entries
    requires g in r.entries ==> g in sofar
    ensures Completed(before, if ok then sofar[g := [result]] else sofar, (done + {g}) * r.entries.Keys, result)
  {
  }
}
