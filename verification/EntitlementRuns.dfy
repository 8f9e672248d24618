/** Trials, devices and credentials over whole runs. Devices come into being
    through BindFirstDevice only. */
module EntitlementRuns {
  import opened Common
  import opened Entitlements

  datatype Step =
    | Bind(now: int, b: Binding, ids: NewIds)
    | Extend(trialId: Id, newEndsAt: int)
    | Revoke(now: int, userId: Id, deviceId: Id)
    | Restore(userId: Id, deviceId: Id)
    | Rotate(now: int, userId: Id, deviceId: Id, credentialId: Id, digest: Id)
    | Recover(now: int, userId: Id, known: bool)
    | StoreRevoke(deviceId: Id)

  function Transaction(db: Db, step: Step): Result<Db, EntitlementError> {
    match step
    case Bind(now, b, ids) => BindFirstDevice(db, now, b, ids)
    case Extend(trialId, newEndsAt) => ExtendTrial(db, trialId, newEndsAt)
    case Revoke(now, userId, deviceId) => RevokeDevice(db, now, userId, deviceId)
    case Restore(userId, deviceId) => RestoreDevice(db, userId, deviceId)
    case Rotate(now, userId, deviceId, credentialId, digest) =>
      RotateCredential(db, now, userId, deviceId, credentialId, digest)
    case Recover(now, userId, known) => RecoverIdentity(db, now, userId, known)
    case StoreRevoke(deviceId) => StoreRevokeDevice(db, deviceId)
  }

  /** `subjectOf` remembers the identity each trial was started with, and
      `bypassed` the devices the entitlement store revoked while active. */
  datatype State = State(db: Db, subjectOf: map<Id, Subject>, bypassed: set<Id>)

  const Initial := State(EmptyDb, map[], {})

  function Next(s: State, step: Step): State {
    var done := Transaction(s.db, step);
    if done.Err? then s
    else
      match step
      case Bind(now, b, ids) =>
        if b.userId in s.db.trialOf then s.(db := done.value)
        else s.(db := done.value, subjectOf := s.subjectOf[ids.trialId := b.subject])
      case StoreRevoke(deviceId) =>
        if deviceId in s.db.devices && s.db.devices[deviceId].status == Active
        then s.(db := done.value, bypassed := s.bypassed + {deviceId})
        else s.(db := done.value)
      case Restore(userId, deviceId) => s.(db := done.value, bypassed := s.bypassed - {deviceId})
      case _ => s.(db := done.value)
  }

  function Run(s: State, steps: seq<Step>): State
    decreases |steps|
  {
    if steps == [] then s else Run(Next(s, steps[0]), steps[1..])
  }

  function Reach(steps: seq<Step>): State {
    Run(Initial, steps)
  }

  // ------------------------------------------------------------ invariant

  predicate Live(c: map<Id, Credential>, id: Id, deviceId: Id) {
    id in c && c[id].deviceId == deviceId && c[id].revokedAt.None?
  }

  ghost predicate HasLive(c: map<Id, Credential>, deviceId: Id) {
    exists id :: Live(c, id, deviceId)
  }

  ghost predicate TrialsInv(trials: map<Id, Trial>, trialOf: map<Id, Id>) {
    && (forall u :: u in trialOf ==> trialOf[u] in trials && trials[trialOf[u]].userId == u)
    && (forall id :: id in trials ==> trials[id].userId in trialOf && trialOf[trials[id].userId] == id)
    && (forall id :: id in trials ==> trials[id].startedAt + TrialWindow <= trials[id].endsAt)
  }

  ghost predicate SubjectsInv(trials: map<Id, Trial>, trialIdentities: map<Subject, Id>, subjectOf: map<Id, Subject>) {
    && subjectOf.Keys == trials.Keys
    && (forall id :: id in subjectOf ==> subjectOf[id] in trialIdentities && trialIdentities[subjectOf[id]] == id)
    && (forall k :: k in trialIdentities ==> trialIdentities[k] in subjectOf && subjectOf[trialIdentities[k]] == k)
  }

  ghost predicate DevicesInv(devices: map<Id, Device>, trialOf: map<Id, Id>, fingerprintOf: map<Id, Id>) {
    && (forall d :: d in devices ==> devices[d].userId in trialOf)
    && (forall d :: d in devices && devices[d].fingerprint.Some? ==>
          devices[d].fingerprint.value in fingerprintOf && fingerprintOf[devices[d].fingerprint.value] == d)
    && (forall f :: f in fingerprintOf ==>
          fingerprintOf[f] in devices && devices[fingerprintOf[f]].fingerprint == Some(f))
  }

  ghost predicate CredentialsInv(credentials: map<Id, Credential>, devices: map<Id, Device>) {
    && (forall c :: c in credentials ==>
          credentials[c].deviceId in devices && devices[credentials[c].deviceId].userId == credentials[c].userId)
    && (forall c, d ::
          c in credentials && d in credentials && c != d && credentials[c].deviceId == credentials[d].deviceId ==>
          credentials[c].revokedAt.Some? || credentials[d].revokedAt.Some?)
  }

  /** A revoked device has no live credential unless the entitlement store is
      what revoked it. */
  ghost predicate RevokedInv(credentials: map<Id, Credential>, devices: map<Id, Device>, bypassed: set<Id>) {
    forall c ::
      c in credentials && credentials[c].deviceId in devices && devices[credentials[c].deviceId].status == Revoked ==>
      credentials[c].revokedAt.Some? || credentials[c].deviceId in bypassed
  }

  ghost predicate BypassedInv(devices: map<Id, Device>, bypassed: set<Id>) {
    forall d :: d in bypassed ==> d in devices && devices[d].status == Revoked
  }

  ghost predicate Inv(s: State) {
    && TrialsInv(s.db.trials, s.db.trialOf)
    && SubjectsInv(s.db.trials, s.db.trialIdentities, s.subjectOf)
    && DevicesInv(s.db.devices, s.db.trialOf, s.db.fingerprintOf)
    && CredentialsInv(s.db.credentials, s.db.devices)
    && RevokedInv(s.db.credentials, s.db.devices, s.bypassed)
    && BypassedInv(s.db.devices, s.bypassed)
  }

  // ------------------------------------------------------------ row writes

  /** Setting a fingerprint touches owners, statuses and credentials not at all. */
  lemma FingerprintStep(db: Db, deviceId: Id, fingerprint: Option<Id>)
    requires deviceId in db.devices && DevicesInv(db.devices, db.trialOf, db.fingerprintOf)
    requires SetFingerprint(db, deviceId, fingerprint).Ok?
    ensures var n := SetFingerprint(db, deviceId, fingerprint).value;
            && n == db.(devices := n.devices, fingerprintOf := n.fingerprintOf)
            && DevicesInv(n.devices, n.trialOf, n.fingerprintOf)
            && n.devices.Keys == db.devices.Keys
            && forall d :: d in n.devices ==>
                 n.devices[d].userId == db.devices[d].userId && n.devices[d].status == db.devices[d].status
  {
  }

  ghost predicate SameOwners(was: map<Id, Device>, now: map<Id, Device>) {
    was.Keys == now.Keys && forall d :: d in now ==> now[d].userId == was[d].userId && now[d].status == was[d].status
  }

  lemma OwnersKeepCredentials(c: map<Id, Credential>, was: map<Id, Device>, now: map<Id, Device>, bypassed: set<Id>)
    requires SameOwners(was, now)
    ensures CredentialsInv(c, was) ==> CredentialsInv(c, now)
    ensures RevokedInv(c, was, bypassed) ==> RevokedInv(c, now, bypassed)
    ensures BypassedInv(was, bypassed) ==> BypassedInv(now, bypassed)
  {
  }

  /** Revoking a device's credentials leaves it none; others keep theirs. */
  lemma RevokedStep(c: map<Id, Credential>, devices: map<Id, Device>, deviceId: Id, now: int)
    requires CredentialsInv(c, devices) && deviceId in devices
    ensures var n := RevokedCredentials(c, deviceId, devices[deviceId].userId, now);
            && CredentialsInv(n, devices)
            && n.Keys == c.Keys
            && (forall id :: id in n && n[id].deviceId == deviceId ==> n[id].revokedAt.Some?)
            && (forall id :: id in n ==>
                  n[id] == c[id].(revokedAt := n[id].revokedAt) && (c[id].revokedAt.Some? ==> n[id].revokedAt.Some?))
  {
  }

  /** A new credential for a device without a live one. */
  lemma InsertStep(c: map<Id, Credential>, devices: map<Id, Device>, bypassed: set<Id>, id: Id, row: Credential)
    requires CredentialsInv(c, devices) && id !in c && row.revokedAt.None?
    requires row.deviceId in devices && devices[row.deviceId].userId == row.userId
             && devices[row.deviceId].status == Active
    requires forall k :: k in c && c[k].deviceId == row.deviceId ==> c[k].revokedAt.Some?
    ensures CredentialsInv(c[id := row], devices)
    ensures RevokedInv(c, devices, bypassed) ==> RevokedInv(c[id := row], devices, bypassed)
  {
  }

  lemma FewerLive(c: map<Id, Credential>, n: map<Id, Credential>, devices: map<Id, Device>, bypassed: set<Id>)
    requires n.Keys == c.Keys
    requires forall id :: id in n ==>
               n[id] == c[id].(revokedAt := n[id].revokedAt) && (c[id].revokedAt.Some? ==> n[id].revokedAt.Some?)
    ensures CredentialsInv(c, devices) ==> CredentialsInv(n, devices)
    ensures RevokedInv(c, devices, bypassed) ==> RevokedInv(n, devices, bypassed)
  {
  }

  // -------------------------------------------------------- transactions

  lemma ReclaimStep(s: State, now: int, b: Binding, ids: NewIds)
    requires Inv(s) && b.userId in s.db.trialOf && Reclaim(s.db, now, b, ids).Ok?
    ensures Inv(s.(db := Reclaim(s.db, now, b, ids).value))
  {
    hide TrialsInv, SubjectsInv, DevicesInv, CredentialsInv, RevokedInv, BypassedInv, SetFingerprint,
         RevokedCredentials;
    var updated := SetFingerprint(s.db, b.deviceId, b.fingerprint).value;
    FingerprintStep(s.db, b.deviceId, b.fingerprint);
    OwnersKeepCredentials(s.db.credentials, s.db.devices, updated.devices, s.bypassed);
    RevokedStep(updated.credentials, updated.devices, b.deviceId, now);
    var left := RevokedCredentials(updated.credentials, b.deviceId, b.userId, now);
    FewerLive(updated.credentials, left, updated.devices, s.bypassed);
    InsertStep(left, updated.devices, s.bypassed, ids.credentialId, Credential(b.userId, b.deviceId, b.digest, None));
  }

  /** A user without a trial owns no device, so the first binding always
      registers a new one. */
  lemma FirstDeviceIsNew(s: State, now: int, b: Binding, ids: NewIds)
    requires Inv(s) && b.userId !in s.db.trialOf && StartTrial(s.db, now, b, ids).Ok?
    ensures b.deviceId !in s.db.devices
  {
    hide TrialsInv, SubjectsInv, CredentialsInv, RevokedInv, BypassedInv, SetFingerprint;
  }

  lemma StartTables(s: State, now: int, b: Binding, ids: NewIds)
    requires Inv(s) && b.userId !in s.db.trialOf && ids.trialId !in s.db.trials && b.subject !in s.db.trialIdentities
    ensures var trials := s.db.trials[ids.trialId := Trial(b.userId, now, now + TrialWindow)];
            var trialOf := s.db.trialOf[b.userId := ids.trialId];
            && TrialsInv(trials, trialOf)
            && SubjectsInv(trials, s.db.trialIdentities[b.subject := ids.trialId],
                           s.subjectOf[ids.trialId := b.subject])
  {
    hide DevicesInv, CredentialsInv, RevokedInv, BypassedInv;
  }

  lemma NewDeviceStep(devices: map<Id, Device>, trialOf: map<Id, Id>, fingerprintOf: map<Id, Id>,
                      c: map<Id, Credential>, bypassed: set<Id>, deviceId: Id, userId: Id, trialId: Id)
    requires DevicesInv(devices, trialOf, fingerprintOf) && CredentialsInv(c, devices)
    requires RevokedInv(c, devices, bypassed) && BypassedInv(devices, bypassed) && deviceId !in devices
    ensures var n := devices[deviceId := Device(userId, Active, None)];
            && DevicesInv(n, trialOf[userId := trialId], fingerprintOf)
            && CredentialsInv(c, n) && RevokedInv(c, n, bypassed) && BypassedInv(n, bypassed)
            && forall k :: k in c && c[k].deviceId == deviceId ==> c[k].revokedAt.Some?
  {
  }

  lemma StartStep(s: State, now: int, b: Binding, ids: NewIds)
    requires Inv(s) && b.userId !in s.db.trialOf && StartTrial(s.db, now, b, ids).Ok?
    ensures Inv(s.(db := StartTrial(s.db, now, b, ids).value, subjectOf := s.subjectOf[ids.trialId := b.subject]))
  {
    hide TrialsInv, SubjectsInv, DevicesInv, CredentialsInv, RevokedInv, BypassedInv, SetFingerprint;
    FirstDeviceIsNew(s, now, b, ids);
    StartTables(s, now, b, ids);
    NewDeviceStep(s.db.devices, s.db.trialOf, s.db.fingerprintOf, s.db.credentials, s.bypassed, b.deviceId, b.userId,
                  ids.trialId);
    var started := s.db.(trials := s.db.trials[ids.trialId := Trial(b.userId, now, now + TrialWindow)],
                         trialOf := s.db.trialOf[b.userId := ids.trialId],
                         trialIdentities := s.db.trialIdentities[b.subject := ids.trialId]);
    var registered := started.(devices := s.db.devices[b.deviceId := Device(b.userId, Active, None)]);
    FingerprintStep(registered, b.deviceId, b.fingerprint);
    var bound := SetFingerprint(registered, b.deviceId, b.fingerprint).value;
    OwnersKeepCredentials(s.db.credentials, registered.devices, bound.devices, s.bypassed);
    InsertStep(s.db.credentials, bound.devices, s.bypassed, ids.credentialId,
               Credential(b.userId, b.deviceId, b.digest, None));
  }

  lemma BindStep(s: State, now: int, b: Binding, ids: NewIds)
    requires Inv(s)
    ensures Inv(Next(s, Bind(now, b, ids)))
  {
    hide Inv, Reclaim, StartTrial;
    var done := BindFirstDevice(s.db, now, b, ids);
    if done.Ok? {
      if b.userId in s.db.trialOf { ReclaimStep(s, now, b, ids); } else { StartStep(s, now, b, ids); }
    }
  }

  lemma ExtendStep(s: State, trialId: Id, newEndsAt: int)
    requires Inv(s)
    ensures Inv(Next(s, Extend(trialId, newEndsAt)))
  {
    hide DevicesInv, CredentialsInv, RevokedInv, BypassedInv;
  }

  lemma StatusStep(devices: map<Id, Device>, trialOf: map<Id, Id>, fingerprintOf: map<Id, Id>, c: map<Id, Credential>,
                   deviceId: Id, status: Status)
    requires DevicesInv(devices, trialOf, fingerprintOf) && CredentialsInv(c, devices) && deviceId in devices
    ensures var n := devices[deviceId := devices[deviceId].(status := status)];
            DevicesInv(n, trialOf, fingerprintOf) && CredentialsInv(c, n)
  {
  }

  lemma RevokeStep(s: State, now: int, userId: Id, deviceId: Id)
    requires Inv(s)
    ensures Inv(Next(s, Revoke(now, userId, deviceId)))
  {
    hide TrialsInv, SubjectsInv, DevicesInv, CredentialsInv, RevokedCredentials;
    if RevokeDevice(s.db, now, userId, deviceId).Ok? && s.db.devices[deviceId].status != Revoked {
      RevokedStep(s.db.credentials, s.db.devices, deviceId, now);
      StatusStep(s.db.devices, s.db.trialOf, s.db.fingerprintOf,
                 RevokedCredentials(s.db.credentials, deviceId, userId, now), deviceId, Revoked);
    }
  }

  lemma RestoreStep(s: State, userId: Id, deviceId: Id)
    requires Inv(s)
    ensures Inv(Next(s, Restore(userId, deviceId)))
  {
    hide TrialsInv, SubjectsInv, DevicesInv, CredentialsInv;
    if Owns(s.db, userId, deviceId) {
      StatusStep(s.db.devices, s.db.trialOf, s.db.fingerprintOf, s.db.credentials, deviceId, Active);
    }
  }

  lemma StoreRevokeStep(s: State, deviceId: Id)
    requires Inv(s)
    ensures Inv(Next(s, StoreRevoke(deviceId)))
  {
    hide TrialsInv, SubjectsInv, DevicesInv, CredentialsInv;
    if deviceId in s.db.devices {
      StatusStep(s.db.devices, s.db.trialOf, s.db.fingerprintOf, s.db.credentials, deviceId, Revoked);
    }
  }

  lemma RotateStep(s: State, now: int, userId: Id, deviceId: Id, credentialId: Id, digest: Id)
    requires Inv(s)
    ensures Inv(Next(s, Rotate(now, userId, deviceId, credentialId, digest)))
  {
    hide TrialsInv, SubjectsInv, DevicesInv, CredentialsInv, RevokedInv, BypassedInv, RevokedCredentials;
    if RotateCredential(s.db, now, userId, deviceId, credentialId, digest).Ok? {
      RevokedStep(s.db.credentials, s.db.devices, deviceId, now);
      var left := RevokedCredentials(s.db.credentials, deviceId, userId, now);
      FewerLive(s.db.credentials, left, s.db.devices, s.bypassed);
      InsertStep(left, s.db.devices, s.bypassed, credentialId, Credential(userId, deviceId, digest, None));
    }
  }

  lemma RecoverStep(s: State, now: int, userId: Id, known: bool)
    requires Inv(s)
    ensures Inv(Next(s, Recover(now, userId, known)))
  {
    hide TrialsInv, SubjectsInv, DevicesInv, BypassedInv, CredentialsInv, RevokedInv;
    var n := Next(s, Recover(now, userId, known));
    FewerLive(s.db.credentials, n.db.credentials, s.db.devices, s.bypassed);
  }

  lemma NextInv(s: State, step: Step)
    requires Inv(s)
    ensures Inv(Next(s, step))
  {
    hide Inv, Next;
    match step
    case Bind(now, b, ids) => BindStep(s, now, b, ids);
    case Extend(trialId, newEndsAt) => ExtendStep(s, trialId, newEndsAt);
    case Revoke(now, userId, deviceId) => RevokeStep(s, now, userId, deviceId);
    case Restore(userId, deviceId) => RestoreStep(s, userId, deviceId);
    case Rotate(now, userId, deviceId, credentialId, digest) =>
      RotateStep(s, now, userId, deviceId, credentialId, digest);
    case Recover(now, userId, known) => RecoverStep(s, now, userId, known);
    case StoreRevoke(deviceId) => StoreRevokeStep(s, deviceId);
  }

  lemma {:induction false} RunInv(s: State, steps: seq<Step>)
    requires Inv(s)
    ensures Inv(Run(s, steps))
    decreases |steps|
  {
    hide Inv, Next;
    if steps != [] {
      NextInv(s, steps[0]);
      RunInv(Next(s, steps[0]), steps[1..]);
    }
  }

  lemma ReachInv(steps: seq<Step>)
    ensures Inv(Reach(steps))
  {
    RunInv(Initial, steps);
  }

  // ------------------------------------------------------------ theorems

  /** One trial per user and per provider identity, each at least the full
      window long; every device's owner holds one. */
  lemma TrialsAreUnique(steps: seq<Step>, a: Id, b: Id, d: Id)
    requires a in Reach(steps).db.trials && b in Reach(steps).db.trials && d in Reach(steps).db.devices
    ensures var s := Reach(steps);
            && a in s.subjectOf && b in s.subjectOf
            && (s.db.trials[a].userId == s.db.trials[b].userId || s.subjectOf[a] == s.subjectOf[b] ==> a == b)
            && s.db.trials[a].endsAt >= s.db.trials[a].startedAt + TrialWindow
            && s.db.devices[d].userId in s.db.trialOf
  {
    hide CredentialsInv, RevokedInv, BypassedInv, Run;
    ReachInv(steps);
  }

  /** A fingerprint is one device's, so one account's. */
  lemma FingerprintsAreUnique(steps: seq<Step>, a: Id, b: Id)
    requires var devices := Reach(steps).db.devices;
             a in devices && b in devices && devices[a].fingerprint.Some?
             && devices[a].fingerprint == devices[b].fingerprint
    ensures a == b
  {
    hide CredentialsInv, RevokedInv, BypassedInv, TrialsInv, SubjectsInv, Run;
    ReachInv(steps);
  }

  lemma AtMostOneLiveCredential(steps: seq<Step>, a: Id, b: Id, deviceId: Id)
    requires Live(Reach(steps).db.credentials, a, deviceId) && Live(Reach(steps).db.credentials, b, deviceId)
    ensures a == b
  {
    hide DevicesInv, RevokedInv, BypassedInv, TrialsInv, SubjectsInv, Run;
    ReachInv(steps);
  }

  ghost predicate TrialLater(t: map<Id, Trial>, n: map<Id, Trial>, id: Id) {
    id in t ==>
      id in n && n[id].userId == t[id].userId && n[id].startedAt == t[id].startedAt && n[id].endsAt >= t[id].endsAt
  }

  lemma TrialStep(s: State, step: Step, id: Id)
    ensures TrialLater(s.db.trials, Next(s, step).db.trials, id)
  {
    hide FingerprintTaken, RevokedCredentials, SetFingerprint, InsertCredential, InsertDevice;
    if step.Bind? { BindKeepsTrials(s.db, step.now, step.b, step.ids); }
    if step.Rotate? {
      var credentials := RevokedCredentials(s.db.credentials, step.deviceId, step.userId, step.now);
      InsertKeepsTrials(s.db.(credentials := credentials), step.credentialId, step.userId, step.deviceId, step.digest);
    }
  }

  lemma InsertKeepsTrials(db: Db, id: Id, userId: Id, deviceId: Id, digest: Id)
    ensures var n := InsertCredential(db, id, userId, deviceId, digest); n.Ok? ==> n.value.trials == db.trials
  {
  }

  lemma FingerprintKeepsTrials(db: Db, deviceId: Id, fingerprint: Option<Id>)
    requires deviceId in db.devices
    ensures var n := SetFingerprint(db, deviceId, fingerprint); n.Ok? ==> n.value.trials == db.trials
  {
  }

  lemma BindKeepsTrials(db: Db, now: int, b: Binding, ids: NewIds)
    ensures var n := BindFirstDevice(db, now, b, ids);
            n.Ok? ==> forall id :: TrialLater(db.trials, n.value.trials, id)
  {
    hide FingerprintTaken, RevokedCredentials, SetFingerprint, InsertCredential;
    if b.userId in db.trialOf {
      if b.deviceId in db.devices {
        FingerprintKeepsTrials(db, b.deviceId, b.fingerprint);
        var updated := SetFingerprint(db, b.deviceId, b.fingerprint);
        if updated.Ok? {
          var credentials := RevokedCredentials(updated.value.credentials, b.deviceId, b.userId, now);
          InsertKeepsTrials(updated.value.(credentials := credentials), ids.credentialId, b.userId, b.deviceId,
                            b.digest);
        }
      }
    } else {
      var started := db.(trials := db.trials[ids.trialId := Trial(b.userId, now, now + TrialWindow)],
                         trialOf := db.trialOf[b.userId := ids.trialId],
                         trialIdentities := db.trialIdentities[b.subject := ids.trialId]);
      var registered := if b.deviceId in db.devices then started
                        else started.(devices := db.devices[b.deviceId := Device(b.userId, Active, None)]);
      FingerprintKeepsTrials(registered, b.deviceId, b.fingerprint);
      var bound := SetFingerprint(registered, b.deviceId, b.fingerprint);
      if bound.Ok? { InsertKeepsTrials(bound.value, ids.credentialId, b.userId, b.deviceId, b.digest); }
    }
  }

  /** A trial's owner and start never change and its end never comes sooner. */
  lemma {:induction false} TrialNeverShrinks(s: State, steps: seq<Step>, id: Id)
    ensures TrialLater(s.db.trials, Run(s, steps).db.trials, id)
    decreases |steps|
  {
    hide Next;
    if steps != [] {
      TrialStep(s, steps[0], id);
      TrialNeverShrinks(Next(s, steps[0]), steps[1..], id);
    }
  }

  /** The dashboard's revocation reports success and leaves a credential live
      exactly if the device was revoked already and had one. */
  lemma DashboardRevocationExact(steps: seq<Step>, now: int, userId: Id, deviceId: Id)
    requires RevokeDevice(Reach(steps).db, now, userId, deviceId).Ok?
    ensures var s := Reach(steps);
            var n := Next(s, Revoke(now, userId, deviceId));
            && deviceId in s.db.devices && deviceId in n.db.devices && n.db.devices[deviceId].status == Revoked
            && (HasLive(n.db.credentials, deviceId) <==>
                  s.db.devices[deviceId].status == Revoked && HasLive(s.db.credentials, deviceId))
  {
    hide TrialsInv, SubjectsInv, DevicesInv, Run;
    ReachInv(steps);
    var s := Reach(steps);
    var n := Next(s, Revoke(now, userId, deviceId));
    if s.db.devices[deviceId].status == Revoked {
      assert n == s;
    } else {
      hide CredentialsInv;
      RevokedCredentialsOf(s, now, userId, deviceId);
    }
  }

  /** A revoked device with a live credential was revoked by the entitlement
      store, some time in the run. */
  lemma OnlyTheStoreLeavesOneLive(steps: seq<Step>, deviceId: Id)
    requires var db := Reach(steps).db;
             deviceId in db.devices && db.devices[deviceId].status == Revoked && HasLive(db.credentials, deviceId)
    ensures StoreRevoke(deviceId) in steps
  {
    hide TrialsInv, SubjectsInv, DevicesInv, CredentialsInv, Run;
    ReachInv(steps);
    var c :| Live(Reach(steps).db.credentials, c, deviceId);
    BypassedBy(Initial, steps, deviceId);
  }

  lemma {:induction false} BypassedBy(s: State, steps: seq<Step>, deviceId: Id)
    requires deviceId in Run(s, steps).bypassed
    ensures deviceId in s.bypassed || StoreRevoke(deviceId) in steps
    decreases |steps|
  {
    hide Transaction;
    if steps != [] {
      BypassedBy(Next(s, steps[0]), steps[1..], deviceId);
    }
  }

  /** Restoring a device keeps its old credentials revoked, as it promises,
      unless the dashboard's revocation had found the device revoked with a
      credential live: the device is then active again with that credential. */
  lemma RestoreAfterRevokeExact(steps: seq<Step>, now: int, userId: Id, deviceId: Id)
    requires RevokeDevice(Reach(steps).db, now, userId, deviceId).Ok?
    ensures var s := Reach(steps);
            var n := Next(Next(s, Revoke(now, userId, deviceId)), Restore(userId, deviceId));
            && deviceId in s.db.devices && deviceId in n.db.devices && n.db.devices[deviceId].status == Active
            && (HasLive(n.db.credentials, deviceId) <==>
                  s.db.devices[deviceId].status == Revoked && HasLive(s.db.credentials, deviceId))
  {
    hide Inv, Run, HasLive, RevokedCredentials;
    DashboardRevocationExact(steps, now, userId, deviceId);
    var m := Next(Reach(steps), Revoke(now, userId, deviceId));
    assert Owns(m.db, userId, deviceId);
    assert Next(m, Restore(userId, deviceId)).db == WithStatus(m.db, deviceId, Active);
  }

  lemma RevokedCredentialsOf(s: State, now: int, userId: Id, deviceId: Id)
    requires Inv(s) && deviceId in s.db.devices && s.db.devices[deviceId].userId == userId
    ensures !HasLive(RevokedCredentials(s.db.credentials, deviceId, userId, now), deviceId)
  {
    hide TrialsInv, SubjectsInv, DevicesInv, RevokedInv, BypassedInv;
    RevokedStep(s.db.credentials, s.db.devices, deviceId, now);
  }

  const BypassRun := [
    Bind(1, Binding(2, Subject(3, 4), 5, None, 6), NewIds(7, 8)),
    StoreRevoke(5),
    Revoke(9, 2, 5)]

  /** The exception arises. */
  lemma BypassedDeviceKeepsItsCredential()
    ensures var s := Reach(BypassRun);
            5 in s.db.devices && s.db.devices[5].status == Revoked && Live(s.db.credentials, 8, 5)
    ensures var s := Reach(BypassRun + [Restore(2, 5)]);
            5 in s.db.devices && s.db.devices[5].status == Active && Live(s.db.credentials, 8, 5)
  {
    var s1 := Next(Initial, BypassRun[0]);
    assert s1.db.devices == map[5 := Device(2, Active, None)]
           && s1.db.credentials == map[8 := Credential(2, 5, 6, None)];
    var s2 := Next(s1, BypassRun[1]);
    assert s2.db.devices == map[5 := Device(2, Revoked, None)] && s2.db.credentials == s1.db.credentials;
    var s3 := Next(s2, BypassRun[2]);
    assert s3.db == s2.db;
    var s4 := Next(s3, Restore(2, 5));
    assert s4.db.devices == map[5 := Device(2, Active, None)] && s4.db.credentials == s1.db.credentials;
    BypassReaches(s1, s2, s3, s4);
  }

  lemma BypassReaches(s1: State, s2: State, s3: State, s4: State)
    requires s1 == Next(Initial, BypassRun[0]) && s2 == Next(s1, BypassRun[1]) && s3 == Next(s2, BypassRun[2])
    requires s4 == Next(s3, Restore(2, 5))
    ensures Reach(BypassRun) == s3 && Reach(BypassRun + [Restore(2, 5)]) == s4
  {
    hide Next;
    var a, b, c, d := BypassRun[0], BypassRun[1], BypassRun[2], Restore(2, 5);
    assert BypassRun == [a] + ([b] + ([c] + [])) && BypassRun + [d] == [a] + ([b] + ([c] + ([d] + [])));
    Unroll(Initial, a, [b] + ([c] + []));
    Unroll(s1, b, [c] + []);
    Unroll(s2, c, []);
    Unroll(Initial, a, [b] + ([c] + ([d] + [])));
    Unroll(s1, b, [c] + ([d] + []));
    Unroll(s2, c, [d] + []);
    Unroll(s3, d, []);
  }

  lemma Unroll(s: State, step: Step, rest: seq<Step>)
    ensures Run(s, [step] + rest) == Run(Next(s, step), rest)
  {
    hide Next;
    assert ([step] + rest)[1..] == rest;
  }

  predicate IssuesFor(step: Step, deviceId: Id) {
    (step.Bind? && step.b.deviceId == deviceId) || (step.Rotate? && step.deviceId == deviceId)
  }

  lemma NoLiveStep(s: State, step: Step, deviceId: Id)
    requires !HasLive(s.db.credentials, deviceId) && !IssuesFor(step, deviceId)
    ensures !HasLive(Next(s, step).db.credentials, deviceId)
  {
    hide Transaction, HasLive, IssuesFor;
    NextDb(s, step);
    if Transaction(s.db, step).Ok? { NoLiveTransaction(s.db, step, deviceId); }
  }

  lemma NextDb(s: State, step: Step)
    ensures Next(s, step).db == if Transaction(s.db, step).Ok? then Transaction(s.db, step).value else s.db
  {
    hide Transaction;
  }

  /** Every live credential of the device was there before. */
  ghost predicate NoneNew(was: map<Id, Credential>, now: map<Id, Credential>, deviceId: Id) {
    forall c :: Live(now, c, deviceId) ==> Live(was, c, deviceId)
  }

  lemma NoLiveTransaction(db: Db, step: Step, deviceId: Id)
    requires Transaction(db, step).Ok? && !HasLive(db.credentials, deviceId) && !IssuesFor(step, deviceId)
    ensures !HasLive(Transaction(db, step).value.credentials, deviceId)
  {
    hide BindFirstDevice, RotateCredential, RevokeDevice, RecoverIdentity;
    match step
    case Bind(now, b, ids) => BindNoneNew(db, now, b, ids, deviceId);
    case Rotate(now, userId, d, credentialId, digest) =>
      RotateNoneNew(db, now, userId, d, credentialId, digest, deviceId);
    case Revoke(now, userId, d) => RevokeNoneNew(db, now, userId, d, deviceId);
    case Recover(now, userId, known) => RecoverNoneNew(db, now, userId, known, deviceId);
    case _ =>
  }

  lemma BindNoneNew(db: Db, now: int, b: Binding, ids: NewIds, deviceId: Id)
    requires b.deviceId != deviceId && BindFirstDevice(db, now, b, ids).Ok?
    ensures NoneNew(db.credentials, BindFirstDevice(db, now, b, ids).value.credentials, deviceId)
  {
    hide FingerprintTaken;
  }

  lemma RotateNoneNew(db: Db, now: int, userId: Id, d: Id, credentialId: Id, digest: Id, deviceId: Id)
    requires d != deviceId && RotateCredential(db, now, userId, d, credentialId, digest).Ok?
    ensures NoneNew(db.credentials, RotateCredential(db, now, userId, d, credentialId, digest).value.credentials,
                    deviceId)
  {
  }

  lemma RevokeNoneNew(db: Db, now: int, userId: Id, d: Id, deviceId: Id)
    requires RevokeDevice(db, now, userId, d).Ok?
    ensures NoneNew(db.credentials, RevokeDevice(db, now, userId, d).value.credentials, deviceId)
  {
  }

  lemma RecoverNoneNew(db: Db, now: int, userId: Id, known: bool, deviceId: Id)
    requires RecoverIdentity(db, now, userId, known).Ok?
    ensures NoneNew(db.credentials, RecoverIdentity(db, now, userId, known).value.credentials, deviceId)
  {
  }

  /** A device without a live credential gets one by a binding or a rotation
      only: restoring it, or anything done to others, gives it none. */
  lemma {:induction false} NothingElseIssues(s: State, steps: seq<Step>, deviceId: Id)
    requires !HasLive(s.db.credentials, deviceId)
    requires forall i :: 0 <= i < |steps| ==> !IssuesFor(steps[i], deviceId)
    ensures !HasLive(Run(s, steps).db.credentials, deviceId)
    decreases |steps|
  {
    hide HasLive, Next, IssuesFor;
    if steps != [] {
      assert forall i :: 0 <= i < |steps[1..]| ==> steps[1..][i] == steps[i + 1];
      NoLiveStep(s, steps[0], deviceId);
      NothingElseIssues(Next(s, steps[0]), steps[1..], deviceId);
    }
  }
}
