/** Trials, devices and device credentials: each locked transaction is a function
    from tables to tables, and an error leaves the tables alone.

    Ids, digests and fingerprints are numbers, 0 standing for an empty one.
  */
module Entitlements {
  import opened Common

  type Id = nat

  const TrialWindow := 14 * 24 * 3600 * 1_000_000_000

  datatype Trial = Trial(userId: Id, startedAt: int, endsAt: int)

  datatype Subject = Subject(provider: Id, subject: Id)

  datatype Status = Active | Revoked

  datatype Device = Device(userId: Id, status: Status, fingerprint: Option<Id>)

  datatype Credential = Credential(userId: Id, deviceId: Id, digest: Id, revokedAt: Option<int>)

  /** `trialOf`, `fingerprintOf` and `digestOf` are the unique indexes. */
  datatype Db = Db(
    trials: map<Id, Trial>,
    trialOf: map<Id, Id>,
    trialIdentities: map<Subject, Id>,
    devices: map<Id, Device>,
    fingerprintOf: map<Id, Id>,
    credentials: map<Id, Credential>,
    digestOf: map<Id, Id>)

  const EmptyDb := Db(map[], map[], map[], map[], map[], map[], map[])

  datatype EntitlementError =
    | InvalidArgument | NotFound | Conflict
    | DeviceAlreadyUsed | DeviceOwnedByOther | DeviceInactive
    | TrialAlreadyUsed | InvalidExtension

  datatype Binding = Binding(userId: Id, subject: Subject, deviceId: Id, fingerprint: Option<Id>, digest: Id)

  /** The random row ids a call draws. */
  datatype NewIds = NewIds(trialId: Id, credentialId: Id)

  // ---------------------------------------------------------- row writes

  function RevokedCredentials(c: map<Id, Credential>, deviceId: Id, userId: Id, now: int): map<Id, Credential> {
    map id | id in c :: if c[id].deviceId == deviceId && c[id].userId == userId && c[id].revokedAt.None?
                        then c[id].(revokedAt := Some(now)) else c[id]
  }

  function InsertCredential(db: Db, id: Id, userId: Id, deviceId: Id, digest: Id): Result<Db, EntitlementError> {
    if id in db.credentials || digest in db.digestOf || deviceId !in db.devices || db.devices[deviceId].userId != userId
    then Err(Conflict)
    else Ok(db.(credentials := db.credentials[id := Credential(userId, deviceId, digest, None)],
                digestOf := db.digestOf[digest := id]))
  }

  /** COALESCE(?, fingerprint_hash) under the unique key on fingerprints. */
  function SetFingerprint(db: Db, deviceId: Id, fingerprint: Option<Id>): Result<Db, EntitlementError>
    requires deviceId in db.devices
  {
    if fingerprint.None? then Ok(db)
    else if fingerprint.value in db.fingerprintOf && db.fingerprintOf[fingerprint.value] != deviceId
         then Err(DeviceAlreadyUsed)
    else
      var previous := db.devices[deviceId].fingerprint;
      var freed := if previous.Some? then db.fingerprintOf - {previous.value} else db.fingerprintOf;
      Ok(db.(devices := db.devices[deviceId := db.devices[deviceId].(fingerprint := fingerprint)],
             fingerprintOf := freed[fingerprint.value := deviceId]))
  }

  function InsertDevice(db: Db, deviceId: Id, userId: Id, fingerprint: Option<Id>): Result<Db, EntitlementError>
    requires deviceId !in db.devices
  {
    SetFingerprint(db.(devices := db.devices[deviceId := Device(userId, Active, None)]), deviceId, fingerprint)
  }

  // -------------------------------------------------------- transactions

  predicate FingerprintTaken(db: Db, b: Binding) {
    b.fingerprint.Some? && b.fingerprint.value in db.fingerprintOf
    && db.fingerprintOf[b.fingerprint.value] in db.devices
    && db.devices[db.fingerprintOf[b.fingerprint.value]].userId != b.userId
  }

  /** A user who holds a trial gets a new credential for a device of their own. */
  function Reclaim(db: Db, now: int, b: Binding, ids: NewIds): Result<Db, EntitlementError> {
    if b.deviceId !in db.devices then Err(TrialAlreadyUsed)
    else if db.devices[b.deviceId].userId != b.userId then Err(DeviceOwnedByOther)
    else if db.devices[b.deviceId].status != Active then Err(DeviceInactive)
    else
      var updated := SetFingerprint(db, b.deviceId, b.fingerprint);
      if updated.Err? then updated
      else
        var credentials := RevokedCredentials(updated.value.credentials, b.deviceId, b.userId, now);
        InsertCredential(updated.value.(credentials := credentials), ids.credentialId, b.userId, b.deviceId, b.digest)
  }

  function StartTrial(db: Db, now: int, b: Binding, ids: NewIds): Result<Db, EntitlementError> {
    if b.deviceId in db.devices && db.devices[b.deviceId].userId != b.userId then Err(DeviceOwnedByOther)
    else if ids.trialId in db.trials || b.userId in db.trialOf || b.subject in db.trialIdentities
         then Err(TrialAlreadyUsed)
    else
      var started := db.(trials := db.trials[ids.trialId := Trial(b.userId, now, now + TrialWindow)],
                         trialOf := db.trialOf[b.userId := ids.trialId],
                         trialIdentities := db.trialIdentities[b.subject := ids.trialId]);
      var bound := if b.deviceId in db.devices then SetFingerprint(started, b.deviceId, b.fingerprint)
                   else InsertDevice(started, b.deviceId, b.userId, b.fingerprint);
      if bound.Err? then bound
      else InsertCredential(bound.value, ids.credentialId, b.userId, b.deviceId, b.digest)
  }

  function BindFirstDevice(db: Db, now: int, b: Binding, ids: NewIds): Result<Db, EntitlementError> {
    if b.userId == 0 || b.subject.provider == 0 || b.subject.subject == 0 || b.deviceId == 0 || b.digest == 0
    then Err(InvalidArgument)
    else if FingerprintTaken(db, b) then Err(DeviceAlreadyUsed)
    else if b.userId in db.trialOf then Reclaim(db, now, b, ids)
    else StartTrial(db, now, b, ids)
  }

  function ExtendTrial(db: Db, trialId: Id, newEndsAt: int): Result<Db, EntitlementError> {
    if trialId == 0 || newEndsAt == 0 then Err(InvalidArgument)
    else if trialId !in db.trials then Err(NotFound)
    else if newEndsAt <= db.trials[trialId].endsAt then Err(InvalidExtension)
    else Ok(db.(trials := db.trials[trialId := db.trials[trialId].(endsAt := newEndsAt)]))
  }

  predicate Owns(db: Db, userId: Id, deviceId: Id) {
    deviceId in db.devices && db.devices[deviceId].userId == userId
  }

  function WithStatus(db: Db, deviceId: Id, status: Status): Db
    requires deviceId in db.devices
  {
    db.(devices := db.devices[deviceId := db.devices[deviceId].(status := status)])
  }

  /** The dashboard's revocation: a device already revoked is left as it is. */
  function RevokeDevice(db: Db, now: int, userId: Id, deviceId: Id): Result<Db, EntitlementError> {
    if userId == 0 || deviceId == 0 || now == 0 then Err(InvalidArgument)
    else if !Owns(db, userId, deviceId) then Err(NotFound)
    else if db.devices[deviceId].status == Revoked then Ok(db)
    else
      var revoked := WithStatus(db, deviceId, Revoked);
      Ok(revoked.(credentials := RevokedCredentials(db.credentials, deviceId, userId, now)))
  }

  function RestoreDevice(db: Db, userId: Id, deviceId: Id): Result<Db, EntitlementError> {
    if !Owns(db, userId, deviceId) then Err(NotFound) else Ok(WithStatus(db, deviceId, Active))
  }

  function RotateCredential(db: Db, now: int, userId: Id, deviceId: Id, credentialId: Id,
                            digest: Id): Result<Db, EntitlementError> {
    if userId == 0 || deviceId == 0 then Err(InvalidArgument)
    else if !Owns(db, userId, deviceId) || db.devices[deviceId].status != Active then Err(NotFound)
    else InsertCredential(db.(credentials := RevokedCredentials(db.credentials, deviceId, userId, now)), credentialId,
                          userId, deviceId, digest)
  }

  /** `known`: a row for the user exists. */
  function RecoverIdentity(db: Db, now: int, userId: Id, known: bool): Result<Db, EntitlementError> {
    if userId == 0 then Err(InvalidArgument)
    else if !known then Err(NotFound)
    else Ok(db.(credentials := map id | id in db.credentials ::
                  if db.credentials[id].userId == userId && db.credentials[id].revokedAt.None?
                  then db.credentials[id].(revokedAt := Some(now)) else db.credentials[id]))
  }

  /** The other revocation, of the entitlement store: it marks the device and
      its licence bindings, and leaves its credentials as they are. */
  function StoreRevokeDevice(db: Db, deviceId: Id): Result<Db, EntitlementError> {
    if deviceId == 0 then Err(InvalidArgument)
    else if deviceId !in db.devices then Err(NotFound)
    else Ok(WithStatus(db, deviceId, Revoked))
  }

  /** The same transactions as the store runs them, over tables it updates. */
  class EntitlementStore {
    var trials: map<Id, Trial>
    var trialOf: map<Id, Id>
    var trialIdentities: map<Subject, Id>
    var devices: map<Id, Device>
    var fingerprintOf: map<Id, Id>
    var credentials: map<Id, Credential>
    var digestOf: map<Id, Id>

    ghost function View(): Db
      reads this
    {
      Db(trials, trialOf, trialIdentities, devices, fingerprintOf, credentials, digestOf)
    }

    constructor ()
      ensures View() == EmptyDb
    {
      trials, trialOf, trialIdentities, devices := map[], map[], map[], map[];
      fingerprintOf, credentials, digestOf := map[], map[], map[];
    }

    method Commit(db: Db)
      modifies this
      ensures View() == db
    {
      trials, trialOf, trialIdentities, devices := db.trials, db.trialOf, db.trialIdentities, db.devices;
      fingerprintOf, credentials, digestOf := db.fingerprintOf, db.credentials, db.digestOf;
    }

    method BindFirst(now: int, b: Binding, ids: NewIds) returns (err: Option<EntitlementError>)
      modifies this
      ensures var done := BindFirstDevice(old(View()), now, b, ids);
              && err == (if done.Ok? then None else Some(done.error))
              && View() == if done.Ok? then done.value else old(View())
    {
      if b.userId == 0 || b.subject.provider == 0 || b.subject.subject == 0 || b.deviceId == 0 || b.digest == 0 {
        return Some(InvalidArgument);
      }
      var tx := Db(trials, trialOf, trialIdentities, devices, fingerprintOf, credentials, digestOf);
      if FingerprintTaken(tx, b) {
        return Some(DeviceAlreadyUsed);
      }
      var known := b.deviceId in tx.devices;
      if b.userId in tx.trialOf {
        if !known {
          return Some(TrialAlreadyUsed);
        }
        if tx.devices[b.deviceId].userId != b.userId {
          return Some(DeviceOwnedByOther);
        }
        if tx.devices[b.deviceId].status != Active {
          return Some(DeviceInactive);
        }
        var updated := SetFingerprint(tx, b.deviceId, b.fingerprint);
        if updated.Err? {
          return Some(updated.error);
        }
        tx := updated.value;
        tx := tx.(credentials := RevokedCredentials(tx.credentials, b.deviceId, b.userId, now));
      } else {
        if known && tx.devices[b.deviceId].userId != b.userId {
          return Some(DeviceOwnedByOther);
        }
        if ids.trialId in tx.trials || b.subject in tx.trialIdentities {
          return Some(TrialAlreadyUsed);
        }
        tx := tx.(trials := tx.trials[ids.trialId := Trial(b.userId, now, now + TrialWindow)],
                  trialOf := tx.trialOf[b.userId := ids.trialId]);
        tx := tx.(trialIdentities := tx.trialIdentities[b.subject := ids.trialId]);
        var bound := if known then SetFingerprint(tx, b.deviceId, b.fingerprint)
                     else InsertDevice(tx, b.deviceId, b.userId, b.fingerprint);
        if bound.Err? {
          return Some(bound.error);
        }
        tx := bound.value;
      }
      var inserted := InsertCredential(tx, ids.credentialId, b.userId, b.deviceId, b.digest);
      if inserted.Err? {
        return Some(inserted.error);
      }
      Commit(inserted.value);
      err := None;
    }

    method Extend(trialId: Id, newEndsAt: int) returns (err: Option<EntitlementError>)
      modifies this`trials
      ensures var done := ExtendTrial(old(View()), trialId, newEndsAt);
              && err == (if done.Ok? then None else Some(done.error))
              && View() == if done.Ok? then done.value else old(View())
    {
      if trialId == 0 || newEndsAt == 0 {
        return Some(InvalidArgument);
      }
      if trialId !in trials {
        return Some(NotFound);
      }
      if newEndsAt <= trials[trialId].endsAt {
        return Some(InvalidExtension);
      }
      trials := trials[trialId := trials[trialId].(endsAt := newEndsAt)];
      err := None;
    }

    method Revoke(now: int, userId: Id, deviceId: Id) returns (err: Option<EntitlementError>)
      modifies this`devices, this`credentials
      ensures var done := RevokeDevice(old(View()), now, userId, deviceId);
              && err == (if done.Ok? then None else Some(done.error))
              && View() == if done.Ok? then done.value else old(View())
    {
      if userId == 0 || deviceId == 0 || now == 0 {
        return Some(InvalidArgument);
      }
      if deviceId !in devices || devices[deviceId].userId != userId {
        return Some(NotFound);
      }
      if devices[deviceId].status == Revoked {
        return None;
      }
      devices := devices[deviceId := devices[deviceId].(status := Revoked)];
      credentials := RevokedCredentials(credentials, deviceId, userId, now);
      err := None;
    }

    method Rotate(now: int, userId: Id, deviceId: Id, credentialId: Id,
                  digest: Id) returns (err: Option<EntitlementError>)
      modifies this`credentials, this`digestOf
      ensures var done := RotateCredential(old(View()), now, userId, deviceId, credentialId, digest);
              && err == (if done.Ok? then None else Some(done.error))
              && View() == if done.Ok? then done.value else old(View())
    {
      if userId == 0 || deviceId == 0 {
        return Some(InvalidArgument);
      }
      if deviceId !in devices || devices[deviceId].userId != userId || devices[deviceId].status != Active {
        return Some(NotFound);
      }
      var revoked := RevokedCredentials(credentials, deviceId, userId, now);
      if credentialId in revoked || digest in digestOf {
        return Some(Conflict);
      }
      credentials := revoked[credentialId := Credential(userId, deviceId, digest, None)];
      digestOf := digestOf[digest := credentialId];
      err := None;
    }
  }
}
