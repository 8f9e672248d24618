/** What each transaction does to trials, devices and credentials: exactly which
    rows it changes and when, told from the rows alone. */
module EntitlementEffects {
  import opened Common
  import opened Entitlements
  import opened EntitlementRuns

  // ---------------------------------------------------- the digest index

  ghost predicate DigestsInv(credentials: map<Id, Credential>, digestOf: map<Id, Id>) {
    && (forall c :: c in credentials ==> credentials[c].digest in digestOf && digestOf[credentials[c].digest] == c)
    && (forall g :: g in digestOf ==> digestOf[g] in credentials && credentials[digestOf[g]].digest == g)
  }

  lemma RevokedDigests(c: map<Id, Credential>, n: map<Id, Credential>, digestOf: map<Id, Id>)
    requires DigestsInv(c, digestOf) && n.Keys == c.Keys
    requires forall id :: id in n ==> n[id] == c[id].(revokedAt := n[id].revokedAt)
    ensures DigestsInv(n, digestOf)
  {
  }

  lemma InsertedDigests(c: map<Id, Credential>, digestOf: map<Id, Id>, id: Id, row: Credential)
    requires DigestsInv(c, digestOf) && id !in c && row.digest !in digestOf
    ensures DigestsInv(c[id := row], digestOf[row.digest := id])
  {
  }

  lemma RevokedAre(c: map<Id, Credential>, deviceId: Id, userId: Id, now: int)
    ensures var n := RevokedCredentials(c, deviceId, userId, now);
            n.Keys == c.Keys && forall id :: id in n ==> n[id] == c[id].(revokedAt := n[id].revokedAt)
  {
  }

  lemma FingerprintAlone(db: Db, deviceId: Id, fingerprint: Option<Id>)
    requires deviceId in db.devices
    ensures var n := SetFingerprint(db, deviceId, fingerprint);
            n.Ok? ==> n.value.credentials == db.credentials && n.value.digestOf == db.digestOf
  {
  }

  lemma InsertDigests(db: Db, id: Id, userId: Id, deviceId: Id, digest: Id)
    requires DigestsInv(db.credentials, db.digestOf)
    ensures var n := InsertCredential(db, id, userId, deviceId, digest);
            n.Ok? ==> DigestsInv(n.value.credentials, n.value.digestOf)
  {
    hide DigestsInv;
    if InsertCredential(db, id, userId, deviceId, digest).Ok? {
      InsertedDigests(db.credentials, db.digestOf, id, Credential(userId, deviceId, digest, None));
    }
  }

  lemma BindDigests(db: Db, now: int, b: Binding, ids: NewIds)
    requires DigestsInv(db.credentials, db.digestOf)
    ensures var n := BindFirstDevice(db, now, b, ids);
            n.Ok? ==> DigestsInv(n.value.credentials, n.value.digestOf)
  {
    hide DigestsInv, FingerprintTaken, SetFingerprint, RevokedCredentials, InsertCredential;
    if b.userId in db.trialOf {
      if b.deviceId in db.devices {
        FingerprintAlone(db, b.deviceId, b.fingerprint);
        var updated := SetFingerprint(db, b.deviceId, b.fingerprint);
        if updated.Ok? {
          RevokedAre(db.credentials, b.deviceId, b.userId, now);
          var left := RevokedCredentials(db.credentials, b.deviceId, b.userId, now);
          RevokedDigests(db.credentials, left, db.digestOf);
          InsertDigests(updated.value.(credentials := left), ids.credentialId, b.userId, b.deviceId, b.digest);
        }
      }
    } else {
      var started := db.(trials := db.trials[ids.trialId := Trial(b.userId, now, now + TrialWindow)],
                         trialOf := db.trialOf[b.userId := ids.trialId],
                         trialIdentities := db.trialIdentities[b.subject := ids.trialId]);
      var registered := if b.deviceId in db.devices then started
                        else started.(devices := db.devices[b.deviceId := Device(b.userId, Active, None)]);
      FingerprintAlone(registered, b.deviceId, b.fingerprint);
      var bound := SetFingerprint(registered, b.deviceId, b.fingerprint);
      if bound.Ok? { InsertDigests(bound.value, ids.credentialId, b.userId, b.deviceId, b.digest); }
    }
  }

  lemma DigestsStep(db: Db, step: Step)
    requires DigestsInv(db.credentials, db.digestOf)
    ensures var n := Transaction(db, step); n.Ok? ==> DigestsInv(n.value.credentials, n.value.digestOf)
  {
    hide DigestsInv, BindFirstDevice, RevokedCredentials, InsertCredential;
    match step
    case Bind(now, b, ids) => BindDigests(db, now, b, ids);
    case Revoke(now, userId, deviceId) =>
      RevokedAre(db.credentials, deviceId, userId, now);
      RevokedDigests(db.credentials, RevokedCredentials(db.credentials, deviceId, userId, now), db.digestOf);
    case Rotate(now, userId, deviceId, credentialId, digest) =>
      RevokedAre(db.credentials, deviceId, userId, now);
      var left := RevokedCredentials(db.credentials, deviceId, userId, now);
      RevokedDigests(db.credentials, left, db.digestOf);
      InsertDigests(db.(credentials := left), credentialId, userId, deviceId, digest);
    case Recover(now, userId, known) =>
      if Transaction(db, step).Ok? {
        RevokedDigests(db.credentials, Transaction(db, step).value.credentials, db.digestOf);
      }
    case _ =>
  }

  lemma {:induction false} DigestsRun(s: State, steps: seq<Step>)
    requires DigestsInv(s.db.credentials, s.db.digestOf)
    ensures var n := Run(s, steps); DigestsInv(n.db.credentials, n.db.digestOf)
    decreases |steps|
  {
    hide DigestsInv, Next, Transaction;
    if steps != [] {
      NextDb(s, steps[0]);
      DigestsStep(s.db, steps[0]);
      DigestsRun(Next(s, steps[0]), steps[1..]);
    }
  }

  lemma ReachDigests(steps: seq<Step>)
    ensures DigestsInv(Reach(steps).db.credentials, Reach(steps).db.digestOf)
  {
    hide Run;
    DigestsRun(Initial, steps);
  }

  // -------------------------------------- what each transaction asks for

  ghost predicate HoldsTrial(s: State, userId: Id) {
    exists id :: id in s.db.trials && s.db.trials[id].userId == userId
  }

  ghost predicate SubjectUsed(s: State, subject: Subject) {
    exists id :: id in s.subjectOf && s.subjectOf[id] == subject
  }

  /** No device but this one has the fingerprint. */
  ghost predicate FingerprintFree(devices: map<Id, Device>, fingerprint: Option<Id>, deviceId: Id) {
    fingerprint.Some? ==> forall d :: d in devices && devices[d].fingerprint == fingerprint ==> d == deviceId
  }

  ghost predicate DigestUsed(credentials: map<Id, Credential>, digest: Id) {
    exists c :: c in credentials && credentials[c].digest == digest
  }

  /** A credential can be stored. */
  ghost predicate CredentialNew(s: State, id: Id, digest: Id) {
    id !in s.db.credentials && !DigestUsed(s.db.credentials, digest)
  }

  predicate ActiveFor(db: Db, userId: Id, deviceId: Id) {
    deviceId in db.devices && db.devices[deviceId].userId == userId && db.devices[deviceId].status == Active
  }

  predicate Complete(b: Binding) {
    b.userId != 0 && b.subject.provider != 0 && b.subject.subject != 0 && b.deviceId != 0 && b.digest != 0
  }

  /** A binding succeeds: for a user with a trial on an active device of theirs,
      else on a device nobody has, with an identity that started no trial. */
  ghost predicate Binds(s: State, b: Binding, ids: NewIds) {
    && Complete(b) && CredentialNew(s, ids.credentialId, b.digest)
    && FingerprintFree(s.db.devices, b.fingerprint, b.deviceId)
    && if HoldsTrial(s, b.userId) then ActiveFor(s.db, b.userId, b.deviceId)
       else b.deviceId !in s.db.devices && ids.trialId !in s.db.trials && !SubjectUsed(s, b.subject)
  }

  ghost predicate Rotates(s: State, userId: Id, deviceId: Id, credentialId: Id, digest: Id) {
    userId != 0 && deviceId != 0 && ActiveFor(s.db, userId, deviceId) && CredentialNew(s, credentialId, digest)
  }

  lemma TrialIndex(s: State, userId: Id)
    requires TrialsInv(s.db.trials, s.db.trialOf)
    ensures HoldsTrial(s, userId) <==> userId in s.db.trialOf
  {
  }

  lemma SubjectIndex(s: State, subject: Subject)
    requires SubjectsInv(s.db.trials, s.db.trialIdentities, s.subjectOf)
    ensures SubjectUsed(s, subject) <==> subject in s.db.trialIdentities
  {
  }

  lemma FingerprintIndex(devices: map<Id, Device>, trialOf: map<Id, Id>, fingerprintOf: map<Id, Id>,
                         fingerprint: Option<Id>, deviceId: Id)
    requires DevicesInv(devices, trialOf, fingerprintOf)
    ensures FingerprintFree(devices, fingerprint, deviceId) <==>
              (fingerprint.Some? && fingerprint.value in fingerprintOf ==> fingerprintOf[fingerprint.value] == deviceId)
  {
  }

  lemma DigestIndex(db: Db, digest: Id)
    requires DigestsInv(db.credentials, db.digestOf)
    ensures DigestUsed(db.credentials, digest) <==> digest in db.digestOf
  {
  }

  /** What comes of a fingerprint that is free. */
  lemma SetIfFree(db: Db, deviceId: Id, fingerprint: Option<Id>)
    requires deviceId in db.devices && DevicesInv(db.devices, db.trialOf, db.fingerprintOf)
    ensures var n := SetFingerprint(db, deviceId, fingerprint);
            && (n.Ok? <==> FingerprintFree(db.devices, fingerprint, deviceId))
            && (n.Ok? ==>
                  && n.value == db.(devices := n.value.devices, fingerprintOf := n.value.fingerprintOf)
                  && n.value.devices == db.devices[deviceId :=
                       if fingerprint.Some? then db.devices[deviceId].(fingerprint := fingerprint)
                       else db.devices[deviceId]])
  {
    FingerprintIndex(db.devices, db.trialOf, db.fingerprintOf, fingerprint, deviceId);
    hide DevicesInv, FingerprintFree;
  }

  // ------------------------------------------------------------- effects

  function TrialsAfter(s: State, step: Step, ok: bool): map<Id, Trial> {
    match step
    case Bind(now, b, ids) =>
      if ok then s.db.trials[ids.trialId := Trial(b.userId, now, now + TrialWindow)] else s.db.trials
    case Extend(trialId, newEndsAt) =>
      if trialId != 0 && newEndsAt != 0 && trialId in s.db.trials && s.db.trials[trialId].endsAt < newEndsAt
      then s.db.trials[trialId := s.db.trials[trialId].(endsAt := newEndsAt)] else s.db.trials
    case _ => s.db.trials
  }

  /** A trial begins with the first binding of a user, lasts the window from then
      on, and only a later end ever changes it. */
  lemma TrialsExact(steps: seq<Step>, step: Step)
    ensures var s := Reach(steps);
            Next(s, step).db.trials
            == TrialsAfter(s, step, step.Bind? && !HoldsTrial(s, step.b.userId) && Binds(s, step.b, step.ids))
  {
    hide Inv, Run, Binds, DigestsInv, HoldsTrial;
    ReachInv(steps);
    ReachDigests(steps);
    var s := Reach(steps);
    match step
    case Bind(now, b, ids) => BindEffect(s, now, b, ids);
    case Rotate(now, userId, deviceId, credentialId, digest) =>
      RotateEffect(s, now, userId, deviceId, credentialId, digest);
    case _ => OtherTrials(s, step);
  }

  lemma OtherTrials(s: State, step: Step)
    requires !step.Bind? && !step.Rotate?
    ensures Next(s, step).db.trials == TrialsAfter(s, step, false)
  {
    hide RevokedCredentials;
  }

  lemma BindEffect(s: State, now: int, b: Binding, ids: NewIds)
    requires Inv(s) && DigestsInv(s.db.credentials, s.db.digestOf)
    ensures var n := Next(s, Bind(now, b, ids)).db;
            && (!Binds(s, b, ids) ==> n == s.db)
            && (Binds(s, b, ids) ==>
                  && n.devices == DevicesBound(s.db, b)
                  && n.credentials == RevokedCredentials(s.db.credentials, b.deviceId, b.userId, now)
                                        [ids.credentialId := Credential(b.userId, b.deviceId, b.digest, None)]
                  && n.trials == if HoldsTrial(s, b.userId) then s.db.trials
                                 else s.db.trials[ids.trialId := Trial(b.userId, now, now + TrialWindow)])
  {
    hide Inv, HoldsTrial, SubjectUsed, FingerprintFree, DigestUsed, SetFingerprint, RevokedCredentials, Reclaim,
         StartTrial, DigestsInv;
    assert HoldsTrial(s, b.userId) <==> b.userId in s.db.trialOf by { PartsOf(s); TrialIndex(s, b.userId); }
    if b.userId in s.db.trialOf {
      ReclaimEffect(s, now, b, ids);
    } else {
      StartEffect(s, now, b, ids);
    }
  }

  lemma BindIffBinds(s: State, now: int, b: Binding, ids: NewIds)
    requires Inv(s) && DigestsInv(s.db.credentials, s.db.digestOf)
    ensures BindFirstDevice(s.db, now, b, ids).Ok? <==> Binds(s, b, ids)
  {
    hide Inv, HoldsTrial, SubjectUsed, FingerprintFree, DigestUsed, SetFingerprint, RevokedCredentials, DigestsInv,
         BindFirstDevice;
    assert HoldsTrial(s, b.userId) <==> b.userId in s.db.trialOf by { PartsOf(s); TrialIndex(s, b.userId); }
    if b.userId in s.db.trialOf { ReclaimEffect(s, now, b, ids); } else { StartEffect(s, now, b, ids); }
  }

  lemma PartsOf(s: State)
    requires Inv(s)
    ensures TrialsInv(s.db.trials, s.db.trialOf)
    ensures SubjectsInv(s.db.trials, s.db.trialIdentities, s.subjectOf)
    ensures DevicesInv(s.db.devices, s.db.trialOf, s.db.fingerprintOf)
    ensures CredentialsInv(s.db.credentials, s.db.devices)
  {
    hide TrialsInv, SubjectsInv, DevicesInv, CredentialsInv, RevokedInv, BypassedInv;
  }

  /** The devices once a binding went through. */
  function DevicesBound(db: Db, b: Binding): map<Id, Device> {
    var was := if b.deviceId in db.devices then db.devices[b.deviceId] else Device(b.userId, Active, None);
    db.devices[b.deviceId := if b.fingerprint.Some? then was.(fingerprint := b.fingerprint) else was]
  }

  lemma Taken(s: State, b: Binding)
    requires DevicesInv(s.db.devices, s.db.trialOf, s.db.fingerprintOf)
    requires ActiveFor(s.db, b.userId, b.deviceId) || b.deviceId !in s.db.devices
    ensures FingerprintTaken(s.db, b) ==> !FingerprintFree(s.db.devices, b.fingerprint, b.deviceId)
  {
  }

  lemma ReclaimEffect(s: State, now: int, b: Binding, ids: NewIds)
    requires Inv(s) && DigestsInv(s.db.credentials, s.db.digestOf) && b.userId in s.db.trialOf
    ensures var n := BindFirstDevice(s.db, now, b, ids);
            && (n.Ok? <==> Complete(b) && CredentialNew(s, ids.credentialId, b.digest)
                           && FingerprintFree(s.db.devices, b.fingerprint, b.deviceId)
                           && ActiveFor(s.db, b.userId, b.deviceId))
            && (n.Ok? ==> n.value.trials == s.db.trials && n.value.devices == DevicesBound(s.db, b)
                          && n.value.credentials == RevokedCredentials(s.db.credentials, b.deviceId, b.userId, now)
                               [ids.credentialId := Credential(b.userId, b.deviceId, b.digest, None)])
  {
    hide Inv, TrialsInv, SubjectsInv, DevicesInv, CredentialsInv, FingerprintFree, SetFingerprint, DigestsInv,
         DigestUsed, FingerprintTaken, RevokedCredentials, InsertCredential;
    PartsOf(s);
    DigestIndex(s.db, b.digest);
    RevokedAre(s.db.credentials, b.deviceId, b.userId, now);
    if ActiveFor(s.db, b.userId, b.deviceId) {
      Taken(s, b);
      SetIfFree(s.db, b.deviceId, b.fingerprint);
      var bound := SetFingerprint(s.db, b.deviceId, b.fingerprint);
      if bound.Ok? {
        var left := RevokedCredentials(bound.value.credentials, b.deviceId, b.userId, now);
        InsertEffect(bound.value.(credentials := left), ids.credentialId, b.userId, b.deviceId, b.digest);
      }
    }
  }

  lemma StartEffect(s: State, now: int, b: Binding, ids: NewIds)
    requires Inv(s) && DigestsInv(s.db.credentials, s.db.digestOf) && b.userId !in s.db.trialOf
    ensures var n := BindFirstDevice(s.db, now, b, ids);
            && (n.Ok? <==> Complete(b) && CredentialNew(s, ids.credentialId, b.digest)
                           && FingerprintFree(s.db.devices, b.fingerprint, b.deviceId)
                           && b.deviceId !in s.db.devices && ids.trialId !in s.db.trials
                           && !SubjectUsed(s, b.subject))
            && (n.Ok? ==> n.value.devices == DevicesBound(s.db, b)
                          && n.value.trials == s.db.trials[ids.trialId := Trial(b.userId, now, now + TrialWindow)]
                          && n.value.credentials == RevokedCredentials(s.db.credentials, b.deviceId, b.userId, now)
                               [ids.credentialId := Credential(b.userId, b.deviceId, b.digest, None)])
  {
    hide Inv, TrialsInv, SubjectsInv, DevicesInv, CredentialsInv, FingerprintFree, SetFingerprint, DigestsInv,
         DigestUsed, SubjectUsed, FingerprintTaken, RevokedCredentials, InsertCredential, StartTrial, DevicesBound;
    PartsOf(s);
    DigestIndex(s.db, b.digest);
    SubjectIndex(s, b.subject);
    StartIs(s, now, b, ids);
    if b.deviceId !in s.db.devices {
      Taken(s, b);
      NoneToRevoke(s, b.deviceId, b.userId, now);
      var registered := Registration(s.db, now, b, ids);
      Registered(s.db, registered, b);
      SetIfFree(registered, b.deviceId, b.fingerprint);
      var bound := SetFingerprint(registered, b.deviceId, b.fingerprint);
      if bound.Ok? {
        InsertEffect(bound.value, ids.credentialId, b.userId, b.deviceId, b.digest);
        BoundDevices(s.db, now, b, ids);
      }
    }
  }

  /** The tables with the trial started and the device in them. */
  ghost function Registration(db: Db, now: int, b: Binding, ids: NewIds): Db {
    db.(trials := db.trials[ids.trialId := Trial(b.userId, now, now + TrialWindow)],
        trialOf := db.trialOf[b.userId := ids.trialId],
        trialIdentities := db.trialIdentities[b.subject := ids.trialId],
        devices := db.devices[b.deviceId := Device(b.userId, Active, None)])
  }

  lemma StartIs(s: State, now: int, b: Binding, ids: NewIds)
    requires DevicesInv(s.db.devices, s.db.trialOf, s.db.fingerprintOf) && b.userId !in s.db.trialOf
    ensures var n := StartTrial(s.db, now, b, ids);
            if b.deviceId in s.db.devices || ids.trialId in s.db.trials || b.subject in s.db.trialIdentities then n.Err?
            else
              var bound := SetFingerprint(Registration(s.db, now, b, ids), b.deviceId, b.fingerprint);
              n == if bound.Err? then bound
                   else InsertCredential(bound.value, ids.credentialId, b.userId, b.deviceId, b.digest)
  {
    hide DevicesInv, SetFingerprint, InsertCredential;
    assert b.deviceId in s.db.devices ==> s.db.devices[b.deviceId].userId != b.userId by { OwnersHoldTrials(s); }
  }

  lemma BoundDevices(db: Db, now: int, b: Binding, ids: NewIds)
    requires b.deviceId !in db.devices
    ensures var registered := Registration(db, now, b, ids).devices;
            DevicesBound(db, b) == registered[b.deviceId :=
                                     if b.fingerprint.Some? then registered[b.deviceId].(fingerprint := b.fingerprint)
                                     else registered[b.deviceId]]
  {
  }

  lemma OwnersHoldTrials(s: State)
    requires DevicesInv(s.db.devices, s.db.trialOf, s.db.fingerprintOf)
    ensures forall d :: d in s.db.devices ==> s.db.devices[d].userId in s.db.trialOf
  {
  }

  lemma Registered(db: Db, n: Db, b: Binding)
    requires DevicesInv(db.devices, db.trialOf, db.fingerprintOf) && b.deviceId !in db.devices
    requires n.devices == db.devices[b.deviceId := Device(b.userId, Active, None)]
    requires n.fingerprintOf == db.fingerprintOf && b.userId in n.trialOf && db.trialOf.Keys <= n.trialOf.Keys
    ensures DevicesInv(n.devices, n.trialOf, n.fingerprintOf)
    ensures FingerprintFree(n.devices, b.fingerprint, b.deviceId)
            <==> FingerprintFree(db.devices, b.fingerprint, b.deviceId)
  {
  }

  lemma NoneToRevoke(s: State, deviceId: Id, userId: Id, now: int)
    requires CredentialsInv(s.db.credentials, s.db.devices) && deviceId !in s.db.devices
    ensures RevokedCredentials(s.db.credentials, deviceId, userId, now) == s.db.credentials
  {
  }

  lemma RotateEffect(s: State, now: int, userId: Id, deviceId: Id, credentialId: Id, digest: Id)
    requires Inv(s) && DigestsInv(s.db.credentials, s.db.digestOf)
    ensures var n := Next(s, Rotate(now, userId, deviceId, credentialId, digest)).db;
            && n.trials == s.db.trials && n.devices == s.db.devices
            && n.credentials == if Rotates(s, userId, deviceId, credentialId, digest)
                                then RevokedCredentials(s.db.credentials, deviceId, userId, now)
                                       [credentialId := Credential(userId, deviceId, digest, None)]
                                else s.db.credentials
  {
    hide Inv, DigestsInv, DigestUsed, RevokedCredentials, InsertCredential;
    DigestIndex(s.db, digest);
    RevokedAre(s.db.credentials, deviceId, userId, now);
    InsertEffect(s.db.(credentials := RevokedCredentials(s.db.credentials, deviceId, userId, now)), credentialId,
                 userId, deviceId, digest);
  }

  lemma InsertEffect(db: Db, id: Id, userId: Id, deviceId: Id, digest: Id)
    ensures var n := InsertCredential(db, id, userId, deviceId, digest);
            && (n.Ok? <==> id !in db.credentials && digest !in db.digestOf && Owned(db, userId, deviceId))
            && (n.Ok? ==> n.value.trials == db.trials && n.value.devices == db.devices
                          && n.value.credentials == db.credentials[id := Credential(userId, deviceId, digest, None)])
  {
  }

  // -------------------------------------------------------------- devices

  predicate Owned(db: Db, userId: Id, deviceId: Id) {
    deviceId in db.devices && db.devices[deviceId].userId == userId
  }

  function DevicesAfter(s: State, step: Step, ok: bool): map<Id, Device> {
    match step
    case Bind(now, b, ids) => if ok then DevicesBound(s.db, b) else s.db.devices
    case Revoke(now, userId, deviceId) =>
      if userId != 0 && deviceId != 0 && now != 0 && Owned(s.db, userId, deviceId)
      then s.db.devices[deviceId := s.db.devices[deviceId].(status := Revoked)] else s.db.devices
    case Restore(userId, deviceId) =>
      if Owned(s.db, userId, deviceId)
      then s.db.devices[deviceId := s.db.devices[deviceId].(status := Active)] else s.db.devices
    case StoreRevoke(deviceId) =>
      if deviceId != 0 && deviceId in s.db.devices
      then s.db.devices[deviceId := s.db.devices[deviceId].(status := Revoked)] else s.db.devices
    case _ => s.db.devices
  }

  /** A device comes with a binding, is marked and restored for its owner alone,
      and keeps its fingerprint unless a binding brings another. */
  lemma DevicesExact(steps: seq<Step>, step: Step)
    ensures var s := Reach(steps);
            Next(s, step).db.devices == DevicesAfter(s, step, step.Bind? && Binds(s, step.b, step.ids))
  {
    hide Inv, Run, Binds, DigestsInv, HoldsTrial, DevicesBound;
    ReachInv(steps);
    ReachDigests(steps);
    var s := Reach(steps);
    match step
    case Bind(now, b, ids) => BindEffect(s, now, b, ids);
    case Rotate(now, userId, deviceId, credentialId, digest) =>
      RotateEffect(s, now, userId, deviceId, credentialId, digest);
    case _ => OtherDevices(s, step);
  }

  lemma OtherDevices(s: State, step: Step)
    requires !step.Bind? && !step.Rotate?
    ensures Next(s, step).db.devices == DevicesAfter(s, step, false)
  {
    hide RevokedCredentials;
  }

  // ---------------------------------------------------------- credentials

  /** The live credentials a step stops, and when. */
  ghost predicate Stops(s: State, step: Step, row: Credential) {
    match step
    case Bind(now, b, ids) => Binds(s, b, ids) && row.deviceId == b.deviceId
    case Revoke(now, userId, deviceId) =>
      now != 0 && userId != 0 && deviceId != 0 && row.deviceId == deviceId && ActiveFor(s.db, userId, deviceId)
    case Rotate(now, userId, deviceId, credentialId, digest) =>
      Rotates(s, userId, deviceId, credentialId, digest) && row.deviceId == deviceId
    case Recover(now, userId, known) => userId != 0 && known && row.userId == userId
    case _ => false
  }

  function TimeOf(step: Step): int {
    match step
    case Bind(now, _, _) => now
    case Revoke(now, _, _) => now
    case Rotate(now, _, _, _, _) => now
    case Recover(now, _, _) => now
    case _ => 0
  }

  /** The credential a step issues. */
  ghost predicate Issues(s: State, step: Step, id: Id, row: Credential) {
    match step
    case Bind(now, b, ids) =>
      Binds(s, b, ids) && id == ids.credentialId && row == Credential(b.userId, b.deviceId, b.digest, None)
    case Rotate(now, userId, deviceId, credentialId, digest) =>
      Rotates(s, userId, deviceId, credentialId, digest) && id == credentialId
      && row == Credential(userId, deviceId, digest, None)
    case _ => false
  }

  /** A credential there already, as the step leaves it. */
  ghost function Left(s: State, step: Step, was: Credential): Credential {
    if was.revokedAt.None? && Stops(s, step, was) then was.(revokedAt := Some(TimeOf(step))) else was
  }

  /** A credential is as it was, was stopped by this step, or is the one issued:
      a binding and a rotation stop those of their device, a revocation those of
      a device that is active, a recovery those of its user; nothing else does,
      and none is ever live again. */
  lemma CredentialsExact(steps: seq<Step>, step: Step, id: Id, row: Credential)
    ensures var s := Reach(steps);
            var n := Next(s, step).db.credentials;
            (id in n && n[id] == row) <==>
              Issues(s, step, id, row) || (id in s.db.credentials && row == Left(s, step, s.db.credentials[id]))
  {
    hide Inv, Run, Stops, Issues, Next, DigestsInv, Left;
    ReachInv(steps);
    ReachDigests(steps);
    var s := Reach(steps);
    match step
    case Bind(now, b, ids) => BindCredentials(s, now, b, ids, id, row);
    case Rotate(now, userId, deviceId, credentialId, digest) =>
      RotateCredentials(s, now, userId, deviceId, credentialId, digest, id, row);
    case Revoke(now, userId, deviceId) => RevokeCredentials(s, now, userId, deviceId, id, row);
    case Recover(now, userId, known) => RecoverCredentials(s, now, userId, known, id, row);
    case _ => OtherCredentials(s, step, id, row);
  }

  /** A device's live credentials are all its owner's, so all are revoked. */
  lemma RevokedExactly(s: State, deviceId: Id, userId: Id, now: int, id: Id)
    requires CredentialsInv(s.db.credentials, s.db.devices)
    requires deviceId in s.db.devices ==> s.db.devices[deviceId].userId == userId
    ensures var c, n := s.db.credentials, RevokedCredentials(s.db.credentials, deviceId, userId, now);
            && (id in n <==> id in c)
            && (id in n ==> n[id] == if c[id].deviceId == deviceId && c[id].revokedAt.None?
                                     then c[id].(revokedAt := Some(now)) else c[id])
  {
  }

  lemma BindCredentials(s: State, now: int, b: Binding, ids: NewIds, id: Id, row: Credential)
    requires Inv(s) && DigestsInv(s.db.credentials, s.db.digestOf)
    ensures var step := Bind(now, b, ids);
            var n := Next(s, step).db.credentials;
            (id in n && n[id] == row) <==>
              Issues(s, step, id, row) || (id in s.db.credentials && row == Left(s, step, s.db.credentials[id]))
  {
    hide Inv, Next, Binds, DigestsInv, HoldsTrial, RevokedCredentials, DevicesBound;
    BindEffect(s, now, b, ids);
    if Binds(s, b, ids) {
      BindsOwned(s, b, ids);
      PartsOf(s);
      RevokedExactly(s, b.deviceId, b.userId, now, id);
    }
  }

  lemma BindsOwned(s: State, b: Binding, ids: NewIds)
    requires Binds(s, b, ids)
    ensures b.deviceId in s.db.devices ==> s.db.devices[b.deviceId].userId == b.userId
    ensures ids.credentialId !in s.db.credentials
  {
  }

  lemma RotateCredentials(s: State, now: int, userId: Id, deviceId: Id, credentialId: Id, digest: Id, id: Id,
                          row: Credential)
    requires Inv(s) && DigestsInv(s.db.credentials, s.db.digestOf)
    ensures var step := Rotate(now, userId, deviceId, credentialId, digest);
            var n := Next(s, step).db.credentials;
            (id in n && n[id] == row) <==>
              Issues(s, step, id, row) || (id in s.db.credentials && row == Left(s, step, s.db.credentials[id]))
  {
    hide Inv, Next, Rotates, DigestsInv, RevokedCredentials;
    RotateEffect(s, now, userId, deviceId, credentialId, digest);
    if Rotates(s, userId, deviceId, credentialId, digest) {
      RotatesOwned(s, userId, deviceId, credentialId, digest);
      PartsOf(s);
      RevokedExactly(s, deviceId, userId, now, id);
    }
  }

  lemma RotatesOwned(s: State, userId: Id, deviceId: Id, credentialId: Id, digest: Id)
    requires Rotates(s, userId, deviceId, credentialId, digest)
    ensures deviceId in s.db.devices && s.db.devices[deviceId].userId == userId
    ensures credentialId !in s.db.credentials
  {
  }

  lemma RevokeCredentials(s: State, now: int, userId: Id, deviceId: Id, id: Id, row: Credential)
    requires Inv(s)
    ensures var step := Revoke(now, userId, deviceId);
            var n := Next(s, step).db.credentials;
            && !Issues(s, step, id, row)
            && (id in n <==> id in s.db.credentials) && (id in n ==> n[id] == Left(s, step, s.db.credentials[id]))
  {
    hide Inv, RevokedCredentials;
    if ActiveFor(s.db, userId, deviceId) {
      PartsOf(s);
      RevokedExactly(s, deviceId, userId, now, id);
    }
  }

  lemma RecoverCredentials(s: State, now: int, userId: Id, known: bool, id: Id, row: Credential)
    ensures var step := Recover(now, userId, known);
            var n := Next(s, step).db.credentials;
            && !Issues(s, step, id, row)
            && (id in n <==> id in s.db.credentials) && (id in n ==> n[id] == Left(s, step, s.db.credentials[id]))
  {
  }

  lemma OtherCredentials(s: State, step: Step, id: Id, row: Credential)
    requires step.Extend? || step.Restore? || step.StoreRevoke?
    ensures var n := Next(s, step).db.credentials;
            && !Issues(s, step, id, row)
            && (id in n <==> id in s.db.credentials) && (id in n ==> n[id] == Left(s, step, s.db.credentials[id]))
  {
  }

  // ------------------------------------------------------------ the answers

  /** When a transaction reports success. */
  ghost predicate Succeeds(s: State, step: Step) {
    match step
    case Bind(_, b, ids) => Binds(s, b, ids)
    case Extend(trialId, newEndsAt) =>
      trialId != 0 && newEndsAt != 0 && trialId in s.db.trials && s.db.trials[trialId].endsAt < newEndsAt
    case Revoke(now, userId, deviceId) => now != 0 && userId != 0 && deviceId != 0 && Owned(s.db, userId, deviceId)
    case Restore(userId, deviceId) => Owned(s.db, userId, deviceId)
    case Rotate(_, userId, deviceId, credentialId, digest) => Rotates(s, userId, deviceId, credentialId, digest)
    case Recover(_, userId, known) => userId != 0 && known
    case StoreRevoke(deviceId) => deviceId != 0 && deviceId in s.db.devices
  }

  lemma SucceedsExact(steps: seq<Step>, step: Step)
    ensures Transaction(Reach(steps).db, step).Ok? <==> Succeeds(Reach(steps), step)
  {
    hide Inv, Run, Binds, DigestsInv, BindFirstDevice, DigestUsed, RevokedCredentials, InsertCredential;
    ReachInv(steps);
    ReachDigests(steps);
    var s := Reach(steps);
    match step
    case Bind(now, b, ids) => BindIffBinds(s, now, b, ids);
    case Rotate(now, userId, deviceId, credentialId, digest) =>
      DigestIndex(s.db, digest);
      RevokedAre(s.db.credentials, deviceId, userId, now);
      InsertEffect(s.db.(credentials := RevokedCredentials(s.db.credentials, deviceId, userId, now)), credentialId,
                   userId, deviceId, digest);
    case _ =>
  }

  // -------------------------------------------------------- the licence hint

  /** The fingerprint is on a device of somebody else's, or on another device of
      a user who could bind this one otherwise. */
  ghost predicate LicenceNeeded(s: State, b: Binding) {
    Complete(b) && b.fingerprint.Some?
    && exists d :: d in s.db.devices && s.db.devices[d].fingerprint == b.fingerprint
                   && (s.db.devices[d].userId != b.userId
                       || (d != b.deviceId && ActiveFor(s.db, b.userId, b.deviceId)))
  }

  /** A binding is refused for want of a licence exactly then. */
  lemma LicenceNeededExact(steps: seq<Step>, now: int, b: Binding, ids: NewIds)
    ensures var s := Reach(steps);
            BindFirstDevice(s.db, now, b, ids) == Err(DeviceAlreadyUsed) <==> LicenceNeeded(s, b)
  {
    hide Inv, Run;
    ReachInv(steps);
    PartsOf(Reach(steps));
    LicenceIs(Reach(steps), now, b, ids);
  }

  /** At most one device has the fingerprint: the one the index names. */
  lemma FingerprintHolder(s: State, b: Binding)
    requires DevicesInv(s.db.devices, s.db.trialOf, s.db.fingerprintOf) && b.fingerprint.Some?
    ensures var f := b.fingerprint.value;
            forall d :: d in s.db.devices && s.db.devices[d].fingerprint == b.fingerprint <==>
                          f in s.db.fingerprintOf && s.db.fingerprintOf[f] == d
  {
  }

  lemma LicenceIs(s: State, now: int, b: Binding, ids: NewIds)
    requires DevicesInv(s.db.devices, s.db.trialOf, s.db.fingerprintOf)
    ensures BindFirstDevice(s.db, now, b, ids) == Err(DeviceAlreadyUsed) <==> LicenceNeeded(s, b)
  {
    OwnersHoldTrials(s);
    if b.fingerprint.Some? { FingerprintHolder(s, b); }
    hide DevicesInv, RevokedCredentials;
  }
}
