/** The device slots of licences: ordinals are handed out by one more than the
    largest so far, and nothing hands them back. */
module LicenceSlots {
  import opened Common

  type Id = nat

  datatype Licence = Licence(userId: Id, deviceSlots: int)

  datatype Slot = Slot(licenceId: Id, deviceId: Id, ordinal: int, active: bool)

  datatype SlotError = InvalidArgument | NotFound | NoSlot | BindingNotFound | Conflict

  /** `deviceOwner` is the devices table as the foreign keys see it. */
  datatype Db = Db(licences: map<Id, Licence>, deviceOwner: map<Id, Id>, bindings: map<Id, Slot>)

  const EmptyDb := Db(map[], map[], map[])

  function Of(bindings: map<Id, Slot>, licenceId: Id): set<Id> {
    set b | b in bindings && bindings[b].licenceId == licenceId
  }

  function Ordinals(bindings: map<Id, Slot>, licenceId: Id): set<int> {
    set b | b in bindings && bindings[b].licenceId == licenceId :: bindings[b].ordinal
  }

  predicate IsMax(s: set<int>, m: int) {
    m in s && forall y :: y in s ==> y <= m
  }

  lemma SetIsEmpty(s: set<int>)
    ensures (forall x :: x !in s) ==> s == {}
  {
    if forall x :: x !in s { assert s == {}; }
  }

  lemma {:induction false} HasMax(s: set<int>)
    requires s != {}
    ensures exists m :: IsMax(s, m)
    decreases |s|
  {
    assert !(forall x :: x !in s) by { SetIsEmpty(s); }
    var x :| x in s;
    var rest := s - {x};
    if rest == {} {
      assert s == {x};
      assert IsMax(s, x);
    } else {
      HasMax(rest);
      var m :| IsMax(rest, m);
      assert s == rest + {x};
      assert IsMax(s, if x <= m then m else x);
    }
  }

  /** COALESCE(MAX(slot_ordinal), 0). */
  function MaxOrZero(s: set<int>): (m: int) {
    if s == {} then 0
    else
      HasMax(s);
      var m :| IsMax(s, m);
      m
  }

  predicate DeviceBound(bindings: map<Id, Slot>, licenceId: Id, deviceId: Id) {
    exists b :: b in bindings && bindings[b].licenceId == licenceId && bindings[b].deviceId == deviceId
  }

  predicate OrdinalTaken(bindings: map<Id, Slot>, licenceId: Id, ordinal: int) {
    exists b :: b in bindings && bindings[b].licenceId == licenceId && bindings[b].ordinal == ordinal
  }

  /** The insert under its keys: primary, (licence, device), (licence, ordinal)
      and the device's owner. */
  function InsertSlot(db: Db, bindingId: Id, slot: Slot): Result<Db, SlotError>
    requires slot.licenceId in db.licences
  {
    if bindingId in db.bindings || DeviceBound(db.bindings, slot.licenceId, slot.deviceId)
       || OrdinalTaken(db.bindings, slot.licenceId, slot.ordinal)
       || slot.deviceId !in db.deviceOwner || db.deviceOwner[slot.deviceId] != db.licences[slot.licenceId].userId
    then Err(Conflict)
    else Ok(db.(bindings := db.bindings[bindingId := slot]))
  }

  function CreateLicence(db: Db, licenceId: Id, userId: Id, deviceSlots: int): Result<Db, SlotError> {
    if userId == 0 || deviceSlots <= 0 then Err(InvalidArgument)
    else if licenceId in db.licences then Err(Conflict)
    else Ok(db.(licences := db.licences[licenceId := Licence(userId, deviceSlots)]))
  }

  function BindDeviceSlot(db: Db, licenceId: Id, deviceId: Id, bindingId: Id): Result<Db, SlotError> {
    if licenceId == 0 || deviceId == 0 then Err(InvalidArgument)
    else if licenceId !in db.licences then Err(NotFound)
    else if |Of(db.bindings, licenceId)| >= db.licences[licenceId].deviceSlots then Err(NoSlot)
    else InsertSlot(db, bindingId, Slot(licenceId, deviceId, MaxOrZero(Ordinals(db.bindings, licenceId)) + 1, true))
  }

  /** `bindingId` is the row the select for the old device locks, if any. */
  predicate ActiveBinding(db: Db, licenceId: Id, deviceId: Id, bindingId: Option<Id>) {
    match bindingId
    case Some(b) =>
      b in db.bindings && db.bindings[b].licenceId == licenceId && db.bindings[b].deviceId == deviceId
      && db.bindings[b].active
    case None => forall b :: b in db.bindings ==>
                   !(db.bindings[b].licenceId == licenceId && db.bindings[b].deviceId == deviceId
                     && db.bindings[b].active)
  }

  function TransferDevice(db: Db, licenceId: Id, oldDeviceId: Id, newDeviceId: Id,
                          bindingId: Option<Id>): Result<Db, SlotError>
    requires ActiveBinding(db, licenceId, oldDeviceId, bindingId)
  {
    if licenceId == 0 || oldDeviceId == 0 || newDeviceId == 0 then Err(InvalidArgument)
    else if licenceId !in db.licences then Err(NotFound)
    else if bindingId.None? then Err(BindingNotFound)
    else if newDeviceId != oldDeviceId && DeviceBound(db.bindings, licenceId, newDeviceId) then Err(Conflict)
    else if newDeviceId !in db.deviceOwner || db.deviceOwner[newDeviceId] != db.licences[licenceId].userId
         then Err(Conflict)
    else Ok(db.(bindings := db.bindings[bindingId.value := db.bindings[bindingId.value].(deviceId := newDeviceId)]))
  }

  function RevokedBindings(bindings: map<Id, Slot>, deviceId: Id): map<Id, Slot> {
    map b | b in bindings ::
      if bindings[b].deviceId == deviceId && bindings[b].active then bindings[b].(active := false) else bindings[b]
  }

  function RevokeDevice(db: Db, deviceId: Id): Result<Db, SlotError> {
    if deviceId == 0 then Err(InvalidArgument)
    else if deviceId !in db.deviceOwner then Err(NotFound)
    else Ok(db.(bindings := RevokedBindings(db.bindings, deviceId)))
  }

  class LicenceStore {
    var licences: map<Id, Licence>
    var deviceOwner: map<Id, Id>
    var bindings: map<Id, Slot>

    ghost function View(): Db
      reads this
    {
      Db(licences, deviceOwner, bindings)
    }

    constructor ()
      ensures View() == EmptyDb
    {
      licences, deviceOwner, bindings := map[], map[], map[];
    }

    method BindSlot(licenceId: Id, deviceId: Id, bindingId: Id) returns (r: Result<Slot, SlotError>)
      modifies this`bindings
      ensures var done := BindDeviceSlot(old(View()), licenceId, deviceId, bindingId);
              && r.Ok? == done.Ok? && (r.Err? ==> r.error == done.error && View() == old(View()))
              && (r.Ok? ==> View() == done.value && bindingId in bindings && bindings[bindingId] == r.value)
    {
      if licenceId == 0 || deviceId == 0 {
        return Err(InvalidArgument);
      }
      if licenceId !in licences {
        return Err(NotFound);
      }
      var bound := |Of(bindings, licenceId)|;
      if bound >= licences[licenceId].deviceSlots {
        return Err(NoSlot);
      }
      var slot := Slot(licenceId, deviceId, MaxOrZero(Ordinals(bindings, licenceId)) + 1, true);
      var inserted := InsertSlot(Db(licences, deviceOwner, bindings), bindingId, slot);
      if inserted.Err? {
        return Err(inserted.error);
      }
      bindings := inserted.value.bindings;
      r := Ok(slot);
    }

    method Revoke(deviceId: Id) returns (err: Option<SlotError>)
      modifies this`bindings
      ensures var done := RevokeDevice(old(View()), deviceId);
              && err == (if done.Ok? then None else Some(done.error))
              && View() == if done.Ok? then done.value else old(View())
    {
      if deviceId == 0 {
        return Some(InvalidArgument);
      }
      if deviceId !in deviceOwner {
        return Some(NotFound);
      }
      bindings := RevokedBindings(bindings, deviceId);
      err := None;
    }
  }

  // ---------------------------------------------------------------- runs

  datatype Step =
    | NewLicence(licenceId: Id, userId: Id, deviceSlots: int)
    | NewDevice(deviceId: Id, userId: Id)
    | Bind(licenceId: Id, deviceId: Id, bindingId: Id)
    | Transfer(licenceId: Id, oldDeviceId: Id, newDeviceId: Id, found: Option<Id>)
    | Revoke(deviceId: Id)

  function OrElse(r: Result<Db, SlotError>, db: Db): Db {
    if r.Ok? then r.value else db
  }

  function Next(db: Db, step: Step): Db {
    match step
    case NewLicence(licenceId, userId, deviceSlots) => OrElse(CreateLicence(db, licenceId, userId, deviceSlots), db)
    case NewDevice(deviceId, userId) =>
      if deviceId in db.deviceOwner then db else db.(deviceOwner := db.deviceOwner[deviceId := userId])
    case Bind(licenceId, deviceId, bindingId) => OrElse(BindDeviceSlot(db, licenceId, deviceId, bindingId), db)
    case Transfer(licenceId, oldDeviceId, newDeviceId, found) =>
      if ActiveBinding(db, licenceId, oldDeviceId, found)
      then OrElse(TransferDevice(db, licenceId, oldDeviceId, newDeviceId, found), db) else db
    case Revoke(deviceId) => OrElse(RevokeDevice(db, deviceId), db)
  }

  function Run(db: Db, steps: seq<Step>): Db
    decreases |steps|
  {
    if steps == [] then db else Run(Next(db, steps[0]), steps[1..])
  }

  /** The whole numbers from 1 to n. */
  function UpTo(n: nat): (s: set<int>)
    ensures forall i :: i in s <==> 1 <= i <= n
  {
    if n == 0 then {} else UpTo(n - 1) + {n}
  }

  /** A licence's ordinals are 1..n, one per binding, and n is within budget. */
  ghost predicate Dense(db: Db, licenceId: Id) {
    && Ordinals(db.bindings, licenceId) == UpTo(|Of(db.bindings, licenceId)|)
    && (forall a, b ::
          a in Of(db.bindings, licenceId) && b in Of(db.bindings, licenceId) && a != b ==>
          db.bindings[a].ordinal != db.bindings[b].ordinal)
    && (licenceId in db.licences ==> |Of(db.bindings, licenceId)| <= db.licences[licenceId].deviceSlots)
    && (licenceId !in db.licences ==> Of(db.bindings, licenceId) == {})
  }

  ghost predicate Inv(db: Db) {
    forall licenceId :: Dense(db, licenceId)
  }

  lemma MaxOfUpTo(n: nat)
    ensures MaxOrZero(UpTo(n)) == n
  {
    if n > 0 {
      assert n in UpTo(n);
      HasMax(UpTo(n));
    }
  }

  /** The ordinal allocated is the number of bindings plus one, hence free. */
  lemma BindDense(db: Db, licenceId: Id, deviceId: Id, bindingId: Id, other: Id)
    requires Dense(db, licenceId) && Dense(db, other)
    requires BindDeviceSlot(db, licenceId, deviceId, bindingId).Ok?
    ensures Dense(BindDeviceSlot(db, licenceId, deviceId, bindingId).value, other)
    ensures BindDeviceSlot(db, licenceId, deviceId, bindingId).value.bindings[bindingId].ordinal
            == |Of(db.bindings, licenceId)| + 1
  {
    hide MaxOrZero, UpTo;
    var n := |Of(db.bindings, licenceId)|;
    MaxOfUpTo(n);
    var slot := Slot(licenceId, deviceId, n + 1, true);
    if other == licenceId {
      AddedDense(db, bindingId, slot);
    } else {
      AddedElsewhere(db, bindingId, slot, other);
    }
  }

  lemma AddedDense(db: Db, bindingId: Id, slot: Slot)
    requires Dense(db, slot.licenceId) && bindingId !in db.bindings
             && slot.ordinal == |Of(db.bindings, slot.licenceId)| + 1
    requires slot.licenceId in db.licences
             && |Of(db.bindings, slot.licenceId)| < db.licences[slot.licenceId].deviceSlots
    ensures Dense(db.(bindings := db.bindings[bindingId := slot]), slot.licenceId)
  {
    hide UpTo;
    var after := db.bindings[bindingId := slot];
    var was := Of(db.bindings, slot.licenceId);
    AddedSlot(db.bindings, bindingId, slot, slot.licenceId);
    OneMore(was, bindingId);
    OrdinalsBelow(db, slot.licenceId);
    hide Of, Ordinals;
  }

  lemma OneMore(was: set<Id>, b: Id)
    requires b !in was
    ensures |was + {b}| == |was| + 1
    ensures UpTo(|was|) + {|was| + 1} == UpTo(|was| + 1)
  {
  }

  lemma OrdinalsBelow(db: Db, licenceId: Id)
    requires Dense(db, licenceId)
    ensures forall a :: a in Of(db.bindings, licenceId) ==> 1 <= db.bindings[a].ordinal <= |Of(db.bindings, licenceId)|
  {
    forall a | a in Of(db.bindings, licenceId) ensures 1 <= db.bindings[a].ordinal <= |Of(db.bindings, licenceId)| {
      assert db.bindings[a].ordinal in Ordinals(db.bindings, licenceId);
    }
  }

  lemma AddedElsewhere(db: Db, bindingId: Id, slot: Slot, other: Id)
    requires Dense(db, other) && bindingId !in db.bindings && slot.licenceId != other
    ensures Dense(db.(bindings := db.bindings[bindingId := slot]), other)
  {
    hide UpTo;
    AddedSlot(db.bindings, bindingId, slot, other);
  }

  lemma AddedSlot(bindings: map<Id, Slot>, bindingId: Id, slot: Slot, other: Id)
    requires bindingId !in bindings
    ensures var after := bindings[bindingId := slot];
            && Of(after, other) == (if other == slot.licenceId then Of(bindings, other) + {bindingId}
                                    else Of(bindings, other))
            && Ordinals(after, other) == (if other == slot.licenceId then Ordinals(bindings, other) + {slot.ordinal}
                                          else Ordinals(bindings, other))
  {
    var after := bindings[bindingId := slot];
    assert after[bindingId] == slot;
    forall o | o in Ordinals(bindings, other) ensures o in Ordinals(after, other) {
      var b :| b in bindings && bindings[b].licenceId == other && bindings[b].ordinal == o;
      assert b in after && after[b] == bindings[b];
    }
  }

  /** Licence and ordinal of every binding stay; none comes or goes. */
  ghost predicate SameSlots(was: map<Id, Slot>, now: map<Id, Slot>) {
    now.Keys == was.Keys
    && forall b :: b in now ==> now[b].licenceId == was[b].licenceId && now[b].ordinal == was[b].ordinal
  }

  lemma SameSlotsSets(was: map<Id, Slot>, now: map<Id, Slot>, licenceId: Id)
    requires SameSlots(was, now)
    ensures Of(now, licenceId) == Of(was, licenceId) && Ordinals(now, licenceId) == Ordinals(was, licenceId)
  {
    forall o ensures o in Ordinals(was, licenceId) <==> o in Ordinals(now, licenceId) {
      if o in Ordinals(was, licenceId) {
        var b :| b in was && was[b].licenceId == licenceId && was[b].ordinal == o;
        assert b in now && now[b].licenceId == licenceId && now[b].ordinal == o;
      }
      if o in Ordinals(now, licenceId) {
        var b :| b in now && now[b].licenceId == licenceId && now[b].ordinal == o;
        assert b in was && was[b].licenceId == licenceId && was[b].ordinal == o;
      }
    }
  }

  lemma SameSlotsDense(db: Db, bindings: map<Id, Slot>, licenceId: Id)
    requires Dense(db, licenceId) && SameSlots(db.bindings, bindings)
    ensures Dense(db.(bindings := bindings), licenceId)
  {
    SameSlotsSets(db.bindings, bindings, licenceId);
  }

  /** Transfers and revocations neither free nor renumber a slot. */
  lemma TransferAndRevokeKeepSlots(db: Db, step: Step)
    requires step.Transfer? || step.Revoke?
    ensures SameSlots(db.bindings, Next(db, step).bindings)
    ensures Next(db, step) == db.(bindings := Next(db, step).bindings)
  {
  }

  lemma NextInv(db: Db, step: Step)
    requires Inv(db)
    ensures Inv(Next(db, step))
  {
    hide Dense, BindDeviceSlot, TransferDevice, RevokeDevice, CreateLicence;
    forall licenceId ensures Dense(Next(db, step), licenceId) {
      assert Dense(db, licenceId);
      match step
      case NewLicence(id, userId, slots) => LicenceDense(db, id, userId, slots, licenceId);
      case NewDevice(d, u) => DeviceDense(db, d, u, licenceId);
      case Bind(id, deviceId, bindingId) =>
        if BindDeviceSlot(db, id, deviceId, bindingId).Ok? {
          assert Dense(db, id);
          BindDense(db, id, deviceId, bindingId, licenceId);
        }
      case _ =>
        TransferAndRevokeKeepSlots(db, step);
        SameSlotsDense(db, Next(db, step).bindings, licenceId);
    }
  }

  lemma LicenceDense(db: Db, id: Id, userId: Id, slots: int, licenceId: Id)
    requires Dense(db, licenceId)
    ensures Dense(OrElse(CreateLicence(db, id, userId, slots), db), licenceId)
  {
  }

  lemma DeviceDense(db: Db, d: Id, u: Id, licenceId: Id)
    requires Dense(db, licenceId)
    ensures Dense(db.(deviceOwner := db.deviceOwner[d := u]), licenceId)
  {
  }

  lemma {:induction false} RunInv(db: Db, steps: seq<Step>)
    requires Inv(db)
    ensures Inv(Run(db, steps))
    decreases |steps|
  {
    hide Inv, Next;
    if steps != [] {
      NextInv(db, steps[0]);
      RunInv(Next(db, steps[0]), steps[1..]);
    }
  }

  /** In every run each licence's ordinals are exactly 1..n without repeats,
      where n counts its bindings and never exceeds its slots. */
  lemma OrdinalsAreDense(steps: seq<Step>, licenceId: Id)
    requires licenceId in Run(EmptyDb, steps).licences
    ensures var db := Run(EmptyDb, steps);
            var n := |Of(db.bindings, licenceId)|;
            && Ordinals(db.bindings, licenceId) == UpTo(n)
            && n <= db.licences[licenceId].deviceSlots
            && forall a, b ::
                 a in Of(db.bindings, licenceId) && b in Of(db.bindings, licenceId) && a != b ==>
                 db.bindings[a].ordinal != db.bindings[b].ordinal
  {
    hide Run;
    assert Inv(EmptyDb) by { EmptyDense(); }
    RunInv(EmptyDb, steps);
    assert Dense(Run(EmptyDb, steps), licenceId);
  }

  lemma EmptyDense()
    ensures Inv(EmptyDb)
  {
    forall licenceId ensures Dense(EmptyDb, licenceId) {
      assert Of(map[], licenceId) == {} && Ordinals(map[], licenceId) == {} && UpTo(0) == {};
    }
  }

  /** A licence with free slots takes a device of its user's that it does not
      hold yet: no gap and no stale ordinal is ever in the way. */
  lemma FreeSlotIsUsable(steps: seq<Step>, licenceId: Id, deviceId: Id, bindingId: Id)
    requires var db := Run(EmptyDb, steps);
             && licenceId != 0 && deviceId != 0 && licenceId in db.licences && bindingId !in db.bindings
             && deviceId in db.deviceOwner && db.deviceOwner[deviceId] == db.licences[licenceId].userId
    ensures var db := Run(EmptyDb, steps);
            BindDeviceSlot(db, licenceId, deviceId, bindingId).Ok? <==>
              |Of(db.bindings, licenceId)| < db.licences[licenceId].deviceSlots
              && !DeviceBound(db.bindings, licenceId, deviceId)
  {
    hide Run, MaxOrZero, DeviceBound;
    OrdinalsAreDense(steps, licenceId);
    var db := Run(EmptyDb, steps);
    var n := |Of(db.bindings, licenceId)|;
    MaxOfUpTo(n);
    assert !OrdinalTaken(db.bindings, licenceId, n + 1) by {
      assert n + 1 !in Ordinals(db.bindings, licenceId);
    }
  }

  ghost predicate SlotKept(was: map<Id, Slot>, now: map<Id, Slot>, b: Id) {
    b in was ==> b in now && now[b].licenceId == was[b].licenceId && now[b].ordinal == was[b].ordinal
  }

  lemma SlotStep(db: Db, step: Step, b: Id)
    ensures SlotKept(db.bindings, Next(db, step).bindings, b)
  {
    hide MaxOrZero, Of, DeviceBound, OrdinalTaken;
  }

  /** A binding keeps its licence and its ordinal for ever. */
  lemma {:induction false} SlotsAreForEver(db: Db, steps: seq<Step>, b: Id)
    ensures SlotKept(db.bindings, Run(db, steps).bindings, b)
    decreases |steps|
  {
    hide Next;
    if steps != [] {
      SlotStep(db, steps[0], b);
      SlotsAreForEver(Next(db, steps[0]), steps[1..], b);
    }
  }

  // ------------------------------------------------- who sits on which slot

  /** The device sits on that slot of the licence, or (inactive) did when it was
      revoked. */
  ghost predicate Sits(bindings: map<Id, Slot>, slot: Slot) {
    exists b :: b in bindings && bindings[b] == slot
  }

  /** A licence never has two bindings for one device, and none for device 0. */
  ghost predicate OnePerDevice(db: Db) {
    && (forall a, b ::
          a in db.bindings && b in db.bindings && a != b && db.bindings[a].licenceId == db.bindings[b].licenceId ==>
          db.bindings[a].deviceId != db.bindings[b].deviceId)
    && (forall b :: b in db.bindings ==> db.bindings[b].deviceId in db.deviceOwner)
  }

  lemma OneStep(db: Db, step: Step)
    requires OnePerDevice(db)
    ensures OnePerDevice(Next(db, step))
  {
    hide MaxOrZero, Of, OrdinalTaken;
  }

  lemma {:induction false} OneRun(db: Db, steps: seq<Step>)
    requires OnePerDevice(db)
    ensures OnePerDevice(Run(db, steps))
    decreases |steps|
  {
    hide OnePerDevice, Next;
    if steps != [] {
      OneStep(db, steps[0]);
      OneRun(Next(db, steps[0]), steps[1..]);
    }
  }

  ghost predicate Usable(db: Db, licenceId: Id, deviceId: Id) {
    && licenceId != 0 && deviceId != 0 && licenceId in db.licences
    && deviceId in db.deviceOwner && db.deviceOwner[deviceId] == db.licences[licenceId].userId
  }

  /** A new binding goes through for a device of the licence's user that never
      had one, while a slot is left. */
  ghost predicate Binds(db: Db, licenceId: Id, deviceId: Id, bindingId: Id) {
    && Usable(db, licenceId, deviceId) && bindingId !in db.bindings
    && |Of(db.bindings, licenceId)| < db.licences[licenceId].deviceSlots
    && (forall o, active :: !Sits(db.bindings, Slot(licenceId, deviceId, o, active)))
  }

  /** A transfer goes through from a device that sits on a slot to one of the
      licence's user that never had one, or to the same device. */
  ghost predicate Moves(db: Db, licenceId: Id, from: Id, to: Id) {
    && Usable(db, licenceId, to) && from != 0
    && (exists o :: Sits(db.bindings, Slot(licenceId, from, o, true)))
    && (to != from ==> forall o, active :: !Sits(db.bindings, Slot(licenceId, to, o, active)))
  }

  /** The locked row is the seat of the device. */
  predicate Seat(bindings: map<Id, Slot>, licenceId: Id, deviceId: Id, found: Option<Id>) {
    found.Some? && found.value in bindings
    && bindings[found.value] == Slot(licenceId, deviceId, bindings[found.value].ordinal, true)
  }

  /** What every transaction does to who sits where: a binding seats the device on
      the next ordinal, a transfer reseats it on the same one, a revocation of a
      device known to the store takes all its seats, and nothing else changes. */
  ghost predicate SitsAfter(db: Db, step: Step, slot: Slot) {
    match step
    case Bind(licenceId, deviceId, bindingId) =>
      || Sits(db.bindings, slot)
      || (Binds(db, licenceId, deviceId, bindingId)
          && slot == Slot(licenceId, deviceId, |Of(db.bindings, licenceId)| + 1, true))
    case Transfer(licenceId, from, to, found) =>
      if Seat(db.bindings, licenceId, from, found) && Moves(db, licenceId, from, to) then
        || (Sits(db.bindings, slot.(deviceId := from)) && slot == Slot(licenceId, to, slot.ordinal, true))
        || (Sits(db.bindings, slot) && slot != Slot(licenceId, from, slot.ordinal, true))
      else Sits(db.bindings, slot)
    case Revoke(deviceId) =>
      if deviceId == slot.deviceId && deviceId != 0
      then !slot.active && (Sits(db.bindings, slot) || Sits(db.bindings, slot.(active := true)))
      else Sits(db.bindings, slot)
    case _ => Sits(db.bindings, slot)
  }

  lemma SeatsExact(steps: seq<Step>, step: Step, slot: Slot)
    ensures var db := Run(EmptyDb, steps);
            Sits(Next(db, step).bindings, slot) <==> SitsAfter(db, step, slot)
  {
    hide Run, Next, Sits, SitsAfter, OnePerDevice, Inv;
    var db := Run(EmptyDb, steps);
    assert OnePerDevice(EmptyDb) by { EmptyOnce(); }
    OneRun(EmptyDb, steps);
    EmptyDense();
    RunInv(EmptyDb, steps);
    match step
    case Bind(licenceId, deviceId, bindingId) => BindSeats(db, licenceId, deviceId, bindingId, slot);
    case Transfer(licenceId, from, to, found) => TransferSeats(db, licenceId, from, to, found, slot);
    case Revoke(deviceId) => RevokeSeats(db, deviceId, slot);
    case NewLicence(_, _, _) => OtherSeats(db, step, slot);
    case NewDevice(_, _) => OtherSeats(db, step, slot);
  }

  lemma EmptyOnce()
    ensures OnePerDevice(EmptyDb)
  {
  }

  lemma OtherSeats(db: Db, step: Step, slot: Slot)
    requires step.NewLicence? || step.NewDevice?
    ensures Sits(Next(db, step).bindings, slot) <==> SitsAfter(db, step, slot)
  {
    hide Sits;
  }

  lemma BoundIfSits(bindings: map<Id, Slot>, licenceId: Id, deviceId: Id)
    ensures DeviceBound(bindings, licenceId, deviceId)
            <==> exists o, active :: Sits(bindings, Slot(licenceId, deviceId, o, active))
  {
    if b :| b in bindings && bindings[b].licenceId == licenceId && bindings[b].deviceId == deviceId {
      assert Sits(bindings, Slot(licenceId, deviceId, bindings[b].ordinal, bindings[b].active));
    }
  }

  lemma BindsIfOk(db: Db, licenceId: Id, deviceId: Id, bindingId: Id)
    requires Inv(db)
    ensures BindDeviceSlot(db, licenceId, deviceId, bindingId).Ok? <==> Binds(db, licenceId, deviceId, bindingId)
    ensures Binds(db, licenceId, deviceId, bindingId) ==>
              Next(db, Bind(licenceId, deviceId, bindingId)).bindings ==
                db.bindings[bindingId := Slot(licenceId, deviceId, |Of(db.bindings, licenceId)| + 1, true)]
  {
    hide MaxOrZero, DeviceBound, Sits;
    BoundIfSits(db.bindings, licenceId, deviceId);
    assert Dense(db, licenceId);
    var n := |Of(db.bindings, licenceId)|;
    MaxOfUpTo(n);
    assert !OrdinalTaken(db.bindings, licenceId, n + 1) by {
      assert n + 1 !in Ordinals(db.bindings, licenceId);
    }
  }

  lemma BindSeats(db: Db, licenceId: Id, deviceId: Id, bindingId: Id, slot: Slot)
    requires Inv(db)
    ensures var step := Bind(licenceId, deviceId, bindingId);
            Sits(Next(db, step).bindings, slot) <==> SitsAfter(db, step, slot)
  {
    hide Inv, BindDeviceSlot, Binds, Of;
    BindsIfOk(db, licenceId, deviceId, bindingId);
    if Binds(db, licenceId, deviceId, bindingId) {
      assert bindingId !in db.bindings by { NewId(db, licenceId, deviceId, bindingId); }
      var seat := Slot(licenceId, deviceId, |Of(db.bindings, licenceId)| + 1, true);
      Reseated(db.bindings, bindingId, seat, slot);
    }
  }

  lemma NewId(db: Db, licenceId: Id, deviceId: Id, bindingId: Id)
    requires Binds(db, licenceId, deviceId, bindingId)
    ensures bindingId !in db.bindings
  {
  }

  /** One binding set to `seat`. */
  lemma Reseated(bindings: map<Id, Slot>, b: Id, seat: Slot, slot: Slot)
    ensures Sits(bindings[b := seat], slot) <==>
              slot == seat || exists a :: a in bindings && a != b && bindings[a] == slot
  {
    var after := bindings[b := seat];
    if slot == seat { assert after[b] == slot; }
    if a :| a in bindings && a != b && bindings[a] == slot { assert after[a] == slot; }
  }

  lemma MovesIfOk(db: Db, licenceId: Id, from: Id, to: Id, found: Option<Id>)
    requires ActiveBinding(db, licenceId, from, found)
    ensures TransferDevice(db, licenceId, from, to, found).Ok? <==> Moves(db, licenceId, from, to)
    ensures found.None? <==> forall o :: !Sits(db.bindings, Slot(licenceId, from, o, true))
  {
    hide DeviceBound, Sits;
    BoundIfSits(db.bindings, licenceId, to);
    SeatOf(db, licenceId, from, found);
  }

  lemma SeatOf(db: Db, licenceId: Id, from: Id, found: Option<Id>)
    requires ActiveBinding(db, licenceId, from, found)
    ensures found.None? ==> forall o :: !Sits(db.bindings, Slot(licenceId, from, o, true))
    ensures found.Some? ==> Sits(db.bindings, Slot(licenceId, from, db.bindings[found.value].ordinal, true))
  {
  }

  lemma TransferSeats(db: Db, licenceId: Id, from: Id, to: Id, found: Option<Id>, slot: Slot)
    requires OnePerDevice(db)
    ensures var step := Transfer(licenceId, from, to, found);
            Sits(Next(db, step).bindings, slot) <==> SitsAfter(db, step, slot)
  {
    hide Moves, DeviceBound;
    if ActiveBinding(db, licenceId, from, found) {
      MovesIfOk(db, licenceId, from, to, found);
      if Moves(db, licenceId, from, to) {
        var was := db.bindings[found.value];
        Reseated(db.bindings, found.value, was.(deviceId := to), slot);
      }
    }
  }

  lemma RevokeSeats(db: Db, deviceId: Id, slot: Slot)
    requires OnePerDevice(db)
    ensures Sits(Next(db, Revoke(deviceId)).bindings, slot) <==> SitsAfter(db, Revoke(deviceId), slot)
  {
    var after := Next(db, Revoke(deviceId)).bindings;
    assert after.Keys == db.bindings.Keys;
    if b :| b in db.bindings && db.bindings[b] == slot && slot.deviceId != deviceId { assert after[b] == slot; }
    if b :| b in db.bindings && db.bindings[b] == slot && !slot.active { assert after[b] == slot; }
    if b :| b in db.bindings && db.bindings[b] == slot.(active := true) && slot.deviceId == deviceId && !slot.active {
      assert deviceId != 0 ==> after[b] == slot;
    }
  }

  /** A licence is made exactly for a user and a positive number of slots, under a
      new id, and never changes. */
  lemma LicencesExact(steps: seq<Step>, step: Step, licenceId: Id, licence: Licence)
    ensures var db := Run(EmptyDb, steps);
            var n := Next(db, step);
            licenceId in n.licences && n.licences[licenceId] == licence <==>
              || (licenceId in db.licences && db.licences[licenceId] == licence)
              || (step == NewLicence(licenceId, licence.userId, licence.deviceSlots)
                  && licence.userId != 0 && licence.deviceSlots > 0 && licenceId !in db.licences)
  {
    hide Run, MaxOrZero, Of, DeviceBound, OrdinalTaken, ActiveBinding, RevokedBindings;
  }

  /** A device is known from its first registration on, for that user. */
  lemma DevicesExact(steps: seq<Step>, step: Step, deviceId: Id, userId: Id)
    ensures var db := Run(EmptyDb, steps);
            var n := Next(db, step);
            deviceId in n.deviceOwner && n.deviceOwner[deviceId] == userId <==>
              || (deviceId in db.deviceOwner && db.deviceOwner[deviceId] == userId)
              || (step == NewDevice(deviceId, userId) && deviceId !in db.deviceOwner)
  {
    hide Run, MaxOrZero, Of, DeviceBound, OrdinalTaken, ActiveBinding, RevokedBindings;
  }

  /** A run goes on where it stopped. */
  lemma {:induction false} RunSnoc(db: Db, steps: seq<Step>, step: Step)
    ensures Run(db, steps + [step]) == Next(Run(db, steps), step)
    decreases |steps|
  {
    hide Next;
    if steps == [] {
      assert Run(Next(db, step), []) == Next(db, step);
    } else {
      assert (steps + [step])[1..] == steps[1..] + [step];
      RunSnoc(Next(db, steps[0]), steps[1..], step);
    }
  }

  /** Hence a slot once used is used for good: when a device takes a licence's last
      slot, revoking that device lets no other one in. */
  lemma UsedSlotStaysUsed(steps: seq<Step>, licenceId: Id, first: Id, bindingId: Id, other: Id, id: Id)
    requires var db := Run(EmptyDb, steps);
             && Binds(db, licenceId, first, bindingId)
             && |Of(db.bindings, licenceId)| + 1 == db.licences[licenceId].deviceSlots
    ensures var m := Run(EmptyDb, steps + [Bind(licenceId, first, bindingId)]);
            && m == Next(Run(EmptyDb, steps), Bind(licenceId, first, bindingId))
            && Sits(m.bindings, Slot(licenceId, first, |Of(Run(EmptyDb, steps).bindings, licenceId)| + 1, true))
            && !Binds(Next(m, Revoke(first)), licenceId, other, id)
  {
    hide Run, Sits, Next, Inv;
    var db := Run(EmptyDb, steps);
    RunSnoc(EmptyDb, steps, Bind(licenceId, first, bindingId));
    SeatsExact(steps, Bind(licenceId, first, bindingId),
               Slot(licenceId, first, |Of(db.bindings, licenceId)| + 1, true));
    EmptyDense();
    RunInv(EmptyDb, steps);
    FullAfter(db, licenceId, first, bindingId, other, id);
  }

  lemma FullAfter(db: Db, licenceId: Id, first: Id, bindingId: Id, other: Id, id: Id)
    requires Inv(db) && Binds(db, licenceId, first, bindingId)
    requires |Of(db.bindings, licenceId)| + 1 == db.licences[licenceId].deviceSlots
    ensures !Binds(Next(Next(db, Bind(licenceId, first, bindingId)), Revoke(first)), licenceId, other, id)
  {
    hide Inv, Sits;
    BindsIfOk(db, licenceId, first, bindingId);
    var m := Next(db, Bind(licenceId, first, bindingId));
    var n := Next(m, Revoke(first));
    assert Of(m.bindings, licenceId) == Of(db.bindings, licenceId) + {bindingId};
    assert Of(n.bindings, licenceId) == Of(m.bindings, licenceId);
    assert n.licences == db.licences;
  }
}
