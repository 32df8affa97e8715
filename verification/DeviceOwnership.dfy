/**
 * The owner marker and the enrollment record of one agent directory
 * (hydra-agent/src/device_identity.rs).
 *
 * Every mutating operation carries a budget: the number of file publications or removals that take
 * effect before the operation stops. Publishing the owner is one atomic step here; how the hard link
 * makes it so is the subject of OwnerPublication.
 */
module DeviceOwnership {
  import opened Basics

  datatype DeviceRecord = DeviceRecord(
    deviceId: string, accountId: string, cloudBase: string, passkey: Option<string>)

  datatype DeviceOwner = DeviceOwner(version: nat, accountId: string, cloudBase: string)

  /** device.json: the record's fields, any other keys, an explicit null passkey, and the text layout. */
  datatype RecordFile =
    | MalformedRecord(text: string)
    | RecordFile(record: DeviceRecord, extra: map<string, string>, nullPasskey: bool, layout: nat)

  datatype OwnerFile = MalformedOwner(text: string) | OwnerFile(owner: DeviceOwner, layout: nat)

  const PRETTY: nat := 0

  datatype Identity = Identity(record: Option<RecordFile>, owner: Option<OwnerFile>)

  function RenderRecord(rec: DeviceRecord): RecordFile { RecordFile(rec, map[], false, PRETTY) }

  function RenderOwner(owner: DeviceOwner): OwnerFile { OwnerFile(owner, PRETTY) }

  function TrimSlashes(s: string): (t: string)
    ensures t <= s && (t == "" || t[|t| - 1] != '/')
    ensures forall i | |t| <= i < |s| :: s[i] == '/'
  {
    if s != "" && s[|s| - 1] == '/' then TrimSlashes(s[..|s| - 1]) else s
  }

  function OwnerFor(rec: DeviceRecord): DeviceOwner {
    DeviceOwner(1, rec.accountId, TrimSlashes(rec.cloudBase))
  }

  function ParseOwner(f: OwnerFile): (r: Result<DeviceOwner>)
    ensures r.Ok? ==> f.OwnerFile? && r.value == f.owner
  {
    if f.MalformedOwner? || f.owner.version != 1 || f.owner.accountId == "" || f.owner.cloudBase == "" then Err
    else Ok(f.owner)
  }

  function LoadOwner(d: Identity): Result<Option<DeviceOwner>> {
    match d.owner
    case None => Ok(None)
    case Some(f) => (match ParseOwner(f) case Err => Err case Ok(owner) => Ok(Some(owner)))
  }

  function LoadRecord(d: Identity): Result<Option<DeviceRecord>> {
    match d.record
    case None => Ok(None)
    case Some(RecordFile(rec, _, _, _)) => Ok(Some(rec))
    case Some(MalformedRecord(_)) => Err
  }

  predicate SameOwner(a: DeviceOwner, b: DeviceOwner) {
    a.accountId == b.accountId && a.cloudBase == b.cloudBase
  }

  /** Success carries the budget that is left. */
  function PublishOwner(d: Identity, owner: DeviceOwner, budget: nat): (Identity, Result<nat>)
  {
    if budget == 0 then (d, Err) else (d.(owner := Some(RenderOwner(owner))), Ok(budget - 1))
  }

  function ClaimOwner(d: Identity, candidate: DeviceRecord, budget: nat): (Identity, Result<nat>) {
    match LoadOwner(d)
    case Err => (d, Err)
    case Ok(Some(owner)) => (d, if SameOwner(owner, OwnerFor(candidate)) then Ok(budget) else Err)
    case Ok(None) =>
      match LoadRecord(d)
      case Err => (d, Err)
      case Ok(None) => PublishOwner(d, OwnerFor(candidate), budget)
      case Ok(Some(current)) =>
        if SameOwner(OwnerFor(current), OwnerFor(candidate)) then PublishOwner(d, OwnerFor(current), budget)
        else (d, Err)
  }

  function SaveRecord(d: Identity, rec: DeviceRecord, budget: nat): (Identity, Result<nat>) {
    var (claimed, left) := ClaimOwner(d, rec, budget);
    if left.Err? || left.value == 0 then (claimed, Err)
    else (claimed.(record := Some(RenderRecord(rec))), Ok(left.value - 1))
  }

  function RemoveRecord(d: Identity, budget: nat): (Identity, Result<nat>) {
    match LoadRecord(d)
    case Err => (d, Err)
    case Ok(None) => (d, Ok(budget))
    case Ok(Some(current)) =>
      var (claimed, left) := ClaimOwner(d, current, budget);
      if left.Err? || left.value == 0 then (claimed, Err)
      else (claimed.(record := None), Ok(left.value - 1))
  }

  /** Compare-and-delete after a cloud revoke; the flag says whether the record was this device's. */
  function RemoveRecordIf(d: Identity, deviceId: string, budget: nat): (Identity, Result<bool>) {
    match LoadRecord(d)
    case Err => (d, Err)
    case Ok(None) => (d, Ok(false))
    case Ok(Some(current)) =>
      if current.deviceId != deviceId then (d, Ok(false))
      else
        var (removed, left) := RemoveRecord(d, budget);
        (removed, if left.Ok? then Ok(true) else Err)
  }

  /** Before a fresh-code enrollment: the owner goes only while no record exists. */
  function ReleaseOwner(d: Identity, budget: nat): (Identity, Result<nat>) {
    match LoadRecord(d)
    case Err => (d, Err)
    case Ok(Some(_)) => (d, Ok(budget))
    case Ok(None) =>
      if d.owner.None? then (d, Ok(budget))
      else if budget == 0 then (d, Err)
      else (d.(owner := None), Ok(budget - 1))
  }

  // ----- the operations as they run against a directory

  class AgentDirectory {
    var record: Option<RecordFile>
    var owner: Option<OwnerFile>

    constructor (d: Identity)
      ensures State() == d
    {
      record := d.record;
      owner := d.owner;
    }

    function State(): Identity
      reads this
    {
      Identity(record, owner)
    }

    method Claim(candidate: DeviceRecord, budget: nat) returns (left: Result<nat>)
      modifies this`owner
      ensures (State(), left) == ClaimOwner(old(State()), candidate, budget)
    {
      var loaded := LoadOwner(State());
      if loaded.Err? {
        return Err;
      }
      var established := loaded.value;
      if established.None? {
        var current := LoadRecord(State());
        if current.Err? {
          return Err;
        }
        if current.value.Some? {
          established := Some(OwnerFor(current.value.value));
        }
      }
      if established.Some? && !SameOwner(established.value, OwnerFor(candidate)) {
        return Err;
      }
      if loaded.value.Some? {
        return Ok(budget);
      }
      if budget == 0 {
        return Err;
      }
      owner := Some(RenderOwner(if established.Some? then established.value else OwnerFor(candidate)));
      return Ok(budget - 1);
    }

    method Save(rec: DeviceRecord, budget: nat) returns (left: Result<nat>)
      modifies this
      ensures (State(), left) == SaveRecord(old(State()), rec, budget)
    {
      left := Claim(rec, budget);
      if left.Err? || left.value == 0 {
        return Err;
      }
      record := Some(RenderRecord(rec));
      left := Ok(left.value - 1);
    }

    method Remove(budget: nat) returns (left: Result<nat>)
      modifies this
      ensures (State(), left) == RemoveRecord(old(State()), budget)
    {
      var current := LoadRecord(State());
      if current.Err? {
        return Err;
      }
      if current.value.None? {
        return Ok(budget);
      }
      left := Claim(current.value.value, budget);
      if left.Err? || left.value == 0 {
        return Err;
      }
      record := None;
      left := Ok(left.value - 1);
    }

    method RemoveIf(deviceId: string, budget: nat) returns (removed: Result<bool>)
      modifies this
      ensures (State(), removed) == RemoveRecordIf(old(State()), deviceId, budget)
    {
      var current := LoadRecord(State());
      if current.Err? {
        return Err;
      }
      if current.value.None? || current.value.value.deviceId != deviceId {
        return Ok(false);
      }
      var left := Remove(budget);
      removed := if left.Ok? then Ok(true) else Err;
    }

    method Release(budget: nat) returns (left: Result<nat>)
      modifies this`owner
      ensures (State(), left) == ReleaseOwner(old(State()), budget)
    {
      var current := LoadRecord(State());
      if current.Err? {
        return Err;
      }
      if current.value.Some? || owner.None? {
        return Ok(budget);
      }
      if budget == 0 {
        return Err;
      }
      owner := None;
      return Ok(budget - 1);
    }
  }

  // ----- runs

  datatype Event =
    | Save(rec: DeviceRecord, budget: nat)
    | Remove(budget: nat)
    | Revoke(deviceId: string, budget: nat)
    | Release(budget: nat)

  function Step(d: Identity, e: Event): Identity {
    match e
    case Save(rec, budget) => SaveRecord(d, rec, budget).0
    case Remove(budget) => RemoveRecord(d, budget).0
    case Revoke(deviceId, budget) => RemoveRecordIf(d, deviceId, budget).0
    case Release(budget) => ReleaseOwner(d, budget).0
  }

  function Exec(d: Identity, es: seq<Event>): Identity {
    if es == [] then d else Step(Exec(d, es[..|es| - 1]), es[|es| - 1])
  }

  predicate RecordHeldBy(d: Identity, accountId: string, cloudBase: string) {
    d.record.Some? && d.record.value.RecordFile? ==>
      d.record.value.record.accountId == accountId && TrimSlashes(d.record.value.record.cloudBase) == cloudBase
  }

  predicate OwnerHeldBy(d: Identity, accountId: string, cloudBase: string) {
    d.owner.Some? && d.owner.value.OwnerFile? ==>
      d.owner.value.owner.accountId == accountId && d.owner.value.owner.cloudBase == cloudBase
  }

  /** Record and owner, when both can be read, name one account on one cloud base. */
  predicate Consistent(d: Identity) {
    d.owner.Some? && d.owner.value.OwnerFile? ==>
      RecordHeldBy(d, d.owner.value.owner.accountId, d.owner.value.owner.cloudBase)
  }

  /** A release that removed an owner marker, which it does only while no record exists. */
  predicate EffectiveRelease(d: Identity, e: Event) {
    e.Release? && d.record.None? && d.owner.Some? && Step(d, e).owner.None?
  }

  ghost predicate SomeEffectiveRelease(d: Identity, es: seq<Event>) {
    exists k: nat :: k < |es| && EffectiveRelease(Exec(d, es[..k]), es[k])
  }

  /** In every run from an empty directory, crashes included, an active record is never without an owner
      and the two always agree. */
  lemma {:induction false} ActiveRecordsAreOwned(es: seq<Event>)
    ensures var d := Exec(Identity(None, None), es);
            Consistent(d) && (d.record.Some? ==> d.owner.Some?)
  {
    if es != [] {
      ActiveRecordsAreOwned(es[..|es| - 1]);
    }
  }

  /** The same agreement from any directory that starts out consistent. */
  lemma {:induction false} RunsStayConsistent(d: Identity, es: seq<Event>)
    requires Consistent(d)
    ensures Consistent(Exec(d, es))
  {
    if es != [] {
      RunsStayConsistent(d, es[..|es| - 1]);
    }
  }

  ghost predicate Held(d: Identity, accountId: string, cloudBase: string) {
    && RecordHeldBy(d, accountId, cloudBase)
    && OwnerHeldBy(d, accountId, cloudBase)
    && (d.record.None? ==> d.owner.Some?)
  }

  lemma HeldStep(d: Identity, e: Event, accountId: string, cloudBase: string)
    requires Held(d, accountId, cloudBase) && !EffectiveRelease(d, e)
    ensures Held(Step(d, e), accountId, cloudBase)
  {
  }

  lemma {:induction false} HeldUntilRelease(d: Identity, es: seq<Event>, accountId: string, cloudBase: string)
    requires Held(d, accountId, cloudBase) && !SomeEffectiveRelease(d, es)
    ensures Held(Exec(d, es), accountId, cloudBase)
  {
    if es != [] {
      var n := |es| - 1;
      forall k: nat | k < n
        ensures !EffectiveRelease(Exec(d, es[..n][..k]), es[..n][k])
      {
        assert es[..n][..k] == es[..k];
      }
      HeldUntilRelease(d, es[..n], accountId, cloudBase);
      HeldStep(Exec(d, es[..n]), es[n], accountId, cloudBase);
    }
  }

  /** Two active records of different accounts, or on different cloud bases, are separated by a release
      made while no record existed. */
  lemma AccountChangeNeedsRelease(d: Identity, es: seq<Event>)
    requires Consistent(d) && d.record.Some? && d.record.value.RecordFile?
    requires var d' := Exec(d, es);
             && d'.record.Some?
             && d'.record.value.RecordFile?
             && !SameOwner(OwnerFor(d.record.value.record), OwnerFor(d'.record.value.record))
    ensures SomeEffectiveRelease(d, es)
  {
    if !SomeEffectiveRelease(d, es) {
      HeldUntilRelease(d, es, d.record.value.record.accountId, TrimSlashes(d.record.value.record.cloudBase));
    }
  }

  /** What may change the record of this device: a save, a removal, or a revoke that names it. */
  predicate MayChange(e: Event, deviceId: string) {
    e.Save? || e.Remove? || (e.Revoke? && e.deviceId == deviceId)
  }

  /** Over every run, a record that changed or went was saved over, removed, or revoked by its own name: no
      revoke for another device, however late, touches it. */
  lemma {:induction false} RecordChangesHaveACause(d: Identity, es: seq<Event>)
    requires d.record.Some? && d.record.value.RecordFile? && Exec(d, es).record != d.record
    ensures exists e :: e in es && MayChange(e, d.record.value.record.deviceId)
  {
    var front, last := es[..|es| - 1], es[|es| - 1];
    if Exec(d, front).record != d.record {
      RecordChangesHaveACause(d, front);
      var e :| e in front && MayChange(e, d.record.value.record.deviceId);
      assert e in es;
    } else {
      assert last in es && MayChange(last, d.record.value.record.deviceId);
    }
  }

  /** The run without the revokes for one device. */
  function WithoutRevokes(es: seq<Event>, deviceId: string): seq<Event> {
    if es == [] then []
    else
      var last := es[|es| - 1];
      WithoutRevokes(es[..|es| - 1], deviceId) + (if last.Revoke? && last.deviceId == deviceId then [] else [last])
  }

  predicate HoldsDevice(d: Identity, deviceId: string) {
    d.record.Some? && d.record.value.RecordFile? && d.record.value.record.deviceId == deviceId
  }

  lemma {:induction false} DeviceStaysAbsent(d: Identity, es: seq<Event>, deviceId: string)
    requires !HoldsDevice(d, deviceId) && forall e | e in es && e.Save? :: e.rec.deviceId != deviceId
    ensures !HoldsDevice(Exec(d, es), deviceId)
  {
    if es != [] {
      DeviceStaysAbsent(d, es[..|es| - 1], deviceId);
      assert es[|es| - 1] in es;
    }
  }

  /** Once a device is gone and is not enrolled again, the revokes still on their way for it, in any number and
      anywhere among the other calls, make no difference to the directory. */
  lemma {:induction false} DelayedRevokesMakeNoDifference(d: Identity, es: seq<Event>, deviceId: string)
    requires !HoldsDevice(d, deviceId) && forall e | e in es && e.Save? :: e.rec.deviceId != deviceId
    ensures Exec(d, es) == Exec(d, WithoutRevokes(es, deviceId))
  {
    if es != [] {
      var front, last := es[..|es| - 1], es[|es| - 1];
      DelayedRevokesMakeNoDifference(d, front, deviceId);
      DeviceStaysAbsent(d, front, deviceId);
      var kept := WithoutRevokes(es, deviceId);
      if last.Revoke? && last.deviceId == deviceId {
        assert kept == WithoutRevokes(front, deviceId);
      } else {
        assert kept[..|kept| - 1] == WithoutRevokes(front, deviceId);
      }
    }
  }

  /** A successful save is read back whole, under an owner of the record's account and cloud base; an owner
      that was there is not replaced. */
  lemma SavedRecordIsLoaded(d: Identity, rec: DeviceRecord, budget: nat)
    requires SaveRecord(d, rec, budget).1.Ok?
    ensures var d' := SaveRecord(d, rec, budget).0;
            && LoadRecord(d') == Ok(Some(rec))
            && d'.owner.Some? && d'.owner.value.OwnerFile?
            && SameOwner(d'.owner.value.owner, OwnerFor(rec))
            && (d.owner.Some? ==> d'.owner == d.owner)
  {
  }

  /** Removing a record never loses the owner it had, so an interrupted removal can be told apart. */
  lemma RemovalKeepsOwner(d: Identity, budget: nat)
    requires d.record.Some? && RemoveRecord(d, budget).0.record.None?
    ensures RemoveRecord(d, budget).0.owner.Some?
    ensures d.owner.Some? ==> RemoveRecord(d, budget).0.owner == d.owner
    ensures d.record.value.RecordFile? && d.owner.None? ==>
      RemoveRecord(d, budget).0.owner == Some(RenderOwner(OwnerFor(d.record.value.record)))
  {
  }
}
