/**
 * Adoption of a legacy enrollment into the canonical agent directory, and retirement of the legacy
 * copy (hydra-agent/src/enrollment_migration.rs).
 *
 * Budgets count publications and removals, as in DeviceOwnership: running out stands for a crash or a
 * failing system call at that file step.
 */
module EnrollmentMigration {
  import opened Basics
  import opened DeviceOwnership

  /** The adoption marker. `recordSha` is absent when that field is not a SHA-256 text. */
  datatype MarkerFile =
    | MalformedMarker(text: string)
    | MarkerFile(schema: nat, source: string, accountId: string, deviceId: string,
                 keySha: Digest<Bytes>, recordSha: Option<Digest<RecordFile>>, ownerSha: Digest<OwnerFile>)

  datatype AgentDir = AgentDir(key: Option<Bytes>, id: Identity, marker: Option<MarkerFile>)

  /** The canonical directory and the legacy directories that exist, by path. */
  datatype World = World(canon: AgentDir, sources: map<string, AgentDir>)

  /** What the surrounding code decides: path syntax, release trust and key encoding. */
  datatype Policy = Policy(
    canonicalPath: string, wellFormed: string -> bool, recordOk: DeviceRecord -> bool, keyOk: Bytes -> bool)

  datatype Outcome = NoLegacyEnrollment | AlreadyCanonical | Adopted | AlreadyAdopted

  predicate SourceOk(p: Policy, s: string) {
    p.wellFormed(s) && s != p.canonicalPath
  }

  function SourceDir(w: World, s: string): AgentDir {
    if s in w.sources then w.sources[s] else AgentDir(None, Identity(None, None), None)
  }

  predicate SnapshotLoads(p: Policy, d: AgentDir) {
    d.key.Some? && p.keyOk(d.key.value) && d.id.record.Some? && d.id.record.value.RecordFile?
  }

  predicate Validated(p: Policy, d: AgentDir) {
    SnapshotLoads(p, d) && p.recordOk(d.id.record.value.record)
  }

  /** Equality of the two files as JSON values. */
  predicate SameValue(a: RecordFile, b: RecordFile) {
    a.RecordFile? && b.RecordFile? && a.record == b.record && a.extra == b.extra && a.nullPasskey == b.nullPasskey
  }

  predicate OwnerAbsentOrMatching(d: AgentDir, rec: DeviceRecord) {
    LoadOwner(d.id) == Ok(None) || LoadOwner(d.id) == Ok(Some(OwnerFor(rec)))
  }

  function OwnerBytes(d: AgentDir): (r: Result<OwnerFile>)
    ensures r.Ok? ==> d.id.owner == Some(r.value)
  {
    if d.id.owner.Some? && ParseOwner(d.id.owner.value).Ok? then Ok(d.id.owner.value) else Err
  }

  function MarkerFor(s: string, src: AgentDir, owner: OwnerFile): MarkerFile
    requires src.key.Some? && src.id.record.Some? && src.id.record.value.RecordFile?
  {
    var rec := src.id.record.value.record;
    MarkerFile(1, s, rec.accountId, rec.deviceId, Sha256(src.key.value), Some(Sha256(src.id.record.value)),
               Sha256(owner))
  }

  predicate LegacyUnchanged(w: World, m: MarkerFile)
    requires m.MarkerFile?
  {
    var src := SourceDir(w, m.source);
    && (src.key.Some? ==> Sha256(src.key.value) == m.keySha)
    && (src.id.record.Some? ==> Some(Sha256(src.id.record.value)) == m.recordSha)
  }

  predicate MarkerReadable(p: Policy, m: MarkerFile) {
    m.MarkerFile? && m.schema == 1 && SourceOk(p, m.source)
  }

  /** The marker is bound to the complete canonical enrollment and to whatever is left of the source. */
  predicate MarkerHolds(w: World, p: Policy)
    requires w.canon.marker.Some? && w.canon.key.Some? && w.canon.id.record.Some? && w.canon.id.record.value.RecordFile?
  {
    var m := w.canon.marker.value;
    var rec := w.canon.id.record.value.record;
    && MarkerReadable(p, m)
    && m.accountId == rec.accountId
    && m.deviceId == rec.deviceId
    && m.keySha == Sha256(w.canon.key.value)
    && OwnerBytes(w.canon).Ok?
    && m.ownerSha == Sha256(OwnerBytes(w.canon).value)
    && m.recordSha.Some?
    && LegacyUnchanged(w, m)
  }

  predicate MarkerFitsInterruptedRemove(w: World, p: Policy)
    requires w.canon.marker.Some? && w.canon.key.Some?
  {
    var m := w.canon.marker.value;
    && MarkerReadable(p, m)
    && m.keySha == Sha256(w.canon.key.value)
    && OwnerBytes(w.canon).Ok?
    && m.ownerSha == Sha256(OwnerBytes(w.canon).value)
    && m.recordSha.Some?
  }

  // ----- single publications

  function ClaimCanonical(w: World, rec: DeviceRecord, budget: nat): (World, Result<nat>) {
    var (id, left) := ClaimOwner(w.canon.id, rec, budget);
    (w.(canon := w.canon.(id := id)), left)
  }

  function AdoptKey(w: World, key: Bytes, budget: nat): (World, Result<nat>) {
    if w.canon.key.Some? then (w, Ok(budget))
    else if budget == 0 then (w, Err)
    else (w.(canon := w.canon.(key := Some(key))), Ok(budget - 1))
  }

  function AdoptRecord(w: World, rec: DeviceRecord, budget: nat): (World, Result<nat>) {
    if w.canon.id.record.Some? then (w, Ok(budget))
    else
      var (id, left) := SaveRecord(w.canon.id, rec, budget);
      (w.(canon := w.canon.(id := id)), left)
  }

  function InstallMarker(w: World, m: MarkerFile, budget: nat): (World, Result<nat>) {
    if w.canon.marker.Some? then (w, if w.canon.marker.value == m then Ok(budget) else Err)
    else if budget == 0 then (w, Err)
    else (w.(canon := w.canon.(marker := Some(m))), Ok(budget - 1))
  }

  // ----- retirement

  function RetireRecord(w: World, m: MarkerFile, budget: nat): (World, Result<nat>)
    requires m.MarkerFile?
  {
    var src := SourceDir(w, m.source);
    if src.id.record.None? then (w, Ok(budget))
    else if Some(Sha256(src.id.record.value)) != m.recordSha || budget == 0 then (w, Err)
    else (w.(sources := w.sources[m.source := src.(id := src.id.(record := None))]), Ok(budget - 1))
  }

  function RetireKey(w: World, m: MarkerFile, budget: nat): (World, Result<nat>)
    requires m.MarkerFile?
  {
    var src := SourceDir(w, m.source);
    if src.key.None? then (w, Ok(budget))
    else if Sha256(src.key.value) != m.keySha || budget == 0 then (w, Err)
    else (w.(sources := w.sources[m.source := src.(key := None)]), Ok(budget - 1))
  }

  function RemoveMarker(w: World, budget: nat): (World, Result<nat>) {
    if budget == 0 then (w, Err) else (w.(canon := w.canon.(marker := None)), Ok(budget - 1))
  }

  function Retire(w: World, p: Policy, budget: nat): (World, Result<nat>) {
    if w.canon.marker.None? then (w, Ok(budget))
    else if !MarkerReadable(p, w.canon.marker.value) then (w, Err)
    else
      var m := w.canon.marker.value;
      var (w1, b1) := RetireRecord(w, m, budget);
      if b1.Err? then (w1, Err)
      else
        var (w2, b2) := RetireKey(w1, m, b1.value);
        if b2.Err? then (w2, Err) else RemoveMarker(w2, b2.value)
  }

  // ----- adoption

  function AdoptFiles(w: World, p: Policy, s: string, src: AgentDir, budget: nat): (World, Result<Outcome>)
    requires SnapshotLoads(p, src)
  {
    var rec := src.id.record.value.record;
    var (w1, b1) := ClaimCanonical(w, rec, budget);
    if b1.Err? then (w1, Err)
    else
      var (w2, b2) := AdoptKey(w1, src.key.value, b1.value);
      if b2.Err? then (w2, Err)
      else
        var (w3, b3) := AdoptRecord(w2, rec, b2.value);
        if b3.Err? || OwnerBytes(w3.canon).Err? then (w3, Err)
        else
          var (w4, b4) := InstallMarker(w3, MarkerFor(s, src, OwnerBytes(w3.canon).value), b3.value);
          if || b4.Err?
             || !SnapshotLoads(p, w4.canon)
             || w4.canon.key != src.key
             || !SameValue(w4.canon.id.record.value, src.id.record.value)
          then (w4, Err)
          else (w4, Ok(Adopted))
  }

  function AdoptFromSource(w: World, p: Policy, s: string, budget: nat): (World, Result<Outcome>) {
    var src := SourceDir(w, s);
    if src.key.None? && src.id.record.None? then (w, Ok(NoLegacyEnrollment))
    else if src.id.record.None? then
      if !p.keyOk(src.key.value) || (w.canon.key.Some? && w.canon.key != src.key) then (w, Err)
      else
        var (w1, left) := AdoptKey(w, src.key.value, budget);
        (w1, if left.Ok? then Ok(Adopted) else Err)
    else if || !Validated(p, src)
            || !OwnerAbsentOrMatching(src, src.id.record.value.record)
            || (w.canon.key.Some? && w.canon.key != src.key)
            || (w.canon.id.record.Some? && !SameValue(w.canon.id.record.value, src.id.record.value))
    then (w, Err)
    else AdoptFiles(w, p, s, src, budget)
  }

  /** A complete canonical enrollment beside a proven source: equal means an interrupted adoption. */
  function Reconcile(w: World, p: Policy, s: string, budget: nat): (World, Result<Outcome>)
    requires SnapshotLoads(p, w.canon)
  {
    var src := SourceDir(w, s);
    if src.key.None? && src.id.record.None? then (w, Ok(AlreadyCanonical))
    else if src.id.record.None? then (w, if p.keyOk(src.key.value) then Ok(AlreadyCanonical) else Err)
    else if || !Validated(p, src)
            || !OwnerAbsentOrMatching(src, src.id.record.value.record)
            || w.canon.key != src.key
            || !SameValue(w.canon.id.record.value, src.id.record.value)
            || OwnerBytes(w.canon).Err?
    then (w, Err)
    else
      var (w1, left) := InstallMarker(w, MarkerFor(s, src, OwnerBytes(w.canon).value), budget);
      (w1, if left.Ok? && MarkerHolds(w1, p) then Ok(AlreadyAdopted) else Err)
  }

  function AdoptWithMarker(w: World, p: Policy, budget: nat): (World, Result<Outcome>)
    requires w.canon.marker.Some?
  {
    if w.canon.key.Some? && w.canon.id.record.Some? then
      if !Validated(p, w.canon) then (w, Err)
      else
        var (w1, left) := ClaimCanonical(w, w.canon.id.record.value.record, budget);
        (w1, if left.Ok? && MarkerHolds(w1, p) then Ok(AlreadyAdopted) else Err)
    else if w.canon.key.Some? && MarkerFitsInterruptedRemove(w, p) then
      var (w1, left) := Retire(w, p, budget);
      (w1, if left.Ok? then Ok(NoLegacyEnrollment) else Err)
    else (w, Err)
  }

  function Adopt(w: World, p: Policy, proven: Option<string>, budget: nat): (World, Result<Outcome>) {
    if w.canon.marker.Some? then AdoptWithMarker(w, p, budget)
    else
      var source := if proven == Some(p.canonicalPath) then None else proven;
      if source.Some? && !SourceOk(p, source.value) then (w, Err)
      else if w.canon.key.Some? && w.canon.id.record.Some? then
        if !Validated(p, w.canon) then (w, Err)
        else
          var (w1, left) := ClaimCanonical(w, w.canon.id.record.value.record, budget);
          if left.Err? then (w1, Err)
          else if source.None? then (w1, Ok(AlreadyCanonical))
          else Reconcile(w1, p, source.value, left.value)
      else if source.None? then (w, if w.canon.id.record.Some? then Err else Ok(NoLegacyEnrollment))
      else AdoptFromSource(w, p, source.value, budget)
  }

  /** Remote removal: drop the canonical record. */
  function RemoveCanonical(w: World, budget: nat): (World, Result<nat>) {
    var (id, left) := RemoveRecord(w.canon.id, budget);
    (w.(canon := w.canon.(id := id)), left)
  }

  // ----- the calls as they run against the directories

  class EnrollmentStore {
    const policy: Policy
    var canon: AgentDir
    var sources: map<string, AgentDir>

    constructor (policy: Policy, w: World)
      ensures this.policy == policy && State() == w
    {
      this.policy := policy;
      canon := w.canon;
      sources := w.sources;
    }

    function State(): World
      reads this
    {
      World(canon, sources)
    }

    method Claim(rec: DeviceRecord, budget: nat) returns (left: Result<nat>)
      modifies this`canon
      ensures (State(), left) == ClaimCanonical(old(State()), rec, budget)
    {
      var directory := new AgentDirectory(canon.id);
      left := directory.Claim(rec, budget);
      canon := canon.(id := Identity(directory.record, directory.owner));
    }

    method PublishMarker(m: MarkerFile, budget: nat) returns (left: Result<nat>)
      modifies this`canon
      ensures (State(), left) == InstallMarker(old(State()), m, budget)
    {
      if canon.marker.Some? {
        return if canon.marker.value == m then Ok(budget) else Err;
      }
      if budget == 0 {
        return Err;
      }
      canon := canon.(marker := Some(m));
      return Ok(budget - 1);
    }

    /** Owner, key, record and marker, in that order, each only if it is missing. */
    method PublishAdoption(s: string, src: AgentDir, budget: nat) returns (outcome: Result<Outcome>)
      requires SnapshotLoads(policy, src)
      modifies this`canon
      ensures (State(), outcome) == AdoptFiles(old(State()), policy, s, src, budget)
    {
      var rec := src.id.record.value.record;
      var left := Claim(rec, budget);
      if left.Err? {
        return Err;
      }
      if canon.key.None? {
        if left.value == 0 {
          return Err;
        }
        canon := canon.(key := src.key);
        left := Ok(left.value - 1);
      }
      if canon.id.record.None? {
        var directory := new AgentDirectory(canon.id);
        left := directory.Save(rec, left.value);
        canon := canon.(id := Identity(directory.record, directory.owner));
        if left.Err? {
          return Err;
        }
      }
      var owner := OwnerBytes(canon);
      if owner.Err? {
        return Err;
      }
      left := PublishMarker(MarkerFor(s, src, owner.value), left.value);
      if left.Err? || !SnapshotLoads(policy, canon) || canon.key != src.key ||
         !SameValue(canon.id.record.value, src.id.record.value) {
        return Err;
      }
      return Ok(Adopted);
    }

    method RetireLegacy(budget: nat) returns (left: Result<nat>)
      modifies this
      ensures (State(), left) == Retire(old(State()), policy, budget)
    {
      if canon.marker.None? {
        return Ok(budget);
      }
      var m := canon.marker.value;
      if !MarkerReadable(policy, m) {
        return Err;
      }
      var b := budget;
      var src := SourceDir(State(), m.source);
      if src.id.record.Some? {
        if Some(Sha256(src.id.record.value)) != m.recordSha || b == 0 {
          return Err;
        }
        src := src.(id := src.id.(record := None));
        sources := sources[m.source := src];
        b := b - 1;
      }
      if src.key.Some? {
        if Sha256(src.key.value) != m.keySha || b == 0 {
          return Err;
        }
        src := src.(key := None);
        sources := sources[m.source := src];
        b := b - 1;
      }
      if b == 0 {
        return Err;
      }
      canon := canon.(marker := None);
      return Ok(b - 1);
    }

    method AdoptLegacy(proven: Option<string>, budget: nat) returns (outcome: Result<Outcome>)
      modifies this
      ensures (State(), outcome) == Adopt(old(State()), policy, proven, budget)
    {
      if canon.marker.Some? {
        if canon.key.Some? && canon.id.record.Some? {
          if !Validated(policy, canon) {
            return Err;
          }
          var left := Claim(canon.id.record.value.record, budget);
          return if left.Ok? && MarkerHolds(State(), policy) then Ok(AlreadyAdopted) else Err;
        }
        if canon.key.None? || !MarkerFitsInterruptedRemove(State(), policy) {
          return Err;
        }
        var left := RetireLegacy(budget);
        return if left.Ok? then Ok(NoLegacyEnrollment) else Err;
      }
      var source := if proven == Some(policy.canonicalPath) then None else proven;
      if source.Some? && !SourceOk(policy, source.value) {
        return Err;
      }
      if canon.key.Some? && canon.id.record.Some? {
        if !Validated(policy, canon) {
          return Err;
        }
        var left := Claim(canon.id.record.value.record, budget);
        if left.Err? {
          return Err;
        }
        if source.None? {
          return Ok(AlreadyCanonical);
        }
        outcome := ReconcileWith(source.value, left.value);
      } else if source.None? {
        return if canon.id.record.Some? then Err else Ok(NoLegacyEnrollment);
      } else {
        outcome := AdoptSource(source.value, budget);
      }
    }

    method ReconcileWith(s: string, budget: nat) returns (outcome: Result<Outcome>)
      requires SnapshotLoads(policy, canon)
      modifies this`canon
      ensures (State(), outcome) == Reconcile(old(State()), policy, s, budget)
    {
      var src := SourceDir(State(), s);
      if src.id.record.None? {
        return if src.key.None? || policy.keyOk(src.key.value) then Ok(AlreadyCanonical) else Err;
      }
      if !Validated(policy, src) || !OwnerAbsentOrMatching(src, src.id.record.value.record) ||
         canon.key != src.key || !SameValue(canon.id.record.value, src.id.record.value) {
        return Err;
      }
      var owner := OwnerBytes(canon);
      if owner.Err? {
        return Err;
      }
      var left := PublishMarker(MarkerFor(s, src, owner.value), budget);
      return if left.Ok? && MarkerHolds(State(), policy) then Ok(AlreadyAdopted) else Err;
    }

    method AdoptSource(s: string, budget: nat) returns (outcome: Result<Outcome>)
      modifies this`canon
      ensures (State(), outcome) == AdoptFromSource(old(State()), policy, s, budget)
    {
      var src := SourceDir(State(), s);
      if src.id.record.None? {
        if src.key.None? {
          return Ok(NoLegacyEnrollment);
        }
        if !policy.keyOk(src.key.value) || (canon.key.Some? && canon.key != src.key) {
          return Err;
        }
        if canon.key.None? {
          if budget == 0 {
            return Err;
          }
          canon := canon.(key := src.key);
        }
        return Ok(Adopted);
      }
      if !Validated(policy, src) || !OwnerAbsentOrMatching(src, src.id.record.value.record) ||
         (canon.key.Some? && canon.key != src.key) ||
         (canon.id.record.Some? && !SameValue(canon.id.record.value, src.id.record.value)) {
        return Err;
      }
      outcome := PublishAdoption(s, src, budget);
    }
  }
}
