/** What interrupted adoptions converge to, what retirement may delete, and what removal makes final. */
module EnrollmentRuns {
  import opened Basics
  import opened DeviceOwnership
  import opened EnrollmentMigration

  /** Files of the canonical directory are added, never replaced. */
  predicate Extends(c: AgentDir, c': AgentDir) {
    && (c.key.Some? ==> c'.key == c.key)
    && (c.id.record.Some? ==> c'.id.record == c.id.record)
    && (c.id.owner.Some? ==> c'.id.owner == c.id.owner)
  }

  lemma FilesExtend(w: World, p: Policy, s: string, src: AgentDir, budget: nat)
    requires SnapshotLoads(p, src)
    ensures var w' := AdoptFiles(w, p, s, src, budget).0;
            Extends(w.canon, w'.canon) && w'.sources == w.sources
  {
    var rec := src.id.record.value.record;
    ClaimExtends(w, rec, budget);
    var (w1, b1) := ClaimCanonical(w, rec, budget);
    if b1.Ok? {
      var (w2, b2) := AdoptKey(w1, src.key.value, b1.value);
      if b2.Ok? {
        RecordExtends(w2, rec, b2.value);
      }
    }
  }

  lemma ClaimExtends(w: World, rec: DeviceRecord, budget: nat)
    ensures var w' := ClaimCanonical(w, rec, budget).0; Extends(w.canon, w'.canon) && w'.sources == w.sources
  {
  }

  lemma RecordExtends(w: World, rec: DeviceRecord, budget: nat)
    ensures var w' := AdoptRecord(w, rec, budget).0; Extends(w.canon, w'.canon) && w'.sources == w.sources
  {
  }

  /** No adoption, from any state, replaces a canonical key, record or owner; it touches a legacy
      directory only by resuming a retirement. */
  lemma AdoptionReplacesNothing(w: World, p: Policy, proven: Option<string>, budget: nat)
    ensures var w' := Adopt(w, p, proven, budget).0;
            && Extends(w.canon, w'.canon)
            && (w'.sources != w.sources ==> w.canon.marker.Some? && w' == Retire(w, p, budget).0)
  {
    var source := if proven == Some(p.canonicalPath) then None else proven;
    if w.canon.marker.Some? {
      MarkedAdoptionExtends(w, p, budget);
    } else if w.canon.key.Some? && w.canon.id.record.Some? {
      if Validated(p, w.canon) {
        ClaimExtends(w, w.canon.id.record.value.record, budget);
      }
    } else if source.Some? && SnapshotLoads(p, SourceDir(w, source.value)) {
      FilesExtend(w, p, source.value, SourceDir(w, source.value), budget);
    }
  }

  lemma RetirementKeepsFiles(w: World, p: Policy, budget: nat)
    ensures var w' := Retire(w, p, budget).0; w'.canon.key == w.canon.key && w'.canon.id == w.canon.id
  {
  }

  lemma MarkedAdoptionExtends(w: World, p: Policy, budget: nat)
    requires w.canon.marker.Some?
    ensures var w' := AdoptWithMarker(w, p, budget).0;
            Extends(w.canon, w'.canon) && (w'.sources != w.sources ==> w' == Retire(w, p, budget).0)
  {
    if w.canon.key.Some? && w.canon.id.record.Some? {
      if Validated(p, w.canon) {
        ClaimExtends(w, w.canon.id.record.value.record, budget);
      }
    } else {
      RetirementKeepsFiles(w, p, budget);
    }
  }

  // ----- what an outcome means

  /** A usable canonical enrollment under its own owner. */
  predicate Usable(p: Policy, c: AgentDir) {
    && Validated(p, c)
    && c.id.owner.Some?
    && c.id.owner.value.OwnerFile?
    && SameOwner(c.id.owner.value.owner, OwnerFor(c.id.record.value.record))
  }

  predicate Equal(c: AgentDir, src: AgentDir) {
    c.key == src.key && c.id.record.Some? && src.id.record.Some? && SameValue(c.id.record.value, src.id.record.value)
  }

  predicate Bound(w: World, p: Policy) {
    Usable(p, w.canon) && w.canon.marker.Some? && MarkerHolds(w, p)
  }

  lemma ClaimedIsOwned(w: World, rec: DeviceRecord, budget: nat)
    requires ClaimCanonical(w, rec, budget).1.Ok?
    ensures var c := ClaimCanonical(w, rec, budget).0.canon;
            && c.id.owner.Some? && c.id.owner.value.OwnerFile? && SameOwner(c.id.owner.value.owner, OwnerFor(rec))
            && c == w.canon.(id := w.canon.id.(owner := c.id.owner))
    ensures ClaimCanonical(w, rec, budget).0.sources == w.sources
  {
  }

  lemma PublishedFilesAreBound(w: World, p: Policy, s: string, src: AgentDir, budget: nat)
    requires Validated(p, src) && src == SourceDir(w, s) && SourceOk(p, s) && w.canon.marker.None?
    requires AdoptFiles(w, p, s, src, budget).1.Ok?
    ensures var w' := AdoptFiles(w, p, s, src, budget).0; Bound(w', p) && Equal(w'.canon, src)
  {
    ClaimedIsOwned(w, src.id.record.value.record, budget);
  }

  lemma MarkedOutcome(w: World, p: Policy, budget: nat)
    requires w.canon.marker.Some? && AdoptWithMarker(w, p, budget).1.Ok?
    ensures var (w', outcome) := AdoptWithMarker(w, p, budget);
            || (outcome.value == AlreadyAdopted && Bound(w', p))
            || (outcome.value == NoLegacyEnrollment && w'.canon.marker.None? && w'.canon.id.record.None?)
  {
    if w.canon.id.record.Some? {
      ClaimedIsOwned(w, w.canon.id.record.value.record, budget);
    }
  }

  lemma ReconciledOutcome(w: World, p: Policy, s: string, budget: nat)
    requires Usable(p, w.canon) && w.canon.marker.None? && Reconcile(w, p, s, budget).1.Ok?
    ensures var (w', outcome) := Reconcile(w, p, s, budget);
            || (outcome.value == AlreadyAdopted && Bound(w', p) && Equal(w'.canon, SourceDir(w, s)))
            || (outcome.value == AlreadyCanonical && w' == w && SourceDir(w, s).id.record.None?)
  {
  }

  /** Every success means what it says, from any state and for any budget: an adopted or already adopted
      enrollment is usable and its marker is bound to it and to what is left of the source; an adoption from
      a complete source equals it; an already canonical one is usable with no record beside it. */
  lemma OutcomesAreEarned(w: World, p: Policy, proven: Option<string>, budget: nat)
    requires Adopt(w, p, proven, budget).1.Ok?
    ensures var (w', outcome) := Adopt(w, p, proven, budget);
            match outcome.value
            case Adopted =>
              && proven.Some? && SourceOk(p, proven.value)
              && var src := SourceDir(w, proven.value);
              if src.id.record.None? then src.key.Some? && w'.canon.key == src.key && w'.canon.id == w.canon.id
              else Bound(w', p) && Equal(w'.canon, src)
            case AlreadyAdopted => Bound(w', p)
            case AlreadyCanonical =>
              && Usable(p, w'.canon) && w'.canon.marker.None?
              && (proven.None? || proven.value == p.canonicalPath || SourceDir(w, proven.value).id.record.None?)
            case NoLegacyEnrollment => w'.canon.marker.None? && !(w'.canon.key.Some? && w'.canon.id.record.Some?)
  {
    var source := if proven == Some(p.canonicalPath) then None else proven;
    if w.canon.marker.Some? {
      MarkedOutcome(w, p, budget);
    } else if w.canon.key.Some? && w.canon.id.record.Some? {
      var rec := w.canon.id.record.value.record;
      ClaimedIsOwned(w, rec, budget);
      var (w1, left) := ClaimCanonical(w, rec, budget);
      if source.Some? {
        ReconciledOutcome(w1, p, source.value, left.value);
      }
    } else if source.Some? && SourceDir(w, source.value).id.record.Some? {
      PublishedFilesAreBound(w, p, source.value, SourceDir(w, source.value), budget);
    }
  }

  /** Two live authorities: a canonical key or record that differs from a proven source's is never adopted
      over, and both stay as they are. */
  lemma ConflictsAreRefused(w: World, p: Policy, s: string, budget: nat)
    requires w.canon.marker.None? && s != p.canonicalPath && SourceDir(w, s).id.record.Some?
    requires || (w.canon.key.Some? && w.canon.key != SourceDir(w, s).key)
             || (w.canon.id.record.Some? && !SameValue(w.canon.id.record.value, SourceDir(w, s).id.record.value))
    ensures var (w', outcome) := Adopt(w, p, Some(s), budget);
            && outcome.Err?
            && w'.sources == w.sources
            && w'.canon.key == w.canon.key && w'.canon.id.record == w.canon.id.record && w'.canon.marker.None?
  {
  }

  // ----- convergence

  /** A source the checks accept: valid key and record, no conflicting owner, a nonempty account and cloud. */
  predicate CompleteSource(p: Policy, src: AgentDir) {
    && Validated(p, src)
    && OwnerAbsentOrMatching(src, src.id.record.value.record)
    && ParseOwner(RenderOwner(OwnerFor(src.id.record.value.record))).Ok?
  }

  /** The record's JSON has only the fields a record has, and no explicit null. */
  predicate CanonicalJson(f: RecordFile) {
    f.RecordFile? && f.extra == map[] && !f.nullPasskey
  }

  /** The canonical directory holds some of the source's files, in any layout, and nothing else. */
  predicate Matching(c: AgentDir, src: AgentDir)
    requires src.id.record.Some? && src.id.record.value.RecordFile?
  {
    && (c.key.Some? ==> c.key == src.key)
    && (c.id.record.Some? ==> SameValue(c.id.record.value, src.id.record.value))
    && (c.id.owner.Some? ==> ParseOwner(c.id.owner.value) == Ok(OwnerFor(src.id.record.value.record)))
  }

  /** Where adoption from `s` takes `c`: files already there stay, missing ones come from the source. */
  function Destination(c: AgentDir, s: string, src: AgentDir): (d: AgentDir)
    requires src.key.Some? && src.id.record.Some? && src.id.record.value.RecordFile?
  {
    var rec := src.id.record.value.record;
    var record := if c.id.record.Some? then c.id.record.value else RenderRecord(rec);
    var owner := if c.id.owner.Some? then c.id.owner.value else RenderOwner(OwnerFor(rec));
    AgentDir(src.key, Identity(Some(record), Some(owner)), Some(MarkerFor(s, src, owner)))
  }

  /** Arrived: marked, with the source's record in whatever JSON, and an owner that reads as the record's. */
  predicate Settled(c: AgentDir, s: string, src: AgentDir)
    requires src.key.Some? && src.id.record.Some? && src.id.record.value.RecordFile?
  {
    && c == Destination(c, s, src)
    && c.id.record.value.RecordFile?
    && c.id.record.value.record == src.id.record.value.record
    && ParseOwner(c.id.owner.value) == Ok(OwnerFor(src.id.record.value.record))
  }

  /** A point some interrupted adoption can leave: unmarked and matching, or finished. */
  predicate CrashPoint(c: AgentDir, s: string, src: AgentDir)
    requires src.key.Some? && src.id.record.Some? && src.id.record.value.RecordFile?
  {
    if c.marker.None? then Matching(c, src) else Settled(c, s, src)
  }

  predicate Adoptable(w: World, p: Policy, s: string) {
    && SourceOk(p, s)
    && CompleteSource(p, SourceDir(w, s))
    && CrashPoint(w.canon, s, SourceDir(w, s))
  }

  /** Still unmarked, still matching, and still heading where `w` was heading. */
  predicate OnCourse(w: World, w': World, s: string, src: AgentDir)
    requires src.key.Some? && src.id.record.Some? && src.id.record.value.RecordFile?
  {
    && w'.sources == w.sources
    && w'.canon.marker.None?
    && Matching(w'.canon, src)
    && Destination(w'.canon, s, src) == Destination(w.canon, s, src)
  }

  /** Complete and unmarked, with the record saved in a JSON value that is not the source's. */
  predicate Stuck(c: AgentDir, src: AgentDir)
    requires src.id.record.Some? && src.id.record.value.RecordFile?
  {
    && c.marker.None?
    && c.key == src.key
    && c.id.record == Some(RenderRecord(src.id.record.value.record))
    && !CanonicalJson(src.id.record.value)
    && c.id.owner.Some?
    && ParseOwner(c.id.owner.value) == Ok(OwnerFor(src.id.record.value.record))
  }

  function Missing<T>(file: Option<T>): nat { if file.None? then 1 else 0 }

  /** Owner and key files the canonical directory still lacks. */
  function MissingBeforeRecord(c: AgentDir): nat { Missing(c.id.owner) + Missing(c.key) }

  /** Publications needed before the marker. */
  function MissingFiles(c: AgentDir): nat { MissingBeforeRecord(c) + Missing(c.id.record) }

  /** The one stop that loses: JSON other than canonical, no record yet, killed between record and marker. */
  predicate FatalStop(c: AgentDir, src: AgentDir, budget: nat)
    requires src.id.record.Some?
  {
    && c.marker.None?
    && c.id.record.None?
    && !CanonicalJson(src.id.record.value)
    && budget == MissingBeforeRecord(c) + 1
  }

  lemma ClaimStaysOnCourse(w: World, p: Policy, s: string, budget: nat)
    requires Adoptable(w, p, s) && w.canon.marker.None?
    ensures var src := SourceDir(w, s);
            var (w', left) := ClaimCanonical(w, src.id.record.value.record, budget);
            && OnCourse(w, w', s, src)
            && w'.canon.key == w.canon.key && w'.canon.id.record == w.canon.id.record
            && (left.Ok? <==> budget >= Missing(w.canon.id.owner))
            && (left.Ok? ==> w'.canon.id.owner.Some? && left.value == budget - Missing(w.canon.id.owner))
  {
  }

  lemma KeyStaysOnCourse(w: World, w1: World, s: string, src: AgentDir, budget: nat)
    requires src.key.Some? && src.id.record.Some? && src.id.record.value.RecordFile? && OnCourse(w, w1, s, src)
    ensures var (w', left) := AdoptKey(w1, src.key.value, budget);
            && OnCourse(w, w', s, src)
            && w'.canon.id == w1.canon.id
            && (left.Ok? <==> budget >= Missing(w1.canon.key))
            && (left.Ok? ==> w'.canon.key == src.key && left.value == budget - Missing(w1.canon.key))
  {
  }

  /** The record is saved in canonical JSON, which only some sources have. */
  lemma RecordStaysOnCourse(w: World, w2: World, s: string, src: AgentDir, budget: nat)
    requires src.key.Some? && src.id.record.Some? && src.id.record.value.RecordFile? && OnCourse(w, w2, s, src)
    requires w2.canon.id.owner.Some? && w2.canon.key == src.key
    ensures var (w', left) := AdoptRecord(w2, src.id.record.value.record, budget);
            && w'.sources == w.sources
            && w'.canon.key == w2.canon.key && w'.canon.id.owner == w2.canon.id.owner && w'.canon.marker.None?
            && (left.Ok? <==> budget >= Missing(w2.canon.id.record))
            && (left.Err? ==> w' == w2)
            && (left.Ok? ==>
                  && left.value == budget - Missing(w2.canon.id.record)
                  && w'.canon.id.record == Destination(w.canon, s, src).id.record
                  && (if w2.canon.id.record.Some? || CanonicalJson(src.id.record.value) then OnCourse(w, w', s, src)
                      else Stuck(w'.canon, src)))
  {
  }

  /** Where one attempt from an unmarked crash point gets, exactly, for every budget and any JSON. */
  ghost predicate Arrives(w: World, w': World, ok: bool, s: string, src: AgentDir, budget: nat)
    requires src.key.Some? && src.id.record.Some? && src.id.record.value.RecordFile?
  {
    && w'.sources == w.sources
    && (if budget > MissingFiles(w.canon) then
          && w'.canon == Destination(w.canon, s, src)
          && Settled(w'.canon, s, src)
          && (ok <==> CanonicalJson(src.id.record.value) || w.canon.id.record.Some?)
        else
          && !ok
          && if FatalStop(w.canon, src, budget) then Stuck(w'.canon, src) else OnCourse(w, w', s, src))
  }

  lemma FilesArrive(w: World, p: Policy, s: string, budget: nat)
    requires Adoptable(w, p, s) && w.canon.marker.None?
    ensures var (w', outcome) := AdoptFiles(w, p, s, SourceDir(w, s), budget);
            Arrives(w, w', outcome.Ok?, s, SourceDir(w, s), budget)
  {
    var src := SourceDir(w, s);
    var rec := src.id.record.value.record;
    ClaimStaysOnCourse(w, p, s, budget);
    var (w1, b1) := ClaimCanonical(w, rec, budget);
    if b1.Ok? {
      KeyStaysOnCourse(w, w1, s, src, b1.value);
      var (w2, b2) := AdoptKey(w1, src.key.value, b1.value);
      if b2.Ok? {
        RecordStaysOnCourse(w, w2, s, src, b2.value);
      }
    }
  }

  lemma ReconcileArrives(w: World, p: Policy, s: string, budget: nat)
    requires Adoptable(w, p, s) && w.canon.marker.None? && w.canon.key.Some? && w.canon.id.record.Some?
    ensures var (w', outcome) := Adopt(w, p, Some(s), budget);
            Arrives(w, w', outcome.Ok?, s, SourceDir(w, s), budget)
  {
    ClaimStaysOnCourse(w, p, s, budget);
  }

  /**
   * One attempt from an unmarked crash point, stopped anywhere: with more effects than missing files it
   * reaches the destination; stopped earlier it stays on course, except that with other than canonical JSON a
   * stop between record and marker leaves it stuck. It reports success exactly when it reaches the destination
   * with the source's JSON value.
   */
  lemma AttemptArrives(w: World, p: Policy, s: string, budget: nat)
    requires Adoptable(w, p, s) && w.canon.marker.None?
    ensures var (w', outcome) := Adopt(w, p, Some(s), budget);
            Arrives(w, w', outcome.Ok?, s, SourceDir(w, s), budget)
  {
    if w.canon.key.Some? && w.canon.id.record.Some? {
      ReconcileArrives(w, p, s, budget);
    } else {
      FilesArrive(w, p, s, budget);
      assert Adopt(w, p, Some(s), budget) == AdoptFiles(w, p, s, SourceDir(w, s), budget);
    }
  }

  /** A finished adoption is reported as such ever after, also when the attempt that finished it reported an
      error. */
  lemma SettledStays(w: World, p: Policy, s: string, budget: nat)
    requires Adoptable(w, p, s) && w.canon.marker.Some?
    ensures Adopt(w, p, Some(s), budget) == (w, Ok(AlreadyAdopted))
  {
  }

  lemma StuckStays(w: World, p: Policy, s: string, budget: nat)
    requires SourceOk(p, s) && CompleteSource(p, SourceDir(w, s)) && Stuck(w.canon, SourceDir(w, s))
    ensures Adopt(w, p, Some(s), budget) == (w, Err)
  {
  }

  function Attempts(w: World, p: Policy, s: string, budgets: seq<nat>): World {
    if budgets == [] then w
    else Adopt(Attempts(w, p, s, budgets[..|budgets| - 1]), p, Some(s), budgets[|budgets| - 1]).0
  }

  /** Some attempt of the run was stopped at the one losing point. */
  ghost predicate StoppedFatally(w: World, p: Policy, s: string, budgets: seq<nat>)
    requires SourceDir(w, s).id.record.Some?
  {
    && budgets != []
    && (|| StoppedFatally(w, p, s, budgets[..|budgets| - 1])
        || FatalStop(Attempts(w, p, s, budgets[..|budgets| - 1]).canon, SourceDir(w, s), budgets[|budgets| - 1]))
  }

  ghost predicate Converging(w: World, x: World, p: Policy, s: string)
    requires Adoptable(w, p, s)
  {
    && x.sources == w.sources
    && Adoptable(x, p, s)
    && Destination(x.canon, s, SourceDir(w, s)) == Destination(w.canon, s, SourceDir(w, s))
  }

  lemma AttemptConverges(w: World, x: World, p: Policy, s: string, budget: nat)
    requires Adoptable(w, p, s) && Converging(w, x, p, s)
    ensures var x' := Adopt(x, p, Some(s), budget).0;
            && x'.sources == w.sources
            && (if FatalStop(x.canon, SourceDir(w, s), budget) then Stuck(x'.canon, SourceDir(w, s))
                else Converging(w, x', p, s))
            && (budget >= 4 ==> x'.canon == Destination(w.canon, s, SourceDir(w, s)))
  {
    if x.canon.marker.None? {
      AttemptArrives(x, p, s, budget);
    } else {
      SettledStays(x, p, s, budget);
    }
  }

  /**
   * Any number of interrupted attempts from any crash point, for any JSON: the directory is stuck if and only
   * if some attempt was stopped at the losing point; otherwise it keeps its destination, and an attempt that
   * is not stopped arrives there: the source's key, record and owner, and the marker bound to them. Canonical
   * JSON has no losing point.
   */
  lemma {:induction false} InterruptedAdoptionsConverge(w: World, p: Policy, s: string, budgets: seq<nat>)
    requires Adoptable(w, p, s)
    ensures var x := Attempts(w, p, s, budgets);
            && x.sources == w.sources
            && (Stuck(x.canon, SourceDir(w, s)) <==> StoppedFatally(w, p, s, budgets))
            && (!StoppedFatally(w, p, s, budgets) ==>
                  && Converging(w, x, p, s)
                  && (budgets != [] && budgets[|budgets| - 1] >= 4 ==>
                        x == w.(canon := Destination(w.canon, s, SourceDir(w, s)))))
    ensures CanonicalJson(SourceDir(w, s).id.record.value) ==> !StoppedFatally(w, p, s, budgets)
  {
    if budgets != [] {
      var front := budgets[..|budgets| - 1];
      var x := Attempts(w, p, s, front);
      InterruptedAdoptionsConverge(w, p, s, front);
      if StoppedFatally(w, p, s, front) {
        StuckStays(x, p, s, budgets[|budgets| - 1]);
      } else {
        AttemptConverges(w, x, p, s, budgets[|budgets| - 1]);
      }
    }
  }

  /** A stuck directory is left exactly as it is by every later attempt. */
  lemma {:induction false} StuckForever(w: World, p: Policy, s: string, budgets: seq<nat>)
    requires SourceOk(p, s) && CompleteSource(p, SourceDir(w, s)) && Stuck(w.canon, SourceDir(w, s))
    ensures Attempts(w, p, s, budgets) == w
    ensures budgets != [] ==> Adopt(w, p, Some(s), budgets[|budgets| - 1]).1.Err?
  {
    if budgets != [] {
      StuckForever(w, p, s, budgets[..|budgets| - 1]);
      StuckStays(w, p, s, budgets[|budgets| - 1]);
    }
  }

  // ----- runs with removal and retirement

  datatype Event =
    | AdoptEvent(proven: Option<string>, budget: nat)
    | RemoveEvent(budget: nat)
    | RetireEvent(budget: nat)

  function Step(w: World, p: Policy, e: Event): World {
    match e
    case AdoptEvent(proven, budget) => Adopt(w, p, proven, budget).0
    case RemoveEvent(budget) => RemoveCanonical(w, budget).0
    case RetireEvent(budget) => Retire(w, p, budget).0
  }

  function Exec(w: World, p: Policy, es: seq<Event>): World {
    if es == [] then w else Step(Exec(w, p, es[..|es| - 1]), p, es[|es| - 1])
  }

  /** Adoption is only ever pointed at `s`, or at nothing. */
  predicate OnlySource(es: seq<Event>, s: string) {
    forall e | e in es && e.AdoptEvent? && e.proven.Some? :: e.proven.value == s
  }

  /** No canonical record, and either the marker still guards `s` or the record at `s` is gone. */
  predicate RemovedForGood(w: World, s: string) {
    && w.canon.id.record.None?
    && (if w.canon.marker.Some? then w.canon.marker.value.MarkerFile? && w.canon.marker.value.source == s
        else SourceDir(w, s).id.record.None?)
  }

  lemma StepKeepsRemoved(w: World, p: Policy, s: string, e: Event)
    requires RemovedForGood(w, s) && (e.AdoptEvent? && e.proven.Some? ==> e.proven.value == s)
    ensures RemovedForGood(Step(w, p, e), s)
  {
  }

  /** Once an adopted record is removed, no sequence of adopt, remove and retire calls, stopped
      anywhere, brings a canonical record back from the adopted source. */
  lemma {:induction false} RemovedRecordNeverReturns(w: World, p: Policy, s: string, budget: nat, es: seq<Event>)
    requires w.canon.marker.Some? && w.canon.marker.value.MarkerFile? && w.canon.marker.value.source == s
    requires RemoveCanonical(w, budget).0.canon.id.record.None? && OnlySource(es, s)
    ensures RemovedForGood(Exec(RemoveCanonical(w, budget).0, p, es), s)
    ensures Exec(RemoveCanonical(w, budget).0, p, es).canon.id.record.None?
    decreases |es|
  {
    if es != [] {
      RemovedRecordNeverReturns(w, p, s, budget, es[..|es| - 1]);
      StepKeepsRemoved(Exec(RemoveCanonical(w, budget).0, p, es[..|es| - 1]), p, s, es[|es| - 1]);
    }
  }

  // ----- retirement

  predicate Retirable(w: World, p: Policy) {
    w.canon.marker.Some? && MarkerReadable(p, w.canon.marker.value) && LegacyUnchanged(w, w.canon.marker.value)
  }

  /** The finished retirement: no legacy record, no legacy key, no marker. */
  function Retired(w: World): World
    requires w.canon.marker.Some? && w.canon.marker.value.MarkerFile?
  {
    var s := w.canon.marker.value.source;
    World(w.canon.(marker := None),
          if s in w.sources
          then w.sources[s := w.sources[s].(key := None, id := w.sources[s].id.(record := None))]
          else w.sources)
  }

  /** Wherever retirement stops it can be resumed to the same end, and it deletes the record before the
      key and the key before the marker. */
  lemma RetirementResumes(w: World, p: Policy, budget: nat)
    requires Retirable(w, p)
    ensures var s := w.canon.marker.value.source;
            var (w', left) := Retire(w, p, budget);
            && (w' == Retired(w) || (Retirable(w', p) && Retired(w') == Retired(w)))
            && (budget >= 3 ==> w' == Retired(w) && left.Ok?)
            && (SourceDir(w, s).key.Some? && SourceDir(w', s).key.None? ==> SourceDir(w', s).id.record.None?)
            && (w'.canon.marker.None? ==> SourceDir(w', s).key.None? && SourceDir(w', s).id.record.None?)
  {
  }

  predicate MarkerNamesRecord(c: AgentDir, s: string, f: RecordFile) {
    && c.marker.Some?
    && c.marker.value.MarkerFile?
    && c.marker.value.source == s
    && c.marker.value.recordSha == Some(Sha256(f))
  }

  predicate MarkerNamesKey(c: AgentDir, s: string, key: Bytes) {
    c.marker.Some? && c.marker.value.MarkerFile? && c.marker.value.source == s && c.marker.value.keySha == Sha256(key)
  }

  predicate Spared(c: AgentDir, s: string, before: AgentDir, after: AgentDir) {
    && after.id.owner == before.id.owner
    && (before.id.record.Some? && !MarkerNamesRecord(c, s, before.id.record.value) ==> after == before)
    && (before.key.Some? && !MarkerNamesKey(c, s, before.key.value) ==> after.key == before.key)
    && (before.id.record.None? ==> after.id.record.None?)
    && (before.key.None? ==> after.key.None?)
  }

  lemma RetirementSparesChangedFiles(w: World, p: Policy, s: string, budget: nat)
    ensures Spared(w.canon, s, SourceDir(w, s), SourceDir(Retire(w, p, budget).0, s))
  {
  }

  /** From any state, no call deletes or changes a legacy file unless the marker holds that file's own
      digest, and none touches a legacy owner. */
  lemma ChangedLegacyFilesStay(w: World, p: Policy, e: Event, s: string)
    ensures Spared(w.canon, s, SourceDir(w, s), SourceDir(Step(w, p, e), s))
  {
    RetirementSparesChangedFiles(w, p, s, e.budget);
    if e.AdoptEvent? {
      AdoptionReplacesNothing(w, p, e.proven, e.budget);
    }
  }
}
