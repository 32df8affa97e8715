/**
 * What every run of probe, apply, acknowledge, sync and power loss keeps, and which durable claims
 * depend on how the calls are made.
 */
module AuthorityRuns {
  import opened Basics
  import opened AuthorityMigration

  // ----- where the modes are heading

  function GoalAt(i: nat, mode: Mode): Mode
    requires i < PATH_COUNT
  {
    match TargetMode(KindAt(i), mode)
    case Ok(t) => t
    case Err => mode
  }

  /** The modes an uninterrupted run starting from `o` ends with. */
  function Goal(o: seq<Mode>): (g: seq<Mode>)
    requires |o| == PATH_COUNT
  {
    seq(PATH_COUNT, i requires 0 <= i < PATH_COUNT => GoalAt(i, o[i]))
  }

  /** The first `k` paths tightened, the others untouched. */
  function Prefix(o: seq<Mode>, k: nat): (p: seq<Mode>)
    requires |o| == PATH_COUNT && k <= PATH_COUNT
  {
    Goal(o)[..k] + o[k..]
  }

  ghost predicate PrefixTightened(modes: seq<Mode>, o: seq<Mode>)
    requires |o| == PATH_COUNT
  {
    exists k: nat :: k <= PATH_COUNT && modes == Prefix(o, k)
  }

  /** A target is settled, only clears bits, is not group or world writable, and every real change
      has a public form on both sides. */
  lemma TargetIsSettled(kind: Kind, mode: Mode, target: Mode)
    requires TargetMode(kind, mode) == Ok(target)
    ensures TargetMode(kind, target) == Ok(target)
    ensures target & !mode == 0
    ensures target & (WRITABLE_BITS | SPECIAL_BITS) == 0
    ensures target != mode ==> HasPublicForm(mode) && HasPublicForm(target) && HasPublicChange(mode, target)
  {
  }

  /** Every proper ancestor of a listed path below home is listed, and earlier. */
  lemma AncestorsAreListedFirst(j: nat, depth: nat)
    requires j < PATH_COUNT && 0 < depth < |FIXED_PATHS[j].below|
    ensures exists i: nat :: i < j && FIXED_PATHS[i].below == FIXED_PATHS[j].below[..depth]
  {
    var parents := [0, 0, 1, 3, 3, 4, 5, 0, 7, 8];
    var i := parents[j];
    assert FIXED_PATHS[i].below == FIXED_PATHS[j].below[..|FIXED_PATHS[j].below| - 1];
    if depth < |FIXED_PATHS[j].below| - 1 {
      AncestorsAreListedFirst(i, depth);
      assert FIXED_PATHS[i].below[..depth] == FIXED_PATHS[j].below[..depth];
    }
  }

  // ----- runs

  datatype Event =
    | ProbeEvent(verified: bool)
    | ApplyEvent(apply: ApplyCall)
    | AckEvent(ack: AckCall)
    | SyncEvent
    | PowerLoss(keepModes: seq<bool>, keepReceipt: bool)

  /** After a power loss each unsynced change is independently there or gone. */
  function Survive(w: World, keepModes: seq<bool>, keepReceipt: bool): (w': World)
    requires WorldShaped(w)
    ensures WorldShaped(w')
  {
    var modes := seq(PATH_COUNT, i requires 0 <= i < PATH_COUNT =>
      if i < |keepModes| && keepModes[i] then w.vol.modes[i] else w.dur.modes[i]);
    var disk := Disk(modes, if keepReceipt then w.vol.receipt else w.dur.receipt);
    World(w.site, disk, disk)
  }

  function Step(w: World, e: Event): (w': World)
    requires WorldShaped(w)
    ensures WorldShaped(w')
  {
    match e
    case ProbeEvent(_) => w
    case ApplyEvent(c) => Apply(w, c).0
    case AckEvent(c) => Acknowledge(w, c).0
    case SyncEvent => w.(dur := w.vol)
    case PowerLoss(keepModes, keepReceipt) => Survive(w, keepModes, keepReceipt)
  }

  function Exec(w: World, es: seq<Event>): (w': World)
    requires WorldShaped(w)
    ensures WorldShaped(w')
  {
    if es == [] then w else Step(Exec(w, es[..|es| - 1]), es[|es| - 1])
  }

  predicate Initial(w: World) {
    WorldShaped(w) && w.vol == w.dur && w.vol.receipt.None?
  }

  /** Some acknowledgement in the run succeeded. */
  ghost predicate Acknowledged(w: World, es: seq<Event>)
    requires WorldShaped(w)
  {
    && es != []
    && (|| Acknowledged(w, es[..|es| - 1])
        || AckSucceeds(Exec(w, es[..|es| - 1]), es[|es| - 1]))
  }

  predicate AckSucceeds(w: World, e: Event)
    requires WorldShaped(w)
  {
    e.AckEvent? && Acknowledge(w, e.ack).1
  }

  predicate NoPowerLoss(es: seq<Event>) {
    forall e | e in es :: !e.PowerLoss?
  }

  /** Every apply and acknowledge call starts from a fully synced disk. */
  ghost predicate CleanRun(w: World, es: seq<Event>)
    requires WorldShaped(w)
  {
    es == [] ||
    (&& CleanRun(w, es[..|es| - 1])
     && (es[|es| - 1].ApplyEvent? || es[|es| - 1].AckEvent? ==>
           Exec(w, es[..|es| - 1]).vol == Exec(w, es[..|es| - 1]).dur))
  }

  // ----- the invariant of every run

  ghost predicate EntryRecorded(w: World, r: Receipt, o: seq<Mode>, i: nat)
    requires WorldShaped(w) && |o| == PATH_COUNT == |r.entries| && i < PATH_COUNT
  {
    && NodeMatches(w.site, r.entries[i], i)
    && r.entries[i].original in {o[i], GoalAt(i, o[i])}
    && w.vol.modes[i] in {r.entries[i].original, r.entries[i].target}
    && w.dur.modes[i] in {r.entries[i].original, r.entries[i].target}
  }

  ghost predicate Recorded(w: World, f: ReceiptFile, o: seq<Mode>)
    requires WorldShaped(w) && |o| == PATH_COUNT
  {
    && f.content.Some?
    && BoundFile(f, f.content.value)
    && ValidSchema(w.site, f.content.value)
    && forall i: nat | i < PATH_COUNT :: EntryRecorded(w, f.content.value, o, i)
  }

  ghost predicate Safe(w: World, o: seq<Mode>) {
    && WorldShaped(w)
    && |o| == PATH_COUNT
    && (forall i: nat | i < PATH_COUNT ::
          w.vol.modes[i] in {o[i], GoalAt(i, o[i])} && w.dur.modes[i] in {o[i], GoalAt(i, o[i])})
    && (w.vol.receipt.Some? ==> Recorded(w, w.vol.receipt.value, o))
    && (w.dur.receipt.Some? ==> Recorded(w, w.dur.receipt.value, o))
    && (w.vol.receipt.Some? && w.dur.receipt.Some? ==> w.vol.receipt == w.dur.receipt)
    && (w.vol.receipt.None? ==> w.vol.modes == Goal(o) || w.vol == w.dur)
  }

  lemma GoalIsSettled(i: nat, m: Mode)
    requires i < PATH_COUNT
    ensures GoalAt(i, GoalAt(i, m)) == GoalAt(i, m)
  {
  }

  lemma RecordedTarget(w: World, f: ReceiptFile, o: seq<Mode>, i: nat)
    requires WorldShaped(w) && |o| == PATH_COUNT && Recorded(w, f, o) && i < PATH_COUNT
    ensures f.content.value.entries[i].target == GoalAt(i, o[i])
  {
    assert ValidEntry(f.content.value.entries[i], i) && EntryRecorded(w, f.content.value, o, i);
    GoalIsSettled(i, o[i]);
  }

  lemma SafeIsBound(w: World, o: seq<Mode>)
    requires Safe(w, o) && w.vol.receipt.Some? && w.site.homeSafe
    ensures ReadReceipt(w.site, w.vol) == Ok(w.vol.receipt.value.content.value)
    ensures BoundPaths(w.site, w.vol, w.vol.receipt.value.content.value)
    ensures AllAtTarget(w.vol.modes, w.vol.receipt.value.content.value.entries) <==> w.vol.modes == Goal(o)
  {
    var r := w.vol.receipt.value.content.value;
    forall i: nat | i < PATH_COUNT
      ensures BoundAt(w.site, w.vol.modes, r, i) && r.entries[i].target == Goal(o)[i]
    {
      assert EntryRecorded(w, r, o, i);
      RecordedTarget(w, w.vol.receipt.value, o, i);
    }
  }

  /** One chmod followed, or not, by its sync stays safe. */
  lemma ChmodStaysSafe(w: World, o: seq<Mode>, i: nat)
    requires Safe(w, o) && w.vol.receipt.Some? && i < PATH_COUNT
    ensures Safe(Chmod(w, i, GoalAt(i, o[i])), o)
    ensures Safe(SyncPath(Chmod(w, i, GoalAt(i, o[i])), i), o)
  {
    var w1 := Chmod(w, i, GoalAt(i, o[i]));
    var w2 := SyncPath(w1, i);
    var f := w.vol.receipt.value;
    forall k: nat | k < PATH_COUNT
      ensures EntryRecorded(w1, f.content.value, o, k) && EntryRecorded(w2, f.content.value, o, k)
    {
      assert EntryRecorded(w, f.content.value, o, k);
      RecordedTarget(w, f, o, k);
    }
    assert Recorded(w1, f, o) && Recorded(w2, f, o);
  }

  ghost function Visible(w: World): Receipt
    requires w.vol.receipt.Some? && w.vol.receipt.value.content.Some?
  {
    w.vol.receipt.value.content.value
  }

  /** Under the invariant no check in the loop fails: a path is skipped, or changed and synced. */
  lemma TightenUnfolds(w: World, o: seq<Mode>, i: nat, budget: nat)
    requires Safe(w, o) && w.vol.receipt.Some? && i < PATH_COUNT && w.site.homeSafe
    ensures var r := Visible(w);
            var w1 := Chmod(w, i, GoalAt(i, o[i]));
            TightenFrom(w, r, i, budget) ==
            if w.vol.modes[i] == GoalAt(i, o[i]) then TightenFrom(w, r, i + 1, budget)
            else if budget == 0 then (w, AfterReceipt(w, r))
            else if budget == 1 then (w1, AfterReceipt(w1, r))
            else TightenFrom(SyncPath(w1, i), r, i + 1, budget - 2)
  {
    SafeIsBound(w, o);
    var r := Visible(w);
    assert EntryRecorded(w, r, o, i);
    RecordedTarget(w, w.vol.receipt.value, o, i);
    if w.vol.modes[i] != GoalAt(i, o[i]) {
      ChmodStaysSafe(w, o, i);
      SafeIsBound(SyncPath(Chmod(w, i, GoalAt(i, o[i])), i), o);
    }
  }

  /** The loop's effects alone, in terms of the goal modes, and whether it reached its end. */
  function Loop(w: World, o: seq<Mode>, i: nat, budget: nat): (out: (World, bool))
    requires WorldShaped(w) && |o| == PATH_COUNT && i <= PATH_COUNT
    ensures WorldShaped(out.0)
    decreases |o| - i
  {
    if i == PATH_COUNT then (w, true)
    else if w.vol.modes[i] == GoalAt(i, o[i]) then Loop(w, o, i + 1, budget)
    else if budget == 0 then (w, false)
    else if budget == 1 then (Chmod(w, i, GoalAt(i, o[i])), false)
    else Loop(SyncPath(Chmod(w, i, GoalAt(i, o[i])), i), o, i + 1, budget - 2)
  }

  lemma {:induction false} TightenIsLoop(w: World, o: seq<Mode>, i: nat, budget: nat)
    requires Safe(w, o) && w.vol.receipt.Some? && i <= PATH_COUNT && w.site.homeSafe
    ensures TightenFrom(w, Visible(w), i, budget).0 == Loop(w, o, i, budget).0
    ensures TightenFrom(w, Visible(w), i, budget).1.Succeeded? ==> Loop(w, o, i, budget).1
    decreases PATH_COUNT - i
  {
    if i < PATH_COUNT {
      TightenUnfolds(w, o, i, budget);
      ChmodStaysSafe(w, o, i);
      if w.vol.modes[i] == GoalAt(i, o[i]) {
        TightenIsLoop(w, o, i + 1, budget);
      } else if budget >= 2 {
        TightenIsLoop(SyncPath(Chmod(w, i, GoalAt(i, o[i])), i), o, i + 1, budget - 2);
      }
    }
  }

  lemma {:induction false} TightenStaysSafe(w: World, o: seq<Mode>, i: nat, budget: nat)
    requires Safe(w, o) && w.vol.receipt.Some? && i <= PATH_COUNT && w.site.homeSafe
    ensures var out := TightenFrom(w, Visible(w), i, budget);
            && Safe(out.0, o)
            && out.0.site == w.site
            && out.0.vol.receipt == w.vol.receipt
            && out.0.dur.receipt == w.dur.receipt
            && (out.1.Succeeded? ==> out.0.vol.modes == Goal(o))
    decreases PATH_COUNT - i
  {
    if i == PATH_COUNT {
      SafeIsBound(w, o);
    } else {
      TightenUnfolds(w, o, i, budget);
      ChmodStaysSafe(w, o, i);
      if w.vol.modes[i] == GoalAt(i, o[i]) {
        TightenStaysSafe(w, o, i + 1, budget);
      } else if budget >= 2 {
        TightenStaysSafe(SyncPath(Chmod(w, i, GoalAt(i, o[i])), i), o, i + 1, budget - 2);
      }
    }
  }

  lemma SettledEntry(site: Site, o: seq<Mode>, i: nat)
    requires Shaped(site, o) && i < PATH_COUNT && PlannableAt(site, Goal(o), i)
    ensures EntryAt(site, Goal(o), i).original == EntryAt(site, Goal(o), i).target
  {
    GoalIsSettled(i, o[i]);
  }

  lemma SettledModesNeedNoPlan(site: Site, o: seq<Mode>)
    requires Shaped(site, o)
    ensures Discover(site, Goal(o)).Ok? ==> Discover(site, Goal(o)) == Ok(None)
  {
    if Discover(site, Goal(o)).Ok? && site.nodes[LEAF].Some? && site.nodes[SERVICE].Some? {
      var entries := Entries(site, Goal(o));
      forall e | e in entries
        ensures e.original == e.target
      {
        var i :| 0 <= i < PATH_COUNT && e == entries[i];
        SettledEntry(site, o, i);
      }
    }
  }

  /** A receipt made from a synced disk records it. */
  lemma LinkStaysSafe(w: World, o: seq<Mode>, r: Receipt)
    requires Safe(w, o) && w.vol == w.dur && w.vol.receipt.None?
    requires Discover(w.site, w.vol.modes).Ok? && Discover(w.site, w.vol.modes).value.Some?
    requires r == Unpublished(Discover(w.site, w.vol.modes).value.value, r.device, r.inode) && ValidSchema(w.site, r)
    ensures Safe(Link(w, r), o) && Safe(SyncHome(Link(w, r)), o)
  {
    var w1 := Link(w, r);
    var w2 := SyncHome(w1);
    forall i: nat | i < PATH_COUNT
      ensures EntryRecorded(w1, r, o, i) && EntryRecorded(w2, r, o, i)
    {
      assert PlannableAt(w.site, w.vol.modes, i) && r.entries[i] == EntryAt(w.site, w.vol.modes, i);
    }
    assert Recorded(w1, w1.vol.receipt.value, o) && Recorded(w2, w1.vol.receipt.value, o);
  }

  lemma ApplyStaysSafe(w: World, o: seq<Mode>, c: ApplyCall)
    requires Safe(w, o)
    ensures Safe(Apply(w, c).0, o) && Apply(w, c).0.site == w.site
    ensures Apply(w, c).1.Succeeded? ==> Apply(w, c).0.vol.modes == Goal(o)
  {
    if w.vol.receipt.Some? {
      if w.site.homeSafe {
        SafeIsBound(w, o);
        TightenStaysSafe(w, o, 0, c.budget);
      }
    } else {
      SettledModesNeedNoPlan(w.site, o);
      var found := Discover(w.site, w.vol.modes);
      if found.Ok? && found.value.Some? {
        var r := Unpublished(found.value.value, c.freshDevice, c.freshInode);
        if ValidSchema(w.site, r) {
          LinkStaysSafe(w, o, r);
          if c.budget >= 2 {
            TightenStaysSafe(SyncHome(Link(w, r)), o, 0, c.budget - 2);
          }
        }
      }
    }
  }

  lemma AcknowledgeStaysSafe(w: World, o: seq<Mode>, c: AckCall)
    requires Safe(w, o)
    ensures Safe(Acknowledge(w, c).0, o) && Acknowledge(w, c).0.site == w.site
    ensures Acknowledge(w, c).0.vol.modes == w.vol.modes && Acknowledge(w, c).0.dur.modes == w.dur.modes
    ensures Acknowledge(w, c).1 ==> w.vol.modes == Goal(o) && Acknowledge(w, c).0.vol.receipt.None?
  {
    if w.vol.receipt.Some? && w.site.homeSafe {
      SafeIsBound(w, o);
      var f := w.vol.receipt.value;
      forall w': World | w'.site == w.site && w'.vol.modes == w.vol.modes && w'.dur.modes == w.dur.modes
        ensures WorldShaped(w') && Recorded(w', f, o)
      {
        forall i: nat | i < PATH_COUNT
          ensures EntryRecorded(w', f.content.value, o, i)
        {
          assert EntryRecorded(w, f.content.value, o, i);
        }
      }
    }
  }

  lemma SurviveStaysSafe(w: World, o: seq<Mode>, keepModes: seq<bool>, keepReceipt: bool)
    requires Safe(w, o)
    ensures Safe(Survive(w, keepModes, keepReceipt), o)
  {
    var w' := Survive(w, keepModes, keepReceipt);
    forall f | (w.vol.receipt == Some(f) || w.dur.receipt == Some(f))
      ensures Recorded(w', f, o)
    {
      forall i: nat | i < PATH_COUNT
        ensures EntryRecorded(w', f.content.value, o, i)
      {
        assert EntryRecorded(w, f.content.value, o, i);
      }
    }
  }

  lemma StepStaysSafe(w: World, o: seq<Mode>, e: Event)
    requires Safe(w, o)
    ensures Safe(Step(w, e), o) && Step(w, e).site == w.site
  {
    match e
    case ProbeEvent(_) =>
    case ApplyEvent(c) => ApplyStaysSafe(w, o, c);
    case AckEvent(c) => AcknowledgeStaysSafe(w, o, c);
    case SyncEvent =>
      if w.vol.receipt.Some? {
        forall i: nat | i < PATH_COUNT
          ensures EntryRecorded(w.(dur := w.vol), w.vol.receipt.value.content.value, o, i)
        {
          assert EntryRecorded(w, w.vol.receipt.value.content.value, o, i);
        }
      }
    case PowerLoss(keepModes, keepReceipt) => SurviveStaysSafe(w, o, keepModes, keepReceipt);
  }

  /** Every run, with kills and power losses anywhere, keeps each mode at its original or its target,
      on the visible disk and on the durable one, and keeps every receipt able to finish. */
  lemma {:induction false} EveryRunIsSafe(w: World, es: seq<Event>)
    requires Initial(w)
    ensures Safe(Exec(w, es), w.vol.modes) && Exec(w, es).site == w.site
  {
    if es != [] {
      EveryRunIsSafe(w, es[..|es| - 1]);
      StepStaysSafe(Exec(w, es[..|es| - 1]), w.vol.modes, es[|es| - 1]);
    }
  }

  // ----- finishing

  lemma {:induction false} ChangesAreTheChangedEntries(entries: seq<Entry>)
    ensures |Changes(entries)| <= |entries|
    ensures Changes(entries) == [] <==> NothingChanges(entries)
    ensures forall c | c in Changes(entries) ::
      exists e :: e in entries && e.original != e.target && c == Change(e.path, e.original, e.target)
    ensures forall e | e in entries && e.original != e.target ::
      Change(e.path, e.original, e.target) in Changes(entries)
  {
    if entries != [] {
      ChangesAreTheChangedEntries(entries[1..]);
      assert entries == [entries[0]] + entries[1..];
    }
  }

  lemma {:induction false} ChangesStayDistinct(entries: seq<Entry>)
    requires forall i, j | 0 <= i < j < |entries| :: entries[i].path != entries[j].path
    ensures DistinctPaths(Changes(entries))
  {
    if entries != [] {
      var rest := entries[1..];
      ChangesStayDistinct(rest);
      ChangesAreTheChangedEntries(rest);
      forall c | c in Changes(rest)
        ensures c.path != entries[0].path
      {
        var e :| e in rest && e.original != e.target && c == Change(e.path, e.original, e.target);
        var k :| 0 <= k < |rest| && e == rest[k];
        assert rest[k] == entries[k + 1];
      }
    }
  }

  lemma FixedPathsAreDistinct(i: nat, j: nat)
    requires i < j < PATH_COUNT
    ensures FIXED_PATHS[i].below != FIXED_PATHS[j].below
  {
    var a, b := FIXED_PATHS[i].below, FIXED_PATHS[j].below;
    assert |a| == |b| ==> a[0][1] != b[0][1] || a[1][1] != b[1][1];
  }

  /** Every path a receipt changes has a public text. */
  predicate ChangesArePublic(site: Site, entries: seq<Entry>) {
    forall e | e in entries && e.original != e.target :: e.path in site.publicPaths
  }

  /** The same, and so has the receipt that a later notice names. */
  predicate PublicText(site: Site, entries: seq<Entry>) {
    site.publicReceipt && ChangesArePublic(site, entries)
  }

  /** A valid receipt can be shown exactly when the texts its phase names are public: the changed paths, and
      from the publication of the receipt on the receipt's own path. */
  lemma NoticeForms(site: Site, r: Receipt, phase: Phase)
    requires ValidSchema(site, r)
    ensures NoticeFromReceipt(site, r, phase).Some? <==>
            ChangesArePublic(site, r.entries) && (phase.ReadyToApply? || site.publicReceipt)
  {
    ChangesAreTheChangedEntries(r.entries);
    forall i, j | 0 <= i < j < |r.entries|
      ensures r.entries[i].path != r.entries[j].path
    {
      assert ValidEntry(r.entries[i], i) && ValidEntry(r.entries[j], j);
      FixedPathsAreDistinct(i, j);
    }
    ChangesStayDistinct(r.entries);
    forall e | e in r.entries && e.original != e.target
      ensures PublicChange(site, Change(e.path, e.original, e.target)) <==> e.path in site.publicPaths
    {
      var i :| 0 <= i < PATH_COUNT && e == r.entries[i];
      assert ValidEntry(r.entries[i], i);
      TargetIsSettled(KindAt(i), e.original, e.target);
    }
  }

  lemma {:induction false} TightenFinishes(w: World, o: seq<Mode>, i: nat, budget: nat)
    requires Safe(w, o) && w.vol.receipt.Some? && i <= PATH_COUNT && w.site.homeSafe
    requires budget >= 2 * (PATH_COUNT - i)
    requires forall j: nat | j < i :: w.vol.modes[j] == GoalAt(j, o[j])
    ensures var out := TightenFrom(w, Visible(w), i, budget);
            && out.0.vol.modes == Goal(o)
            && (if PublicText(w.site, Visible(w).entries) then out.1.Succeeded? else out.1 == Failed(None))
    decreases PATH_COUNT - i
  {
    if i == PATH_COUNT {
      SafeIsBound(w, o);
      NoticeForms(w.site, Visible(w), Applied);
      NoticeForms(w.site, Visible(w), Interrupted);
    } else {
      TightenUnfolds(w, o, i, budget);
      ChmodStaysSafe(w, o, i);
      var next := if w.vol.modes[i] == GoalAt(i, o[i]) then w else SyncPath(Chmod(w, i, GoalAt(i, o[i])), i);
      TightenFinishes(next, o, i + 1, if next == w then budget else budget - 2);
    }
  }

  /** The receipt a call on `w` would work with, if any. */
  function PendingReceipt(w: World, c: ApplyCall): (r: Result<Receipt>)
    requires WorldShaped(w)
  {
    if w.vol.receipt.Some? then ReadReceipt(w.site, w.vol)
    else
      match Discover(w.site, w.vol.modes)
      case Ok(Some(plan)) =>
        var r := Unpublished(plan, c.freshDevice, c.freshInode);
        if ValidSchema(w.site, r) then Ok(r) else Err
      case _ => Err
  }

  /** From any reachable disk, a retry that runs to its end leaves exactly the modes an uninterrupted
      run leaves; it reports them unless the path text is not public. */
  lemma RetryFinishes(w: World, o: seq<Mode>, c: ApplyCall)
    requires Safe(w, o) && c.verified && c.fits && c.budget >= 2 * PATH_COUNT + 2
    requires PendingReceipt(w, c).Ok? && PendingReceipt(w, c).value.noticeId == c.expected
    ensures Apply(w, c).0.vol.modes == Goal(o)
    ensures if PublicText(w.site, PendingReceipt(w, c).value.entries) then Apply(w, c).1.Succeeded?
            else Apply(w, c).1 == Failed(None)
  {
    if w.vol.receipt.Some? {
      SafeIsBound(w, o);
      TightenFinishes(w, o, 0, c.budget);
    } else {
      var r := PendingReceipt(w, c).value;
      SettledModesNeedNoPlan(w.site, o);
      LinkStaysSafe(w, o, r);
      TightenFinishes(SyncHome(Link(w, r)), o, 0, c.budget - 2);
    }
  }

  predicate RunsToItsEnd(w: World, c: ApplyCall)
    requires WorldShaped(w)
  {
    && c.verified && c.fits && c.budget >= 2 * PATH_COUNT + 2
    && PendingReceipt(w, c).Ok? && PendingReceipt(w, c).value.noticeId == c.expected
  }

  /** After any history of kills, power losses and partial attempts, one complete retry leaves the modes
      that one uninterrupted run from the start would have left. */
  lemma RetryMatchesUninterrupted(w: World, first: ApplyCall, es: seq<Event>, retry: ApplyCall)
    requires Initial(w)
    requires RunsToItsEnd(w, first) && RunsToItsEnd(Exec(w, es), retry)
    ensures Apply(Exec(w, es), retry).0.vol.modes == Apply(w, first).0.vol.modes
  {
    EveryRunIsSafe(w, []);
    EveryRunIsSafe(w, es);
    RetryFinishes(w, w.vol.modes, first);
    RetryFinishes(Exec(w, es), w.vol.modes, retry);
  }

  /** An apply that fails without a notice has changed no mode, provided the path texts are public. */
  lemma FailureWithoutNoticeChangedNothing(w: World, c: ApplyCall)
    requires WorldShaped(w) && Apply(w, c).1 == Failed(None)
    requires PendingReceipt(w, c).Ok? ==> PublicText(w.site, PendingReceipt(w, c).value.entries)
    ensures Apply(w, c).0.vol.modes == w.vol.modes && Apply(w, c).0.dur.modes == w.dur.modes
  {
    var r := PendingReceipt(w, c);
    if r.Ok? {
      NoticeForms(w.site, r.value, Interrupted);
      var w1 := if w.vol.receipt.Some? then w else SyncHome(Link(w, r.value));
      forall budget: nat
        ensures TightenFrom(w1, r.value, 0, budget).1 != Failed(None)
      {
        TightenShowsItself(w1, r.value, 0, budget);
      }
    }
  }

  /** Exactly when that holds: however far an accepted call gets, a failure without a notice has changed no
      mode, if and only if the path texts are public. */
  lemma FailuresShowThemselvesIff(w: World, o: seq<Mode>, c: ApplyCall)
    requires Safe(w, o) && RunsToItsEnd(w, c) && w.vol.modes != Goal(o)
    ensures (forall budget: nat {:trigger Apply(w, c.(budget := budget))} ::
               var (w', result) := Apply(w, c.(budget := budget));
               result == Failed(None) ==> w'.vol.modes == w.vol.modes && w'.dur.modes == w.dur.modes) <==>
            PublicText(w.site, PendingReceipt(w, c).value.entries)
  {
    RetryFinishes(w, o, c);
    assert c == c.(budget := c.budget);
    if PublicText(w.site, PendingReceipt(w, c).value.entries) {
      forall budget: nat | Apply(w, c.(budget := budget)).1 == Failed(None)
        ensures Apply(w, c.(budget := budget)).0.vol.modes == w.vol.modes
        ensures Apply(w, c.(budget := budget)).0.dur.modes == w.dur.modes
      {
        assert PendingReceipt(w, c.(budget := budget)) == PendingReceipt(w, c);
        FailureWithoutNoticeChangedNothing(w, c.(budget := budget));
      }
    }
  }

  lemma {:induction false} TightenShowsItself(w: World, r: Receipt, i: nat, budget: nat)
    requires WorldShaped(w) && |r.entries| == PATH_COUNT && i <= PATH_COUNT
    requires NoticeFromReceipt(w.site, r, Interrupted).Some?
    ensures TightenFrom(w, r, i, budget).1 != Failed(None)
    decreases PATH_COUNT - i
  {
    if i < PATH_COUNT {
      TightenShowsItself(w, r, i + 1, budget);
      if budget >= 2 {
        TightenShowsItself(SyncPath(Chmod(w, i, r.entries[i].target), i), r, i + 1, budget - 2);
      }
    }
  }

  // ----- what a call needs before it changes anything

  lemma {:induction false} TightenNeedsBoundPaths(w: World, r: Receipt, i: nat, budget: nat)
    requires WorldShaped(w) && |r.entries| == PATH_COUNT && i <= PATH_COUNT
    ensures TightenFrom(w, r, i, budget).0 != w ==> BoundPaths(w.site, w.vol, r)
    decreases PATH_COUNT - i
  {
    if i < PATH_COUNT {
      TightenNeedsBoundPaths(w, r, i + 1, budget);
    }
  }

  /** On any disk, an apply changes something only with verified provenance, for the plan whose notice was
      accepted, and, when it resumes, only while every bound path is still what the receipt recorded. */
  lemma ApplyNeedsConsent(w: World, c: ApplyCall)
    requires WorldShaped(w) && Apply(w, c).0 != w
    ensures c.verified && c.budget > 0 && PendingReceipt(w, c).Ok? && PendingReceipt(w, c).value.noticeId == c.expected
    ensures w.vol.receipt.Some? ==> BoundPaths(w.site, w.vol, PendingReceipt(w, c).value)
  {
    if w.vol.receipt.Some? {
      var r := ReadReceipt(w.site, w.vol).value;
      TightenNeedsBoundPaths(w, r, 0, c.budget);
      TightenNeedsBudget(w, r, 0, c.budget);
    }
  }

  lemma {:induction false} TightenNeedsBudget(w: World, r: Receipt, i: nat, budget: nat)
    requires WorldShaped(w) && |r.entries| == PATH_COUNT && i <= PATH_COUNT
    ensures budget == 0 ==> TightenFrom(w, r, i, budget).0 == w
    decreases PATH_COUNT - i
  {
    if i < PATH_COUNT {
      TightenNeedsBudget(w, r, i + 1, budget);
    }
  }

  /** On any disk, an acknowledgement changes something only with verified provenance, for the notice of the
      present receipt, with every path bound and at its target. */
  lemma AcknowledgementNeedsConsent(w: World, c: AckCall)
    requires WorldShaped(w) && (Acknowledge(w, c).0 != w || Acknowledge(w, c).1)
    ensures c.verified && ReadReceipt(w.site, w.vol).Ok? && ReadReceipt(w.site, w.vol).value.noticeId == c.expected
    ensures BoundPaths(w.site, w.vol, ReadReceipt(w.site, w.vol).value)
    ensures AllAtTarget(w.vol.modes, ReadReceipt(w.site, w.vol).value.entries)
  {
  }

  /** The phase the probe shows on a reachable disk: ready while no receipt exists, applied once every path is
      at its goal, and interrupted in between. */
  lemma ProbeTellsThePhase(w: World, o: seq<Mode>, verified: bool)
    requires Safe(w, o) && Probe(w, verified).Ok? && Probe(w, verified).value.Some?
    ensures var n := Probe(w, verified).value.value;
            n.phase ==
            if w.vol.receipt.None? then ReadyToApply else if w.vol.modes == Goal(o) then Applied else Interrupted
  {
    if w.vol.receipt.Some? {
      SafeIsBound(w, o);
    }
  }

  // ----- acknowledgement

  /** On any disk, only a power loss or an acknowledgement with every path at its target removes the receipt. */
  lemma ReceiptIsRemovedOnlyWhenTightened(w: World, e: Event)
    requires WorldShaped(w) && w.vol.receipt.Some? && Step(w, e).vol.receipt.None? && !e.PowerLoss?
    ensures AckSucceeds(w, e) && ReadReceipt(w.site, w.vol).Ok?
    ensures AllAtTarget(w.vol.modes, ReadReceipt(w.site, w.vol).value.entries)
  {
    if e.ApplyEvent? && ReadReceipt(w.site, w.vol).Ok? {
      TightenKeepsReceipt(w, ReadReceipt(w.site, w.vol).value, 0, e.apply.budget);
    }
  }

  lemma {:induction false} TightenKeepsReceipt(w: World, r: Receipt, i: nat, budget: nat)
    requires WorldShaped(w) && |r.entries| == PATH_COUNT && i <= PATH_COUNT
    ensures TightenFrom(w, r, i, budget).0.vol.receipt == w.vol.receipt
    decreases PATH_COUNT - i
  {
    if i < PATH_COUNT {
      TightenKeepsReceipt(w, r, i + 1, budget);
      if budget >= 2 {
        TightenKeepsReceipt(SyncPath(Chmod(w, i, r.entries[i].target), i), r, i + 1, budget - 2);
      }
    }
  }

  /** After a successful acknowledgement the probe reports nothing. */
  lemma ProbeAfterAcknowledgement(w: World, o: seq<Mode>, c: AckCall, verified: bool)
    requires Safe(w, o) && Acknowledge(w, c).1
    ensures Probe(Acknowledge(w, c).0, verified) == Ok(None)
  {
    AcknowledgeStaysSafe(w, o, c);
    SafeIsBound(w, o);
    var r := Visible(w);
    forall i: nat | i < PATH_COUNT
      ensures PlannableAt(w.site, Goal(o), i)
    {
      assert EntryRecorded(w, r, o, i) && ValidEntry(r.entries[i], i);
      RecordedTarget(w, w.vol.receipt.value, o, i);
      TargetIsSettled(KindAt(i), r.entries[i].original, r.entries[i].target);
    }
    assert PlannableAt(w.site, Goal(o), LEAF) && PlannableAt(w.site, Goal(o), SERVICE);
    SettledModesNeedNoPlan(w.site, o);
  }

  // ----- what a power loss can still undo

  lemma {:induction false} LoopDurably(w: World, o: seq<Mode>, i: nat, budget: nat, j: nat)
    requires WorldShaped(w) && |o| == PATH_COUNT && i <= PATH_COUNT && j < PATH_COUNT && Loop(w, o, i, budget).1
    ensures Loop(w, o, i, budget).0.dur.modes[j] ==
            if j < i || w.vol.modes[j] == GoalAt(j, o[j]) then w.dur.modes[j] else GoalAt(j, o[j])
    decreases PATH_COUNT - i
  {
    if i < PATH_COUNT {
      var goal := GoalAt(i, o[i]);
      if w.vol.modes[i] == goal {
        LoopDurably(w, o, i + 1, budget, j);
      } else {
        LoopDurably(SyncPath(Chmod(w, i, goal), i), o, i + 1, budget - 2, j);
      }
    }
  }

  /** The disk the loop of a call starts on, when the call gets that far. */
  function Begun(w: World, r: Receipt): World {
    if w.vol.receipt.Some? then w else SyncHome(Link(w, r))
  }

  lemma BegunIsSafe(w: World, o: seq<Mode>, c: ApplyCall)
    requires Safe(w, o) && PendingReceipt(w, c).Ok?
    ensures var r := PendingReceipt(w, c).value;
            && Safe(Begun(w, r), o)
            && Begun(w, r).vol.receipt.Some?
            && Visible(Begun(w, r)) == r
            && w.site.homeSafe
            && (w.vol.receipt.None? ==> w.vol == w.dur && Safe(Link(w, r), o))
  {
    if w.vol.receipt.Some? {
      SafeIsBound(w, o);
    } else {
      SettledModesNeedNoPlan(w.site, o);
      LinkStaysSafe(w, o, PendingReceipt(w, c).value);
    }
  }

  /** A call leaves the disk alone, or links the receipt, or also runs the loop. */
  lemma ApplyCases(w: World, c: ApplyCall) returns (budget: nat)
    requires WorldShaped(w)
    ensures var p := PendingReceipt(w, c);
            || Apply(w, c) == (w, Failed(None))
            || (p.Ok? && Apply(w, c) == (w, AfterReceipt(w, p.value)))
            || (p.Ok? && w.vol.receipt.None? && Apply(w, c) == (Link(w, p.value), Failed(None)))
            || (&& p.Ok?
                && WorldShaped(Begun(w, p.value))
                && Apply(w, c) == TightenFrom(Begun(w, p.value), p.value, 0, budget))
  {
    budget := if w.vol.receipt.Some? then c.budget else if c.budget >= 2 then c.budget - 2 else 0;
  }

  lemma ApplyDurably(w: World, o: seq<Mode>, c: ApplyCall)
    requires Safe(w, o) && Apply(w, c).1.Succeeded?
    ensures forall i: nat | i < PATH_COUNT ::
      Apply(w, c).0.dur.modes[i] ==
      if w.vol.modes[i] == GoalAt(i, o[i]) then w.dur.modes[i] else GoalAt(i, o[i])
  {
    var budget := ApplyCases(w, c);
    BegunIsSafe(w, o, c);
    TightenIsLoop(Begun(w, PendingReceipt(w, c).value), o, 0, budget);
    forall i: nat | i < PATH_COUNT
      ensures Apply(w, c).0.dur.modes[i] ==
              if w.vol.modes[i] == GoalAt(i, o[i]) then w.dur.modes[i] else GoalAt(i, o[i])
    {
      LoopDurably(Begun(w, PendingReceipt(w, c).value), o, 0, budget, i);
    }
  }

  /**
   * A retry syncs only the paths it changes itself. So a migration that was applied and acknowledged
   * survives every power loss if and only if, when the finishing apply began, every path already seen
   * at its target was already synced there.
   */
  lemma TighteningSurvivesIff(w: World, o: seq<Mode>, c: ApplyCall, a: AckCall)
    requires Safe(w, o) && Apply(w, c).1.Succeeded? && Acknowledge(Apply(w, c).0, a).1
    ensures (forall keepModes, keepReceipt ::
               Survive(Acknowledge(Apply(w, c).0, a).0, keepModes, keepReceipt).vol.modes == Goal(o)) <==>
            (forall i: nat | i < PATH_COUNT :: w.vol.modes[i] == GoalAt(i, o[i]) ==> w.dur.modes[i] == GoalAt(i, o[i]))
  {
    ApplyStaysSafe(w, o, c);
    ApplyDurably(w, o, c);
    var w1 := Apply(w, c).0;
    AcknowledgeStaysSafe(w1, o, a);
    var w2 := Acknowledge(w1, a).0;
    assert Survive(w2, [], false).vol.modes == w2.dur.modes;
    if w2.dur.modes == Goal(o) {
      forall keepModes, keepReceipt
        ensures Survive(w2, keepModes, keepReceipt).vol.modes == Goal(o)
      {
      }
    }
  }

  // ----- order, receipts and notice ids

  predicate OriginalsAre(r: Receipt, o: seq<Mode>) {
    |r.entries| == |o| && forall i | 0 <= i < |o| :: r.entries[i].original == o[i]
  }

  /** What a run without power loss keeps on the visible disk. */
  ghost predicate Orderly(w: World, o: seq<Mode>, acked: bool) {
    && Safe(w, o)
    && PrefixTightened(w.vol.modes, o)
    && (w.vol.receipt.Some? ==> OriginalsAre(Visible(w), o))
    && (w.vol.receipt.None? ==> w.vol.modes == o || (acked && w.vol.modes == Goal(o)))
  }

  /** The durable disk is the visible one, or exactly one path behind it. */
  ghost predicate AtMostOneBehind(w: World, o: seq<Mode>)
    requires |o| == PATH_COUNT
  {
    w.vol.modes == w.dur.modes ||
    exists k: nat :: k < PATH_COUNT && w.dur.modes == Prefix(o, k) && w.vol.modes == Prefix(o, k + 1)
  }

  /** What a clean run keeps on both disks. */
  ghost predicate DurablyOrderly(w: World, o: seq<Mode>, acked: bool) {
    && Orderly(w, o, acked)
    && (w.dur.receipt.Some? ==> OriginalsAre(w.dur.receipt.value.content.value, o))
    && AtMostOneBehind(w, o)
    && (acked ==> w.vol.modes == w.dur.modes == Goal(o))
    && (!acked && w.dur.receipt.None? ==> w.vol.modes == w.dur.modes == o)
  }

  lemma PrefixGrows(o: seq<Mode>, k: nat)
    requires |o| == PATH_COUNT && k < PATH_COUNT
    ensures Prefix(o, k)[k := GoalAt(k, o[k])] == Prefix(o, k + 1)
    ensures Prefix(o, k)[k] == o[k]
    ensures forall i: nat | i < k :: Prefix(o, k)[i] == GoalAt(i, o[i])
  {
  }

  lemma PrefixEnds(o: seq<Mode>)
    requires |o| == PATH_COUNT
    ensures Prefix(o, 0) == o && Prefix(o, PATH_COUNT) == Goal(o)
    ensures PrefixTightened(o, o) && PrefixTightened(Goal(o), o)
  {
    assert Prefix(o, 0) == o && Prefix(o, PATH_COUNT) == Goal(o);
  }

  lemma {:induction false} TightenInOrder(w: World, o: seq<Mode>, i: nat, k: nat, budget: nat)
    requires Safe(w, o) && w.vol.receipt.Some? && i <= k <= PATH_COUNT && w.site.homeSafe
    requires w.vol.modes == Prefix(o, k)
    ensures var out := TightenFrom(w, Visible(w), i, budget).0;
            PrefixTightened(out.vol.modes, o) && (w.vol.modes == w.dur.modes ==> AtMostOneBehind(out, o))
    decreases PATH_COUNT - i
  {
    if i < PATH_COUNT {
      TightenUnfolds(w, o, i, budget);
      if k < PATH_COUNT {
        PrefixGrows(o, k);
      } else {
        PrefixEnds(o);
      }
      if w.vol.modes[i] == GoalAt(i, o[i]) {
        TightenInOrder(w, o, i + 1, if i == k then k + 1 else k, budget);
      } else {
        var w1 := Chmod(w, i, GoalAt(i, o[i]));
        assert w1.vol.modes == Prefix(o, k + 1);
        if budget >= 2 {
          ChmodStaysSafe(w, o, i);
          TightenInOrder(SyncPath(w1, i), o, i + 1, k + 1, budget - 2);
        }
      }
    }
  }

  lemma PlannedOriginals(w: World, c: ApplyCall)
    requires WorldShaped(w) && w.vol.receipt.None? && PendingReceipt(w, c).Ok?
    ensures OriginalsAre(PendingReceipt(w, c).value, w.vol.modes)
  {
  }

  lemma ApplyStaysOrderly(w: World, o: seq<Mode>, acked: bool, c: ApplyCall)
    requires Orderly(w, o, acked)
    ensures Orderly(Apply(w, c).0, o, acked)
  {
    ApplyStaysSafe(w, o, c);
    var budget := ApplyCases(w, c);
    if PendingReceipt(w, c).Ok? {
      var r := PendingReceipt(w, c).value;
      BegunIsSafe(w, o, c);
      SettledModesNeedNoPlan(w.site, o);
      if w.vol.receipt.None? {
        PlannedOriginals(w, c);
      }
      var k: nat :| k <= PATH_COUNT && w.vol.modes == Prefix(o, k);
      TightenInOrder(Begun(w, r), o, 0, k, budget);
      TightenStaysSafe(Begun(w, r), o, 0, budget);
    }
  }

  lemma ApplyStaysDurablyOrderly(w: World, o: seq<Mode>, acked: bool, c: ApplyCall)
    requires DurablyOrderly(w, o, acked) && w.vol == w.dur
    ensures DurablyOrderly(Apply(w, c).0, o, acked)
  {
    ApplyStaysOrderly(w, o, acked, c);
    ApplyStaysSafe(w, o, c);
    var budget := ApplyCases(w, c);
    if PendingReceipt(w, c).Ok? {
      var r := PendingReceipt(w, c).value;
      BegunIsSafe(w, o, c);
      SettledModesNeedNoPlan(w.site, o);
      if w.vol.receipt.None? {
        PlannedOriginals(w, c);
      }
      var k: nat :| k <= PATH_COUNT && w.vol.modes == Prefix(o, k);
      TightenInOrder(Begun(w, r), o, 0, k, budget);
      TightenStaysSafe(Begun(w, r), o, 0, budget);
      if acked {
        TightenLeavesGoal(Begun(w, r), o, 0, budget);
      }
    }
  }

  lemma {:induction false} TightenLeavesGoal(w: World, o: seq<Mode>, i: nat, budget: nat)
    requires Safe(w, o) && w.vol.receipt.Some? && i <= PATH_COUNT && w.site.homeSafe
    requires w.vol.modes == Goal(o)
    ensures TightenFrom(w, Visible(w), i, budget).0 == w
    decreases PATH_COUNT - i
  {
    if i < PATH_COUNT {
      TightenUnfolds(w, o, i, budget);
      TightenLeavesGoal(w, o, i + 1, budget);
    }
  }

  lemma AcknowledgeStaysOrderly(w: World, o: seq<Mode>, acked: bool, c: AckCall)
    requires Orderly(w, o, acked)
    ensures Orderly(Acknowledge(w, c).0, o, acked || Acknowledge(w, c).1)
  {
    AcknowledgeStaysSafe(w, o, c);
  }

  lemma StepStaysOrderly(w: World, o: seq<Mode>, acked: bool, e: Event)
    requires Orderly(w, o, acked) && !e.PowerLoss?
    ensures Orderly(Step(w, e), o, acked || AckSucceeds(w, e))
  {
    match e
    case ApplyEvent(c) =>
      ApplyStaysSafe(w, o, c);
      ApplyStaysOrderly(w, o, acked, c);
    case AckEvent(c) => AcknowledgeStaysOrderly(w, o, acked, c);
    case _ => StepStaysSafe(w, o, e);
  }

  /** With at most one path unsynced, a power loss yields one of the two disks' modes. */
  lemma SurvivingModes(w: World, o: seq<Mode>, keepModes: seq<bool>, keepReceipt: bool)
    requires WorldShaped(w) && |o| == PATH_COUNT && AtMostOneBehind(w, o) && PrefixTightened(w.vol.modes, o)
    ensures Survive(w, keepModes, keepReceipt).vol.modes in {w.vol.modes, w.dur.modes}
    ensures PrefixTightened(w.dur.modes, o)
  {
    var w' := Survive(w, keepModes, keepReceipt);
    if w.vol.modes == w.dur.modes {
      assert w'.vol.modes == w.vol.modes;
    } else {
      var k: nat :| k < PATH_COUNT && w.dur.modes == Prefix(o, k) && w.vol.modes == Prefix(o, k + 1);
      PrefixGrows(o, k);
      assert w'.vol.modes == if k < |keepModes| && keepModes[k] then w.vol.modes else w.dur.modes;
    }
  }

  lemma SurviveStaysDurablyOrderly(w: World, o: seq<Mode>, acked: bool, keepModes: seq<bool>, keepReceipt: bool)
    requires DurablyOrderly(w, o, acked)
    ensures DurablyOrderly(Survive(w, keepModes, keepReceipt), o, acked)
  {
    SurviveStaysSafe(w, o, keepModes, keepReceipt);
    SurvivingModes(w, o, keepModes, keepReceipt);
  }

  lemma AcknowledgeStaysDurablyOrderly(w: World, o: seq<Mode>, acked: bool, c: AckCall)
    requires DurablyOrderly(w, o, acked) && w.vol == w.dur
    ensures DurablyOrderly(Acknowledge(w, c).0, o, acked || Acknowledge(w, c).1)
  {
    AcknowledgeStaysSafe(w, o, c);
  }

  lemma StepStaysDurablyOrderly(w: World, o: seq<Mode>, acked: bool, e: Event)
    requires DurablyOrderly(w, o, acked)
    requires e.ApplyEvent? || e.AckEvent? ==> w.vol == w.dur
    ensures DurablyOrderly(Step(w, e), o, acked || AckSucceeds(w, e))
  {
    match e
    case ProbeEvent(_) =>
    case ApplyEvent(c) => ApplyStaysDurablyOrderly(w, o, acked, c);
    case AckEvent(c) => AcknowledgeStaysDurablyOrderly(w, o, acked, c);
    case SyncEvent => StepStaysSafe(w, o, e);
    case PowerLoss(keepModes, keepReceipt) => SurviveStaysDurablyOrderly(w, o, acked, keepModes, keepReceipt);
  }

  /** Runs whose calls are killed or fail anywhere, without power loss: the tightened paths are a prefix
      of the fixed order, and until an acknowledgement every changed mode has its receipt. */
  lemma {:induction false} KilledRunsStayOrderly(w: World, es: seq<Event>)
    requires Initial(w) && NoPowerLoss(es)
    ensures Orderly(Exec(w, es), w.vol.modes, Acknowledged(w, es))
    ensures PrefixTightened(Exec(w, es).vol.modes, w.vol.modes)
    ensures !Acknowledged(w, es) && Exec(w, es).vol.modes != w.vol.modes ==> Exec(w, es).vol.receipt.Some?
  {
    PrefixEnds(w.vol.modes);
    if es != [] {
      var front := es[..|es| - 1];
      KilledRunsStayOrderly(w, front);
      StepStaysOrderly(Exec(w, front), w.vol.modes, Acknowledged(w, front), es[|es| - 1]);
    }
  }

  /** Runs with power losses anywhere whose calls start from a synced disk keep all of it durably: at
      most one path is unsynced, and until an acknowledgement every durable change has a durable receipt. */
  lemma {:induction false} CleanRunsStayDurablyOrderly(w: World, es: seq<Event>)
    requires Initial(w) && CleanRun(w, es)
    ensures DurablyOrderly(Exec(w, es), w.vol.modes, Acknowledged(w, es))
    ensures AtMostOneBehind(Exec(w, es), w.vol.modes)
    ensures !Acknowledged(w, es) && Exec(w, es).dur.modes != w.vol.modes ==> Exec(w, es).dur.receipt.Some?
  {
    PrefixEnds(w.vol.modes);
    if es != [] {
      var front := es[..|es| - 1];
      CleanRunsStayDurablyOrderly(w, front);
      StepStaysDurablyOrderly(Exec(w, front), w.vol.modes, Acknowledged(w, front), es[|es| - 1]);
    }
  }
}
