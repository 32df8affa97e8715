/** What a power loss can separate: a change from its receipt, and a tightened mode from the disk. */
module AuthorityReceipts {
  import opened Basics
  import opened AuthorityMigration
  import opened AuthorityRuns

  // ----- the first effect of the loop

  lemma SomethingChanges(w: World, o: seq<Mode>)
    requires Safe(w, o) && w.vol.receipt.Some?
    ensures exists i: nat :: i < PATH_COUNT && GoalAt(i, o[i]) != o[i]
  {
    var r := Visible(w);
    var e :| e in r.entries && e.original != e.target;
    var i: nat :| i < PATH_COUNT && r.entries[i] == e;
    assert EntryRecorded(w, r, o, i);
    RecordedTarget(w, w.vol.receipt.value, o, i);
  }

  /** The loop only ever moves a mode to its goal. */
  lemma {:induction false} LoopMovesToGoal(w: World, o: seq<Mode>, i: nat, budget: nat, j: nat)
    requires WorldShaped(w) && |o| == PATH_COUNT && i <= PATH_COUNT && j < PATH_COUNT
    ensures Loop(w, o, i, budget).0.vol.modes[j] in {w.vol.modes[j], GoalAt(j, o[j])}
    decreases PATH_COUNT - i
  {
    if i < PATH_COUNT {
      var goal := GoalAt(i, o[i]);
      if w.vol.modes[i] == goal {
        LoopMovesToGoal(w, o, i + 1, budget, j);
      } else if budget >= 2 {
        LoopMovesToGoal(SyncPath(Chmod(w, i, goal), i), o, i + 1, budget - 2, j);
      }
    }
  }

  /** The first path not at its goal is the one a budget of one changes, and it is changed by any larger one. */
  lemma {:induction false} FirstChange(w: World, o: seq<Mode>, i: nat, k: nat, budget: nat) returns (j: nat)
    requires WorldShaped(w) && |o| == PATH_COUNT && i <= k < PATH_COUNT && budget >= 1
    requires w.vol.modes[k] != GoalAt(k, o[k])
    ensures j < PATH_COUNT && w.vol.modes[j] != GoalAt(j, o[j])
    ensures Loop(w, o, i, budget).0.vol.modes[j] == GoalAt(j, o[j])
    ensures budget == 1 ==> Loop(w, o, i, budget).0 == Chmod(w, j, GoalAt(j, o[j]))
    decreases k - i
  {
    if w.vol.modes[i] == GoalAt(i, o[i]) {
      j := FirstChange(w, o, i + 1, k, budget);
    } else {
      j := i;
      if budget >= 2 {
        LoopMovesToGoal(SyncPath(Chmod(w, i, GoalAt(i, o[i])), i), o, i + 1, budget - 2, i);
      }
    }
  }

  // ----- when a change keeps its receipt

  /** Whatever a power loss now keeps, a changed mode has its receipt. */
  ghost predicate ReceiptSurvives(w: World, o: seq<Mode>)
    requires WorldShaped(w)
  {
    forall keepModes, keepReceipt ::
      Survive(w, keepModes, keepReceipt).vol.modes != o ==> Survive(w, keepModes, keepReceipt).vol.receipt.Some?
  }

  lemma ReceiptSurvivesNow(w: World, o: seq<Mode>)
    requires WorldShaped(w) && (w.vol.receipt.None? ==> w.dur.receipt.None?)
    ensures ReceiptSurvives(w, o) <==> w.dur.receipt.Some? || (w.vol.modes == o && w.dur.modes == o)
  {
    var all := seq(PATH_COUNT, i => true);
    assert Survive(w, all, false).vol.modes == w.vol.modes;
    assert Survive(w, [], false).vol.modes == w.dur.modes;
    if w.vol.modes == o && w.dur.modes == o {
      forall keepModes, keepReceipt
        ensures Survive(w, keepModes, keepReceipt).vol.modes == o
      {
      }
    }
  }

  /** A call that will work with the present receipt and change a file. */
  predicate Acts(w: World, c: ApplyCall)
    requires WorldShaped(w)
  {
    c.verified && c.budget >= 1 && PendingReceipt(w, c).Ok? && PendingReceipt(w, c).value.noticeId == c.expected
  }

  /** Until an acknowledgement: no durable receipt means no change anywhere. */
  ghost predicate Guarded(w: World, o: seq<Mode>) {
    && Safe(w, o)
    && (w.dur.receipt.None? ==> w.vol.modes == o && w.dur.modes == o)
    && (w.vol.receipt.None? ==> w.dur.receipt.None?)
  }

  lemma ResumedApplyChangesSomething(w: World, o: seq<Mode>, c: ApplyCall)
    requires Safe(w, o) && w.vol.receipt.Some? && Acts(w, c)
    ensures Apply(w, c).0.vol.modes != o && Apply(w, c).0.vol.receipt.Some?
    ensures Apply(w, c).0.dur.receipt == w.dur.receipt
  {
    SafeIsBound(w, o);
    SomethingChanges(w, o);
    TightenStaysSafe(w, o, 0, c.budget);
    TightenIsLoop(w, o, 0, c.budget);
    var k: nat :| k < PATH_COUNT && GoalAt(k, o[k]) != o[k];
    if w.vol.modes[k] == GoalAt(k, o[k]) {
      LoopMovesToGoal(w, o, 0, c.budget, k);
      assert Apply(w, c).0.vol.modes[k] != o[k];
    } else {
      var j := FirstChange(w, o, 0, k, c.budget);
      assert w.vol.modes[j] == o[j];
      assert Apply(w, c).0.vol.modes[j] != o[j];
    }
  }

  lemma FirstApplyIsGuarded(w: World, o: seq<Mode>, c: ApplyCall)
    requires Guarded(w, o) && w.vol.receipt.None?
    ensures Guarded(Apply(w, c).0, o)
  {
    ApplyStaysSafe(w, o, c);
    var budget := ApplyCases(w, c);
    if PendingReceipt(w, c).Ok? {
      BegunIsSafe(w, o, c);
      TightenStaysSafe(Begun(w, PendingReceipt(w, c).value), o, 0, budget);
    }
  }

  lemma IdleApplyChangesNothing(w: World, c: ApplyCall)
    requires WorldShaped(w) && !Acts(w, c)
    ensures Apply(w, c).0 == w
  {
    if Apply(w, c).0 != w {
      ApplyNeedsConsent(w, c);
    }
  }

  /**
   * When the promise holds after an apply, for every call and every budget: exactly when the call starts
   * without a receipt or with a durable one, or does nothing to an untouched disk.
   */
  lemma ReceiptSurvivesIff(w: World, o: seq<Mode>, c: ApplyCall)
    requires Safe(w, o) && (w.vol.receipt.None? ==> Guarded(w, o))
    ensures ReceiptSurvives(Apply(w, c).0, o) <==>
            || w.vol.receipt.None?
            || w.dur.receipt.Some?
            || (w.vol.modes == o && w.dur.modes == o && !Acts(w, c))
  {
    if w.vol.receipt.None? {
      FirstApplyIsGuarded(w, o, c);
    } else if Acts(w, c) {
      ResumedApplyChangesSomething(w, o, c);
    } else {
      IdleApplyChangesNothing(w, c);
    }
    ReceiptSurvivesNow(Apply(w, c).0, o);
  }

  /** An apply resumes and changes something while its receipt is not yet durable. */
  predicate ResumesUnsynced(w: World, e: Event)
    requires WorldShaped(w)
  {
    e.ApplyEvent? && w.vol.receipt.Some? && w.dur.receipt.None? && Acts(w, e.apply)
  }

  ghost predicate NeverResumesUnsynced(w: World, es: seq<Event>)
    requires WorldShaped(w)
  {
    es == [] ||
    (NeverResumesUnsynced(w, es[..|es| - 1]) && !ResumesUnsynced(Exec(w, es[..|es| - 1]), es[|es| - 1]))
  }

  lemma ApplyStaysGuarded(w: World, o: seq<Mode>, c: ApplyCall)
    requires Guarded(w, o) && !ResumesUnsynced(w, ApplyEvent(c))
    ensures Guarded(Apply(w, c).0, o)
  {
    if w.vol.receipt.None? {
      FirstApplyIsGuarded(w, o, c);
    } else if Acts(w, c) {
      ApplyStaysSafe(w, o, c);
      ResumedApplyChangesSomething(w, o, c);
    } else {
      IdleApplyChangesNothing(w, c);
    }
  }

  lemma SurviveStaysGuarded(w: World, o: seq<Mode>, keepModes: seq<bool>, keepReceipt: bool)
    requires Guarded(w, o)
    ensures Guarded(Survive(w, keepModes, keepReceipt), o)
  {
    SurviveStaysSafe(w, o, keepModes, keepReceipt);
    if w.dur.receipt.None? {
      assert Survive(w, keepModes, keepReceipt).vol.modes == o;
    }
  }

  lemma StepStaysGuarded(w: World, o: seq<Mode>, e: Event)
    requires Guarded(w, o) && !ResumesUnsynced(w, e) && !AckSucceeds(w, e)
    ensures Guarded(Step(w, e), o)
  {
    match e
    case ApplyEvent(c) => ApplyStaysGuarded(w, o, c);
    case AckEvent(c) => AcknowledgeStaysSafe(w, o, c);
    case PowerLoss(keepModes, keepReceipt) => SurviveStaysGuarded(w, o, keepModes, keepReceipt);
    case _ => StepStaysSafe(w, o, e);
  }

  lemma {:induction false} RunsStayGuarded(w: World, es: seq<Event>)
    requires Initial(w) && !Acknowledged(w, es) && NeverResumesUnsynced(w, es)
    ensures Guarded(Exec(w, es), w.vol.modes)
  {
    if es != [] {
      RunsStayGuarded(w, es[..|es| - 1]);
      StepStaysGuarded(Exec(w, es[..|es| - 1]), w.vol.modes, es[|es| - 1]);
    }
  }

  /**
   * The promise over whole runs, with kills and power losses anywhere, before an acknowledgement: at every
   * point every changed mode keeps its receipt through any power loss, if and only if no apply ever resumed
   * on a receipt that was not yet durable.
   */
  lemma {:induction false} EveryChangeKeepsItsReceiptIff(w: World, es: seq<Event>)
    requires Initial(w) && !Acknowledged(w, es)
    ensures (forall k: nat | k <= |es| :: ReceiptSurvives(Exec(w, es[..k]), w.vol.modes)) <==>
            NeverResumesUnsynced(w, es)
  {
    var o := w.vol.modes;
    assert es[..|es|] == es;
    if es == [] {
      ReceiptSurvivesNow(w, o);
    } else {
      var n := |es| - 1;
      var x, e := Exec(w, es[..n]), es[n];
      EveryChangeKeepsItsReceiptIff(w, es[..n]);
      assert forall k: nat | k <= n :: es[..n][..k] == es[..k];
      assert (forall k: nat | k <= n :: ReceiptSurvives(Exec(w, es[..k]), o)) <==> NeverResumesUnsynced(w, es[..n]);
      if NeverResumesUnsynced(w, es[..n]) {
        RunsStayGuarded(w, es[..n]);
        if ResumesUnsynced(x, e) {
          ReceiptSurvivesIff(x, o, e.apply);
        } else {
          StepStaysGuarded(x, o, e);
          ReceiptSurvivesNow(Exec(w, es), o);
        }
        assert ReceiptSurvives(Exec(w, es), o) <==> !ResumesUnsynced(x, e);
      }
      assert forall k: nat | k <= |es| :: k <= n || es[..k] == es;
    }
  }

  /**
   * The failing family is reachable from every applicable plan: an apply killed between publishing the
   * receipt and syncing the home directory, a resumed apply, and a power loss that keeps the change.
   */
  lemma UnsyncedReceiptCanBeLost(w: World, c: ApplyCall, budget: nat)
    requires Initial(w) && c.verified && c.fits && budget >= 1
    requires PendingReceipt(w, c).Ok? && PendingReceipt(w, c).value.noticeId == c.expected
    ensures var w1 := Apply(w, c.(budget := 1)).0;
            var w2 := Apply(w1, c.(budget := budget)).0;
            w1.vol.receipt.Some? && w1.vol.modes == w.vol.modes && !ReceiptSurvives(w2, w.vol.modes)
  {
    var o := w.vol.modes;
    BegunIsSafe(w, o, c);
    var w1 := Link(w, PendingReceipt(w, c).value);
    assert Apply(w, c.(budget := 1)).0 == w1;
    SafeIsBound(w1, o);
    ReceiptSurvivesIff(w1, o, c.(budget := budget));
  }

  // ----- a retry does not sync what it did not change

  /** The disk an apply killed between the first chmod and its sync leaves. */
  lemma KilledBeforeSync(w: World, c: ApplyCall) returns (j: nat)
    requires Initial(w) && RunsToItsEnd(w, c)
    ensures j < PATH_COUNT && GoalAt(j, w.vol.modes[j]) != w.vol.modes[j]
    ensures var w1 := Apply(w, c.(budget := 3)).0;
            && Safe(w1, w.vol.modes)
            && RunsToItsEnd(w1, c)
            && w1.site == w.site
            && w1.vol.receipt.Some?
            && PendingReceipt(w1, c) == PendingReceipt(w, c)
            && w1.vol.modes[j] == GoalAt(j, w.vol.modes[j])
            && w1.dur.modes[j] == w.vol.modes[j]
  {
    var o, r := w.vol.modes, PendingReceipt(w, c).value;
    BegunIsSafe(w, o, c);
    var b, budget := Begun(w, r), 1;
    SomethingChanges(b, o);
    var k: nat :| k < PATH_COUNT && GoalAt(k, o[k]) != o[k];
    j := FirstChange(b, o, 0, k, budget);
    TightenIsLoop(b, o, 0, budget);
    TightenStaysSafe(b, o, 0, budget);
    var w1 := Apply(w, c.(budget := 3)).0;
    assert w1 == TightenFrom(b, r, 0, budget).0;
    SafeIsBound(w1, o);
  }

  lemma AcknowledgementSucceeds(w: World, o: seq<Mode>, a: AckCall)
    requires Safe(w, o) && w.vol.receipt.Some? && w.site.homeSafe && w.vol.modes == Goal(o)
    requires a.verified && a.budget >= 3 && a.expected == Visible(w).noticeId
    ensures Acknowledge(w, a).1 && Acknowledge(w, a).0.dur.receipt.None?
  {
    SafeIsBound(w, o);
  }

  /**
   * A reachable run that loses a tightening for good: an apply killed between a chmod and its sync, a retry
   * that succeeds, an acknowledgement that succeeds, and a power loss. No receipt is left to notice it.
   */
  lemma AcknowledgedTighteningCanBeLost(w: World, c: ApplyCall, a: AckCall)
    requires Initial(w) && RunsToItsEnd(w, c) && PublicText(w.site, PendingReceipt(w, c).value.entries)
    requires a.verified && a.budget >= 3 && a.expected == c.expected
    ensures var w1 := Apply(w, c.(budget := 3)).0;
            var (w2, result) := Apply(w1, c);
            var (w3, acked) := Acknowledge(w2, a);
            var lost := Survive(w3, [], false);
            && result.Succeeded? && acked
            && w2.vol.modes == Goal(w.vol.modes)
            && lost.vol.receipt.None? && lost.vol.modes != Goal(w.vol.modes)
  {
    var o := w.vol.modes;
    var j := KilledBeforeSync(w, c);
    var w1 := Apply(w, c.(budget := 3)).0;
    RetryLeavesUnsynced(w1, o, c, j);
    var w2 := Apply(w1, c).0;
    AcknowledgementSucceeds(w2, o, a);
    AcknowledgeStaysSafe(w2, o, a);
    assert Survive(Acknowledge(w2, a).0, [], false).vol.modes[j] == o[j];
  }

  lemma RetryLeavesUnsynced(w: World, o: seq<Mode>, c: ApplyCall, j: nat)
    requires Safe(w, o) && RunsToItsEnd(w, c) && w.vol.receipt.Some? && j < PATH_COUNT
    requires w.vol.modes[j] == GoalAt(j, o[j]) && PublicText(w.site, PendingReceipt(w, c).value.entries)
    ensures var (w', result) := Apply(w, c);
            && Safe(w', o) && w'.vol.modes == Goal(o) && result.Succeeded?
            && w'.vol.receipt.Some? && Visible(w').noticeId == c.expected && w'.site.homeSafe
            && w'.dur.modes[j] == w.dur.modes[j]
  {
    RetryFinishes(w, o, c);
    ApplyStaysSafe(w, o, c);
    ApplyDurably(w, o, c);
    RetryKeepsReceipt(w, o, c);
  }

  lemma RetryKeepsReceipt(w: World, o: seq<Mode>, c: ApplyCall)
    requires Safe(w, o) && RunsToItsEnd(w, c) && w.vol.receipt.Some?
    ensures Apply(w, c).0.vol.receipt == w.vol.receipt && Apply(w, c).0.site == w.site && w.site.homeSafe
    ensures Visible(w) == PendingReceipt(w, c).value
  {
    SafeIsBound(w, o);
    TightenStaysSafe(w, o, 0, c.budget);
  }

  // ----- notice ids

  /** The id of the plan discovered on `o`. */
  ghost predicate IsPlanId(site: Site, o: seq<Mode>, id: Digest<Plan>) {
    && Shaped(site, o)
    && (forall i: nat | i < PATH_COUNT :: PlannableAt(site, o, i))
    && id == Sha256(Plan(site.uid, site.home, Entries(site, o)))
  }

  lemma ReceiptCarriesThePlan(w: World, o: seq<Mode>, acked: bool)
    requires Orderly(w, o, acked) && w.vol.receipt.Some?
    ensures IsPlanId(w.site, o, Visible(w).noticeId)
  {
    var r := Visible(w);
    forall i: nat | i < PATH_COUNT
      ensures PlannableAt(w.site, o, i) && r.entries[i] == EntryAt(w.site, o, i)
    {
      assert ValidEntry(r.entries[i], i) && EntryRecorded(w, r, o, i);
    }
    assert r.entries == Entries(w.site, o);
  }

  lemma {:induction false} TightenShowsTheReceipt(w: World, r: Receipt, i: nat, budget: nat)
    requires WorldShaped(w) && |r.entries| == PATH_COUNT && i <= PATH_COUNT
    ensures ShowsOnly(TightenFrom(w, r, i, budget).1, r.noticeId)
    decreases PATH_COUNT - i
  {
    if i < PATH_COUNT {
      TightenShowsTheReceipt(w, r, i + 1, budget);
      if budget >= 2 {
        TightenShowsTheReceipt(SyncPath(Chmod(w, i, r.entries[i].target), i), r, i + 1, budget - 2);
      }
    }
  }

  /** Any notice in the result carries this id. */
  predicate ShowsOnly(result: ApplyResult, id: Digest<Plan>) {
    match result
    case Succeeded(n) => n.id == id
    case Failed(Some(n)) => n.id == id
    case Failed(None) => true
  }

  lemma ApplyShowsThePlan(w: World, o: seq<Mode>, acked: bool, c: ApplyCall)
    requires Orderly(w, o, acked)
    ensures Apply(w, c).1 == Failed(None) ||
            exists id :: IsPlanId(w.site, o, id) && ShowsOnly(Apply(w, c).1, id)
  {
    var budget := ApplyCases(w, c);
    if PendingReceipt(w, c).Ok? {
      var r := PendingReceipt(w, c).value;
      BegunIsSafe(w, o, c);
      TightenShowsTheReceipt(Begun(w, r), r, 0, budget);
      if w.vol.receipt.Some? {
        ReceiptCarriesThePlan(w, o, acked);
      } else {
        SettledModesNeedNoPlan(w.site, o);
        assert IsPlanId(w.site, o, r.noticeId);
      }
    }
  }

  /** In every run without power loss, killed or failing anywhere, every notice shown by a probe, and every
      notice an apply returns on success or failure, carries the id of the plan discovered at the start. */
  lemma NoticeIdIsStable(w: World, es: seq<Event>, verified: bool, c: ApplyCall)
    requires Initial(w) && NoPowerLoss(es)
    ensures var x := Exec(w, es);
            && (Probe(x, verified).Ok? && Probe(x, verified).value.Some? ==>
                  IsPlanId(w.site, w.vol.modes, Probe(x, verified).value.value.id))
            && (Apply(x, c).1 == Failed(None) ||
                exists id :: IsPlanId(w.site, w.vol.modes, id) && ShowsOnly(Apply(x, c).1, id))
  {
    var x, o := Exec(w, es), w.vol.modes;
    EveryRunIsSafe(w, es);
    KilledRunsStayOrderly(w, es);
    ApplyShowsThePlan(x, o, Acknowledged(w, es), c);
    if x.vol.receipt.Some? {
      ReceiptCarriesThePlan(x, o, Acknowledged(w, es));
      if x.site.homeSafe {
        SafeIsBound(x, o);
      }
    } else {
      SettledModesNeedNoPlan(x.site, o);
    }
  }
}
