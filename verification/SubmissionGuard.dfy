/**
 * The launch dialog's submission guard (dashboard-ui/src/App.tsx, preflightThenMutate and close): an
 * asynchronous function cut at its awaits, so any other event may fall between two of its pieces.
 * The host's answers are event parameters; the draft is the text the dialog compares.
 */
module SubmissionGuard {
  import opened Basics

  datatype Phase = Checking | AwaitingNative | Done

  /** One guarded call: the attempt number and draft it captured, and where it has got to. */
  datatype Submission = Submission(attempt: nat, draft: string, native: bool, phase: Phase, aborted: bool)

  /** One call of `mutate`: by which guarded submission (if any), and the dialog's attempt and draft right then. */
  datatype Mutation = Mutation(owner: Option<nat>, attempt: nat, draft: string)

  datatype Dialog = Dialog(attempt: nat, pending: bool, draft: string, subs: seq<Submission>,
                           controller: Option<nat>, log: seq<Mutation>)

  datatype Answer = Accepted | Refused | Threw

  /** What is to be launched; the working directory plays no part in the guard. */
  datatype Launch = Launch(agent: Option<string>, resolvedCommand: Option<string>, customCommand: Option<string>)

  datatype Event =
    | Edit(draft: string)
    | Submit(launch: Launch, native: bool, mutateThrows: bool)
    | Checked(sub: nat, answer: Answer, mutateThrows: bool)
    | Confirmed(sub: nat, ok: bool)
    | Dismiss   // the dialog is closed, or the host shows another one
    | Unmount   // the handler is uninstalled: the wait is aborted, the attempt number stays

  const INITIAL := Dialog(0, false, "", [], None, [])

  // ----- the specification

  /** White space and line ends, as trimming removes them. */
  predicate IsSpace(c: char) {
    || '\U{0009}' <= c <= '\U{000D}'
    || c in {' ', '\U{00A0}', '\U{1680}', '\U{2028}', '\U{2029}', '\U{202F}', '\U{205F}', '\U{3000}', '\U{FEFF}'}
    || '\U{2000}' <= c <= '\U{200A}'
  }

  predicate Blank(text: Option<string>) {
    text.Some? ==> forall c | c in text.value :: IsSpace(c)
  }

  /** A save that launches nothing and waits for nothing takes the early branch, before the guard. */
  predicate EarlySave(launch: Launch, native: bool) {
    Blank(launch.resolvedCommand) && Blank(launch.customCommand) && Blank(launch.agent) && !native
  }

  function Abort(subs: seq<Submission>, controller: Option<nat>): (r: seq<Submission>)
    ensures |r| == |subs|
  {
    if controller.Some? && controller.value < |subs|
    then subs[controller.value := subs[controller.value].(aborted := true)]
    else subs
  }

  function Reset(d: Dialog): Dialog {
    d.(subs := Abort(d.subs, d.controller), attempt := d.attempt + 1, pending := false)
  }

  function Finish(d: Dialog, i: nat): Dialog
    requires i < |d.subs|
  {
    d.(subs := d.subs[i := d.subs[i].(phase := Done)],
       pending := d.pending && d.attempt != d.subs[i].attempt)
  }

  predicate Current(d: Dialog, i: nat) {
    i < |d.subs| && d.subs[i].phase != Done && d.subs[i].attempt == d.attempt
  }

  function AfterCheck(d: Dialog, i: nat, answer: Answer, mutateThrows: bool): Dialog
    requires i < |d.subs|
  {
    var s := d.subs[i];
    if d.attempt != s.attempt || answer != Accepted || d.draft != s.draft then Finish(d, i)
    else
      var m := d.(log := d.log + [Mutation(Some(i), d.attempt, d.draft)]);
      if s.native then m.(subs := m.subs[i := s.(phase := AwaitingNative)], controller := Some(i))
      else if mutateThrows then Finish(m, i)
      else Finish(Reset(m), i)
  }

  function AfterNative(d: Dialog, i: nat, ok: bool): Dialog
    requires i < |d.subs|
  {
    if d.attempt != d.subs[i].attempt || d.subs[i].aborted || !ok then Finish(d, i) else Finish(Reset(d), i)
  }

  function Next(d: Dialog, e: Event): Dialog {
    match e
    case Edit(draft) => d.(draft := draft)
    case Submit(launch, native, throws) =>
      if EarlySave(launch, native) then
        var m := d.(log := d.log + [Mutation(None, d.attempt, d.draft)]);
        if throws then m else Reset(m)
      else if d.pending then d
      else d.(pending := true, attempt := d.attempt + 1,
              subs := d.subs + [Submission(d.attempt + 1, d.draft, native, Checking, false)])
    case Checked(i, answer, throws) =>
      if i < |d.subs| && d.subs[i].phase == Checking then AfterCheck(d, i, answer, throws) else d
    case Confirmed(i, ok) =>
      if i < |d.subs| && d.subs[i].phase == AwaitingNative then AfterNative(d, i, ok) else d
    case Dismiss => Reset(d)
    case Unmount => d.(subs := Abort(d.subs, d.controller))
  }

  function Exec(d: Dialog, es: seq<Event>): Dialog {
    if es == [] then d else Next(Exec(d, es[..|es| - 1]), es[|es| - 1])
  }

  // ----- the dialog

  class LaunchDialog {
    var attempt: nat
    var pending: bool
    var draft: string
    var subs: seq<Submission>
    var controller: Option<nat>
    var log: seq<Mutation>

    constructor ()
      ensures State() == INITIAL
    {
      attempt, pending, draft, subs, controller, log := 0, false, "", [], None, [];
    }

    function State(): Dialog
      reads this
    {
      Dialog(attempt, pending, draft, subs, controller, log)
    }

    method AbortController()
      modifies this`subs
      ensures subs == Abort(old(subs), controller)
    {
      match controller {
        case Some(i) =>
          if i < |subs| {
            subs := subs[i := subs[i].(aborted := true)];
          }
        case None =>
      }
    }

    method Close()
      modifies this
      ensures State() == Next(old(State()), Dismiss)
    {
      AbortController();
      attempt := attempt + 1;
      pending := false;
    }

    method Uninstall()
      modifies this
      ensures State() == Next(old(State()), Unmount)
    {
      AbortController();
    }

    /** Up to the first await. */
    method StartLaunch(launch: Launch, native: bool, mutateThrows: bool)
      modifies this
      ensures State() == Next(old(State()), Submit(launch, native, mutateThrows))
    {
      if EarlySave(launch, native) {
        log := log + [Mutation(None, attempt, draft)];
        if !mutateThrows {
          Close();
        }
        return;
      }
      if pending {
        return;
      }
      pending := true;
      attempt := attempt + 1;
      subs := subs + [Submission(attempt, draft, native, Checking, false)];
    }

    /** The `finally` block. */
    method Settle(i: nat)
      requires i < |subs|
      modifies this
      ensures State() == Finish(old(State()), i)
    {
      if attempt == subs[i].attempt {
        pending := false;
      }
      subs := subs[i := subs[i].(phase := Done)];
    }

    /** From the preflight answer to the next await, or to the end. */
    method OnChecked(i: nat, answer: Answer, mutateThrows: bool)
      requires i < |subs| && subs[i].phase == Checking
      modifies this
      ensures State() == Next(old(State()), Checked(i, answer, mutateThrows))
    {
      if answer == Accepted && attempt == subs[i].attempt && draft == subs[i].draft {
        log := log + [Mutation(Some(i), attempt, draft)];
        if subs[i].native {
          controller := Some(i);
          subs := subs[i := subs[i].(phase := AwaitingNative)];
          return;
        }
        if !mutateThrows {
          Close();
        }
      }
      Settle(i);
    }

    /** From the native outcome to the end. */
    method OnConfirmed(i: nat, ok: bool)
      requires i < |subs| && subs[i].phase == AwaitingNative
      modifies this
      ensures State() == Next(old(State()), Confirmed(i, ok))
    {
      if attempt == subs[i].attempt && !subs[i].aborted && ok {
        Close();
      }
      Settle(i);
    }
  }

  // ----- every run

  ghost predicate Ordered(d: Dialog) {
    && (forall i | 0 <= i < |d.subs| :: d.subs[i].attempt <= d.attempt)
    && (forall i, j | 0 <= i < j < |d.subs| :: d.subs[i].attempt < d.subs[j].attempt)
  }

  /** Pending exactly while a submission of the present attempt is in flight. */
  ghost predicate PendingIsExact(d: Dialog) {
    d.pending <==> exists i :: Current(d, i)
  }

  /** What is logged: made by a submission past its check, under its own attempt and its own draft. */
  ghost predicate Justified(d: Dialog, m: Mutation) {
    m.owner.Some? ==>
      && m.owner.value < |d.subs|
      && d.subs[m.owner.value].phase != Checking
      && m.attempt == d.subs[m.owner.value].attempt
      && m.draft == d.subs[m.owner.value].draft
  }

  ghost predicate AtMostOnce(log: seq<Mutation>) {
    forall k, l | 0 <= k < l < |log| && log[k].owner.Some? :: log[k].owner != log[l].owner
  }

  /** This submission has called `mutate`. */
  predicate Logged(d: Dialog, i: nat) {
    exists k :: 0 <= k < |d.log| && d.log[k].owner == Some(i)
  }

  ghost predicate Guarded(d: Dialog) {
    && Ordered(d)
    && PendingIsExact(d)
    && AtMostOnce(d.log)
    && (forall k | 0 <= k < |d.log| :: Justified(d, d.log[k]))
    && (forall i: nat | i < |d.subs| && d.subs[i].phase == AwaitingNative :: Logged(d, i))
  }

  /** What no event changes about a submission, and that a finished check is never undone. */
  ghost predicate Extends(d: Dialog, e: Dialog) {
    && |d.subs| <= |e.subs|
    && d.attempt <= e.attempt
    && (forall i | 0 <= i < |d.subs| ::
          && e.subs[i].attempt == d.subs[i].attempt
          && e.subs[i].draft == d.subs[i].draft
          && (d.subs[i].phase != Checking ==> e.subs[i].phase != Checking)
          && (d.subs[i].phase == Done ==> e.subs[i].phase == Done))
    && (forall i | |d.subs| <= i < |e.subs| :: d.attempt < e.subs[i].attempt <= e.attempt)
  }

  lemma NextExtends(d: Dialog, e: Event)
    ensures Extends(d, Next(d, e)) && |Next(d, e).subs| <= |d.subs| + 1
  {
  }

  lemma ExtensionKeepsOrder(d: Dialog, n: Dialog)
    requires Ordered(d) && Extends(d, n) && |n.subs| <= |d.subs| + 1
    ensures Ordered(n)
  {
  }

  lemma NextKeepsOrder(d: Dialog, e: Event)
    requires Ordered(d)
    ensures Ordered(Next(d, e))
  {
    NextExtends(d, e);
    ExtensionKeepsOrder(d, Next(d, e));
  }

  /** One event calls `mutate` at most once, and for a guarded submission exactly under these conditions. */
  lemma MutatesIff(d: Dialog, e: Event)
    ensures Next(d, e).log != d.log <==>
            || (e.Submit? && EarlySave(e.launch, e.native))
            || (e.Checked? && e.answer == Accepted && Current(d, e.sub) && d.subs[e.sub].phase == Checking
                && d.draft == d.subs[e.sub].draft)
    ensures Next(d, e).log != d.log ==>
            Next(d, e).log == d.log + [Mutation(if e.Checked? then Some(e.sub) else None, d.attempt, d.draft)]
  {
    assert |Next(d, e).log| == |d.log| ==> Next(d, e).log == d.log;
  }

  lemma ResetKeepsPending(d: Dialog)
    requires Ordered(d)
    ensures Ordered(Reset(d)) && PendingIsExact(Reset(d))
  {
    assert forall i :: !Current(Reset(d), i);
  }

  lemma FinishKeepsPending(d: Dialog, i: nat)
    requires Ordered(d) && PendingIsExact(d) && i < |d.subs|
    ensures PendingIsExact(Finish(d, i))
  {
    var n := Finish(d, i);
    if d.attempt == d.subs[i].attempt {
      assert forall k :: !Current(n, k);
    } else {
      assert forall k :: Current(n, k) <==> Current(d, k);
    }
  }

  lemma SameCurrentKeepsPending(d: Dialog, n: Dialog)
    requires PendingIsExact(d) && d.pending == n.pending
    requires forall i :: Current(n, i) <==> Current(d, i)
    ensures PendingIsExact(n)
  {
  }

  lemma CheckKeepsPending(d: Dialog, i: nat, answer: Answer, throws: bool)
    requires Ordered(d) && PendingIsExact(d) && i < |d.subs| && d.subs[i].phase == Checking
    ensures PendingIsExact(AfterCheck(d, i, answer, throws))
  {
    var m := d.(log := d.log + [Mutation(Some(i), d.attempt, d.draft)]);
    assert forall k :: Current(m, k) <==> Current(d, k);
    FinishKeepsPending(d, i);
    FinishKeepsPending(m, i);
    ResetKeepsPending(m);
    FinishKeepsPending(Reset(m), i);
    var n := m.(subs := m.subs[i := m.subs[i].(phase := AwaitingNative)], controller := Some(i));
    assert forall k :: Current(n, k) <==> Current(d, k);
    SameCurrentKeepsPending(d, n);
  }

  lemma NextKeepsPending(d: Dialog, e: Event)
    requires Ordered(d) && PendingIsExact(d)
    ensures PendingIsExact(Next(d, e))
  {
    var n := Next(d, e);
    match e
    case Submit(launch, native, _) =>
      if EarlySave(launch, native) {
        var m := d.(log := d.log + [Mutation(None, d.attempt, d.draft)]);
        ResetKeepsPending(m);
        assert forall i :: Current(m, i) <==> Current(d, i);
      } else if !d.pending {
        assert Current(n, |d.subs|);
      }
    case Checked(i, answer, throws) =>
      if i < |d.subs| && d.subs[i].phase == Checking {
        CheckKeepsPending(d, i, answer, throws);
      }
    case Confirmed(i, ok) =>
      if i < |d.subs| && d.subs[i].phase == AwaitingNative {
        FinishKeepsPending(d, i);
        ResetKeepsPending(d);
        FinishKeepsPending(Reset(d), i);
      }
    case Dismiss => ResetKeepsPending(d);
    case _ => assert forall i :: Current(n, i) <==> Current(d, i);
  }

  /** A submission that mutates leaves its check behind in the same step, so it never mutates again. */
  lemma NextKeepsLog(d: Dialog, e: Event)
    requires Guarded(d)
    ensures AtMostOnce(Next(d, e).log)
    ensures forall k | 0 <= k < |Next(d, e).log| :: Justified(Next(d, e), Next(d, e).log[k])
  {
    var n := Next(d, e);
    NextExtends(d, e);
    MutatesIff(d, e);
    forall k | 0 <= k < |d.log|
      ensures Justified(n, d.log[k])
    {
      assert Justified(d, d.log[k]);
    }
    if n.log != d.log && e.Checked? {
      assert n.subs[e.sub].phase != Checking;
      assert forall k | 0 <= k < |d.log| :: d.log[k].owner != Some(e.sub);
    }
  }

  lemma LogOnlyGrows(d: Dialog, n: Dialog, i: nat)
    requires d.log <= n.log && Logged(d, i)
    ensures Logged(n, i)
  {
    var k :| 0 <= k < |d.log| && d.log[k].owner == Some(i);
    assert n.log[k] == d.log[k];
  }

  lemma NextLogsAwaited(d: Dialog, e: Event, i: nat)
    requires Guarded(d) && i < |Next(d, e).subs| && Next(d, e).subs[i].phase == AwaitingNative
    ensures Logged(Next(d, e), i)
  {
    var n := Next(d, e);
    MutatesIff(d, e);
    if i < |d.subs| && d.subs[i].phase == AwaitingNative {
      LogOnlyGrows(d, n, i);
    } else {
      assert n.log[|d.log|].owner == Some(i);
    }
  }

  /** Over every run: pending is exact, and each guarded submission mutates at most once, as it was checked. */
  lemma {:induction false} EveryRunIsGuarded(es: seq<Event>)
    ensures Guarded(Exec(INITIAL, es))
  {
    if es == [] {
      assert forall i :: !Current(INITIAL, i);
    } else {
      var d := Exec(INITIAL, es[..|es| - 1]);
      EveryRunIsGuarded(es[..|es| - 1]);
      NextKeepsOrder(d, es[|es| - 1]);
      NextKeepsPending(d, es[|es| - 1]);
      NextKeepsLog(d, es[|es| - 1]);
      var n := Next(d, es[|es| - 1]);
      forall i: nat | i < |n.subs| && n.subs[i].phase == AwaitingNative
        ensures Logged(n, i)
      {
        NextLogsAwaited(d, es[|es| - 1], i);
      }
    }
  }

  /** After a dismissal no submission made before it ever mutates, whatever answers arrive later. */
  lemma {:induction false} DismissedNeverMutates(d: Dialog, es: seq<Event>)
    requires Ordered(d)
    ensures Extends(Reset(d), Exec(Reset(d), es))
    ensures d.log <= Exec(Reset(d), es).log
    ensures forall k | |d.log| <= k < |Exec(Reset(d), es).log| ::
              var owner := Exec(Reset(d), es).log[k].owner; owner.None? || owner.value >= |d.subs|
  {
    if es != [] {
      var x := Exec(Reset(d), es[..|es| - 1]);
      DismissedNeverMutates(d, es[..|es| - 1]);
      NextExtends(x, es[|es| - 1]);
      MutatesIff(x, es[|es| - 1]);
    }
  }

  predicate Interrupts(e: Event, i: nat) {
    || e.Dismiss?
    || (e.Submit? && EarlySave(e.launch, e.native))
    || (e.Checked? && e.sub == i)
    || (e.Confirmed? && e.sub == i)
  }

  /** While a submission is in flight, no further click, edit or late answer calls `mutate` at all. */
  lemma {:induction false} NothingElseMutatesWhilePending(d: Dialog, i: nat, es: seq<Event>)
    requires Ordered(d) && PendingIsExact(d) && Current(d, i)
    requires forall e | e in es :: !Interrupts(e, i)
    ensures var x := Exec(d, es);
            x.log == d.log && x.pending && x.attempt == d.attempt && Current(x, i) && Ordered(x)
  {
    if es != [] {
      var e := es[|es| - 1];
      var x := Exec(d, es[..|es| - 1]);
      NothingElseMutatesWhilePending(d, i, es[..|es| - 1]);
      assert e in es;
      NextKeepsOrder(x, e);
      assert forall k | Current(x, k) :: k == i;
      MutatesIff(x, e);
    }
  }

  /** In some continuation, this one included, the submission has called `mutate`. */
  ghost predicate MayStillMutate(d: Dialog, i: nat) {
    exists es :: Logged(Exec(d, es), i)
  }

  lemma MutatesIn(d: Dialog, i: nat, es: seq<Event>)
    requires Logged(Exec(d, es), i)
    ensures MayStillMutate(d, i)
  {
  }

  lemma EarlySaveCancelsCheck(d: Dialog, i: nat, launch: Launch, es: seq<Event>)
    requires Guarded(d) && i < |d.subs| && d.subs[i].phase == Checking && EarlySave(launch, false)
    ensures !Logged(Exec(Next(d, Submit(launch, false, false)), es), i)
  {
    var m := d.(log := d.log + [Mutation(None, d.attempt, d.draft)]);
    DismissedNeverMutates(m, es);
    var x := Exec(Reset(m), es);
    forall k | 0 <= k < |x.log|
      ensures x.log[k].owner != Some(i)
    {
      if k < |d.log| {
        assert Justified(d, d.log[k]) && x.log[k] == m.log[k];
      } else if k == |d.log| {
        assert x.log[k] == m.log[k];
      }
    }
  }

  lemma CheckedAfterThrow(d: Dialog, i: nat, launch: Launch) returns (es: seq<Event>)
    requires Guarded(d) && Current(d, i) && d.subs[i].phase == Checking && EarlySave(launch, false)
    ensures Logged(Exec(Next(d, Submit(launch, false, true)), es), i)
  {
    var m := Next(d, Submit(launch, false, true));
    var edit, check := Edit(d.subs[i].draft), Checked(i, Accepted, false);
    es := [edit, check];
    assert es[..1] == [edit] && [edit][..0] == [];
    assert Exec(m, [edit]) == Next(m, edit);
    var x := Next(m, edit);
    MutatesIff(x, check);
    assert Next(x, check).log[|x.log|].owner == Some(i);
  }

  /**
   * The early branch is not covered by the guard: it saves while another attempt is in flight. Both then take
   * effect in some continuation exactly when that attempt had already reached the native host, or the early
   * save threw and so left the dialog open. In every other case the early save is the only one.
   */
  lemma EarlySaveAndAttemptBothMutateIff(d: Dialog, i: nat, launch: Launch, throws: bool)
    requires Guarded(d) && Current(d, i) && EarlySave(launch, false)
    ensures MayStillMutate(Next(d, Submit(launch, false, throws)), i) <==>
            d.subs[i].phase == AwaitingNative || throws
  {
    var n := Next(d, Submit(launch, false, throws));
    if d.subs[i].phase == AwaitingNative {
      LogOnlyGrows(d, n, i);
      MutatesIn(n, i, []);
    } else if throws {
      var es := CheckedAfterThrow(d, i, launch);
      MutatesIn(n, i, es);
    } else {
      forall es
        ensures !Logged(Exec(n, es), i)
      {
        EarlySaveCancelsCheck(d, i, launch, es);
      }
    }
  }
}
