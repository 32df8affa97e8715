/** Every interleaving of publishers, crashes and recoveries on one directory. */
module OwnerPublicationRuns {
  import opened Basics
  import opened DeviceOwnership
  import opened OwnerPublication

  datatype System = System(g: Graph, pubs: seq<Publisher>, recs: seq<Recovery>)

  /** Publishers and recoveries may start at any time; the other events name one by its position. A crash of a
      recovery is that it takes no further step. */
  datatype Event =
    | StartEvent(newcomer: Publisher)
    | StepEvent(publisher: nat)
    | CrashEvent(publisher: nat)
    | RecoverEvent
    | RecoverStepEvent(recovery: nat)

  predicate Live(p: Publisher) { !p.stage.Finished? }

  /** Process ids and counters are distinct among publishers live together. A restarted process may reuse a
      crashed one's name. A new file gets an inode that is not in use. */
  predicate MayStart(s: System, p: Publisher) {
    && p.stage.Starting?
    && IsExactTemporaryName(p.temp)
    && p.ino !in s.g.inodes
    && forall i: nat | i < |s.pubs| && Live(s.pubs[i]) :: s.pubs[i].temp != p.temp && s.pubs[i].ino != p.ino
  }

  ghost function Next(s: System, parse: Parser, e: Event): System {
    match e
    case StartEvent(p) => if MayStart(s, p) then s.(pubs := s.pubs + [p]) else s
    case StepEvent(i) =>
      if i < |s.pubs| then
        var (g', p') := Advance(s.g, parse, s.pubs[i]);
        s.(g := g', pubs := s.pubs[i := p'])
      else s
    case CrashEvent(i) =>
      if i < |s.pubs| then s.(pubs := s.pubs[i := s.pubs[i].(stage := Finished(false))]) else s
    case RecoverEvent => s.(recs := s.recs + [Looking])
    case RecoverStepEvent(i) =>
      if i < |s.recs| then
        var (g', r') := RecoverStep(s.g, parse, s.recs[i]);
        s.(g := g', recs := s.recs[i := r'])
      else s
  }

  ghost function Exec(s: System, parse: Parser, es: seq<Event>): System {
    if es == [] then s else Next(Exec(s, parse, es[..|es| - 1]), parse, es[|es| - 1])
  }

  // ----- recovery of one directory

  ghost predicate OwnerFixed(g: Graph, g': Graph) {
    OWNER in g.names && g.names[OWNER] in g.inodes ==>
      && OWNER in g'.names
      && g'.names[OWNER] == g.names[OWNER]
      && g'.names[OWNER] in g'.inodes
      && g'.inodes[g.names[OWNER]].bytes == g.inodes[g.names[OWNER]].bytes
      && g'.inodes[g.names[OWNER]].links <= g.inodes[g.names[OWNER]].links
  }

  /** A twice-linked owner file has at most one matching temporary. */
  lemma SecondTemporaryIsImpossible(g: Graph, a: string, b: string)
    requires WellLinked(g) && OWNER in g.names && g.inodes[g.names[OWNER]].links == 2
    requires a in MatchingTemporaries(g) && b in MatchingTemporaries(g)
    ensures a == b
  {
    PublishersUseExactNames(0, 0);
    var all := NamesOf(g, g.names[OWNER]);
    if a != b {
      assert |{OWNER, a, b}| == 3 && {OWNER, a, b} <= all;
      SubsetSize({OWNER, a, b}, all);
    }
  }

  lemma {:induction false} SubsetSize(a: set<string>, b: set<string>)
    requires a <= b
    ensures |a| <= |b|
    ensures |a| == |b| ==> a == b
  {
    if a != {} {
      var x :| x in a;
      SubsetSize(a - {x}, b - {x});
    }
  }

  /** Recovery leaves the directory alone, or removes the one matching temporary of a twice-linked owner. */
  lemma RecoverCases(g: Graph, parse: Parser)
    requires WellLinked(g)
    ensures var (g', ok) := Recover(g, parse);
            || (g' == g && (ok && OWNER in g.names ==> g.inodes[g.names[OWNER]].links == 1))
            || (ok && OWNER in g.names && g.inodes[g.names[OWNER]].links == 2
                && exists alias :: alias in MatchingTemporaries(g) && g' == Unlink(g, alias))
  {
  }

  lemma UnlinkAliasIsExact(g: Graph, alias: string)
    requires WellLinked(g) && OWNER in g.names && g.inodes[g.names[OWNER]].links == 2
    requires alias in MatchingTemporaries(g)
    ensures var g' := Unlink(g, alias);
            WellLinked(g') && OwnerFixed(g, g') && OWNER in g'.names && g'.inodes[g'.names[OWNER]].links == 1
  {
    UnlinkWellLinked(g, alias);
    TemporaryIsNotTheOwner(alias);
  }

  /** On any well-linked directory recovery removes at most one name, and only an exact publication
      temporary bound to the owner's inode; the final name keeps its inode and bytes; success means the
      owner is absent or has exactly one link. */
  lemma RecoveryIsExact(g: Graph, parse: Parser)
    requires WellLinked(g)
    ensures var (g', ok) := Recover(g, parse);
            && WellLinked(g')
            && OwnerFixed(g, g')
            && (ok && OWNER in g.names ==> g'.inodes[g'.names[OWNER]].links == 1)
            && (g' == g || exists alias ::
                  && OWNER in g.names
                  && alias in MatchingTemporaries(g)
                  && g' == Unlink(g, alias)
                  && g'.names == g.names - {alias}
                  && forall i :: NamesOf(g', i) == NamesOf(g, i) - {alias})
  {
    RecoverCases(g, parse);
    var g' := Recover(g, parse).0;
    if g' != g {
      var alias :| alias in MatchingTemporaries(g) && g' == Unlink(g, alias);
      UnlinkAliasIsExact(g, alias);
      UnlinkWellLinked(g, alias);
    }
  }

  // ----- the invariant

  /** The publisher's own file: it has no name but its temporary, and its temporary names no other file. A late
      recovery may have removed the name. */
  ghost predicate Owns(g: Graph, p: Publisher) {
    && p.ino in g.inodes
    && g.inodes[p.ino].private
    && NamesOf(g, p.ino) <= {p.temp}
    && (p.temp in g.names ==> g.names[p.temp] == p.ino)
  }

  /** What the graph owes a publisher at each stage. */
  ghost predicate Supports(g: Graph, p: Publisher) {
    match p.stage
    case Starting => p.ino !in g.inodes
    case Created => Owns(g, p)
    case Written => Owns(g, p) && g.inodes[p.ino].bytes == p.bytes
    case Refused => Owns(g, p)
    case Linked => OWNER in g.names && g.names[OWNER] == p.ino
    case Finished(_) => true
  }

  /** What a recovery holds on to. */
  ghost predicate Holds(g: Graph, r: Recovery) {
    match r
    case Opened(ino) => OWNER in g.names && g.names[OWNER] == ino
    case Chosen(ino, alias) => OWNER in g.names && g.names[OWNER] == ino && IsExactTemporaryName(alias)
    case Rechecked(ino, alias) => OWNER in g.names && g.names[OWNER] == ino && IsExactTemporaryName(alias)
    case _ => true
  }

  /** The owner name is absent, or bound to a private inode holding one publisher's complete bytes, with
      at most one publication temporary beside it. */
  ghost predicate OwnerShape(s: System) {
    OWNER in s.g.names ==>
      && s.g.names[OWNER] in s.g.inodes
      && s.g.inodes[s.g.names[OWNER]].private
      && (exists i: nat :: i < |s.pubs| && s.g.inodes[s.g.names[OWNER]].bytes == s.pubs[i].bytes)
      && (exists temp :: IsExactTemporaryName(temp) && NamesOf(s.g, s.g.names[OWNER]) <= {OWNER, temp})
  }

  ghost predicate Distinct(pubs: seq<Publisher>) {
    && (forall i: nat | i < |pubs| :: IsExactTemporaryName(pubs[i].temp))
    && (forall i: nat, j: nat | i < j < |pubs| && Live(pubs[i]) && Live(pubs[j]) ::
          pubs[i].temp != pubs[j].temp && pubs[i].ino != pubs[j].ino)
  }

  ghost predicate Inv(s: System) {
    && WellLinked(s.g)
    && Distinct(s.pubs)
    && (forall i: nat | i < |s.pubs| :: Supports(s.g, s.pubs[i]))
    && (forall i: nat | i < |s.recs| :: Holds(s.g, s.recs[i]))
    && OwnerShape(s)
  }

  /** A directory without an owner, which may hold anything else, and nobody at work yet. */
  ghost predicate Initial(s: System) {
    WellLinked(s.g) && OWNER !in s.g.names && s.pubs == [] && s.recs == []
  }

  /** A change that leaves a publisher's inode, its names and its temporary alone keeps what is owed to it. */
  lemma SupportKept(g: Graph, g': Graph, p: Publisher)
    requires Supports(g, p) && NamesOf(g', p.ino) == NamesOf(g, p.ino)
    requires p.ino in g.inodes <==> p.ino in g'.inodes
    requires p.ino in g.inodes ==> g'.inodes[p.ino] == g.inodes[p.ino]
    requires OWNER in g.names ==> OWNER in g'.names && g'.names[OWNER] == g.names[OWNER]
    requires p.temp in g'.names ==> p.temp in g.names && g'.names[p.temp] == g.names[p.temp]
    ensures Supports(g', p)
  {
  }

  lemma UnlinkKeepsSupport(g: Graph, name: string, p: Publisher)
    requires WellLinked(g) && Supports(g, p) && IsExactTemporaryName(name)
    ensures Supports(Unlink(g, name), p)
  {
    UnlinkWellLinked(g, name);
    TemporaryIsNotTheOwner(name);
  }

  lemma UnlinkKeepsOwnerShape(s: System, name: string, pubs: seq<Publisher>)
    requires WellLinked(s.g) && OwnerShape(s) && IsExactTemporaryName(name)
    requires |pubs| == |s.pubs| && forall i: nat | i < |pubs| :: pubs[i].bytes == s.pubs[i].bytes
    ensures OwnerShape(s.(g := Unlink(s.g, name), pubs := pubs)) && OwnerFixed(s.g, Unlink(s.g, name))
  {
    UnlinkWellLinked(s.g, name);
    TemporaryIsNotTheOwner(name);
    if OWNER in s.g.names {
      var g', o := Unlink(s.g, name), s.g.names[OWNER];
      var i: nat :| i < |s.pubs| && s.g.inodes[o].bytes == s.pubs[i].bytes;
      var temp :| IsExactTemporaryName(temp) && NamesOf(s.g, o) <= {OWNER, temp};
      assert g'.names[OWNER] == o && g'.inodes[o].bytes == pubs[i].bytes && g'.inodes[o].private;
      assert NamesOf(g', o) == NamesOf(s.g, o) - {name};
      assert NamesOf(g', o) <= {OWNER, temp};
    }
  }

  lemma DistinctKept(pubs: seq<Publisher>, i: nat, p: Publisher)
    requires Distinct(pubs) && i < |pubs| && p.temp == pubs[i].temp && p.ino == pubs[i].ino
    requires Live(p) ==> Live(pubs[i])
    ensures Distinct(pubs[i := p])
  {
  }

  lemma HoldsKept(g: Graph, g': Graph, recs: seq<Recovery>)
    requires forall i: nat | i < |recs| :: Holds(g, recs[i])
    requires OWNER in g.names ==> OWNER in g'.names && g'.names[OWNER] == g.names[OWNER]
    ensures forall i: nat | i < |recs| :: Holds(g', recs[i])
  {
    forall i: nat | i < |recs|
      ensures Holds(g', recs[i])
    {
      assert Holds(g, recs[i]);
    }
  }

  /** Removing any exact temporary name is harmless, whoever does it and whosever it is. */
  lemma UnlinkKeepsInv(s: System, name: string)
    requires Inv(s) && IsExactTemporaryName(name)
    ensures Inv(s.(g := Unlink(s.g, name))) && OwnerFixed(s.g, Unlink(s.g, name))
  {
    UnlinkWellLinked(s.g, name);
    TemporaryIsNotTheOwner(name);
    UnlinkKeepsOwnerShape(s, name, s.pubs);
    HoldsKept(s.g, Unlink(s.g, name), s.recs);
    forall k: nat | k < |s.pubs|
      ensures Supports(Unlink(s.g, name), s.pubs[k])
    {
      UnlinkKeepsSupport(s.g, name, s.pubs[k]);
    }
  }

  /** A publisher that moves on without a change to the directory. */
  lemma StageKeepsInv(s: System, i: nat, stage: Stage)
    requires Inv(s) && i < |s.pubs| && Supports(s.g, s.pubs[i].(stage := stage))
    requires Live(s.pubs[i].(stage := stage)) ==> Live(s.pubs[i])
    ensures Inv(s.(pubs := s.pubs[i := s.pubs[i].(stage := stage)]))
  {
    DistinctKept(s.pubs, i, s.pubs[i].(stage := stage));
    OwnerShapeKept(s, s.(pubs := s.pubs[i := s.pubs[i].(stage := stage)]));
  }

  lemma StepKeepsInv(s: System, parse: Parser, i: nat)
    requires Inv(s) && i < |s.pubs|
    ensures Inv(Next(s, parse, StepEvent(i))) && OwnerFixed(s.g, Next(s, parse, StepEvent(i)).g)
  {
    var p := s.pubs[i];
    match p.stage
    case Starting =>
      if p.temp in s.g.names {
        UnlinkStepKeepsInv(s, i, false);
      } else {
        CreateStepKeepsInv(s, parse, i);
      }
    case Created => WriteStepKeepsInv(s, parse, i);
    case Written =>
      if p.temp !in s.g.names {
        StageKeepsInv(s, i, Finished(false));
      } else if OWNER in s.g.names {
        StageKeepsInv(s, i, Refused);
      } else {
        LinkStepKeepsInv(s, parse, i);
      }
    case Linked => UnlinkStepKeepsInv(s, i, Next(s, parse, StepEvent(i)).pubs[i].stage.ok);
    case Refused => UnlinkStepKeepsInv(s, i, Next(s, parse, StepEvent(i)).pubs[i].stage.ok);
    case Finished(_) => assert Next(s, parse, StepEvent(i)) == s;
  }

  lemma UnlinkStepKeepsInv(s: System, i: nat, ok: bool)
    requires Inv(s) && i < |s.pubs| && Live(s.pubs[i])
    ensures var g' := Unlink(s.g, s.pubs[i].temp);
            && Inv(s.(g := g', pubs := s.pubs[i := s.pubs[i].(stage := Finished(ok))]))
            && OwnerFixed(s.g, g')
  {
    UnlinkKeepsInv(s, s.pubs[i].temp);
    StageKeepsInv(s.(g := Unlink(s.g, s.pubs[i].temp)), i, Finished(ok));
  }

  lemma CreateStepKeepsInv(s: System, parse: Parser, i: nat)
    requires Inv(s) && i < |s.pubs| && s.pubs[i].stage.Starting? && s.pubs[i].temp !in s.g.names
    ensures Inv(Next(s, parse, StepEvent(i))) && OwnerFixed(s.g, Next(s, parse, StepEvent(i)).g)
  {
    var p := s.pubs[i];
    var s' := Next(s, parse, StepEvent(i));
    TemporaryIsNotTheOwner(p.temp);
    DistinctKept(s.pubs, i, s'.pubs[i]);
    CreateWellLinked(s.g, p.temp, p.ino);
    HoldsKept(s.g, s'.g, s.recs);
    forall k: nat | k < |s'.pubs|
      ensures Supports(s'.g, s'.pubs[k])
    {
      if k != i && Live(s.pubs[k]) {
        SupportKept(s.g, s'.g, s.pubs[k]);
      }
    }
    OwnerShapeKept(s, s');
  }

  lemma WriteStepKeepsInv(s: System, parse: Parser, i: nat)
    requires Inv(s) && i < |s.pubs| && s.pubs[i].stage.Created?
    ensures Inv(Next(s, parse, StepEvent(i))) && OwnerFixed(s.g, Next(s, parse, StepEvent(i)).g)
  {
    var p := s.pubs[i];
    var s' := Next(s, parse, StepEvent(i));
    TemporaryIsNotTheOwner(p.temp);
    DistinctKept(s.pubs, i, s'.pubs[i]);
    WriteWellLinked(s.g, p.ino, p.bytes);
    HoldsKept(s.g, s'.g, s.recs);
    forall k: nat | k < |s'.pubs|
      ensures Supports(s'.g, s'.pubs[k])
    {
      if k != i && Live(s.pubs[k]) {
        SupportKept(s.g, s'.g, s.pubs[k]);
      }
    }
    assert OWNER in s.g.names ==> OWNER in NamesOf(s.g, s.g.names[OWNER]);
    OwnerShapeKept(s, s');
  }

  lemma LinkKeepsSupport(g: Graph, temp: string, p: Publisher)
    requires WellLinked(g) && temp in g.names && OWNER !in g.names && p.ino != g.names[temp] && Supports(g, p)
    requires p.temp != OWNER
    ensures Supports(HardLink(g, temp, OWNER), p)
  {
    HardLinkNames(g, temp, OWNER, p.ino);
    SupportKept(g, HardLink(g, temp, OWNER), p);
  }

  lemma LinkMakesOwnerShape(s: System, i: nat, pubs: seq<Publisher>)
    requires WellLinked(s.g) && i < |s.pubs| && s.pubs[i].stage.Written? && OWNER !in s.g.names
    requires Supports(s.g, s.pubs[i]) && IsExactTemporaryName(s.pubs[i].temp) && s.pubs[i].temp in s.g.names
    requires |pubs| == |s.pubs| && pubs[i].bytes == s.pubs[i].bytes
    ensures OwnerShape(s.(g := HardLink(s.g, s.pubs[i].temp, OWNER), pubs := pubs))
  {
    var p := s.pubs[i];
    HardLinkNames(s.g, p.temp, OWNER, p.ino);
    assert NamesOf(HardLink(s.g, p.temp, OWNER), p.ino) <= {OWNER, p.temp};
  }

  lemma LinkStepKeepsInv(s: System, parse: Parser, i: nat)
    requires Inv(s) && i < |s.pubs| && s.pubs[i].stage.Written?
    requires OWNER !in s.g.names && s.pubs[i].temp in s.g.names
    ensures Inv(Next(s, parse, StepEvent(i)))
  {
    var p := s.pubs[i];
    var pubs := s.pubs[i := p.(stage := Linked)];
    LinkMakesOwnerShape(s, i, pubs);
    assert Next(s, parse, StepEvent(i)) == s.(g := HardLink(s.g, p.temp, OWNER), pubs := pubs);
    HardLinkWellLinked(s.g, p.temp, OWNER);
    DistinctKept(s.pubs, i, p.(stage := Linked));
    HoldsKept(s.g, HardLink(s.g, p.temp, OWNER), s.recs);
    forall k: nat | k < |pubs|
      ensures Supports(HardLink(s.g, p.temp, OWNER), pubs[k])
    {
      if k != i && Live(s.pubs[k]) {
        TemporaryIsNotTheOwner(s.pubs[k].temp);
        LinkKeepsSupport(s.g, p.temp, s.pubs[k]);
      }
    }
  }

  lemma OwnerShapeKept(s: System, s': System)
    requires OwnerShape(s) && |s'.pubs| == |s.pubs|
    requires forall i: nat | i < |s.pubs| :: s'.pubs[i].bytes == s.pubs[i].bytes
    requires OWNER in s.g.names <==> OWNER in s'.g.names
    requires OWNER in s.g.names ==>
      && s'.g.names[OWNER] == s.g.names[OWNER]
      && s.g.names[OWNER] in s'.g.inodes
      && s'.g.inodes[s.g.names[OWNER]] == s.g.inodes[s.g.names[OWNER]]
      && NamesOf(s'.g, s.g.names[OWNER]) == NamesOf(s.g, s.g.names[OWNER])
    ensures OwnerShape(s')
  {
    if OWNER in s.g.names {
      var i: nat :| i < |s.pubs| && s.g.inodes[s.g.names[OWNER]].bytes == s.pubs[i].bytes;
      assert s'.pubs[i].bytes == s.pubs[i].bytes;
    }
  }

  lemma RecoverStepHolds(g: Graph, parse: Parser, r: Recovery)
    requires WellLinked(g) && Holds(g, r)
    ensures var (g', r') := RecoverStep(g, parse, r);
            Holds(g', r') && (g' == g || (r.Rechecked? && g' == Unlink(g, r.alias)))
  {
  }

  lemma RecoverStepKeepsInv(s: System, parse: Parser, i: nat)
    requires Inv(s) && i < |s.recs|
    ensures Inv(Next(s, parse, RecoverStepEvent(i))) && OwnerFixed(s.g, Next(s, parse, RecoverStepEvent(i)).g)
  {
    var r := s.recs[i];
    RecoverStepHolds(s.g, parse, r);
    var (g', r') := RecoverStep(s.g, parse, r);
    if g' != s.g {
      UnlinkKeepsInv(s, r.alias);
    }
    RecoveryMovesOn(s.(g := g'), i, r');
  }

  lemma RecoveryMovesOn(s: System, i: nat, r: Recovery)
    requires Inv(s) && i < |s.recs| && Holds(s.g, r)
    ensures Inv(s.(recs := s.recs[i := r]))
  {
    OwnerShapeKept(s, s.(recs := s.recs[i := r]));
  }

  lemma CrashKeepsInv(s: System, parse: Parser, i: nat)
    requires Inv(s)
    ensures Inv(Next(s, parse, CrashEvent(i)))
  {
    if i < |s.pubs| {
      StageKeepsInv(s, i, Finished(false));
    }
  }

  lemma StartKeepsInv(s: System, parse: Parser, p: Publisher)
    requires Inv(s)
    ensures Inv(Next(s, parse, StartEvent(p)))
  {
    var s' := Next(s, parse, StartEvent(p));
    assert forall k: nat | k < |s.pubs| :: s'.pubs[k] == s.pubs[k];
    if OWNER in s.g.names {
      var i: nat :| i < |s.pubs| && s.g.inodes[s.g.names[OWNER]].bytes == s.pubs[i].bytes;
      assert s'.pubs[i].bytes == s.pubs[i].bytes;
    }
  }

  lemma NextKeepsInv(s: System, parse: Parser, e: Event)
    requires Inv(s)
    ensures Inv(Next(s, parse, e)) && OwnerFixed(s.g, Next(s, parse, e).g)
  {
    match e
    case StartEvent(p) => StartKeepsInv(s, parse, p);
    case StepEvent(i) =>
      if i < |s.pubs| {
        StepKeepsInv(s, parse, i);
      }
    case CrashEvent(i) => CrashKeepsInv(s, parse, i);
    case RecoverEvent => OwnerShapeKept(s, Next(s, parse, e));
    case RecoverStepEvent(i) =>
      if i < |s.recs| {
        RecoverStepKeepsInv(s, parse, i);
      }
  }

  /** In every interleaving of any number of publishers and recoveries, starting, crashing and restarting under
      reused names anywhere: the owner name is absent or holds exactly what one publisher set out to publish. */
  lemma {:induction false} EveryInterleavingPublishesWhole(s: System, parse: Parser, es: seq<Event>)
    requires Initial(s)
    ensures Inv(Exec(s, parse, es))
  {
    if es != [] {
      EveryInterleavingPublishesWhole(s, parse, es[..|es| - 1]);
      NextKeepsInv(Exec(s, parse, es[..|es| - 1]), parse, es[|es| - 1]);
    }
  }

  /** Once published, the owner's inode and bytes never change and its links never grow, whatever publishers and
      recoveries do. */
  lemma {:induction false} FirstOwnerWins(s: System, parse: Parser, es: seq<Event>)
    requires Inv(s)
    ensures Inv(Exec(s, parse, es)) && OwnerFixed(s.g, Exec(s, parse, es).g)
  {
    if es != [] {
      FirstOwnerWins(s, parse, es[..|es| - 1]);
      NextKeepsInv(Exec(s, parse, es[..|es| - 1]), parse, es[|es| - 1]);
    }
  }

  /** What success means to a publisher, in every interleaving: the owner name is then bound to the very bytes it
      set out to publish, or to bytes that read as its owner, and stays so in every continuation. */
  lemma SuccessMeansOwned(s: System, parse: Parser, i: nat, es: seq<Event>)
    requires Inv(s) && i < |s.pubs| && Live(s.pubs[i])
    requires Next(s, parse, StepEvent(i)).pubs[i].stage == Finished(true)
    ensures var g := Exec(Next(s, parse, StepEvent(i)), parse, es).g;
            && OWNER in g.names && g.names[OWNER] in g.inodes
            && (|| g.inodes[g.names[OWNER]].bytes == s.pubs[i].bytes
                || parse(g.inodes[g.names[OWNER]].bytes) == Ok(s.pubs[i].owner))
  {
    NextKeepsInv(s, parse, StepEvent(i));
    FirstOwnerWins(Next(s, parse, StepEvent(i)), parse, es);
  }

  /** What success means to a recovery, in every interleaving: the owner was absent, or it is readable, and stays
      readable in every continuation. */
  lemma RecoveredStaysReadable(s: System, parse: Parser, i: nat, es: seq<Event>)
    requires Inv(s) && i < |s.recs| && !s.recs[i].Ended? && OWNER in s.g.names
    requires Next(s, parse, RecoverStepEvent(i)).recs[i] == Ended(true)
    ensures var g := Exec(Next(s, parse, RecoverStepEvent(i)), parse, es).g;
            ReadPrivate(g, OWNER) == Ok(Some(s.g.inodes[s.g.names[OWNER]].bytes))
  {
    assert Holds(s.g, s.recs[i]);
    var n := Next(s, parse, RecoverStepEvent(i));
    NextKeepsInv(s, parse, RecoverStepEvent(i));
    assert n.g.inodes[n.g.names[OWNER]].links == 1;
    FirstOwnerWins(n, parse, es);
    var x := Exec(n, parse, es);
    assert OWNER in NamesOf(x.g, x.g.names[OWNER]);
  }

  lemma {:induction false} EndedStays(g: Graph, parse: Parser, r: Recovery, n: nat)
    requires r.Ended?
    ensures RecoverSteps(g, parse, r, n) == (g, r)
  {
    if n > 0 {
      EndedStays(g, parse, r, n - 1);
    }
  }

  lemma ChosenRunsToItsEnd(g: Graph, parse: Parser, alias: string, n: nat)
    requires WellLinked(g) && OWNER in g.names && OwnerHas(g, g.names[OWNER], 2) && n >= 2
    requires g.inodes[g.names[OWNER]].private && alias in MatchingTemporaries(g)
    ensures RecoverSteps(g, parse, Chosen(g.names[OWNER], alias), n) == (Unlink(g, alias), Ended(true))
  {
    var ino := g.names[OWNER];
    UnlinkAliasIsExact(g, alias);
    assert RecoverStep(g, parse, Chosen(ino, alias)) == (g, Rechecked(ino, alias));
    assert RecoverStep(g, parse, Rechecked(ino, alias)) == (Unlink(g, alias), Ended(true));
    EndedStays(Unlink(g, alias), parse, Ended(true), n - 2);
    assert RecoverSteps(g, parse, Rechecked(ino, alias), n - 1) == (Unlink(g, alias), Ended(true));
  }

  lemma OpenedRunsToItsEnd(g: Graph, parse: Parser, n: nat)
    requires WellLinked(g) && OWNER in g.names && Interrupted(g, parse) && n >= 3
    ensures RecoverSteps(g, parse, Opened(g.names[OWNER]), n) == (Recover(g, parse).0, Ended(Recover(g, parse).1))
  {
    var r := RecoverStep(g, parse, Opened(g.names[OWNER])).1;
    if r.Chosen? {
      OnlyOneChoice(MatchingTemporaries(g), r.alias);
      ChosenRunsToItsEnd(g, parse, r.alias, n - 1);
    } else {
      EndedStays(g, parse, r, n - 1);
    }
  }

  /** A recovery left alone is the recovery of one look, so what that does and when it succeeds holds for it. */
  lemma RecoveryAloneIsAtomic(g: Graph, parse: Parser, n: nat)
    requires WellLinked(g) && n >= 4
    ensures RecoverSteps(g, parse, Looking, n) == (Recover(g, parse).0, Ended(Recover(g, parse).1))
  {
    var r := RecoverStep(g, parse, Looking).1;
    if r.Opened? {
      OpenedRunsToItsEnd(g, parse, n - 1);
    } else {
      EndedStays(g, parse, r, n - 1);
    }
  }

  lemma OnlyOneChoice(names: set<string>, a: string)
    requires |names| == 1 && a in names
    ensures names == {a}
  {
    SubsetSize({a}, names);
  }

  /** From every reachable point, recovery left alone makes the owner readable if and only if it already has one
      link, or its bytes are valid and the directory is within the inventory bound. */
  lemma RecoverySucceedsIff(s: System, parse: Parser)
    requires Inv(s) && OWNER in s.g.names
    ensures var inode := s.g.inodes[s.g.names[OWNER]];
            var (g', ok) := Recover(s.g, parse);
            && (ok <==> inode.links == 1 ||
                        (&& |inode.bytes| <= MAX_OWNER_FILE_BYTES
                         && parse(inode.bytes).Ok?
                         && |s.g.names| <= MAX_INVENTORY))
            && (ok ==> ReadPrivate(g', OWNER) == Ok(Some(inode.bytes)))
  {
    OwnerNames(s);
    RecoverCases(s.g, parse);
    if Recover(s.g, parse).0 != s.g {
      var alias :| alias in MatchingTemporaries(s.g) && Recover(s.g, parse).0 == Unlink(s.g, alias);
      UnlinkAliasIsExact(s.g, alias);
    }
  }

  lemma OwnerNames(s: System)
    requires Inv(s) && OWNER in s.g.names
    ensures s.g.inodes[s.g.names[OWNER]].links in {1, 2}
    ensures s.g.inodes[s.g.names[OWNER]].links == 2 ==> |MatchingTemporaries(s.g)| == 1
  {
    var all := NamesOf(s.g, s.g.names[OWNER]);
    var temp :| IsExactTemporaryName(temp) && all <= {OWNER, temp};
    assert OWNER in all;
    SubsetSize(all, {OWNER, temp});
    SubsetSize({OWNER}, all);
    TemporaryIsNotTheOwner(temp);
    assert |{OWNER, temp}| == 2;
    if |all| == 2 {
      PublishersUseExactNames(0, 0);
      assert MatchingTemporaries(s.g) == {temp};
    }
  }
}
