/**
 * Publication of the owner marker by hard link, on an inode graph
 * (hydra-agent/src/device_identity.rs). A publisher moves in atomic steps; a crash is a publisher that
 * takes no further step, so it runs none of its own cleanup.
 */
module OwnerPublication {
  import opened Basics
  import opened DeviceOwnership

  const OWNER: string := "device-owner.json"
  const TEMP_PREFIX: string := ".device-owner.json.tmp."
  const MAX_OWNER_FILE_BYTES: nat := 65536
  const MAX_INVENTORY: nat := 128

  /** `private` is a regular file of this user with no group or world bits. */
  datatype Inode = Inode(bytes: Bytes, links: nat, private: bool)

  datatype Graph = Graph(names: map<string, nat>, inodes: map<nat, Inode>)

  type Parser = Bytes -> Result<DeviceOwner>

  ghost function NamesOf(g: Graph, ino: nat): set<string> {
    set n | n in g.names && g.names[n] == ino
  }

  /** Every name is bound to an inode, and every link count is the number of names bound to it. */
  ghost predicate WellLinked(g: Graph) {
    && (forall n | n in g.names :: g.names[n] in g.inodes)
    && (forall ino | ino in g.inodes :: g.inodes[ino].links == |NamesOf(g, ino)|)
  }

  function SplitAtDot(s: string): (r: Option<(string, string)>)
    ensures r.Some? ==> s == r.value.0 + "." + r.value.1 && '.' !in r.value.0
    ensures r.None? ==> '.' !in s
  {
    if s == "" then None
    else if s[0] == '.' then Some(("", s[1..]))
    else
      match SplitAtDot(s[1..])
      case None => None
      case Some((a, b)) => Some(([s[0]] + a, b))
  }

  predicate AllDigits(s: string) {
    s != "" && forall c | c in s :: IsDigit(c)
  }

  predicate IsExactTemporaryName(name: string) {
    && TEMP_PREFIX <= name
    && (var parts := SplitAtDot(name[|TEMP_PREFIX|..]);
        parts.Some? && AllDigits(parts.value.0) && AllDigits(parts.value.1))
  }

  function TemporaryName(pid: nat, sequence: nat): string {
    TEMP_PREFIX + Decimal(pid) + "." + Decimal(sequence)
  }

  // ----- file-system effects

  function Create(g: Graph, name: string, ino: nat): Graph {
    Graph(g.names[name := ino], g.inodes[ino := Inode([], 1, true)])
  }

  function Write(g: Graph, ino: nat, bytes: Bytes): Graph {
    if ino in g.inodes then g.(inodes := g.inodes[ino := g.inodes[ino].(bytes := bytes)]) else g
  }

  function HardLink(g: Graph, from: string, to: string): Graph
    requires from in g.names && g.names[from] in g.inodes
  {
    var ino := g.names[from];
    Graph(g.names[to := ino], g.inodes[ino := g.inodes[ino].(links := g.inodes[ino].links + 1)])
  }

  function Unlink(g: Graph, name: string): Graph {
    if name !in g.names || g.names[name] !in g.inodes || g.inodes[g.names[name]].links == 0 then g
    else
      var ino := g.names[name];
      Graph(g.names - {name}, g.inodes[ino := g.inodes[ino].(links := g.inodes[ino].links - 1)])
  }

  /** A private file is read only when it is private and has a single name. */
  function ReadPrivate(g: Graph, name: string): Result<Option<Bytes>> {
    if name !in g.names || g.names[name] !in g.inodes then Ok(None)
    else
      var inode := g.inodes[g.names[name]];
      if inode.private && inode.links == 1 then Ok(Some(inode.bytes)) else Err
  }

  datatype Stage = Starting | Created | Written | Linked | Refused | Finished(ok: bool)

  /** One publisher: its temporary name, the inode the system will give it, and what it publishes. */
  datatype Publisher = Publisher(temp: string, ino: nat, owner: DeviceOwner, bytes: Bytes, stage: Stage)

  function Advance(g: Graph, parse: Parser, p: Publisher): (out: (Graph, Publisher)) {
    match p.stage
    case Starting =>
      if p.temp in g.names then (Unlink(g, p.temp), p.(stage := Finished(false)))
      else if p.ino in g.inodes then (g, p.(stage := Finished(false))) // a live inode is never reused
      else (Create(g, p.temp, p.ino), p.(stage := Created))
    case Created => (Write(g, p.ino, p.bytes), p.(stage := Written))
    case Written =>
      if p.temp !in g.names || g.names[p.temp] !in g.inodes then (g, p.(stage := Finished(false)))
      else if OWNER in g.names then (g, p.(stage := Refused))
      else (HardLink(g, p.temp, OWNER), p.(stage := Linked))
    case Linked =>
      var g' := Unlink(g, p.temp);
      (g', p.(stage := Finished(ReadPrivate(g', OWNER) == Ok(Some(p.bytes)))))
    case Refused =>
      var read := ReadPrivate(g, OWNER);
      (Unlink(g, p.temp),
       p.(stage := Finished(read.Ok? && read.value.Some? && parse(read.value.value) == Ok(p.owner))))
    case Finished(_) => (g, p)
  }

  /** A publisher left alone for `n` steps. */
  function Advances(g: Graph, parse: Parser, p: Publisher, n: nat): (out: (Graph, Publisher))
    decreases n
  {
    if n == 0 then (g, p)
    else
      var (g', p') := Advance(g, parse, p);
      Advances(g', parse, p', n - 1)
  }

  /** The exact temporary names bound to an inode. */
  ghost function Temporaries(g: Graph, ino: nat): set<string> {
    set n | n in NamesOf(g, ino) && IsExactTemporaryName(n)
  }

  ghost function MatchingTemporaries(g: Graph): set<string>
    requires OWNER in g.names
  {
    Temporaries(g, g.names[OWNER])
  }

  /** The one interrupted shape recovery accepts: a private, valid, twice-linked owner file. */
  predicate Interrupted(g: Graph, parse: Parser)
    requires OWNER in g.names && g.names[OWNER] in g.inodes
  {
    var inode := g.inodes[g.names[OWNER]];
    inode.private && inode.links == 2 && |inode.bytes| <= MAX_OWNER_FILE_BYTES && parse(inode.bytes).Ok?
  }

  ghost function Recover(g: Graph, parse: Parser): (out: (Graph, bool)) {
    if OWNER !in g.names || g.names[OWNER] !in g.inodes then (g, true)
    else if g.inodes[g.names[OWNER]].links == 1 then (g, true)
    else if !Interrupted(g, parse) || |g.names| > MAX_INVENTORY || |MatchingTemporaries(g)| != 1 then (g, false)
    else
      var alias :| alias in MatchingTemporaries(g);
      (Unlink(g, alias), true)
  }

  /**
   * One recovery cut where other processes may act: it looks at the owner, lists the directory, rechecks what it
   * opened and chose, and unlinks. The listing itself is one step.
   */
  datatype Recovery =
    | Looking
    | Opened(ino: nat)
    | Chosen(ino: nat, alias: string)
    | Rechecked(ino: nat, alias: string)
    | Ended(ok: bool)

  /** The opened inode is the owner's, with so many links. */
  predicate OwnerHas(g: Graph, ino: nat, links: nat) {
    OWNER in g.names && g.names[OWNER] == ino && ino in g.inodes && g.inodes[ino].links == links
  }

  ghost function RecoverStep(g: Graph, parse: Parser, r: Recovery): (out: (Graph, Recovery)) {
    match r
    case Looking =>
      if OWNER !in g.names || g.names[OWNER] !in g.inodes then (g, Ended(true))
      else if g.inodes[g.names[OWNER]].links == 1 then (g, Ended(true))
      else if Interrupted(g, parse) then (g, Opened(g.names[OWNER]))
      else (g, Ended(false))
    case Opened(ino) =>
      if |g.names| > MAX_INVENTORY then (g, Ended(false))
      else if |Temporaries(g, ino)| != 1 then (g, Ended(ino in g.inodes && g.inodes[ino].links == 1))
      else
        var alias :| alias in Temporaries(g, ino);
        (g, Chosen(ino, alias))
    case Chosen(ino, alias) =>
      if OwnerHas(g, ino, 2) && alias in g.names && g.names[alias] == ino then (g, Rechecked(ino, alias))
      else (g, Ended(false))
    case Rechecked(ino, alias) =>
      if alias !in g.names then (g, Ended(false))
      else
        var g' := Unlink(g, alias);
        (g', Ended(OwnerHas(g', ino, 1) && g'.inodes[ino].private))
    case Ended(_) => (g, r)
  }

  /** A recovery left alone for `n` steps. */
  ghost function RecoverSteps(g: Graph, parse: Parser, r: Recovery, n: nat): (out: (Graph, Recovery))
    decreases n
  {
    if n == 0 then (g, r)
    else
      var (g', r') := RecoverStep(g, parse, r);
      RecoverSteps(g', parse, r', n - 1)
  }

  // ----- the calls as they run against a directory

  class OwnerDirectory {
    var names: map<string, nat>
    var inodes: map<nat, Inode>

    constructor (g: Graph)
      ensures State() == g
    {
      names := g.names;
      inodes := g.inodes;
    }

    function State(): Graph
      reads this
    {
      Graph(names, inodes)
    }

    method Remove(name: string)
      modifies this
      ensures State() == Unlink(old(State()), name)
    {
      if name in names && names[name] in inodes && inodes[names[name]].links > 0 {
        var ino := names[name];
        inodes := inodes[ino := inodes[ino].(links := inodes[ino].links - 1)];
        names := names - {name};
      }
    }

    /** The publisher's own code, stopped after `budget` steps. */
    method PublishNoReplace(parse: Parser, p: Publisher, budget: nat) returns (stage: Stage)
      requires p.stage.Starting?
      modifies this
      ensures (State(), p.(stage := stage)) == Advances(old(State()), parse, p, budget)
    {
      if budget == 0 {
        return Starting;
      }
      if p.temp in names {
        Remove(p.temp);
        FinishedStays(State(), parse, p.(stage := Finished(false)), budget - 1);
        return Finished(false);
      }
      if p.ino in inodes {
        FinishedStays(State(), parse, p.(stage := Finished(false)), budget - 1);
        return Finished(false);
      }
      names := names[p.temp := p.ino];
      inodes := inodes[p.ino := Inode([], 1, true)];
      stage := WriteAndLink(parse, p.(stage := Created), budget - 1);
    }

    /** From the created temporary on. */
    method WriteAndLink(parse: Parser, p: Publisher, budget: nat) returns (stage: Stage)
      requires p.stage.Created? && p.temp in names && names[p.temp] == p.ino && p.ino in inodes
      modifies this
      ensures (State(), p.(stage := stage)) == Advances(old(State()), parse, p, budget)
    {
      if budget == 0 {
        return Created;
      }
      inodes := inodes[p.ino := inodes[p.ino].(bytes := p.bytes)];
      if budget == 1 {
        return Written;
      }
      if OWNER in names {
        stage := ConfirmExisting(parse, p.(stage := Refused), budget - 2);
        return;
      }
      names := names[OWNER := p.ino];
      inodes := inodes[p.ino := inodes[p.ino].(links := inodes[p.ino].links + 1)];
      stage := ConfirmPublished(parse, p.(stage := Linked), budget - 2);
    }

    method ConfirmExisting(parse: Parser, p: Publisher, budget: nat) returns (stage: Stage)
      requires p.stage.Refused?
      modifies this
      ensures (State(), p.(stage := stage)) == Advances(old(State()), parse, p, budget)
    {
      if budget == 0 {
        return Refused;
      }
      var read := ReadPrivate(State(), OWNER);
      Remove(p.temp);
      stage := Finished(read.Ok? && read.value.Some? && parse(read.value.value) == Ok(p.owner));
      FinishedStays(State(), parse, p.(stage := stage), budget - 1);
    }

    method ConfirmPublished(parse: Parser, p: Publisher, budget: nat) returns (stage: Stage)
      requires p.stage.Linked?
      modifies this
      ensures (State(), p.(stage := stage)) == Advances(old(State()), parse, p, budget)
    {
      if budget == 0 {
        return Linked;
      }
      Remove(p.temp);
      stage := Finished(ReadPrivate(State(), OWNER) == Ok(Some(p.bytes)));
      FinishedStays(State(), parse, p.(stage := stage), budget - 1);
    }

    /** `listing` is the directory inventory in whatever order the system returns it. */
    method RecoverCompletedPublication(parse: Parser, listing: seq<string>) returns (ok: bool)
      requires forall i, j | 0 <= i < j < |listing| :: listing[i] != listing[j]
      requires forall n :: n in listing <==> n in names
      modifies this
      ensures (State(), ok) == Recover(old(State()), parse)
    {
      if OWNER !in names || names[OWNER] !in inodes {
        return true;
      }
      var ino := names[OWNER];
      if inodes[ino].links == 1 {
        return true;
      }
      if !Interrupted(State(), parse) {
        return false;
      }
      InventorySize(listing, names.Keys);
      var complete, matching := CollectMatching(ino, listing);
      if !complete {
        return false;
      }
      assert forall n :: n in matching <==> n in MatchingTemporaries(State());
      InventorySize(matching, MatchingTemporaries(State()));
      if |matching| != 1 {
        return false;
      }
      assert MatchingTemporaries(State()) == {matching[0]};
      Remove(matching[0]);
      return true;
    }

    /** The bounded inventory loop. */
    method CollectMatching(ino: nat, listing: seq<string>) returns (complete: bool, matching: seq<string>)
      requires forall i, j | 0 <= i < j < |listing| :: listing[i] != listing[j]
      requires forall n :: n in listing <==> n in names
      ensures complete <==> |listing| <= MAX_INVENTORY
      ensures complete ==> forall n :: n in matching <==> n in names && IsExactTemporaryName(n) && names[n] == ino
      ensures complete ==> forall a, b | 0 <= a < b < |matching| :: matching[a] != matching[b]
    {
      matching := [];
      for i := 0 to |listing|
        invariant i <= MAX_INVENTORY
        invariant forall n :: n in matching <==> n in listing[..i] && IsExactTemporaryName(n) && names[n] == ino
        invariant forall a, b | 0 <= a < b < |matching| :: matching[a] != matching[b]
      {
        if i + 1 > MAX_INVENTORY {
          return false, [];
        }
        var name := listing[i];
        assert name in listing && name !in listing[..i];
        if IsExactTemporaryName(name) && names[name] == ino {
          matching := matching + [name];
        }
      }
      complete := true;
      assert listing[..|listing|] == listing;
    }
  }

  lemma {:induction false} InventorySize(listing: seq<string>, all: set<string>)
    requires forall i, j | 0 <= i < j < |listing| :: listing[i] != listing[j]
    requires forall n :: n in listing <==> n in all
    ensures |listing| == |all|
  {
    if listing == [] {
      assert all == {};
    } else {
      var last := listing[|listing| - 1];
      InventorySize(listing[..|listing| - 1], all - {last});
    }
  }

  lemma {:induction false} FinishedStays(g: Graph, parse: Parser, p: Publisher, n: nat)
    requires p.stage.Finished?
    ensures Advances(g, parse, p, n) == (g, p)
  {
    if n > 0 {
      FinishedStays(g, parse, p, n - 1);
    }
  }

  // ----- names

  lemma {:induction false} SplitAtFirstDot(a: string, b: string)
    requires '.' !in a
    ensures SplitAtDot(a + "." + b) == Some((a, b))
  {
    var s := a + "." + b;
    if a != "" {
      SplitAtFirstDot(a[1..], b);
      assert s[1..] == a[1..] + "." + b;
      assert s[0] == a[0] && [a[0]] + a[1..] == a;
    } else {
      assert s[1..] == b;
    }
  }

  /** Every name a publisher uses is recognised, and the final name never is. */
  lemma PublishersUseExactNames(pid: nat, sequence: nat)
    ensures IsExactTemporaryName(TemporaryName(pid, sequence))
    ensures !IsExactTemporaryName(OWNER)
  {
    var name := TemporaryName(pid, sequence);
    assert name[|TEMP_PREFIX|..] == Decimal(pid) + "." + Decimal(sequence);
    SplitAtFirstDot(Decimal(pid), Decimal(sequence));
    assert TEMP_PREFIX[0] != OWNER[0];
  }

  lemma TemporaryIsNotTheOwner(name: string)
    requires IsExactTemporaryName(name)
    ensures name != OWNER
  {
    PublishersUseExactNames(0, 0);
  }

  // ----- link counts

  lemma CreateWellLinked(g: Graph, name: string, ino: nat)
    requires WellLinked(g) && name !in g.names && ino !in g.inodes
    ensures WellLinked(Create(g, name, ino)) && NamesOf(Create(g, name, ino), ino) == {name}
    ensures forall i | i != ino :: NamesOf(Create(g, name, ino), i) == NamesOf(g, i)
  {
    var g' := Create(g, name, ino);
    assert forall i | i != ino :: NamesOf(g', i) == NamesOf(g, i) by {
      assert forall n | n in g.names :: g.names[n] != ino;
    }
    forall i | i in g'.inodes
      ensures g'.inodes[i].links == |NamesOf(g', i)|
    {
      assert NamesOf(g', i) == if i == ino then {name} else NamesOf(g, i);
    }
  }

  lemma WriteWellLinked(g: Graph, ino: nat, bytes: Bytes)
    requires WellLinked(g)
    ensures WellLinked(Write(g, ino, bytes))
    ensures forall i :: NamesOf(Write(g, ino, bytes), i) == NamesOf(g, i)
  {
    var g' := Write(g, ino, bytes);
    assert forall i :: NamesOf(g', i) == NamesOf(g, i);
  }

  lemma HardLinkNames(g: Graph, from: string, to: string, i: nat)
    requires from in g.names && g.names[from] in g.inodes && to !in g.names
    ensures NamesOf(HardLink(g, from, to), i) == if i == g.names[from] then NamesOf(g, i) + {to} else NamesOf(g, i)
  {
  }

  lemma HardLinkWellLinked(g: Graph, from: string, to: string)
    requires WellLinked(g) && from in g.names && to !in g.names
    ensures WellLinked(HardLink(g, from, to))
    ensures forall i ::
      NamesOf(HardLink(g, from, to), i) == if i == g.names[from] then NamesOf(g, i) + {to} else NamesOf(g, i)
  {
    forall i: nat
      ensures NamesOf(HardLink(g, from, to), i) == if i == g.names[from] then NamesOf(g, i) + {to} else NamesOf(g, i)
    {
      HardLinkNames(g, from, to, i);
    }
    var g' := HardLink(g, from, to);
    forall i | i in g'.inodes
      ensures g'.inodes[i].links == |NamesOf(g', i)|
    {
      assert to !in NamesOf(g, i);
    }
  }

  lemma UnlinkWellLinked(g: Graph, name: string)
    requires WellLinked(g)
    ensures WellLinked(Unlink(g, name))
    ensures Unlink(g, name).names == g.names - {name}
    ensures forall i :: NamesOf(Unlink(g, name), i) == NamesOf(g, i) - {name}
  {
    if name in g.names {
      assert name in NamesOf(g, g.names[name]);
    }
    var g' := Unlink(g, name);
    assert g'.names == g.names - {name};
    forall i | i in g'.inodes
      ensures g'.inodes[i].links == |NamesOf(g', i)|
    {
      assert NamesOf(g', i) == NamesOf(g, i) - {name};
    }
    assert forall i :: NamesOf(g', i) == NamesOf(g, i) - {name};
  }
}
