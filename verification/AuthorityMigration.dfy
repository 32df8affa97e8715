/**
 * The crash-recoverable tightening of the ten legacy authority paths
 * (hydra-agent/src/authority_migration.rs).
 *
 * A disk is kept twice: `vol` is what running processes see, `dur` is what has been synced. Every
 * mutating call carries a budget, the number of file-system effects that succeed before the call
 * stops; running out stands both for a failing system call and for the process being killed there.
 */
module AuthorityMigration {
  import opened Basics

  type Mode = bv12

  const SPECIAL_BITS: Mode := 0xE00 // 07000
  const WRITABLE_BITS: Mode := 0x012 // 0022
  const M600: Mode := 0x180
  const M640: Mode := 0x1A0
  const M644: Mode := 0x1A4
  const M660: Mode := 0x1B0
  const M664: Mode := 0x1B4
  const M700: Mode := 0x1C0
  const M750: Mode := 0x1E8
  const M755: Mode := 0x1ED
  const M770: Mode := 0x1F8
  const M775: Mode := 0x1FD

  const PATH_COUNT: nat := 10
  const LEAF: nat := 2
  const SERVICE: nat := 6
  const MAX_SERVICE_BYTES: nat := 131072

  datatype Kind = SharedDirectory | PrivateDirectory | ServiceFile

  datatype FixedPath = FixedPath(below: seq<string>, kind: Kind)

  /** The ten paths, as components below the home directory, in the order they are tightened. */
  const FIXED_PATHS: seq<FixedPath> := [
    FixedPath([".local"], SharedDirectory),
    FixedPath([".local", "share"], SharedDirectory),
    FixedPath([".local", "share", "hydra-agent"], PrivateDirectory),
    FixedPath([".config"], SharedDirectory),
    FixedPath([".config", "systemd"], SharedDirectory),
    FixedPath([".config", "systemd", "user"], SharedDirectory),
    FixedPath([".config", "systemd", "user", "hydra-agent.service"], ServiceFile),
    FixedPath([".local", "state"], SharedDirectory),
    FixedPath([".local", "state", "hydra-agent"], PrivateDirectory),
    FixedPath([".local", "state", "hydra-agent", "logs"], PrivateDirectory)]

  function KindAt(i: nat): (k: Kind)
    requires i < PATH_COUNT
  {
    FIXED_PATHS[i].kind
  }

  function TargetMode(kind: Kind, mode: Mode): (r: Result<Mode>)
  {
    if mode & SPECIAL_BITS != 0 then Err
    else if kind.SharedDirectory? && mode == M770 then Ok(M750)
    else if kind.SharedDirectory? && mode == M775 then Ok(M755)
    else if kind.PrivateDirectory? && (mode == M770 || mode == M775) then Ok(M700)
    else if kind.ServiceFile? && mode == M660 then Ok(M640)
    else if kind.ServiceFile? && mode == M664 then Ok(M644)
    else if mode & WRITABLE_BITS == 0 then Ok(mode)
    else Err
  }

  /** A mode the public notice can name. */
  predicate HasPublicForm(mode: Mode) {
    mode in {M640, M644, M660, M664, M700, M750, M755, M770, M775}
  }

  /** A change the public notice can name. */
  predicate HasPublicChange(before: Mode, after: Mode) {
    || (before == M770 && after in {M750, M700})
    || (before == M775 && after in {M755, M700})
    || (before == M660 && after == M640)
    || (before == M664 && after == M644)
  }

  datatype FileType = Directory | Regular | Other

  /** What a path holds apart from its mode bits. No call of this protocol changes it. */
  datatype Node = Node(fileType: FileType, uid: nat, device: nat, inode: nat, links: nat, bytes: Bytes)

  /**
   * The account's surroundings: whether the home directory passes its own checks, and which path texts,
   * the receipt's own among them, the public notice type accepts.
   */
  datatype Site = Site(
    uid: nat, home: string, homeSafe: bool, publicPaths: set<seq<string>>, publicReceipt: bool,
    nodes: seq<Option<Node>>)

  datatype Binding = Binding(length: nat, digest: Digest<Bytes>)

  datatype Entry = Entry(
    path: seq<string>, kind: Kind, device: nat, inode: nat, original: Mode, target: Mode,
    binding: Option<Binding>)

  datatype Plan = Plan(uid: nat, home: string, entries: seq<Entry>)

  datatype Receipt = Receipt(
    noticeId: Digest<Plan>, uid: nat, home: string, device: nat, inode: nat, entries: seq<Entry>)
  {
    function ToPlan(): Plan { Plan(uid, home, entries) }
  }

  /** The receipt name's inode; `exact` is owner, mode 0600 and one link, and `content` is absent
      when the text is not the canonical form of a receipt. */
  datatype ReceiptFile = ReceiptFile(device: nat, inode: nat, exact: bool, content: Option<Receipt>)

  datatype Disk = Disk(modes: seq<Mode>, receipt: Option<ReceiptFile>)

  datatype World = World(site: Site, vol: Disk, dur: Disk)

  datatype Phase = ReadyToApply | Interrupted | Applied

  datatype Change = Change(path: seq<string>, before: Mode, after: Mode)

  datatype Notice = Notice(id: Digest<Plan>, phase: Phase, changes: seq<Change>, recoveryRecord: bool)

  predicate Shaped(site: Site, modes: seq<Mode>) {
    |site.nodes| == PATH_COUNT == |modes|
  }

  predicate WorldShaped(w: World) {
    Shaped(w.site, w.vol.modes) && Shaped(w.site, w.dur.modes)
  }

  // ----- discovery of the plan

  predicate TypeMatches(kind: Kind, node: Node) {
    if kind.ServiceFile? then node.fileType.Regular? && node.links == 1 else node.fileType.Directory?
  }

  predicate CapturableService(kind: Kind, node: Node) {
    kind.ServiceFile? ==> 0 < |node.bytes| <= MAX_SERVICE_BYTES
  }

  predicate PlannableAt(site: Site, modes: seq<Mode>, i: nat)
    requires Shaped(site, modes) && i < PATH_COUNT
  {
    && site.nodes[i].Some?
    && TypeMatches(KindAt(i), site.nodes[i].value)
    && site.nodes[i].value.uid == site.uid
    && TargetMode(KindAt(i), modes[i]).Ok?
    && CapturableService(KindAt(i), site.nodes[i].value)
  }

  function EntryAt(site: Site, modes: seq<Mode>, i: nat): (e: Entry)
    requires Shaped(site, modes) && i < PATH_COUNT && PlannableAt(site, modes, i)
  {
    var node := site.nodes[i].value;
    Entry(FIXED_PATHS[i].below, KindAt(i), node.device, node.inode, modes[i],
          TargetMode(KindAt(i), modes[i]).value,
          if KindAt(i).ServiceFile? then Some(Binding(|node.bytes|, Sha256(node.bytes))) else None)
  }

  /** With no service installed, every other present path must already be safe. */
  predicate QuietAt(site: Site, modes: seq<Mode>, i: nat)
    requires Shaped(site, modes) && i < PATH_COUNT
  {
    KindAt(i).ServiceFile? || site.nodes[i].None? ||
    (&& site.nodes[i].value.fileType.Directory?
     && site.nodes[i].value.uid == site.uid
     && TargetMode(KindAt(i), modes[i]) == Ok(modes[i]))
  }

  function Entries(site: Site, modes: seq<Mode>): (es: seq<Entry>)
    requires Shaped(site, modes)
    requires forall i: nat | i < PATH_COUNT :: PlannableAt(site, modes, i)
  {
    seq(PATH_COUNT, i requires 0 <= i < PATH_COUNT && PlannableAt(site, modes, i) => EntryAt(site, modes, i))
  }

  predicate NothingChanges(entries: seq<Entry>) {
    forall e | e in entries :: e.original == e.target
  }

  function Discover(site: Site, modes: seq<Mode>): (r: Result<Option<Plan>>)
    requires Shaped(site, modes)
  {
    if !site.homeSafe then Err
    else if site.nodes[LEAF].None? then Ok(None)
    else if !site.nodes[LEAF].value.fileType.Directory? || site.nodes[LEAF].value.uid != site.uid then Err
    else if site.nodes[SERVICE].None? then
      if forall i: nat | i < PATH_COUNT :: QuietAt(site, modes, i) then Ok(None) else Err
    else if forall i: nat | i < PATH_COUNT :: PlannableAt(site, modes, i) then
      var entries := Entries(site, modes);
      if NothingChanges(entries) then Ok(None) else Ok(Some(Plan(site.uid, site.home, entries)))
    else Err
  }

  // ----- the receipt

  predicate ValidEntry(e: Entry, i: nat)
    requires i < PATH_COUNT
  {
    && e.path == FIXED_PATHS[i].below
    && e.kind == KindAt(i)
    && e.device != 0
    && e.inode != 0
    && TargetMode(KindAt(i), e.original) == Ok(e.target)
    && (if KindAt(i).ServiceFile? then e.binding.Some? && 0 < e.binding.value.length <= MAX_SERVICE_BYTES
        else e.binding.None?)
  }

  predicate ValidSchema(site: Site, r: Receipt) {
    && r.uid == site.uid
    && r.home == site.home
    && r.noticeId == Sha256(r.ToPlan())
    && r.device != 0
    && r.inode != 0
    && |r.entries| == PATH_COUNT
    && (forall i: nat | i < PATH_COUNT :: ValidEntry(r.entries[i], i))
    && !NothingChanges(r.entries)
  }

  predicate BoundFile(f: ReceiptFile, r: Receipt) {
    f.exact && f.device == r.device && f.inode == r.inode
  }

  function ReadReceipt(site: Site, disk: Disk): (result: Result<Receipt>)
    ensures result.Ok? ==> ValidSchema(site, result.value)
  {
    if site.homeSafe && disk.receipt.Some? && disk.receipt.value.content.Some? then
      var r := disk.receipt.value.content.value;
      if ValidSchema(site, r) && BoundFile(disk.receipt.value, r) then Ok(r) else Err
    else Err
  }

  predicate NodeMatches(site: Site, e: Entry, i: nat)
    requires |site.nodes| == PATH_COUNT && i < PATH_COUNT
  {
    && site.nodes[i].Some?
    && (var node := site.nodes[i].value;
        && TypeMatches(e.kind, node)
        && node.uid == site.uid
        && node.device == e.device
        && node.inode == e.inode
        && (e.kind.ServiceFile? ==>
              && CapturableService(e.kind, node)
              && e.binding == Some(Binding(|node.bytes|, Sha256(node.bytes)))))
  }

  predicate BoundAt(site: Site, modes: seq<Mode>, r: Receipt, i: nat)
    requires Shaped(site, modes) && |r.entries| == PATH_COUNT && i < PATH_COUNT
  {
    NodeMatches(site, r.entries[i], i) && modes[i] in {r.entries[i].original, r.entries[i].target}
  }

  /** Every listed path is still the inode the receipt recorded, at its original or its target mode. */
  predicate BoundPaths(site: Site, disk: Disk, r: Receipt)
    requires Shaped(site, disk.modes) && |r.entries| == PATH_COUNT
  {
    && site.homeSafe
    && disk.receipt.Some?
    && BoundFile(disk.receipt.value, r)
    && forall i: nat | i < PATH_COUNT :: BoundAt(site, disk.modes, r, i)
  }

  predicate AllAtTarget(modes: seq<Mode>, entries: seq<Entry>)
    requires |modes| == |entries|
  {
    forall i | 0 <= i < |entries| :: modes[i] == entries[i].target
  }

  function PhaseFromModes(r: Receipt, modes: seq<Mode>, hasReceipt: bool): Phase
    requires |modes| == |r.entries|
  {
    if AllAtTarget(modes, r.entries) then Applied else if hasReceipt then Interrupted else ReadyToApply
  }

  function Changes(entries: seq<Entry>): seq<Change> {
    if entries == [] then []
    else
      var e := entries[0];
      (if e.original == e.target then [] else [Change(e.path, e.original, e.target)]) + Changes(entries[1..])
  }

  predicate PublicChange(site: Site, c: Change) {
    && HasPublicForm(c.before)
    && HasPublicForm(c.after)
    && HasPublicChange(c.before, c.after)
    && c.path in site.publicPaths
  }

  predicate DistinctPaths(changes: seq<Change>) {
    forall i, j | 0 <= i < j < |changes| :: changes[i].path != changes[j].path
  }

  /** A notice names the receipt as its recovery record in every phase but the first. */
  function NoticeFromReceipt(site: Site, r: Receipt, phase: Phase): (n: Option<Notice>)
  {
    var changes := Changes(r.entries);
    if && (forall c | c in changes :: PublicChange(site, c))
       && 0 < |changes| <= PATH_COUNT
       && DistinctPaths(changes)
       && (phase.ReadyToApply? || site.publicReceipt)
    then Some(Notice(r.noticeId, phase, changes, !phase.ReadyToApply?))
    else None
  }

  /** The read-only status probe. */
  function Probe(w: World, verified: bool): (r: Result<Option<Notice>>)
    requires WorldShaped(w)
  {
    if w.vol.receipt.Some? then
      match ReadReceipt(w.site, w.vol)
      case Err => Err
      case Ok(r) =>
        if !verified || !BoundPaths(w.site, w.vol, r) then Err
        else
          var n := NoticeFromReceipt(w.site, r, PhaseFromModes(r, w.vol.modes, true));
          if n.Some? then Ok(n) else Err
    else
      match Discover(w.site, w.vol.modes)
      case Err => Err
      case Ok(None) => Ok(None)
      case Ok(Some(plan)) =>
        if !verified then Err
        else
          var n := NoticeFromReceipt(w.site, Unpublished(plan, 0, 0), ReadyToApply);
          if n.Some? then Ok(n) else Err
  }

  function Unpublished(plan: Plan, device: nat, inode: nat): Receipt {
    Receipt(Sha256(plan), plan.uid, plan.home, device, inode, plan.entries)
  }

  // ----- single effects on the file system

  function Link(w: World, r: Receipt): World {
    w.(vol := w.vol.(receipt := Some(ReceiptFile(r.device, r.inode, true, Some(r)))))
  }

  function Unlink(w: World): World {
    w.(vol := w.vol.(receipt := None))
  }

  function SyncHome(w: World): World {
    w.(dur := w.dur.(receipt := w.vol.receipt))
  }

  function Chmod(w: World, i: nat, mode: Mode): World
    requires i < |w.vol.modes|
  {
    w.(vol := w.vol.(modes := w.vol.modes[i := mode]))
  }

  function SyncPath(w: World, i: nat): World
    requires WorldShaped(w) && i < PATH_COUNT
  {
    w.(dur := w.dur.(modes := w.dur.modes[i := w.vol.modes[i]]))
  }

  // ----- apply

  datatype ApplyResult = Succeeded(notice: Notice) | Failed(shown: Option<Notice>)

  /**
   * One apply call: the notice the user accepted, whether the installed service passes provenance
   * checks, the inode of the unnamed receipt file, whether the receipt text fits its bound, and the
   * number of effects that succeed.
   */
  datatype ApplyCall = ApplyCall(
    expected: Digest<Plan>, verified: bool, freshDevice: nat, freshInode: nat, fits: bool, budget: nat)

  function AfterReceipt(w: World, r: Receipt): ApplyResult {
    Failed(NoticeFromReceipt(w.site, r, Interrupted))
  }

  /** The chmod loop from path `i` on. */
  function TightenFrom(w: World, r: Receipt, i: nat, budget: nat): (out: (World, ApplyResult))
    requires WorldShaped(w) && |r.entries| == PATH_COUNT && i <= PATH_COUNT
    ensures WorldShaped(out.0)
    decreases |r.entries| - i
  {
    if i == PATH_COUNT then
      if !BoundPaths(w.site, w.vol, r) || !AllAtTarget(w.vol.modes, r.entries) then (w, AfterReceipt(w, r))
      else
        var n := NoticeFromReceipt(w.site, r, Applied);
        (w, if n.Some? then Succeeded(n.value) else AfterReceipt(w, r))
    else if r.entries[i].original == r.entries[i].target then TightenFrom(w, r, i + 1, budget)
    else if !BoundPaths(w.site, w.vol, r) then (w, AfterReceipt(w, r))
    else if w.vol.modes[i] == r.entries[i].target then TightenFrom(w, r, i + 1, budget)
    else if budget == 0 then (w, AfterReceipt(w, r))
    else
      var w1 := Chmod(w, i, r.entries[i].target);
      if budget == 1 then (w1, AfterReceipt(w1, r))
      else
        var w2 := SyncPath(w1, i);
        if !BoundPaths(w2.site, w2.vol, r) then (w2, AfterReceipt(w2, r))
        else TightenFrom(w2, r, i + 1, budget - 2)
  }

  function Tighten(w: World, r: Receipt, expected: Digest<Plan>, budget: nat): (out: (World, ApplyResult))
    requires WorldShaped(w) && |r.entries| == PATH_COUNT
  {
    if r.noticeId != expected then (w, AfterReceipt(w, r)) else TightenFrom(w, r, 0, budget)
  }

  function Apply(w: World, c: ApplyCall): (out: (World, ApplyResult))
    requires WorldShaped(w)
  {
    if w.vol.receipt.Some? then
      match ReadReceipt(w.site, w.vol)
      case Err => (w, Failed(None))
      case Ok(r) =>
        if !c.verified then (w, AfterReceipt(w, r)) else Tighten(w, r, c.expected, c.budget)
    else
      match Discover(w.site, w.vol.modes)
      case Err => (w, Failed(None))
      case Ok(None) => (w, Failed(None))
      case Ok(Some(plan)) =>
        var r := Unpublished(plan, c.freshDevice, c.freshInode);
        if Sha256(plan) != c.expected || !c.verified || !ValidSchema(w.site, r) || !c.fits || c.budget == 0 then
          (w, Failed(None))
        else if c.budget == 1 then (Link(w, r), Failed(None))
        else Tighten(SyncHome(Link(w, r)), r, c.expected, c.budget - 2)
  }

  // ----- acknowledgement

  datatype AckCall = AckCall(expected: Digest<Plan>, verified: bool, budget: nat)

  /** Prepare and commit. The sync after the unlink is attempted but cannot fail the call. */
  function Acknowledge(w: World, c: AckCall): (out: (World, bool))
    requires WorldShaped(w)
  {
    match ReadReceipt(w.site, w.vol)
    case Err => (w, false)
    case Ok(r) =>
      if || r.noticeId != c.expected
         || !BoundPaths(w.site, w.vol, r)
         || !AllAtTarget(w.vol.modes, r.entries)
         || !c.verified
         || c.budget == 0
      then (w, false)
      else if c.budget == 1 then (SyncHome(w), false)
      else if c.budget == 2 then (Unlink(SyncHome(w)), true)
      else (SyncHome(Unlink(SyncHome(w))), true)
  }

  // ----- the calls as they run against a home directory

  class HomeStore {
    const site: Site
    var vol: Disk
    var dur: Disk

    constructor (site: Site, disk: Disk)
      ensures this.site == site && vol == dur == disk
    {
      this.site := site;
      vol := disk;
      dur := disk;
    }

    function State(): World
      reads this
    {
      World(site, vol, dur)
    }

    /** Walks the receipt's entries and reports the current modes. */
    method ValidateBoundPaths(r: Receipt) returns (modes: Result<seq<Mode>>)
      requires WorldShaped(State()) && |r.entries| == PATH_COUNT
      ensures modes == if BoundPaths(site, vol, r) then Ok(vol.modes) else Err
    {
      if !site.homeSafe || vol.receipt.None? || !BoundFile(vol.receipt.value, r) {
        return Err;
      }
      var seen: seq<Mode> := [];
      for i := 0 to PATH_COUNT
        invariant seen == vol.modes[..i]
        invariant forall k: nat | k < i :: BoundAt(site, vol.modes, r, k)
      {
        if !BoundAt(site, vol.modes, r, i) {
          return Err;
        }
        seen := seen + [vol.modes[i]];
      }
      assert seen == vol.modes;
      return Ok(seen);
    }

    /** One path: re-validate, change its mode, sync it, re-validate. `stop` is an early exit. */
    method TightenPath(r: Receipt, i: nat, budget: nat) returns (stop: bool, left: nat)
      requires WorldShaped(State()) && |r.entries| == PATH_COUNT && i < PATH_COUNT
      modifies this
      ensures WorldShaped(State())
      ensures stop ==> (State(), AfterReceipt(State(), r)) == TightenFrom(old(State()), r, i, budget)
      ensures !stop ==> TightenFrom(State(), r, i + 1, left) == TightenFrom(old(State()), r, i, budget)
    {
      var e := r.entries[i];
      if e.original == e.target {
        return false, budget;
      }
      var modes := ValidateBoundPaths(r);
      if modes.Err? {
        return true, budget;
      }
      if modes.value[i] == e.target {
        return false, budget;
      }
      if budget == 0 {
        return true, 0;
      }
      vol := vol.(modes := vol.modes[i := e.target]);
      if budget == 1 {
        return true, 0;
      }
      dur := dur.(modes := dur.modes[i := vol.modes[i]]);
      modes := ValidateBoundPaths(r);
      return modes.Err?, budget - 2;
    }

    method TightenPaths(r: Receipt, budget: nat) returns (result: ApplyResult)
      requires WorldShaped(State()) && |r.entries| == PATH_COUNT
      modifies this
      ensures (State(), result) == TightenFrom(old(State()), r, 0, budget)
    {
      var left := budget;
      var i := 0;
      while i < PATH_COUNT
        invariant i <= PATH_COUNT && WorldShaped(State())
        invariant TightenFrom(State(), r, i, left) == TightenFrom(old(State()), r, 0, budget)
      {
        var stop;
        stop, left := TightenPath(r, i, left);
        if stop {
          return AfterReceipt(State(), r);
        }
        i := i + 1;
      }
      var modes := ValidateBoundPaths(r);
      if modes.Err? || !PhaseFromModes(r, modes.value, true).Applied? {
        return AfterReceipt(State(), r);
      }
      var n := NoticeFromReceipt(site, r, Applied);
      result := if n.Some? then Succeeded(n.value) else AfterReceipt(State(), r);
    }

    method ApplyMigration(c: ApplyCall) returns (result: ApplyResult)
      requires WorldShaped(State())
      modifies this
      ensures (State(), result) == Apply(old(State()), c)
    {
      var budget := c.budget;
      var r: Receipt;
      if vol.receipt.Some? {
        var read := ReadReceipt(site, vol);
        if read.Err? {
          return Failed(None);
        }
        r := read.value;
        if !c.verified {
          return AfterReceipt(State(), r);
        }
      } else {
        var found := Discover(site, vol.modes);
        if found.Err? || found.value.None? {
          return Failed(None);
        }
        r := Unpublished(found.value.value, c.freshDevice, c.freshInode);
        if r.noticeId != c.expected || !c.verified || !ValidSchema(site, r) || !c.fits || budget == 0 {
          return Failed(None);
        }
        vol := vol.(receipt := Some(ReceiptFile(r.device, r.inode, true, Some(r))));
        if budget == 1 {
          return Failed(None);
        }
        dur := dur.(receipt := vol.receipt);
        budget := budget - 2;
      }
      if r.noticeId != c.expected {
        return AfterReceipt(State(), r);
      }
      result := TightenPaths(r, budget);
    }

    method AcknowledgeMigration(c: AckCall) returns (ok: bool)
      requires WorldShaped(State())
      modifies this
      ensures (State(), ok) == Acknowledge(old(State()), c)
    {
      var read := ReadReceipt(site, vol);
      if read.Err? || read.value.noticeId != c.expected {
        return false;
      }
      var r := read.value;
      var modes := ValidateBoundPaths(r);
      if modes.Err? || !PhaseFromModes(r, modes.value, true).Applied? || !c.verified {
        return false;
      }
      if c.budget == 0 {
        return false;
      }
      dur := dur.(receipt := vol.receipt);
      if c.budget == 1 {
        return false;
      }
      vol := vol.(receipt := None);
      if c.budget > 2 {
        dur := dur.(receipt := vol.receipt);
      }
      return true;
    }
  }
}
