/**
 * The bounded enrollment diagnostic ring (hydra-agent/src/device_identity.rs).
 *
 * The length of one event's JSON text is a parameter; the text around the events is counted exactly as
 * the pretty printer lays it out.
 */
module DiagnosticRing {
  import opened Basics

  const MAX_BYTES: nat := 32768
  const MAX_EVENTS: nat := 64
  const MAX_SAFE_JSON_INTEGER: nat := 9007199254740991

  datatype Stage = RedeemTerminal | ActivationTerminal

  datatype Outcome = Ready | Refused | Unconfirmed | FailedClosed | CleanupIncomplete

  datatype FailureKind =
    | CodeInvalid
    | OwnerMismatch
    | AuthorityStale
    | Incompatible
    | TemporarilyUnavailable
    | LocalFailure
    | OutcomeUnconfirmed

  datatype Event = Event(
    atMs: nat, buildGit: string, buildDirty: bool, buildTimeMs: nat, crateVersion: string,
    stage: Stage, outcome: Outcome, reason: Option<FailureKind>,
    requestAttempted: bool, responseStarted: bool, localRecordDurable: bool, activationAttempted: bool)

  predicate LowerHex(c: char) { IsDigit(c) || 'a' <= c <= 'f' }

  predicate VersionChar(c: char) {
    IsDigit(c) || 'a' <= c <= 'z' || 'A' <= c <= 'Z' || c == '.' || c == '+' || c == '-'
  }

  predicate ValidBuild(e: Event) {
    && e.atMs <= MAX_SAFE_JSON_INTEGER
    && e.buildTimeMs <= MAX_SAFE_JSON_INTEGER
    && 1 <= |e.crateVersion| <= 64
    && (forall c | c in e.crateVersion :: VersionChar(c))
    && (e.buildGit == "unknown" || (7 <= |e.buildGit| <= 40 && forall c | c in e.buildGit :: LowerHex(c)))
  }

  function RedeemOutcome(reason: FailureKind): Outcome {
    match reason
    case OutcomeUnconfirmed => Unconfirmed
    case LocalFailure => FailedClosed
    case _ => Refused
  }

  predicate ValidEvent(e: Event) {
    && ValidBuild(e)
    && (e.responseStarted ==> e.requestAttempted)
    && (match e.stage
        case RedeemTerminal =>
          && !e.localRecordDurable && !e.activationAttempted
          && e.reason.Some? && e.outcome == RedeemOutcome(e.reason.value)
        case ActivationTerminal =>
          && e.requestAttempted && e.responseStarted && e.localRecordDurable && e.activationAttempted
          && e.reason.None? && e.outcome in {Ready, FailedClosed, CleanupIncomplete})
  }

  type Sizer = Event -> nat

  function ListLength(size: Sizer, events: seq<Event>): nat {
    if events == [] then 0 else 6 + size(events[0]) + ListLength(size, events[1..])
  }

  /** Length of the pretty-printed file: an empty list prints on its own line, and each event adds a line
      break, its indentation and a separator. */
  function EncodedLength(size: Sizer, events: seq<Event>): nat {
    if events == [] then 34 else 36 + ListLength(size, events)
  }

  predicate Fits(size: Sizer, events: seq<Event>, maxEvents: nat, maxBytes: nat) {
    |events| <= maxEvents && EncodedLength(size, events) <= maxBytes
  }

  /** Drop the oldest events until the rest fits; fail when one event alone is too long. */
  function Bounded(size: Sizer, events: seq<Event>, maxEvents: nat, maxBytes: nat): (r: Result<seq<Event>>)
  {
    if Fits(size, events, maxEvents, maxBytes) then Ok(events)
    else if |events| <= 1 && |events| <= maxEvents then Err
    else Bounded(size, events[1..], maxEvents, maxBytes)
  }

  method BoundDiagnostics(size: Sizer, events: seq<Event>, maxEvents: nat, maxBytes: nat)
    returns (r: Result<seq<Event>>)
    ensures r == Bounded(size, events, maxEvents, maxBytes)
  {
    var kept := events;
    while |kept| > maxEvents
      invariant Bounded(size, kept, maxEvents, maxBytes) == Bounded(size, events, maxEvents, maxBytes)
    {
      kept := kept[1..];
    }
    while EncodedLength(size, kept) > maxBytes
      invariant |kept| <= maxEvents
      invariant Bounded(size, kept, maxEvents, maxBytes) == Bounded(size, events, maxEvents, maxBytes)
      decreases |kept|
    {
      if |kept| <= 1 {
        return Err;
      }
      kept := kept[1..];
    }
    return Ok(kept);
  }

  /** The kept events are the suffix from the first index that meets both limits. */
  lemma {:induction false} BoundedKeepsLongestSuffix(size: Sizer, events: seq<Event>, maxEvents: nat, maxBytes: nat)
    ensures var r := Bounded(size, events, maxEvents, maxBytes);
            r.Ok? ==>
              var k := |events| - |r.value|;
              && k >= 0
              && r.value == events[k..]
              && Fits(size, r.value, maxEvents, maxBytes)
              && forall j: nat | j < k :: !Fits(size, events[j..], maxEvents, maxBytes)
  {
    if !Fits(size, events, maxEvents, maxBytes) && !(|events| <= 1 && |events| <= maxEvents) {
      BoundedKeepsLongestSuffix(size, events[1..], maxEvents, maxBytes);
      var r := Bounded(size, events[1..], maxEvents, maxBytes);
      if r.Ok? {
        var k := |events| - |r.value|;
        assert events[1..][k - 1..] == events[k..];
        forall j: nat | j < k
          ensures !Fits(size, events[j..], maxEvents, maxBytes)
        {
          if j > 0 {
            assert events[1..][j - 1..] == events[j..];
          } else {
            assert events[0..] == events;
          }
        }
      }
    } else {
      assert events[0..] == events;
    }
  }

  /** It fails exactly when the newest event alone does not fit. */
  lemma {:induction false} BoundedFailsIff(size: Sizer, events: seq<Event>, maxEvents: nat, maxBytes: nat)
    requires events != [] && maxEvents >= 1
    ensures Bounded(size, events, maxEvents, maxBytes).Err? <==>
            !Fits(size, [events[|events| - 1]], maxEvents, maxBytes)
  {
    if |events| == 1 {
      assert events == [events[0]];
    } else {
      BoundedFailsIff(size, events[1..], maxEvents, maxBytes);
      DroppingShortens(size, events, |events| - 1);
      assert events[|events| - 1..] == [events[|events| - 1]];
    }
  }

  lemma {:induction false} DroppingShortens(size: Sizer, events: seq<Event>, k: nat)
    requires k < |events|
    ensures EncodedLength(size, events[k..]) <= EncodedLength(size, events)
  {
    if k > 0 {
      DroppingShortens(size, events[1..], k - 1);
      assert events[1..][k - 1..] == events[k..];
    } else {
      assert events[0..] == events;
    }
  }

  lemma {:induction false} AppendingLengthens(size: Sizer, events: seq<Event>, e: Event)
    ensures EncodedLength(size, events) <= EncodedLength(size, events + [e])
    ensures ListLength(size, events) <= ListLength(size, events + [e])
  {
    if events != [] {
      assert (events + [e])[1..] == events[1..] + [e];
      AppendingLengthens(size, events[1..], e);
    }
  }

  /** Bounding what was already bounded, plus one event, is bounding the whole history. */
  lemma {:induction false} BoundingIsIncremental(
    size: Sizer, history: seq<Event>, e: Event, maxEvents: nat, maxBytes: nat)
    requires Bounded(size, history, maxEvents, maxBytes).Ok?
    ensures Bounded(size, Bounded(size, history, maxEvents, maxBytes).value + [e], maxEvents, maxBytes) ==
            Bounded(size, history + [e], maxEvents, maxBytes)
  {
    if !Fits(size, history, maxEvents, maxBytes) {
      AppendingLengthens(size, history, e);
      assert (history + [e])[1..] == history[1..] + [e];
      BoundingIsIncremental(size, history[1..], e, maxEvents, maxBytes);
    }
  }

  // ----- the file

  /** What the diagnostics path holds: text that parses, or bytes that do not. */
  datatype Stored = Parsed(version: nat, events: seq<Event>) | Unparsable(length: nat)

  /** A missing, oversized, unparsable or invalid file is read as an empty ring. */
  function Load(size: Sizer, file: Option<Stored>): (events: seq<Event>)
  {
    match file
    case Some(Parsed(version, events)) =>
      if && EncodedLength(size, events) <= MAX_BYTES
         && version == 1
         && |events| <= MAX_EVENTS
         && forall e | e in events :: ValidEvent(e)
      then events else []
    case _ => []
  }

  /** How far the write gets: before the rename, past it but not to the end, or to the end. A kill is one of
      the first two. */
  datatype Publication = NotReplaced | ReplacedThenFailed | Replaced

  /** One append: `frozen` is a pending full removal. */
  datatype Call = Call(event: Event, frozen: bool, publication: Publication)

  /** Whether the call put a new file in place, whatever it then reported. */
  predicate TakesEffect(size: Sizer, file: Option<Stored>, c: Call) {
    && !c.frozen
    && ValidEvent(c.event)
    && Bounded(size, Load(size, file) + [c.event], MAX_EVENTS, MAX_BYTES).Ok?
    && !c.publication.NotReplaced?
  }

  function Append(size: Sizer, file: Option<Stored>, c: Call): (out: (Option<Stored>, bool)) {
    if TakesEffect(size, file, c) then
      var kept := Bounded(size, Load(size, file) + [c.event], MAX_EVENTS, MAX_BYTES);
      (Some(Parsed(1, kept.value)), c.publication.Replaced?)
    else (file, false)
  }

  class DiagnosticsFile {
    const size: Sizer
    var file: Option<Stored>

    constructor (size: Sizer, file: Option<Stored>)
      ensures this.size == size && this.file == file
    {
      this.size := size;
      this.file := file;
    }

    method AppendDiagnostic(c: Call) returns (ok: bool)
      modifies this
      ensures (file, ok) == Append(size, old(file), c)
    {
      if c.frozen || !ValidEvent(c.event) {
        return false;
      }
      var kept := BoundDiagnostics(size, Load(size, file) + [c.event], MAX_EVENTS, MAX_BYTES);
      if kept.Err? || c.publication.NotReplaced? {
        return false;
      }
      file := Some(Parsed(1, kept.value));
      return c.publication.Replaced?;
    }
  }

  function Exec(size: Sizer, file: Option<Stored>, calls: seq<Call>): Option<Stored> {
    if calls == [] then file
    else Append(size, Exec(size, file, calls[..|calls| - 1]), calls[|calls| - 1]).0
  }

  /** The events of the calls that put a new file in place, in order, reported or not. */
  function History(size: Sizer, file: Option<Stored>, calls: seq<Call>): seq<Event> {
    if calls == [] then []
    else
      var front := calls[..|calls| - 1];
      var last := calls[|calls| - 1];
      History(size, file, front) + (if TakesEffect(size, Exec(size, file, front), last) then [last.event] else [])
  }

  /** Over every run of appends, failing or killed anywhere, from any file: the ring is the longest suffix that
      fits of what the file first read as, followed by the whole history. The writer's own output never takes
      the reset branch. */
  lemma {:induction false} RingIsLongestSuffixOfHistory(size: Sizer, file: Option<Stored>, calls: seq<Call>)
    ensures var stored := Exec(size, file, calls);
            var history := History(size, file, calls);
            && Bounded(size, Load(size, file) + history, MAX_EVENTS, MAX_BYTES) == Ok(Load(size, stored))
            && (if history == [] then stored == file
                else stored == Some(Parsed(1, Load(size, stored))) && Load(size, stored) != [])
  {
    var start := Load(size, file);
    if calls == [] {
      assert start + [] == start;
    } else {
      var front := calls[..|calls| - 1];
      var c := calls[|calls| - 1];
      RingIsLongestSuffixOfHistory(size, file, front);
      var before := Exec(size, file, front);
      var history := History(size, file, front);
      if TakesEffect(size, before, c) {
        BoundingIsIncremental(size, start + history, c.event, MAX_EVENTS, MAX_BYTES);
        assert start + history + [c.event] == start + History(size, file, calls);
        WriterOutputIsRead(size, before, c);
      } else {
        assert History(size, file, calls) == history;
      }
    }
  }

  /** What an append puts in place is read back as it is, and ends with the new event; a reported success has
      put it in place. */
  lemma WriterOutputIsRead(size: Sizer, file: Option<Stored>, c: Call)
    ensures Append(size, file, c).1 ==> TakesEffect(size, file, c)
    ensures var stored := Append(size, file, c).0;
            TakesEffect(size, file, c) ==>
              && stored == Some(Parsed(1, Load(size, stored)))
              && Load(size, stored) != []
              && Load(size, stored)[|Load(size, stored)| - 1] == c.event
  {
    if TakesEffect(size, file, c) {
      var loaded := Load(size, file) + [c.event];
      KeptIsReadable(size, file, c.event);
      BoundedKeepsNewest(size, loaded, MAX_EVENTS, MAX_BYTES);
      LoadReturnsReadable(size, Bounded(size, loaded, MAX_EVENTS, MAX_BYTES).value);
    }
  }

  ghost predicate Readable(size: Sizer, events: seq<Event>) {
    Fits(size, events, MAX_EVENTS, MAX_BYTES) && forall e | e in events :: ValidEvent(e)
  }

  lemma LoadReturnsReadable(size: Sizer, events: seq<Event>)
    requires Readable(size, events)
    ensures Load(size, Some(Parsed(1, events))) == events
  {
  }

  lemma KeptIsReadable(size: Sizer, file: Option<Stored>, event: Event)
    requires ValidEvent(event)
    ensures var r := Bounded(size, Load(size, file) + [event], MAX_EVENTS, MAX_BYTES); r.Ok? ==> Readable(size, r.value)
  {
    var loaded := Load(size, file) + [event];
    BoundedKeepsLongestSuffix(size, loaded, MAX_EVENTS, MAX_BYTES);
    LoadedEventsAreValid(size, file);
    var r := Bounded(size, loaded, MAX_EVENTS, MAX_BYTES);
    if r.Ok? {
      SuffixStaysValid(loaded, |loaded| - |r.value|);
    }
  }

  lemma SuffixStaysValid(events: seq<Event>, skip: nat)
    requires skip <= |events| && forall e | e in events :: ValidEvent(e)
    ensures forall e | e in events[skip..] :: ValidEvent(e)
  {
  }

  lemma LoadedEventsAreValid(size: Sizer, file: Option<Stored>)
    ensures forall e | e in Load(size, file) :: ValidEvent(e)
  {
  }

  lemma {:induction false} BoundedKeepsNewest(size: Sizer, events: seq<Event>, maxEvents: nat, maxBytes: nat)
    requires events != [] && maxEvents >= 1 && Bounded(size, events, maxEvents, maxBytes).Ok?
    ensures var kept := Bounded(size, events, maxEvents, maxBytes).value;
            kept != [] && kept[|kept| - 1] == events[|events| - 1]
  {
    if !Fits(size, events, maxEvents, maxBytes) {
      BoundedKeepsNewest(size, events[1..], maxEvents, maxBytes);
    }
  }
}
