/**
 * Newline-delimited frames over a socket (examples/local-control/hydra_client.py, _Connection).
 *
 * `wire` is what the peer sends and the socket has not yet handed over. A schedule says how the socket
 * splits it: each arrival is one receive call, and a schedule that runs out is an expired deadline.
 */
module FramedConnection {
  import opened Basics

  const MAX_LINE_BYTES: nat := 16777216
  const RECEIVE_LIMIT: nat := 65536
  const NEWLINE: byte := 10

  datatype Conn = Conn(buffer: Bytes, wire: Bytes)

  datatype Arrival = Offer(size: nat) | HangUp

  datatype Outcome = Frame(line: Bytes) | Oversized | TimedOut | Disconnected

  function FindNewline(s: Bytes): (at: Option<nat>)
    ensures at.Some? ==> at.value < |s| && s[at.value] == NEWLINE && NEWLINE !in s[..at.value]
    ensures at.None? ==> NEWLINE !in s
  {
    if s == [] then None
    else if s[0] == NEWLINE then Some(0)
    else
      match FindNewline(s[1..])
      case None => None
      case Some(k) =>
        assert s[..k + 1] == [s[0]] + s[1..][..k];
        Some(k + 1)
  }

  /** What a byte stream decides on its own: its first frame, that this frame is too long, or nothing yet. */
  function Verdict(s: Bytes): (v: Option<Outcome>)
    ensures v.Some? && v.value.Frame? ==>
      |v.value.line| + 1 <= MAX_LINE_BYTES && NEWLINE !in v.value.line && v.value.line + [NEWLINE] <= s
  {
    var at := FindNewline(s);
    if at.Some? && at.value + 1 <= MAX_LINE_BYTES then Some(Frame(s[..at.value]))
    else if |s| > MAX_LINE_BYTES then Some(Oversized)
    else None
  }

  /** How many bytes one receive call returns. */
  function Received(c: Conn, a: Arrival): (n: nat)
    requires c.wire != [] && |c.buffer| <= MAX_LINE_BYTES
    ensures 1 <= n <= |c.wire| && n <= RECEIVE_LIMIT && |c.buffer| + n <= MAX_LINE_BYTES + 1
  {
    var room := MAX_LINE_BYTES + 1 - |c.buffer|;
    var limit := if room < RECEIVE_LIMIT then room else RECEIVE_LIMIT;
    var offered := if a.Offer? && a.size >= 1 then a.size else 1;
    var most := if limit < |c.wire| then limit else |c.wire|;
    if offered < most then offered else most
  }

  function Read(c: Conn, schedule: seq<Arrival>): (out: (Conn, Outcome))
    decreases |schedule|
  {
    match Verdict(c.buffer)
    case Some(Frame(line)) => (c.(buffer := c.buffer[|line| + 1..]), Frame(line))
    case Some(_) => (c, Oversized)
    case None =>
      if schedule == [] then (c, TimedOut)
      else if c.wire == [] then (c, if schedule[0].HangUp? then Disconnected else TimedOut)
      else
        var n := Received(c, schedule[0]);
        Read(Conn(c.buffer + c.wire[..n], c.wire[n..]), schedule[1..])
  }

  class Connection {
    var buffer: Bytes
    var wire: Bytes

    constructor (wire: Bytes)
      ensures State() == Conn([], wire)
    {
      buffer := [];
      this.wire := wire;
    }

    function State(): Conn
      reads this
    {
      Conn(buffer, wire)
    }

    method ReadFrame(schedule: seq<Arrival>) returns (outcome: Outcome)
      modifies this
      ensures (State(), outcome) == Read(old(State()), schedule)
    {
      var i := 0;
      while true
        invariant i <= |schedule|
        invariant Read(State(), schedule[i..]) == Read(old(State()), schedule)
        decreases |schedule| - i
      {
        var end := FindNewline(buffer);
        if end.Some? {
          if end.value + 1 > MAX_LINE_BYTES {
            return Oversized;
          }
          var line := buffer[..end.value];
          buffer := buffer[end.value + 1..];
          return Frame(line);
        }
        if |buffer| > MAX_LINE_BYTES {
          return Oversized;
        }
        if i == |schedule| {
          return TimedOut;
        }
        if wire == [] {
          return if schedule[i].HangUp? then Disconnected else TimedOut;
        }
        var n := Received(State(), schedule[i]);
        assert schedule[i..][1..] == schedule[i + 1..];
        buffer, wire := buffer + wire[..n], wire[n..];
        i := i + 1;
      }
    }
  }

  // ----- what reading does to the stream

  function Stream(c: Conn): Bytes { c.buffer + c.wire }

  lemma {:induction false} FindInPrefix(a: Bytes, b: Bytes)
    ensures FindNewline(a).Some? ==> FindNewline(a + b) == FindNewline(a)
    ensures FindNewline(a).None? && FindNewline(a + b).Some? ==> FindNewline(a + b).value >= |a|
  {
    if a == [] {
      assert a + b == b;
    } else {
      assert (a + b)[1..] == a[1..] + b;
      FindInPrefix(a[1..], b);
    }
  }

  /** A decided prefix decides every continuation the same way. */
  lemma VerdictIsStable(a: Bytes, b: Bytes)
    requires Verdict(a).Some?
    ensures Verdict(a + b) == Verdict(a)
  {
    FindInPrefix(a, b);
    if FindNewline(a).Some? {
      assert (a + b)[..FindNewline(a).value] == a[..FindNewline(a).value];
    }
  }

  /** For every split: a frame or an overflow is what the stream itself decides, a frame takes exactly
      itself and its newline, every other outcome loses nothing, and the buffer stays bounded. */
  lemma {:induction false} ReadFollowsTheStream(c: Conn, schedule: seq<Arrival>)
    requires |c.buffer| <= MAX_LINE_BYTES + 1
    ensures var (c', outcome) := Read(c, schedule);
            && |c'.buffer| <= MAX_LINE_BYTES + 1
            && (outcome.Frame? || outcome.Oversized? ==> Verdict(Stream(c)) == Some(outcome))
            && (if outcome.Frame? then Stream(c) == outcome.line + [NEWLINE] + Stream(c') else Stream(c') == Stream(c))
            && (outcome.Oversized? ==> Verdict(c'.buffer) == Some(Oversized))
            && (Verdict(Stream(c)).Some? && |schedule| >= |c.wire| ==> Some(outcome) == Verdict(Stream(c)))
    decreases |schedule|
  {
    var v := Verdict(c.buffer);
    if v.Some? {
      VerdictIsStable(c.buffer, c.wire);
      if v.value.Frame? {
        assert c.buffer == v.value.line + [NEWLINE] + c.buffer[|v.value.line| + 1..];
      }
    } else if c.wire == [] {
      assert Stream(c) == c.buffer;
    } else if schedule != [] {
      var n := Received(c, schedule[0]);
      var c1 := Conn(c.buffer + c.wire[..n], c.wire[n..]);
      assert Stream(c1) == Stream(c) by {
        assert c.wire == c.wire[..n] + c.wire[n..];
      }
      ReadFollowsTheStream(c1, schedule[1..]);
    }
  }

  /** An oversized frame fails every later read too, without consuming anything. */
  lemma OversizedIsSticky(c: Conn, schedule: seq<Arrival>, later: seq<Arrival>)
    requires |c.buffer| <= MAX_LINE_BYTES + 1 && Read(c, schedule).1.Oversized?
    ensures Read(Read(c, schedule).0, later) == (Read(c, schedule).0, Oversized)
  {
    ReadFollowsTheStream(c, schedule);
  }

  // ----- successive reads

  /** The frames of a stream, up to the first one that is too long or incomplete. */
  function Lines(s: Bytes): (lines: seq<Bytes>)
    decreases |s|
  {
    match Verdict(s)
    case Some(Frame(line)) => [line] + Lines(s[|line| + 1..])
    case _ => []
  }

  /** Successive reads, one schedule each, and the frames they returned. */
  function Reads(c: Conn, schedules: seq<seq<Arrival>>): (out: (Conn, seq<Bytes>))
    decreases |schedules|
  {
    if schedules == [] then (c, [])
    else
      var (c1, outcome) := Read(c, schedules[0]);
      var (c2, frames) := Reads(c1, schedules[1..]);
      (c2, if outcome.Frame? then [outcome.line] + frames else frames)
  }

  /** Whatever the splits and timeouts, the frames returned so far followed by the frames still to come are
      the frames of the stream. */
  lemma {:induction false} ReadsReturnTheStreamsFrames(c: Conn, schedules: seq<seq<Arrival>>)
    requires |c.buffer| <= MAX_LINE_BYTES + 1
    ensures var (c', frames) := Reads(c, schedules);
            |c'.buffer| <= MAX_LINE_BYTES + 1 && Lines(Stream(c)) == frames + Lines(Stream(c'))
    decreases |schedules|
  {
    if schedules != [] {
      var (c1, outcome) := Read(c, schedules[0]);
      ReadFollowsTheStream(c, schedules[0]);
      ReadsReturnTheStreamsFrames(c1, schedules[1..]);
      if outcome.Frame? {
        assert Stream(c)[|outcome.line| + 1..] == Stream(c1);
      }
    }
  }

  // ----- sending

  /** A request whose encoding and newline exceed the limit is not sent. */
  function Send(encoded: Bytes): (frame: Option<Bytes>)
  {
    if |encoded| + 1 > MAX_LINE_BYTES then None else Some(encoded + [NEWLINE])
  }

  predicate Sendable(encoded: Bytes) {
    NEWLINE !in encoded && Send(encoded).Some?
  }

  function SendAll(messages: seq<Bytes>): (wire: Bytes)
    requires forall m | m in messages :: Sendable(m)
  {
    if messages == [] then []
    else
      assert Sendable(messages[0]);
      Send(messages[0]).value + SendAll(messages[1..])
  }

  lemma {:induction false} FirstNewline(a: Bytes, b: Bytes)
    requires NEWLINE !in a
    ensures FindNewline(a + [NEWLINE] + b) == Some(|a|)
  {
    var s := a + [NEWLINE] + b;
    if a != [] {
      assert s[1..] == a[1..] + [NEWLINE] + b;
      FirstNewline(a[1..], b);
    }
  }

  /** Everything `Send` emits is within what `Read` accepts: a stream of sent messages has exactly those
      messages as its frames. JSON text holds no raw newline. */
  lemma {:induction false} SentMessagesAreTheFrames(messages: seq<Bytes>)
    requires forall m | m in messages :: Sendable(m)
    ensures Lines(SendAll(messages)) == messages
  {
    if messages != [] {
      var m := messages[0];
      assert Sendable(m);
      var rest := SendAll(messages[1..]);
      var s := SendAll(messages);
      assert s == m + [NEWLINE] + rest;
      FirstNewline(m, rest);
      assert s[..|m|] == m && s[|m| + 1..] == rest;
      SentMessagesAreTheFrames(messages[1..]);
    }
  }
}
