/**
 * The adapter that gives a blocking stream asynchronous read and write halves
 * (hydra-agent/src/daemon_transport.rs, module blocking).
 *
 * Polls by the owner interleave with steps of two workers: one native write at a time, and one loop that
 * reads natively into a bounded queue. The histories of accepted, written, read and delivered bytes are
 * part of the state so that the promises can be stated over whole runs.
 */
module AsyncStream {
  import opened Basics

  const BUFFER_BYTES: nat := 65536

  datatype IoError = IoError(code: int, text: string)

  const WRITER_SHUT_DOWN: IoError := IoError(32, "daemon writer is shut down")

  datatype Poll<T> = Pending | Ready(value: T)

  datatype Completion = Success | Failure(error: IoError)

  datatype Accept = Accepted(count: nat) | Refused(why: IoError)

  datatype Delivery = Delivered(bytes: Bytes) | ReadError(error: IoError)

  // ----- the write half

  datatype TaskPhase = Writing | Flushing | Done(result: Completion)

  /** The native write in flight: `written` bytes have reached the pipe. */
  datatype Task = Task(bytes: Bytes, written: nat, phase: TaskPhase)

  datatype WriteSide = WriteSide(
    pending: Option<Task>, failure: Option<IoError>, closed: bool, aborted: bool,
    accepted: Bytes, native: Bytes, flushed: nat)

  function FailWrite(w: WriteSide, e: IoError): WriteSide {
    w.(aborted := true, failure := Some(e))
  }

  function PollCompletion(w: WriteSide): (out: (WriteSide, Poll<Completion>)) {
    if w.failure.Some? then (w, Ready(Failure(w.failure.value)))
    else if w.pending.None? then (w, Ready(Success))
    else
      match w.pending.value.phase
      case Done(Success) => (w.(pending := None), Ready(Success))
      case Done(Failure(e)) => (FailWrite(w.(pending := None), e), Ready(Failure(e)))
      case _ => (w, Pending)
  }

  /** `clone` is the error of duplicating the native handle, if any. */
  function PollWrite(w: WriteSide, buf: Bytes, clone: Option<IoError>): (out: (WriteSide, Poll<Accept>)) {
    var (w1, done) := PollCompletion(w);
    if done.Pending? then (w1, Pending)
    else if done.value.Failure? then (w1, Ready(Refused(done.value.error)))
    else if w1.closed then (w1, Ready(Refused(WRITER_SHUT_DOWN)))
    else if buf == [] then (w1, Ready(Accepted(0)))
    else if clone.Some? then (FailWrite(w1, clone.value), Ready(Refused(clone.value)))
    else
      var count := if |buf| < BUFFER_BYTES then |buf| else BUFFER_BYTES;
      (w1.(pending := Some(Task(buf[..count], 0, Writing)), accepted := w1.accepted + buf[..count]),
       Ready(Accepted(count)))
  }

  function PollShutdown(w: WriteSide): (out: (WriteSide, Poll<Completion>)) {
    var (w1, done) := PollCompletion(w);
    if done == Ready(Success) then (w1.(closed := true, aborted := true), done) else (w1, done)
  }

  /** The write worker puts `count` more bytes into the pipe. */
  function TaskWrite(w: WriteSide, count: nat): WriteSide {
    if && w.pending.Some?
       && w.pending.value.phase.Writing?
       && w.pending.value.written + count <= |w.pending.value.bytes|
    then
      var t := w.pending.value;
      var written := t.written + count;
      w.(pending := Some(t.(written := written, phase := if written == |t.bytes| then Flushing else Writing)),
         native := w.native + t.bytes[t.written..written])
    else w
  }

  function TaskFlush(w: WriteSide): WriteSide {
    if w.pending.Some? && w.pending.value.phase.Flushing? then
      w.(pending := Some(w.pending.value.(phase := Done(Success))), flushed := |w.native|)
    else w
  }

  /** A native write or flush error, or the worker dying. */
  function TaskFail(w: WriteSide, e: IoError): WriteSide {
    if w.pending.Some? && !w.pending.value.phase.Done? then
      w.(pending := Some(w.pending.value.(phase := Done(Failure(e)))))
    else w
  }

  // ----- the read half

  datatype WorkerPhase = Reading | Forwarding | Exiting | Exited

  /** `held` was read natively and is not yet in the queue; `sawEof` records a native end of file. */
  datatype ReadSide = ReadSide(
    worker: WorkerPhase, held: Bytes, queue: Bytes, queueClosed: bool, failure: Option<IoError>,
    sawEof: bool, nativeRead: Bytes, delivered: Bytes)

  datatype NativeRead = GotBytes(bytes: Bytes) | GotEof | GotError(error: IoError)

  function WorkerRead(r: ReadSide, outcome: NativeRead): ReadSide {
    if !r.worker.Reading? then r
    else
      match outcome
      case GotEof => r.(worker := Exiting, sawEof := true)
      case GotError(e) => r.(worker := Exiting, failure := Some(e))
      case GotBytes(bytes) =>
        if 0 < |bytes| <= BUFFER_BYTES then
          r.(worker := Forwarding, held := bytes, nativeRead := r.nativeRead + bytes)
        else r
  }

  /** Part of the worker's write into the queue: as many bytes as fit, up to `count`. */
  function WorkerForward(r: ReadSide, count: nat): ReadSide {
    if r.worker.Forwarding? && 0 < count <= |r.held| && |r.queue| + count <= BUFFER_BYTES then
      r.(queue := r.queue + r.held[..count], held := r.held[count..],
         worker := if count == |r.held| then Reading else Forwarding)
    else r
  }

  function WorkerClose(r: ReadSide): ReadSide {
    if r.worker.Exiting? then r.(worker := Exited, queueClosed := true) else r
  }

  /** `room` is the space left in the reader's buffer. */
  function PollRead(r: ReadSide, room: nat): (out: (ReadSide, Poll<Delivery>)) {
    if r.queue != [] then
      var count := if room < |r.queue| then room else |r.queue|;
      (r.(queue := r.queue[count..], delivered := r.delivered + r.queue[..count]), Ready(Delivered(r.queue[..count])))
    else if !r.queueClosed then (r, Pending)
    else if room != 0 && r.failure.Some? then (r, Ready(ReadError(r.failure.value)))
    else (r, Ready(Delivered([])))
  }

  // ----- the adapter

  class Adapter {
    var pendingWrite: Option<Task>
    var writeFailure: Option<IoError>
    var writeClosed: bool
    var readFailure: Option<IoError>
    var queue: Bytes
    var queueClosed: bool
    var aborted: bool
    ghost var accepted: Bytes
    ghost var native: Bytes
    ghost var flushed: nat
    ghost var worker: WorkerPhase
    ghost var held: Bytes
    ghost var sawEof: bool
    ghost var nativeRead: Bytes
    ghost var delivered: Bytes

    constructor ()
      ensures State() == START
    {
      pendingWrite, writeFailure, writeClosed, aborted := None, None, false, false;
      readFailure, queue, queueClosed := None, [], false;
      accepted, native, flushed := [], [], 0;
      worker, held, sawEof, nativeRead, delivered := Reading, [], false, [], [];
    }

    ghost function State(): Stream
      reads this
    {
      Stream(WriteSide(pendingWrite, writeFailure, writeClosed, aborted, accepted, native, flushed),
             ReadSide(worker, held, queue, queueClosed, readFailure, sawEof, nativeRead, delivered), false)
    }

    method PollWriteCompletion() returns (result: Poll<Completion>)
      modifies this`pendingWrite, this`writeFailure, this`aborted
      ensures State().r == old(State()).r
      ensures (State().w, result) == PollCompletion(old(State()).w)
    {
      if writeFailure.Some? {
        return Ready(Failure(writeFailure.value));
      }
      if pendingWrite.None? {
        return Ready(Success);
      }
      var phase := pendingWrite.value.phase;
      if !phase.Done? {
        return Pending;
      }
      pendingWrite := None;
      if phase.result.Failure? {
        aborted := true;
        writeFailure := Some(phase.result.error);
      }
      return Ready(phase.result);
    }

    method Write(buf: Bytes, clone: Option<IoError>) returns (result: Poll<Accept>)
      modifies this
      ensures State().r == old(State()).r
      ensures (State().w, result) == PollWrite(old(State()).w, buf, clone)
    {
      var done := PollWriteCompletion();
      if done.Pending? {
        return Pending;
      }
      if done.value.Failure? {
        return Ready(Refused(done.value.error));
      }
      if writeClosed {
        return Ready(Refused(WRITER_SHUT_DOWN));
      }
      if buf == [] {
        return Ready(Accepted(0));
      }
      if clone.Some? {
        aborted := true;
        writeFailure := clone;
        return Ready(Refused(clone.value));
      }
      var count := if |buf| < BUFFER_BYTES then |buf| else BUFFER_BYTES;
      pendingWrite := Some(Task(buf[..count], 0, Writing));
      accepted := accepted + buf[..count];
      return Ready(Accepted(count));
    }

    method Shutdown() returns (result: Poll<Completion>)
      modifies this
      ensures State().r == old(State()).r
      ensures (State().w, result) == PollShutdown(old(State()).w)
    {
      result := PollWriteCompletion();
      if result == Ready(Success) {
        writeClosed := true;
        aborted := true;
      }
    }

    method Read(room: nat) returns (result: Poll<Delivery>)
      modifies this`queue, this`delivered
      ensures State().w == old(State()).w
      ensures (State().r, result) == PollRead(old(State()).r, room)
    {
      if queue == [] {
        if !queueClosed {
          return Pending;
        }
        return Ready(if room != 0 && readFailure.Some? then ReadError(readFailure.value) else Delivered([]));
      }
      var count := if room < |queue| then room else |queue|;
      result := Ready(Delivered(queue[..count]));
      delivered := delivered + queue[..count];
      queue := queue[count..];
    }
  }

  // ----- interleavings

  datatype Stream = Stream(w: WriteSide, r: ReadSide, dropped: bool)

  const START: Stream :=
    Stream(WriteSide(None, None, false, false, [], [], 0), ReadSide(Reading, [], [], false, None, false, [], []), false)

  datatype Event =
    | WriteEvent(buf: Bytes, clone: Option<IoError>)
    | FlushEvent
    | ShutdownEvent
    | ReadEvent(room: nat)
    | DropEvent
    | TaskWriteEvent(count: nat)
    | TaskFlushEvent
    | TaskFailEvent(error: IoError)
    | WorkerReadEvent(outcome: NativeRead)
    | WorkerForwardEvent(count: nat)
    | WorkerCloseEvent

  predicate IsPoll(e: Event) {
    e.WriteEvent? || e.FlushEvent? || e.ShutdownEvent? || e.ReadEvent? || e.DropEvent?
  }

  predicate IsReadSide(e: Event) {
    e.ReadEvent? || e.WorkerReadEvent? || e.WorkerForwardEvent? || e.WorkerCloseEvent?
  }

  /** After a drop the owner polls no more, the queue's reader is gone, and the workers run out. */
  function Step(s: Stream, e: Event): Stream {
    if s.dropped && IsPoll(e) then s
    else
      match e
      case WriteEvent(buf, clone) => s.(w := PollWrite(s.w, buf, clone).0)
      case FlushEvent => s.(w := PollCompletion(s.w).0)
      case ShutdownEvent => s.(w := PollShutdown(s.w).0)
      case ReadEvent(room) => s.(r := PollRead(s.r, room).0)
      case DropEvent => s.(w := s.w.(aborted := true), dropped := true)
      case TaskWriteEvent(count) => s.(w := TaskWrite(s.w, count))
      case TaskFlushEvent => s.(w := TaskFlush(s.w))
      case TaskFailEvent(error) => s.(w := TaskFail(s.w, error))
      case WorkerReadEvent(outcome) => s.(r := WorkerRead(s.r, outcome))
      case WorkerForwardEvent(count) =>
        if s.dropped && s.r.worker.Forwarding? then s.(r := s.r.(worker := Exiting, held := []))
        else s.(r := WorkerForward(s.r, count))
      case WorkerCloseEvent => s.(r := WorkerClose(s.r))
  }

  function Exec(s: Stream, es: seq<Event>): Stream {
    if es == [] then s else Step(Exec(s, es[..|es| - 1]), es[|es| - 1])
  }

  /** Written bytes plus the unwritten rest of the single pending chunk are exactly the accepted bytes. */
  predicate WriteOrder(w: WriteSide) {
    && (w.pending.Some? ==>
          var t := w.pending.value;
          && w.failure.None?
          && 0 < |t.bytes| <= BUFFER_BYTES
          && t.written <= |t.bytes|
          && w.accepted == w.native + t.bytes[t.written..]
          && (t.phase.Flushing? || t.phase == Done(Success) ==> t.written == |t.bytes|)
          && (t.phase == Done(Success) ==> w.flushed == |w.native|))
    && (w.pending.None? && w.failure.None? ==> w.native == w.accepted && w.flushed == |w.native|)
    && (w.failure.Some? ==> w.aborted)
    && w.native <= w.accepted
  }

  /** Delivered, queued and held bytes are exactly the natively read ones, in order. */
  predicate ReadOrder(s: Stream) {
    var r := s.r;
    && (!s.dropped ==> r.delivered + r.queue + r.held == r.nativeRead)
    && r.delivered <= r.nativeRead
    && |r.queue| <= BUFFER_BYTES
    && |r.held| <= BUFFER_BYTES
    && (r.held != [] <==> r.worker.Forwarding?)
    && (r.queueClosed <==> r.worker.Exited?)
    && (r.failure.Some? || r.sawEof ==> r.worker.Exiting? || r.worker.Exited?)
    && (!s.dropped && (r.worker.Exiting? || r.worker.Exited?) ==> r.failure.Some? != r.sawEof)
  }

  lemma WriteStepKeepsOrder(w: WriteSide, buf: Bytes, clone: Option<IoError>)
    requires WriteOrder(w)
    ensures WriteOrder(PollCompletion(w).0) && WriteOrder(PollWrite(w, buf, clone).0)
  {
    var (w1, done) := PollCompletion(w);
    if w.pending.Some? && w.pending.value.phase == Done(Success) {
      assert w.pending.value.bytes[w.pending.value.written..] == [];
    }
    assert WriteOrder(w1);
    if done == Ready(Success) && w1.failure.None? && buf != [] {
      var count := if |buf| < BUFFER_BYTES then |buf| else BUFFER_BYTES;
      assert buf[..count][0..] == buf[..count];
    }
  }

  lemma TaskStepKeepsOrder(w: WriteSide, count: nat)
    requires WriteOrder(w)
    ensures WriteOrder(TaskWrite(w, count))
  {
    if w.pending.Some? && w.pending.value.phase.Writing? && w.pending.value.written + count <= |w.pending.value.bytes| {
      var t := w.pending.value;
      var written := t.written + count;
      assert t.bytes[t.written..] == t.bytes[t.written..written] + t.bytes[written..];
      assert w.accepted == w.native + t.bytes[t.written..written] + t.bytes[written..];
    }
  }

  lemma PollReadKeepsOrder(s: Stream, room: nat)
    requires ReadOrder(s)
    ensures ReadOrder(Step(s, ReadEvent(room)))
  {
    var r := s.r;
    var count := if room < |r.queue| then room else |r.queue|;
    MovesAcross(r.delivered, r.queue, count, r.held);
  }

  lemma ForwardKeepsOrder(s: Stream, count: nat)
    requires ReadOrder(s)
    ensures ReadOrder(Step(s, WorkerForwardEvent(count)))
  {
    var r := s.r;
    if count <= |r.held| {
      MovesAcross(r.delivered + r.queue, r.held, count, []);
      assert r.delivered + r.queue + r.held[..count] == r.delivered + (r.queue + r.held[..count]);
    }
  }

  /** Moving the first bytes of one buffer to the end of the one before it changes nothing overall. */
  lemma MovesAcross(before: Bytes, buffer: Bytes, count: nat, after: Bytes)
    requires count <= |buffer|
    ensures before + buffer[..count] + buffer[count..] + after == before + buffer + after
  {
    assert buffer == buffer[..count] + buffer[count..];
  }

  lemma WorkerReadKeepsOrder(s: Stream, outcome: NativeRead)
    requires ReadOrder(s)
    ensures ReadOrder(Step(s, WorkerReadEvent(outcome)))
  {
  }

  lemma ReadStepKeepsOrder(s: Stream, e: Event)
    requires ReadOrder(s) && IsReadSide(e)
    ensures ReadOrder(Step(s, e))
  {
    match e
    case ReadEvent(room) => PollReadKeepsOrder(s, room);
    case WorkerReadEvent(outcome) => WorkerReadKeepsOrder(s, outcome);
    case WorkerForwardEvent(count) => ForwardKeepsOrder(s, count);
    case WorkerCloseEvent =>
  }

  lemma StepKeepsOrder(s: Stream, e: Event)
    requires WriteOrder(s.w) && ReadOrder(s)
    ensures WriteOrder(Step(s, e).w) && ReadOrder(Step(s, e))
  {
    if IsReadSide(e) {
      ReadStepKeepsOrder(s, e);
    } else {
      assert Step(s, e).r == s.r && (s.dropped ==> Step(s, e).dropped);
      match e
      case WriteEvent(buf, clone) => WriteStepKeepsOrder(s.w, buf, clone);
      case FlushEvent => WriteStepKeepsOrder(s.w, [], None);
      case ShutdownEvent => WriteStepKeepsOrder(s.w, [], None);
      case TaskWriteEvent(count) => TaskStepKeepsOrder(s.w, count);
      case _ =>
    }
  }

  /** In every interleaving: natively written bytes are an in-order prefix of the accepted ones with at most
      one bounded chunk outstanding, and delivered bytes are an in-order prefix of the natively read ones
      with at most a full queue and a full buffer in between. */
  lemma {:induction false} EveryInterleavingKeepsOrder(es: seq<Event>)
    ensures WriteOrder(Exec(START, es).w) && ReadOrder(Exec(START, es))
  {
    if es != [] {
      var s := Exec(START, es[..|es| - 1]);
      EveryInterleavingKeepsOrder(es[..|es| - 1]);
      StepKeepsOrder(s, es[|es| - 1]);
    }
  }

  /** The bytes one event reports to a writer as accepted. */
  function AcceptedBy(s: Stream, e: Event): Bytes {
    if s.dropped || !e.WriteEvent? then []
    else
      match PollWrite(s.w, e.buf, e.clone).1
      case Ready(Accepted(count)) => if count <= |e.buf| then e.buf[..count] else []
      case _ => []
  }

  /** The bytes one event hands to a reader. */
  function DeliveredBy(s: Stream, e: Event): Bytes {
    if s.dropped || !e.ReadEvent? then []
    else
      match PollRead(s.r, e.room).1
      case Ready(Delivered(bytes)) => bytes
      case _ => []
  }

  function ReportedAccepted(s: Stream, es: seq<Event>): Bytes {
    if es == [] then []
    else ReportedAccepted(s, es[..|es| - 1]) + AcceptedBy(Exec(s, es[..|es| - 1]), es[|es| - 1])
  }

  function ReportedDelivered(s: Stream, es: seq<Event>): Bytes {
    if es == [] then []
    else ReportedDelivered(s, es[..|es| - 1]) + DeliveredBy(Exec(s, es[..|es| - 1]), es[|es| - 1])
  }

  lemma StepReports(s: Stream, e: Event)
    ensures Step(s, e).w.accepted == s.w.accepted + AcceptedBy(s, e)
    ensures Step(s, e).r.delivered == s.r.delivered + DeliveredBy(s, e)
  {
  }

  /** What the callers were told is what the order results speak of: no byte is accepted or delivered
      without being reported, and none is reported without being accepted or delivered. */
  lemma {:induction false} ReportsAreComplete(s: Stream, es: seq<Event>)
    ensures Exec(s, es).w.accepted == s.w.accepted + ReportedAccepted(s, es)
    ensures Exec(s, es).r.delivered == s.r.delivered + ReportedDelivered(s, es)
  {
    if es != [] {
      ReportsAreComplete(s, es[..|es| - 1]);
      StepReports(Exec(s, es[..|es| - 1]), es[|es| - 1]);
    }
  }

  /** Success from flush or shutdown means everything accepted was written and flushed. */
  lemma SuccessMeansWritten(w: WriteSide)
    requires WriteOrder(w)
    ensures PollCompletion(w).1 == Ready(Success) ==> w.native == w.accepted && w.flushed == |w.accepted|
    ensures PollShutdown(w).1 == Ready(Success) ==> w.native == w.accepted && w.flushed == |w.accepted|
  {
    if w.pending.Some? && w.pending.value.phase == Done(Success) {
      assert w.pending.value.bytes[w.pending.value.written..] == [];
    }
  }

  /** A native write has failed, whether or not a poll has seen it yet. */
  predicate Doomed(w: WriteSide, e: IoError) {
    if w.failure.Some? then w.failure == Some(e) && w.pending.None?
    else w.pending.Some? && w.pending.value.phase == Done(Failure(e))
  }

  /** Once a native write has failed, no later byte is accepted or written, in any interleaving, and every
      later write, flush and shutdown reports that failure. */
  lemma {:induction false} FailureIsSticky(s: Stream, es: seq<Event>, e: IoError, buf: Bytes, clone: Option<IoError>)
    requires Doomed(s.w, e)
    ensures var s' := Exec(s, es);
            && Doomed(s'.w, e)
            && s'.w.accepted == s.w.accepted
            && s'.w.native == s.w.native
            && PollCompletion(s'.w).1 == Ready(Failure(e))
            && PollShutdown(s'.w).1 == Ready(Failure(e))
            && PollWrite(s'.w, buf, clone).1 == Ready(Refused(e))
  {
    if es != [] {
      FailureIsSticky(s, es[..|es| - 1], e, buf, clone);
    }
  }

  /** What a read reports: an error or an end of file only after every byte read before it was delivered;
      an end of file only when no error is stored. */
  lemma ReadReportsInOrder(s: Stream, room: nat)
    requires ReadOrder(s) && !s.dropped && room > 0
    ensures var out := PollRead(s.r, room).1;
            && (out.Ready? && out.value.ReadError? ==>
                  s.r.failure == Some(out.value.error) && s.r.delivered == s.r.nativeRead)
            && (out == Ready(Delivered([])) ==>
                  s.r.failure.None? && s.r.sawEof && s.r.delivered == s.r.nativeRead)
  {
  }

  /** A stored read error is reported by every read that finds the queue drained and closed, forever. */
  lemma {:induction false} StoredErrorIsNeverHidden(s: Stream, es: seq<Event>, error: IoError, room: nat)
    requires ReadOrder(s) && !s.dropped && s.r.failure == Some(error) && room > 0
    ensures var s' := Exec(s, es);
            && ReadOrder(s')
            && s'.r.failure == Some(error)
            && (!s'.dropped && s'.r.queue == [] && s'.r.queueClosed ==>
                  PollRead(s'.r, room).1 == Ready(ReadError(error)))
  {
    if es != [] {
      var front := Exec(s, es[..|es| - 1]);
      StoredErrorIsNeverHidden(s, es[..|es| - 1], error, room);
      if IsReadSide(es[|es| - 1]) {
        ReadStepKeepsOrder(front, es[|es| - 1]);
      }
    }
  }

  /** Nothing on the read side, end of file included, touches the write side; native I/O is aborted only by
      a drop, a write failure, or a shutdown after everything accepted was written and flushed. */
  lemma ReadSideNeverAbortsWrites(s: Stream, e: Event)
    requires WriteOrder(s.w)
    ensures IsReadSide(e) ==> Step(s, e).w == s.w
    ensures !s.w.aborted && Step(s, e).w.aborted ==>
      || e.DropEvent?
      || Step(s, e).w.failure.Some?
      || (e.ShutdownEvent? && s.w.native == s.w.accepted && s.w.flushed == |s.w.accepted|)
  {
    SuccessMeansWritten(s.w);
  }
}
