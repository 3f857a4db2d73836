/**
 * The write path: `Stream.write_headers`, `write`, `finish`, `_write_chunk` and `_write_end_stream`
 * (tornado_http2/stream.py) over `Window.consume` (tornado_http2/flow_control.py), as a transition
 * system. Every `yield` is a step boundary, so any interleaving of the writers of all streams with
 * each other, with WINDOW_UPDATEs from the peer and with the closing of windows and of the socket is
 * a sequence of actions.
 */
module Writers {
  import opened Bits
  import opened Protocol
  import opened FlowControl
  import opened DynamicTable
  import opened Hpack

  /** What waits for, or holds, a stream's write lock; the lock is served first come, first served. */
  datatype Op = Chunk(data: bytes) | End

  /** Where the holder of the lock stands. */
  datatype Pc =
    | Idle                                    // the lock is free
    | AtStream(chunk: bytes)                  // in the loop of the stream window's consume
    | AtParent(chunk: bytes, want: nat)       // in the loop of the connection window's consume
    | Granted(chunk: bytes, grant: nat)       // taken from the connection window only
    | Allowed(chunk: bytes, grant: nat)       // taken from both windows
    | Flushing(chunk: bytes, grant: nat)      // the frame is written
    | Stuck(chunk: bytes, grant: nat)         // raised without releasing the lock, or giving back a grant

  datatype OutFrame =
    | HeaderBlock(stream: nat, block: seq<bool>)
    | Data(stream: nat, payload: bytes, endStream: bool)
    | Reset(stream: nat)

  /** A stream; the fields from `declared` on record its history. */
  datatype OutStream = OutStream(
    window: Win,
    initial: nat,
    pc: Pc,
    queue: seq<Op>,
    remaining: Option<int>,                   // _outgoing_content_remaining
    declared: Option<int>,                    // the Content-Length it was last set to
    base: nat,                                // how many bytes had been accepted by then
    accepted: bytes,                          // all chunks that `write` accepted, in call order
    finished: bool,                           // `finish` was called and did not raise
    lateChunk: bool,                          // a chunk was accepted after that
    lateLength: bool,                         // a length was declared after that
    credited: nat)                            // sum of the window updates received

  /**
   * The sending side of a connection; streams are numbered in the order of their creation. Once the
   * socket is closed, writing to it raises StreamClosedError.
   */
  datatype Sender = Sender(
    conn: Win,
    credited: nat,
    socketOpen: bool,
    streams: seq<OutStream>,
    wire: seq<OutFrame>,
    table: Table,                             // the encoder's dynamic table
    blocks: seq<seq<Header>>,                 // the header lists encoded so far
    authors: seq<nat>)                        // and the streams they belong to

  /** `FlushFails` is the write of a frame that had not left the process when the socket was closed. */
  datatype Action =
    | Create(initial: nat)
    | WriteHeaders(i: nat, length: Option<int>, headers: seq<Header>)
    | Write(i: nat, chunk: bytes)
    | Finish(i: nat)
    | Acquire(i: nat)
    | TurnStream(i: nat)
    | TurnParent(i: nat)
    | Debit(i: nat)
    | Send(i: nat)
    | Flushed(i: nat)
    | FlushFails(i: nat)
    | UpdateStream(i: nat, increment: nat)
    | UpdateConn(increment: nat)
    | CloseStream(i: nat)
    | CloseConn
    | CloseSocket

  // ---------- steps of one stream; they may write one frame ----------

  /** The stream after a step, and the frame it writes, if any. */
  datatype Local = Local(st: OutStream, frame: Option<OutFrame>)

  /** What is written, if the socket takes it. */
  function Out(socketOpen: bool, f: OutFrame): Option<OutFrame> {
    if socketOpen then Some(f) else None
  }

  function NewOutStream(initial: nat): OutStream {
    OutStream(Win(initial, false, {}), initial, Idle, [], None, None, 0, [], false, false, false, 0)
  }

  function Enqueue(st: OutStream, chunk: bytes): OutStream {
    st.(queue := st.queue + [Chunk(chunk)], accepted := st.accepted + chunk, lateChunk := st.lateChunk || st.finished)
  }

  /**
   * An empty chunk takes no lock. A chunk beyond the declared length raises HTTPOutputError after it
   * has been subtracted, and the stream is reset.
   */
  function WriteStep(st: OutStream, i: nat, socketOpen: bool, chunk: bytes): Local {
    if chunk == [] then Local(st, None)
    else
      match st.remaining
      case None => Local(Enqueue(st, chunk), None)
      case Some(n) =>
        var left := n - |chunk|;
        if left < 0 then Local(st.(remaining := Some(left)), Out(socketOpen, Reset(i)))
        else Local(Enqueue(st, chunk).(remaining := Some(left)), None)
  }

  /** Finishing short of the declared length raises HTTPOutputError. */
  function FinishStep(st: OutStream, i: nat, socketOpen: bool): Local {
    if st.remaining.Some? && st.remaining.value != 0 then Local(st, Out(socketOpen, Reset(i)))
    else Local(st.(queue := st.queue + [End], finished := true), None)
  }

  /**
   * The first in the queue gets the free lock. END_STREAM is written without suspending, and the lock
   * is released even if that raises.
   */
  function AcquireStep(st: OutStream, i: nat, socketOpen: bool): Option<Local> {
    if st.pc != Idle || st.queue == [] then None
    else
      match st.queue[0]
      case Chunk(data) => Some(Local(st.(pc := AtStream(data), queue := st.queue[1..]), None))
      case End => Some(Local(st.(queue := st.queue[1..]), Out(socketOpen, Data(i, [], true))))
  }

  function TurnStreamStep(st: OutStream, i: nat, socketOpen: bool): Option<Local> {
    if !st.pc.AtStream? || i in st.window.waiters then None
    else
      match TurnOf(st.window, |st.pc.chunk|)
      case Raises => Some(Local(st.(pc := Stuck(st.pc.chunk, 0)), Out(socketOpen, Reset(i))))
      case Waits => Some(Local(st.(window := AfterTurn(st.window, i, |st.pc.chunk|)), None))
      case Wants(n) => Some(Local(st.(pc := AtParent(st.pc.chunk, n)), None))
  }

  function DebitStep(st: OutStream): Option<Local> {
    if !st.pc.Granted? then None
    else Some(Local(st.(pc := Allowed(st.pc.chunk, st.pc.grant),
                        window := st.window.(size := st.window.size - st.pc.grant)), None))
  }

  /** A frame that the socket does not take leaves the writer with its lock; resetting the stream fails as well. */
  function SendStep(st: OutStream, i: nat, socketOpen: bool): Option<Local> {
    if !st.pc.Allowed? || st.pc.grant > |st.pc.chunk| then None
    else if !socketOpen then Some(Local(st.(pc := Stuck(st.pc.chunk, st.pc.grant)), None))
    else Some(Local(st.(pc := Flushing(st.pc.chunk, st.pc.grant)), Some(Data(i, st.pc.chunk[..st.pc.grant], false))))
  }

  /** The chunk gets shorter; once it is empty the lock is released. */
  function FlushedStep(st: OutStream): Option<Local> {
    if !st.pc.Flushing? || st.pc.grant > |st.pc.chunk| then None
    else
      var rest := st.pc.chunk[st.pc.grant..];
      Some(Local(st.(pc := if rest == [] then Idle else AtStream(rest)), None))
  }

  function FlushFailsStep(st: OutStream, socketOpen: bool): Option<Local> {
    if socketOpen || !st.pc.Flushing? || st.pc.grant > |st.pc.chunk| then None
    else Some(Local(st.(pc := Stuck(st.pc.chunk[st.pc.grant..], 0)), None))
  }

  function UpdateStreamStep(st: OutStream, increment: nat): Option<Local> {
    if !(1 <= increment <= MAX_WINDOW_SIZE) then None
    else Some(Local(st.(window := Adjusted(st.window, increment), credited := st.credited + increment), None))
  }

  function CloseStreamStep(st: OutStream): Local {
    Local(st.(window := st.window.(closed := true, waiters := {})), None)
  }

  /** Headers without a Content-Length leave the length that an earlier call declared. */
  function HeadersStep(st: OutStream, length: Option<int>): OutStream {
    if length.None? then st
    else st.(remaining := length, declared := length, base := |st.accepted|, lateLength := st.lateLength || st.finished)
  }

  function LocalStep(st: OutStream, i: nat, socketOpen: bool, a: Action): Option<Local> {
    match a
    case Write(_, chunk) => Some(WriteStep(st, i, socketOpen, chunk))
    case Finish(_) => Some(FinishStep(st, i, socketOpen))
    case Acquire(_) => AcquireStep(st, i, socketOpen)
    case TurnStream(_) => TurnStreamStep(st, i, socketOpen)
    case Debit(_) => DebitStep(st)
    case Send(_) => SendStep(st, i, socketOpen)
    case Flushed(_) => FlushedStep(st)
    case FlushFails(_) => FlushFailsStep(st, socketOpen)
    case UpdateStream(_, increment) => UpdateStreamStep(st, increment)
    case CloseStream(_) => Some(CloseStreamStep(st))
    case _ => None
  }

  // ---------- steps of the whole sender ----------

  function Append(wire: seq<OutFrame>, f: Option<OutFrame>): seq<OutFrame> {
    if f.Some? then wire + [f.value] else wire
  }

  function TurnParentStep(s: Sender, i: nat): Option<Sender> {
    if i >= |s.streams| || !s.streams[i].pc.AtParent? || i in s.conn.waiters then None
    else
      var st := s.streams[i];
      match TurnOf(s.conn, st.pc.want)
      case Raises =>
        Some(s.(streams := s.streams[i := st.(pc := Stuck(st.pc.chunk, 0))], wire :=
            Append(s.wire, Out(s.socketOpen, Reset(i)))))
      case Waits => Some(s.(conn := AfterTurn(s.conn, i, st.pc.want)))
      case Wants(n) =>
        Some(s.(conn := s.conn.(size := s.conn.size - n), streams :=
            s.streams[i := st.(pc := Granted(st.pc.chunk, n))]))
  }

  /** Encoding a header list and writing its frame is one step; the table changes even if the socket is closed. */
  function WriteHeadersStep(cx: Codec, s: Sender, i: nat, length: Option<int>, headers: seq<Header>): Option<Sender>
    requires ValidCodec(cx) && s.table.Valid()
  {
    if i >= |s.streams| then None
    else
      var (block, table) := EncodeBlock(cx, s.table, headers);
      Some(s.(streams := s.streams[i := HeadersStep(s.streams[i], length)],
              wire := Append(s.wire, Out(s.socketOpen, HeaderBlock(i, block))),
              table := table, blocks := s.blocks + [headers], authors := s.authors + [i]))
  }

  /** None means that the action is not possible in this state. */
  function Step(cx: Codec, s: Sender, a: Action): (r: Option<Sender>)
    requires ValidCodec(cx) && s.table.Valid()
    ensures r.Some? ==> r.value.table.Valid()
  {
    match a
    case Create(initial) =>
      if initial > MAX_WINDOW_SIZE then None else Some(s.(streams := s.streams + [NewOutStream(initial)]))
    case WriteHeaders(i, length, headers) => WriteHeadersStep(cx, s, i, length, headers)
    case TurnParent(i) => TurnParentStep(s, i)
    case UpdateConn(increment) =>
      if !(1 <= increment <= MAX_WINDOW_SIZE) then None
      else Some(s.(conn := Adjusted(s.conn, increment), credited := s.credited + increment))
    case CloseConn => Some(s.(conn := s.conn.(closed := true, waiters := {})))
    case CloseSocket => Some(s.(socketOpen := false))
    case _ =>
      if a.i >= |s.streams| then None
      else
        var local :- LocalStep(s.streams[a.i], a.i, s.socketOpen, a);
        Some(s.(streams := s.streams[a.i := local.st], wire := Append(s.wire, local.frame)))
  }

  function Start(limit: nat): Sender {
    Sender(Win(DEFAULT_WINDOW_SIZE, false, {}), 0, true, [], [], Table([], 0, limit), [], [])
  }

  /** The states of a run; it ends early at an impossible action. */
  function Run(cx: Codec, s: Sender, actions: seq<Action>): (r: Option<Sender>)
    requires ValidCodec(cx) && s.table.Valid()
    ensures r.Some? ==> r.value.table.Valid()
    decreases |actions|
  {
    if actions == [] then Some(s)
    else
      var t :- Run(cx, s, actions[..|actions| - 1]);
      Step(cx, t, actions[|actions| - 1])
  }

  // ---------- what is on the wire ----------

  /** The DATA payloads of stream i, concatenated. */
  function Sent(wire: seq<OutFrame>, i: nat): bytes {
    if wire == [] then []
    else
      var f := wire[|wire| - 1];
      Sent(wire[..|wire| - 1], i) + if f.Data? && f.stream == i then f.payload else []
  }

  function SentTotal(wire: seq<OutFrame>): nat {
    if wire == [] then 0
    else
      var f := wire[|wire| - 1];
      SentTotal(wire[..|wire| - 1]) + if f.Data? then |f.payload| else 0
  }

  predicate Ended(wire: seq<OutFrame>, i: nat) {
    wire != [] && (Ended(wire[..|wire| - 1], i) || (var f := wire[|wire| - 1]; f.Data? && f.stream == i && f.endStream))
  }

  /** No DATA of stream i but further END_STREAM frames follow its END_STREAM. */
  predicate NothingAfterEnd(wire: seq<OutFrame>, i: nat) {
    wire == []
    || (NothingAfterEnd(wire[..|wire| - 1], i)
        && (var f := wire[|wire| - 1];
            f.Data? && f.stream == i && Ended(wire[..|wire| - 1], i) ==> f.endStream && f.payload == []))
  }

  /** Frames of other streams change nothing. */
  lemma OtherFrame(wire: seq<OutFrame>, f: OutFrame, i: nat)
    requires f.Data? ==> f.stream != i
    ensures Sent(wire + [f], i) == Sent(wire, i)
    ensures Ended(wire + [f], i) == Ended(wire, i)
    ensures NothingAfterEnd(wire + [f], i) == NothingAfterEnd(wire, i)
  {
    assert (wire + [f])[..|wire|] == wire;
  }

  lemma DataFrame(wire: seq<OutFrame>, f: OutFrame)
    requires f.Data?
    ensures Sent(wire + [f], f.stream) == Sent(wire, f.stream) + f.payload
    ensures SentTotal(wire + [f]) == SentTotal(wire) + |f.payload|
    ensures Ended(wire + [f], f.stream) == (Ended(wire, f.stream) || f.endStream)
    ensures NothingAfterEnd(wire + [f], f.stream) ==
            (NothingAfterEnd(wire, f.stream) && (Ended(wire, f.stream) ==> f.endStream && f.payload == []))
  {
    assert (wire + [f])[..|wire|] == wire;
  }

  // ---------- the invariant of one stream ----------

  /** What the lock holder still has to send. */
  function Rest(pc: Pc): bytes {
    match pc
    case Idle => []
    case Flushing(chunk, grant) => if grant <= |chunk| then chunk[grant..] else []
    case _ => pc.chunk
  }

  function Queued(queue: seq<Op>): bytes {
    if queue == [] then []
    else (match queue[0] case Chunk(data) => data case End => []) + Queued(queue[1..])
  }

  /** Taken from the stream's window, or from the connection's, but not sent yet. */
  function HeldOfStream(pc: Pc): nat {
    if pc.Allowed? || pc.Stuck? then pc.grant else 0
  }

  function HeldOfConn(pc: Pc): nat {
    if pc.Granted? || pc.Allowed? || pc.Stuck? then pc.grant else 0
  }

  /** Every chunk is non-empty, and every grant is positive, at most the request and at most the window. */
  ghost predicate PcOk(st: OutStream) {
    match st.pc
    case Idle => true
    case AtStream(chunk) => chunk != []
    case AtParent(chunk, want) => 1 <= want <= |chunk| && want <= st.window.size
    case Granted(chunk, grant) => 1 <= grant <= |chunk| && grant <= st.window.size
    case Allowed(chunk, grant) => 1 <= grant <= |chunk|
    case Flushing(chunk, grant) => 1 <= grant <= |chunk|
    case Stuck(chunk, grant) => grant <= |chunk|
  }

  /** Chunks are not empty, and unless one was accepted after `finish`, only ENDs follow an END. */
  ghost predicate QueueOk(st: OutStream) {
    && (forall j :: 0 <= j < |st.queue| && st.queue[j].Chunk? ==> st.queue[j].data != [])
    && (forall j :: 0 <= j < |st.queue| && st.queue[j].End? ==> st.finished)
    && (!st.lateChunk ==> forall j, k :: 0 <= j < k < |st.queue| && st.queue[j].End? ==> st.queue[k].End?)
  }

  /** What is left of the declared length; negative once a chunk has been refused. */
  ghost predicate LengthOk(st: OutStream) {
    && st.declared.Some? == st.remaining.Some? && st.base <= |st.accepted|
    && (st.remaining.Some? ==>
          && st.remaining.value + |st.accepted| - st.base <= st.declared.value
          && (st.remaining.value >= 0 ==> st.remaining.value + |st.accepted| - st.base == st.declared.value)
          && (st.finished && !st.lateLength ==>
                st.remaining.value <= 0 && |st.accepted| - st.base == st.declared.value))
  }

  ghost predicate WaitersOk(st: OutStream, i: nat) {
    NoLostWakeup(st.window) && forall j :: j in st.window.waiters ==> j == i && st.pc.AtStream?
  }

  ghost predicate WindowOk(st: OutStream, wire: seq<OutFrame>, i: nat) {
    && st.window.size >= 0 && st.initial <= MAX_WINDOW_SIZE
    && st.window.size + |Sent(wire, i)| + HeldOfStream(st.pc) == st.initial + st.credited
  }

  ghost predicate DataOk(st: OutStream, wire: seq<OutFrame>, i: nat) {
    Sent(wire, i) + Rest(st.pc) + Queued(st.queue) == st.accepted
  }

  ghost predicate EndOk(st: OutStream, wire: seq<OutFrame>, i: nat) {
    !st.lateChunk ==>
      && NothingAfterEnd(wire, i)
      && (Ended(wire, i) ==> st.finished && st.pc == Idle && forall j :: 0 <= j < |st.queue| ==> st.queue[j].End?)
  }

  ghost predicate StreamInv(st: OutStream, wire: seq<OutFrame>, i: nat) {
    && PcOk(st) && QueueOk(st) && LengthOk(st) && WaitersOk(st, i)
    && WindowOk(st, wire, i) && DataOk(st, wire, i) && EndOk(st, wire, i)
  }

  // ---------- every local step keeps it ----------

  lemma {:induction false} QueuedSnoc(queue: seq<Op>, op: Op)
    ensures Queued(queue + [op]) == Queued(queue) + if op.Chunk? then op.data else []
  {
    if queue == [] {
      assert [op][1..] == [];
    } else {
      QueuedSnoc(queue[1..], op);
      assert (queue + [op])[1..] == queue[1..] + [op] && (queue + [op])[0] == queue[0];
      ConcatAssoc(if queue[0].Chunk? then queue[0].data else [], Queued(queue[1..]), if op.Chunk? then op.data else []);
    }
  }

  lemma {:induction false} QueuedEnds(queue: seq<Op>)
    requires forall j :: 0 <= j < |queue| ==> queue[j].End?
    ensures Queued(queue) == []
  {
    if queue != [] {
      QueuedEnds(queue[1..]);
    }
  }

  ghost predicate LocalInv(l: Option<Local>, wire: seq<OutFrame>, i: nat) {
    l.Some? ==>
      && StreamInv(l.value.st, Append(wire, l.value.frame), i)
      && (l.value.frame.Some? ==> l.value.frame.value.stream == i)
  }

  lemma EnqueueKeeps(st: OutStream, wire: seq<OutFrame>, i: nat, chunk: bytes)
    requires QueueOk(st) && DataOk(st, wire, i) && EndOk(st, wire, i) && chunk != []
    ensures var t := Enqueue(st, chunk);
            QueueOk(t) && DataOk(t, wire, i) && EndOk(t, wire, i)
  {
    hide Queued, Sent, Ended, NothingAfterEnd;
    QueuedSnoc(st.queue, Chunk(chunk));
    ConcatAssoc(Sent(wire, i) + Rest(st.pc), Queued(st.queue), chunk);
  }

  lemma WriteKeeps(st: OutStream, wire: seq<OutFrame>, i: nat, socketOpen: bool, chunk: bytes)
    requires StreamInv(st, wire, i)
    ensures LocalInv(Some(WriteStep(st, i, socketOpen, chunk)), wire, i)
  {
    hide Queued, Sent, Ended, NothingAfterEnd;
    OtherFrame(wire, Reset(i), i);
    if chunk != [] {
      EnqueueKeeps(st, wire, i, chunk);
    }
  }

  lemma FinishKeeps(st: OutStream, wire: seq<OutFrame>, i: nat, socketOpen: bool)
    requires StreamInv(st, wire, i)
    ensures LocalInv(Some(FinishStep(st, i, socketOpen)), wire, i)
  {
    hide Sent, Ended, NothingAfterEnd, Queued;
    QueuedSnoc(st.queue, End);
    assert Queued(st.queue) + [] == Queued(st.queue);
    OtherFrame(wire, Reset(i), i);
  }

  lemma AcquireKeeps(st: OutStream, wire: seq<OutFrame>, i: nat, socketOpen: bool)
    requires StreamInv(st, wire, i)
    ensures LocalInv(AcquireStep(st, i, socketOpen), wire, i)
  {
    hide Sent, Ended, NothingAfterEnd;
    if st.pc == Idle && st.queue != [] {
      var rest := st.queue[1..];
      match st.queue[0]
      case Chunk(data) =>
        assert Sent(wire, i) + data + Queued(rest) == Sent(wire, i) + [] + (data + Queued(rest));
      case End =>
        DataFrame(wire, Data(i, [], true));
        assert Sent(wire, i) + [] == Sent(wire, i) && [] + Queued(rest) == Queued(rest);
        OnlyEndsAfterEnd(st);
    }
  }

  lemma OnlyEndsAfterEnd(st: OutStream)
    requires QueueOk(st) && st.queue != [] && st.queue[0].End?
    ensures st.finished && (!st.lateChunk ==> forall j :: 0 <= j < |st.queue[1..]| ==> st.queue[1..][j].End?)
  {
  }

  lemma TurnStreamKeeps(st: OutStream, wire: seq<OutFrame>, i: nat, socketOpen: bool)
    requires StreamInv(st, wire, i)
    ensures LocalInv(TurnStreamStep(st, i, socketOpen), wire, i)
  {
    hide Sent, Ended, NothingAfterEnd, Queued;
    OtherFrame(wire, Reset(i), i);
  }

  lemma DebitKeeps(st: OutStream, wire: seq<OutFrame>, i: nat)
    requires StreamInv(st, wire, i)
    ensures LocalInv(DebitStep(st), wire, i)
  {
    hide Sent, Ended, NothingAfterEnd, Queued;
  }

  /** What was queued and promised does not depend on where the writer stands. */
  lemma SamePromises(st: OutStream, t: OutStream)
    requires t == st.(pc := t.pc, window := t.window)
    ensures QueueOk(t) == QueueOk(st) && LengthOk(t) == LengthOk(st)
  {
  }

  lemma SentKeepsData(st: OutStream, wire: seq<OutFrame>, i: nat)
    requires PcOk(st) && DataOk(st, wire, i) && WindowOk(st, wire, i) && SendStep(st, i, true).Some?
    ensures var l := SendStep(st, i, true).value;
            DataOk(l.st, Append(wire, l.frame), i) && WindowOk(l.st, Append(wire, l.frame), i)
  {
    hide Sent, Queued, Ended, NothingAfterEnd;
    DataFrame(wire, Data(i, st.pc.chunk[..st.pc.grant], false));
    ChunkSplits(Sent(wire, i), st.pc.chunk, st.pc.grant);
  }

  lemma SentKeepsEnd(st: OutStream, wire: seq<OutFrame>, i: nat)
    requires EndOk(st, wire, i) && SendStep(st, i, true).Some?
    ensures var l := SendStep(st, i, true).value; EndOk(l.st, Append(wire, l.frame), i)
  {
    hide Sent, Ended, NothingAfterEnd;
    DataFrame(wire, Data(i, st.pc.chunk[..st.pc.grant], false));
  }

  lemma SendKeeps(st: OutStream, wire: seq<OutFrame>, i: nat, socketOpen: bool)
    requires StreamInv(st, wire, i)
    ensures LocalInv(SendStep(st, i, socketOpen), wire, i)
  {
    hide QueueOk, LengthOk, WaitersOk, WindowOk, DataOk, EndOk;
    if SendStep(st, i, socketOpen).Some? {
      SamePromises(st, SendStep(st, i, socketOpen).value.st);
      if socketOpen {
        SentKeepsData(st, wire, i);
        SentKeepsEnd(st, wire, i);
        SentKeepsWaiters(st, i);
      } else {
        NotSentKeeps(st, wire, i);
      }
    }
  }

  lemma SentKeepsWaiters(st: OutStream, i: nat)
    requires WaitersOk(st, i) && SendStep(st, i, true).Some?
    ensures WaitersOk(SendStep(st, i, true).value.st, i)
  {
  }

  lemma NotSentKeeps(st: OutStream, wire: seq<OutFrame>, i: nat)
    requires StreamInv(st, wire, i) && SendStep(st, i, false).Some?
    ensures StreamInv(SendStep(st, i, false).value.st, wire, i)
  {
    hide Sent, Queued, Ended, NothingAfterEnd;
  }

  lemma ChunkSplits(sent: bytes, c: bytes, g: nat)
    requires g <= |c|
    ensures (sent + c[..g]) + c[g..] == sent + c
  {
    assert c == c[..g] + c[g..];
    ConcatAssoc(sent, c[..g], c[g..]);
  }

  lemma FlushedKeeps(st: OutStream, wire: seq<OutFrame>, i: nat)
    requires StreamInv(st, wire, i)
    ensures LocalInv(FlushedStep(st), wire, i)
  {
    hide Sent, Ended, NothingAfterEnd, Queued;
  }

  lemma FlushFailsKeeps(st: OutStream, wire: seq<OutFrame>, i: nat, socketOpen: bool)
    requires StreamInv(st, wire, i)
    ensures LocalInv(FlushFailsStep(st, socketOpen), wire, i)
  {
    hide Sent, Ended, NothingAfterEnd, Queued;
  }

  lemma UpdateStreamKeeps(st: OutStream, wire: seq<OutFrame>, i: nat, increment: nat)
    requires StreamInv(st, wire, i)
    ensures LocalInv(UpdateStreamStep(st, increment), wire, i)
  {
    hide Sent, Ended, NothingAfterEnd, Queued;
  }

  lemma CloseStreamKeeps(st: OutStream, wire: seq<OutFrame>, i: nat)
    requires StreamInv(st, wire, i)
    ensures LocalInv(Some(CloseStreamStep(st)), wire, i)
  {
    hide Sent, Ended, NothingAfterEnd, Queued;
  }

  lemma HeadersKeeps(st: OutStream, wire: seq<OutFrame>, i: nat, length: Option<int>)
    requires StreamInv(st, wire, i)
    ensures StreamInv(HeadersStep(st, length), wire, i)
  {
    hide Sent, Ended, NothingAfterEnd, Queued;
  }
}
