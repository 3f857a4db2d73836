/** What every run of the write path keeps, whatever the interleaving. */
module WriterRuns {
  import opened Bits
  import opened Protocol
  import opened FlowControl
  import opened DynamicTable
  import opened Hpack
  import opened Writers

  // ---------- sums over streams and frames ----------

  function Held(streams: seq<OutStream>): nat {
    if streams == [] then 0
    else Held(streams[..|streams| - 1]) + HeldOfConn(streams[|streams| - 1].pc)
  }

  lemma {:induction false} HeldUpdate(streams: seq<OutStream>, i: nat, st: OutStream)
    requires i < |streams|
    ensures Held(streams[i := st]) == Held(streams) - HeldOfConn(streams[i].pc) + HeldOfConn(st.pc)
  {
    var n := |streams| - 1;
    if i == n {
      assert streams[i := st][..n] == streams[..n];
    } else {
      HeldUpdate(streams[..n], i, st);
      assert streams[i := st][..n] == streams[..n][i := st];
    }
  }

  lemma HeldSnoc(streams: seq<OutStream>, st: OutStream)
    ensures Held(streams + [st]) == Held(streams) + HeldOfConn(st.pc)
  {
    assert (streams + [st])[..|streams|] == streams;
  }

  /** The header blocks on the wire, and the streams that sent them. */
  function Blocks(wire: seq<OutFrame>): seq<seq<bool>> {
    if wire == [] then []
    else
      var f := wire[|wire| - 1];
      Blocks(wire[..|wire| - 1]) + if f.HeaderBlock? then [f.block] else []
  }

  function Authors(wire: seq<OutFrame>): seq<nat> {
    if wire == [] then []
    else
      var f := wire[|wire| - 1];
      Authors(wire[..|wire| - 1]) + if f.HeaderBlock? then [f.stream] else []
  }

  lemma OneMoreFrame(wire: seq<OutFrame>, f: OutFrame)
    ensures SentTotal(wire + [f]) == SentTotal(wire) + if f.Data? then |f.payload| else 0
    ensures Blocks(wire + [f]) == if f.HeaderBlock? then Blocks(wire) + [f.block] else Blocks(wire)
    ensures Authors(wire + [f]) == if f.HeaderBlock? then Authors(wire) + [f.stream] else Authors(wire)
  {
    assert (wire + [f])[..|wire|] == wire;
  }

  // ---------- the invariant ----------

  ghost predicate KnownStreams(s: Sender) {
    forall k :: 0 <= k < |s.wire| ==> s.wire[k].stream < |s.streams|
  }

  ghost predicate StreamsInv(s: Sender) {
    forall i :: 0 <= i < |s.streams| ==> StreamInv(s.streams[i], s.wire, i)
  }

  ghost predicate ConnOk(s: Sender) {
    && s.conn.size >= 0
    && s.conn.size + SentTotal(s.wire) + Held(s.streams) == DEFAULT_WINDOW_SIZE + s.credited
    && NoLostWakeup(s.conn)
    && forall j :: j in s.conn.waiters ==> j < |s.streams| && s.streams[j].pc.AtParent?
  }

  /**
   * The header blocks on the wire are those of the first header lists in the order they were encoded,
   * and of all of them as long as the socket is open.
   */
  ghost predicate HeadersOk(cx: Codec, limit: nat, s: Sender)
    requires ValidCodec(cx)
  {
    var n, t0 := |Blocks(s.wire)|, Table([], 0, limit);
    && n <= |s.blocks| == |s.authors| && (s.socketOpen ==> n == |s.blocks|)
    && Blocks(s.wire) == EncodeBlocks(cx, t0, s.blocks[..n]).0 && Authors(s.wire) == s.authors[..n]
    && EncodeBlocks(cx, t0, s.blocks).1 == s.table
  }

  ghost predicate Inv(cx: Codec, limit: nat, s: Sender)
    requires ValidCodec(cx)
  {
    KnownStreams(s) && StreamsInv(s) && ConnOk(s) && HeadersOk(cx, limit, s)
  }

  // ---------- one stream changes, and writes at most one frame ----------

  /** The other streams do not notice. */
  lemma OthersKeep(s: Sender, i: nat, st: OutStream, f: Option<OutFrame>)
    requires StreamsInv(s) && i < |s.streams|
    requires f.Some? ==> f.value.stream == i
    requires StreamInv(st, Append(s.wire, f), i)
    ensures StreamsInv(s.(streams := s.streams[i := st], wire := Append(s.wire, f)))
  {
    hide PcOk, QueueOk, LengthOk, WaitersOk, Sent, Ended, NothingAfterEnd;
    var t := s.(streams := s.streams[i := st], wire := Append(s.wire, f));
    forall k | 0 <= k < |t.streams|
      ensures StreamInv(t.streams[k], t.wire, k)
    {
      if k != i && f.Some? {
        OtherFrame(s.wire, f.value, k);
      }
    }
  }

  lemma LocalKeeps(st: OutStream, wire: seq<OutFrame>, i: nat, socketOpen: bool, a: Action)
    requires StreamInv(st, wire, i)
    ensures LocalInv(LocalStep(st, i, socketOpen, a), wire, i)
  {
    hide StreamInv;
    match a
    case Write(_, chunk) => WriteKeeps(st, wire, i, socketOpen, chunk);
    case Finish(_) => FinishKeeps(st, wire, i, socketOpen);
    case Acquire(_) => AcquireKeeps(st, wire, i, socketOpen);
    case TurnStream(_) => TurnStreamKeeps(st, wire, i, socketOpen);
    case Debit(_) => DebitKeeps(st, wire, i);
    case Send(_) => SendKeeps(st, wire, i, socketOpen);
    case Flushed(_) => FlushedKeeps(st, wire, i);
    case FlushFails(_) => FlushFailsKeeps(st, wire, i, socketOpen);
    case UpdateStream(_, increment) => UpdateStreamKeeps(st, wire, i, increment);
    case CloseStream(_) => CloseStreamKeeps(st, wire, i);
    case _ =>
  }

  /** What a local step sends was held before, and it moves no other writer from the connection's queue. */
  lemma LocalHeld(st: OutStream, i: nat, socketOpen: bool, a: Action)
    ensures var l := LocalStep(st, i, socketOpen, a);
            l.Some? ==>
              && HeldOfConn(l.value.st.pc) + (if l.value.frame.Some? && l.value.frame.value.Data? then
                 |l.value.frame.value.payload| else 0)
                 == HeldOfConn(st.pc)
              && (st.pc.AtParent? ==> l.value.st.pc.AtParent?)
              && !(l.value.frame.Some? && l.value.frame.value.HeaderBlock?)
  {
  }

  lemma LocalStepKeeps(cx: Codec, limit: nat, s: Sender, i: nat, a: Action)
    requires ValidCodec(cx) && Inv(cx, limit, s) && i < |s.streams|
    requires LocalStep(s.streams[i], i, s.socketOpen, a).Some?
    ensures var l := LocalStep(s.streams[i], i, s.socketOpen, a).value;
            Inv(cx, limit, s.(streams := s.streams[i := l.st], wire := Append(s.wire, l.frame)))
  {
    hide ValidCodec, StreamInv, LocalStep, SentTotal, Held, Blocks, Authors, EncodeBlocks;
    var l := LocalStep(s.streams[i], i, s.socketOpen, a).value;
    LocalKeeps(s.streams[i], s.wire, i, s.socketOpen, a);
    LocalHeld(s.streams[i], i, s.socketOpen, a);
    OthersKeep(s, i, l.st, l.frame);
    HeldUpdate(s.streams, i, l.st);
    if l.frame.Some? {
      OneMoreFrame(s.wire, l.frame.value);
    }
  }

  // ---------- the connection window ----------

  lemma TurnParentStreamKeeps(s: Sender, i: nat)
    requires i < |s.streams| && TurnParentStep(s, i).Some? && StreamInv(s.streams[i], s.wire, i)
    ensures var t := TurnParentStep(s, i).value;
            StreamInv(t.streams[i], t.wire, i)
  {
    hide Queued, Sent, Ended, NothingAfterEnd;
    OtherFrame(s.wire, Reset(i), i);
  }

  /** The step as a change of one stream with at most one frame, and of the connection window. */
  lemma TurnParentShape(s: Sender, i: nat)
    requires i < |s.streams| && TurnParentStep(s, i).Some?
    ensures var t := TurnParentStep(s, i).value;
            exists f: Option<OutFrame> ::
              && (f.Some? ==> f.value == Reset(i))
              && t == s.(streams := s.streams[i := t.streams[i]], wire := Append(s.wire, f), conn := t.conn)
  {
    var t := TurnParentStep(s, i).value;
    assert s.streams[i := s.streams[i]] == s.streams;
    var f := if TurnOf(s.conn, s.streams[i].pc.want).Raises? then Out(s.socketOpen, Reset(i)) else None;
    assert t == s.(streams := s.streams[i := t.streams[i]], wire := Append(s.wire, f), conn := t.conn);
  }

  lemma TurnParentKeeps(cx: Codec, limit: nat, s: Sender, i: nat)
    requires ValidCodec(cx) && Inv(cx, limit, s) && TurnParentStep(s, i).Some?
    ensures Inv(cx, limit, TurnParentStep(s, i).value)
  {
    hide ValidCodec, StreamInv, SentTotal, Held, Blocks, Authors, EncodeBlocks;
    var t := TurnParentStep(s, i).value;
    TurnParentStreamKeeps(s, i);
    TurnParentShape(s, i);
    var f: Option<OutFrame> :| (f.Some? ==> f.value == Reset(i))
      && t == s.(streams := s.streams[i := t.streams[i]], wire := Append(s.wire, f), conn := t.conn);
    OthersKeep(s, i, t.streams[i], f);
    HeldUpdate(s.streams, i, t.streams[i]);
    OneMoreFrame(s.wire, Reset(i));
  }

  // ---------- the other steps ----------

  lemma WriteHeadersKeeps(cx: Codec, limit: nat, s: Sender, i: nat, length: Option<int>, headers: seq<Header>)
    requires ValidCodec(cx) && Inv(cx, limit, s) && s.table.Valid()
    requires WriteHeadersStep(cx, s, i, length, headers).Some?
    ensures Inv(cx, limit, WriteHeadersStep(cx, s, i, length, headers).value)
  {
    hide ValidCodec, StreamInv, SentTotal, Held, Blocks, Authors, EncodeBlock, HeadersOk;
    var t := WriteHeadersStep(cx, s, i, length, headers).value;
    var f := HeaderBlock(i, EncodeBlock(cx, s.table, headers).0);
    HeadersStreamKeeps(s, i, length, f);
    OthersKeep(s, i, t.streams[i], Out(s.socketOpen, f));
    HeldUpdate(s.streams, i, t.streams[i]);
    OneMoreFrame(s.wire, f);
    OneMoreBlock(cx, limit, s, i, length, headers);
  }

  lemma OneMoreBlock(cx: Codec, limit: nat, s: Sender, i: nat, length: Option<int>, headers: seq<Header>)
    requires ValidCodec(cx) && HeadersOk(cx, limit, s) && s.table.Valid()
    requires WriteHeadersStep(cx, s, i, length, headers).Some?
    ensures HeadersOk(cx, limit, WriteHeadersStep(cx, s, i, length, headers).value)
  {
    hide ValidCodec, Blocks, Authors, EncodeBlock, HeadersStep;
    var t := WriteHeadersStep(cx, s, i, length, headers).value;
    var n := |Blocks(s.wire)|;
    OneMoreFrame(s.wire, HeaderBlock(i, EncodeBlock(cx, s.table, headers).0));
    assert t.blocks[..|s.blocks|] == s.blocks && t.blocks[..n] == s.blocks[..n] && t.authors[..n] == s.authors[..n];
    if s.socketOpen {
      assert s.blocks[..n] == s.blocks && s.authors[..n] == s.authors;
      assert t.blocks[..n + 1] == t.blocks && t.authors[..n + 1] == t.authors;
    }
  }

  lemma HeadersStreamKeeps(s: Sender, i: nat, length: Option<int>, f: OutFrame)
    requires i < |s.streams| && StreamInv(s.streams[i], s.wire, i) && f.HeaderBlock?
    ensures StreamInv(HeadersStep(s.streams[i], length), Append(s.wire, Out(s.socketOpen, f)), i)
  {
    hide Sent, Ended, NothingAfterEnd, Queued;
    HeadersKeeps(s.streams[i], s.wire, i, length);
    OtherFrame(s.wire, f, i);
  }

  lemma {:induction false} NothingFromUnknown(wire: seq<OutFrame>, i: nat)
    requires forall k :: 0 <= k < |wire| ==> wire[k].stream != i
    ensures Sent(wire, i) == [] && !Ended(wire, i) && NothingAfterEnd(wire, i)
  {
    if wire != [] {
      NothingFromUnknown(wire[..|wire| - 1], i);
    }
  }

  lemma CreateKeeps(cx: Codec, limit: nat, s: Sender, initial: nat)
    requires ValidCodec(cx) && Inv(cx, limit, s) && initial <= MAX_WINDOW_SIZE
    ensures Inv(cx, limit, s.(streams := s.streams + [NewOutStream(initial)]))
  {
    hide ValidCodec, SentTotal, Held, Blocks, Authors, EncodeBlocks;
    HeldSnoc(s.streams, NewOutStream(initial));
    NothingFromUnknown(s.wire, |s.streams|);
  }

  lemma StepKeeps(cx: Codec, limit: nat, s: Sender, a: Action)
    requires ValidCodec(cx) && s.table.Valid() && Inv(cx, limit, s) && Step(cx, s, a).Some?
    ensures Inv(cx, limit, Step(cx, s, a).value)
  {
    hide ValidCodec, StreamInv, SentTotal, Held, Blocks, Authors, EncodeBlocks, EncodeBlock, LocalStep,
      TurnParentStep, WriteHeadersStep;
    match a
    case Create(initial) => CreateKeeps(cx, limit, s, initial);
    case WriteHeaders(i, length, headers) => WriteHeadersKeeps(cx, limit, s, i, length, headers);
    case TurnParent(i) => TurnParentKeeps(cx, limit, s, i);
    case UpdateConn(increment) =>
    case CloseConn =>
    case CloseSocket =>
    case _ => LocalStepKeeps(cx, limit, s, a.i, a);
  }

  lemma {:induction false} RunKeeps(cx: Codec, limit: nat, actions: seq<Action>)
    requires ValidCodec(cx)
    ensures var r := Run(cx, Start(limit), actions);
            r.Some? ==> Inv(cx, limit, r.value)
    decreases |actions|
  {
    hide ValidCodec, Step, StreamInv;
    if actions != [] {
      var before := actions[..|actions| - 1];
      RunKeeps(cx, limit, before);
      if Run(cx, Start(limit), actions).Some? {
        StepKeeps(cx, limit, Run(cx, Start(limit), before).value, actions[|actions| - 1]);
      }
    }
  }

  // ---------- what the invariant means ----------

  /** No window ever goes negative, and what was taken from each is exactly what was sent or is still held. */
  lemma WindowsAreSafe(cx: Codec, limit: nat, actions: seq<Action>)
    requires ValidCodec(cx)
    ensures var r := Writers.Run(cx, Start(limit), actions);
            r.Some? ==>
              var s := r.value;
              && s.conn.size >= 0
              && DEFAULT_WINDOW_SIZE + s.credited - s.conn.size == SentTotal(s.wire) + Held(s.streams)
              && forall i :: 0 <= i < |s.streams| ==>
                   && s.streams[i].window.size >= 0
                   && s.streams[i].initial + s.streams[i].credited - s.streams[i].window.size
                      == |Sent(s.wire, i)| + HeldOfStream(s.streams[i].pc)
  {
    RunKeeps(cx, limit, actions);
    hide ValidCodec, Writers.Run, PcOk, QueueOk, LengthOk, WaitersOk, DataOk, EndOk, Sent, SentTotal, Held;
  }

  /** A registered waiter really has to wait: nobody sleeps on a window that has credit or is closed. */
  lemma WakeupsAreNotLost(cx: Codec, limit: nat, actions: seq<Action>)
    requires ValidCodec(cx)
    ensures var r := Writers.Run(cx, Start(limit), actions);
            r.Some? ==>
              var s := r.value;
              && (s.conn.waiters != {} ==> s.conn.size <= 0 && !s.conn.closed)
              && forall i :: 0 <= i < |s.streams| && s.streams[i].window.waiters != {} ==>
                   s.streams[i].window.size <= 0 && !s.streams[i].window.closed
  {
    RunKeeps(cx, limit, actions);
    hide ValidCodec, Writers.Run, PcOk, QueueOk, LengthOk, WindowOk, DataOk, EndOk;
  }

  /**
   * Each stream's DATA payloads are the accepted chunks in call order, as far as they have been
   * written. Unless a chunk was accepted after `finish`, END_STREAM comes after all of them. Unless a
   * length was declared after `finish`, it then comes after exactly as many bytes as were declared
   * last, beyond those accepted before that (none, if headers are written once and first).
   */
  lemma DataInOrder(cx: Codec, limit: nat, actions: seq<Action>, i: nat)
    requires ValidCodec(cx)
    ensures var r := Writers.Run(cx, Start(limit), actions);
            r.Some? && i < |r.value.streams| ==>
              var st, wire := r.value.streams[i], r.value.wire;
              && Sent(wire, i) <= st.accepted
              && (st.pc == Idle && st.queue == [] ==> Sent(wire, i) == st.accepted)
              && (!st.lateChunk ==> NothingAfterEnd(wire, i))
              && (!st.lateChunk && Ended(wire, i) ==> Sent(wire, i) == st.accepted)
              && (!st.lateChunk && Ended(wire, i) && !st.lateLength && st.declared.Some? ==>
                    |Sent(wire, i)| == st.base + st.declared.value)
  {
    RunKeeps(cx, limit, actions);
    var r := Writers.Run(cx, Start(limit), actions);
    if r.Some? && i < |r.value.streams| {
      DataMeaning(r.value.streams[i], r.value.wire, i);
    }
  }

  lemma DataMeaning(st: OutStream, wire: seq<OutFrame>, i: nat)
    requires StreamInv(st, wire, i)
    ensures Sent(wire, i) <= st.accepted
    ensures st.pc == Idle && st.queue == [] ==> Sent(wire, i) == st.accepted
    ensures !st.lateChunk ==> NothingAfterEnd(wire, i)
    ensures !st.lateChunk && Ended(wire, i) ==> Sent(wire, i) == st.accepted
    ensures !st.lateChunk && Ended(wire, i) && !st.lateLength && st.declared.Some? ==>
              |Sent(wire, i)| == st.base + st.declared.value
  {
    hide Sent, NothingAfterEnd;
    assert Sent(wire, i) + Rest(st.pc) + Queued(st.queue) == Sent(wire, i) + (Rest(st.pc) + Queued(st.queue));
    if !st.lateChunk && Ended(wire, i) {
      QueuedEnds(st.queue);
    }
  }

  /**
   * What a writer gets from the connection window: with credit there and the window open, the smaller
   * of what it wants and what is there, and never more than its chunk or its stream's window holds.
   */
  lemma GrantBounds(cx: Codec, limit: nat, actions: seq<Action>, i: nat)
    requires ValidCodec(cx)
    ensures var r, r' := Writers.Run(cx, Start(limit), actions),
            Writers.Run(cx, Start(limit), actions + [TurnParent(i)]);
            r'.Some? ==>
              && r.Some? && i < |r.value.streams|
              && var s, t, pc := r.value, r'.value, r.value.streams[i].pc;
                 && pc.AtParent?
                 && (t.streams[i].pc.Granted? <==> !s.conn.closed && s.conn.size > 0)
                 && (t.streams[i].pc.Granted? ==>
                       var grant := t.streams[i].pc.grant;
                       && 1 <= grant == (if pc.want < s.conn.size then pc.want else s.conn.size)
                       && pc.want <= |pc.chunk| && pc.want <= s.streams[i].window.size
                       && t.conn.size == s.conn.size - grant)
  {
    hide ValidCodec, QueueOk, LengthOk, WaitersOk, DataOk, EndOk, Sent, SentTotal, Held, HeadersOk;
    RunKeeps(cx, limit, actions);
    assert (actions + [TurnParent(i)])[..|actions|] == actions;
    var r := Writers.Run(cx, Start(limit), actions);
    if r.Some? && i < |r.value.streams| {
      assert StreamInv(r.value.streams[i], r.value.wire, i);
    }
  }

  /**
   * Every frame written by the loop of `_write_chunk` carries a non-empty part of the chunk and leaves
   * a shorter one.
   */
  lemma ChunkShrinks(cx: Codec, limit: nat, actions: seq<Action>, i: nat)
    requires ValidCodec(cx)
    ensures var r, r' := Writers.Run(cx, Start(limit), actions), Writers.Run(cx, Start(limit), actions + [Send(i)]);
            r'.Some? && r.value.socketOpen ==> i < |r.value.streams| && Shortens(r.value, r'.value, i)
  {
    hide ValidCodec, Writers.Run, Step, StreamInv, Shortens;
    RunKeeps(cx, limit, actions);
    OneMoreAction(cx, Start(limit), actions, Send(i));
    var r := Writers.Run(cx, Start(limit), actions);
    if r.Some? && Step(cx, r.value, Send(i)).Some? && r.value.socketOpen {
      SendShortens(cx, r.value, i);
    }
  }

  /** One DATA frame is written, with a non-empty part of what stream i's writer held, which is shorter by that. */
  predicate Shortens(s: Sender, t: Sender, i: nat)
    requires i < |s.streams|
  {
    && i < |t.streams| && |t.wire| == |s.wire| + 1
    && var chunk, rest, f := Rest(s.streams[i].pc), Rest(t.streams[i].pc), t.wire[|s.wire|];
       && t.wire == s.wire + [f] && f.Data? && f.stream == i && !f.endStream
       && f.payload != [] && f.payload + rest == chunk && |rest| < |chunk|
  }

  lemma SendShortens(cx: Codec, s: Sender, i: nat)
    requires ValidCodec(cx) && s.table.Valid() && StreamsInv(s) && s.socketOpen && Step(cx, s, Send(i)).Some?
    ensures i < |s.streams| && Shortens(s, Step(cx, s, Send(i)).value, i)
  {
    hide ValidCodec, QueueOk, LengthOk, WaitersOk, WindowOk, DataOk, EndOk;
    assert StreamInv(s.streams[i], s.wire, i);
    var pc := s.streams[i].pc;
    assert pc.chunk == pc.chunk[..pc.grant] + pc.chunk[pc.grant..];
  }

  // ---------- writers that fail ----------

  /** A turn on a window that was closed before, or a write to the socket after it was closed. */
  predicate Ruins(closing: Action, a: Action, i: nat) {
    || (closing == CloseStream(i) && a == TurnStream(i))
    || (closing == CloseConn && a == TurnParent(i))
    || (closing == CloseSocket && (a == Send(i) || a == FlushFails(i)))
  }

  ghost predicate Ruined(actions: seq<Action>, i: nat) {
    exists j, k :: 0 <= j < k < |actions| && Ruins(actions[j], actions[k], i)
  }

  lemma RuinedSnoc(actions: seq<Action>, a: Action, i: nat)
    ensures Ruined(actions + [a], i) <==>
            Ruined(actions, i)
            || (a == TurnStream(i) && CloseStream(i) in actions)
            || (a == TurnParent(i) && CloseConn in actions)
            || ((a == Send(i) || a == FlushFails(i)) && CloseSocket in actions)
  {
    var all, n := actions + [a], |actions|;
    if Ruined(actions, i) {
      var j, k :| 0 <= j < k < n && Ruins(actions[j], actions[k], i);
      assert Ruins(all[j], all[k], i);
    }
    if Ruined(all, i) {
      var j, k :| 0 <= j < k < |all| && Ruins(all[j], all[k], i);
      assert all[j] in actions;
      if k < n {
        assert Ruins(actions[j], actions[k], i);
      }
    }
    forall c | c in actions && Ruins(c, a, i)
      ensures Ruined(all, i)
    {
      var j :| 0 <= j < n && actions[j] == c;
      assert Ruins(all[j], all[n], i);
    }
    assert CloseStream(i) in actions && a == TurnStream(i) ==> Ruins(CloseStream(i), a, i);
    assert CloseConn in actions && a == TurnParent(i) ==> Ruins(CloseConn, a, i);
    assert CloseSocket in actions && (a == Send(i) || a == FlushFails(i)) ==> Ruins(CloseSocket, a, i);
  }

  lemma ClosedLocalStep(st: OutStream, i: nat, socketOpen: bool, a: Action)
    requires LocalStep(st, i, socketOpen, a).Some?
    ensures var t := LocalStep(st, i, socketOpen, a).value.st;
            && (t.window.closed <==> st.window.closed || a.CloseStream?)
            && (t.pc.Stuck? <==> || st.pc.Stuck?
                                 || (a.TurnStream? && st.window.closed)
                                 || ((a.Send? || a.FlushFails?) && !socketOpen))
  {
    hide Enqueue, TurnOf, HeadersStep;
    EnqueueIsQuiet(st, a);
    TurnRaises(st);
  }

  lemma EnqueueIsQuiet(st: OutStream, a: Action)
    ensures a.Write? ==> Enqueue(st, a.chunk).window == st.window && Enqueue(st, a.chunk).pc == st.pc
  {
  }

  lemma TurnRaises(st: OutStream)
    ensures st.pc.AtStream? ==> (TurnOf(st.window, |st.pc.chunk|).Raises? <==> st.window.closed)
  {
  }

  /** How one action closes something, or makes the writer of stream i fail. */
  lemma ClosedStep(cx: Codec, s: Sender, a: Action, i: nat)
    requires ValidCodec(cx) && s.table.Valid() && Step(cx, s, a).Some?
    ensures var t := Step(cx, s, a).value;
            && |s.streams| <= |t.streams|
            && (t.socketOpen <==> s.socketOpen && a != CloseSocket)
            && (t.conn.closed <==> s.conn.closed || a == CloseConn)
            && (i >= |s.streams| ==>
                  && a != TurnStream(i) && a != TurnParent(i) && a != Send(i) && a != FlushFails(i)
                     && a != CloseStream(i)
                  && (i < |t.streams| ==> !t.streams[i].window.closed && !t.streams[i].pc.Stuck?))
            && (i < |s.streams| ==>
                  && (t.streams[i].window.closed <==> s.streams[i].window.closed || a == CloseStream(i))
                  && (t.streams[i].pc.Stuck? <==> || s.streams[i].pc.Stuck?
                                                  || (a == TurnStream(i) && s.streams[i].window.closed)
                                                  || (a == TurnParent(i) && s.conn.closed)
                                                  || ((a == Send(i) || a == FlushFails(i)) && !s.socketOpen)))
  {
    hide ValidCodec, EncodeBlock, LocalStep;
    if !a.Create? && !a.WriteHeaders? && !a.TurnParent? && !a.UpdateConn? && !a.CloseConn? && !a.CloseSocket? {
      ClosedLocalStep(s.streams[a.i], a.i, s.socketOpen, a);
    }
  }

  /**
   * A writer fails exactly when one of its turns comes after the closing of that window, or one of its
   * writes after the closing of the socket. Without any closing no writer ever fails.
   */
  lemma {:induction false} StuckExactly(cx: Codec, limit: nat, actions: seq<Action>, i: nat)
    requires ValidCodec(cx) && Writers.Run(cx, Start(limit), actions).Some?
    ensures var s := Writers.Run(cx, Start(limit), actions).value;
            && (s.socketOpen <==> CloseSocket !in actions)
            && (s.conn.closed <==> CloseConn in actions)
            && (CloseStream(i) in actions ==> i < |s.streams|)
            && (i < |s.streams| ==> (s.streams[i].window.closed <==> CloseStream(i) in actions))
            && (if i < |s.streams| then s.streams[i].pc.Stuck? <==> Ruined(actions, i) else !Ruined(actions, i))
    decreases |actions|
  {
    hide ValidCodec, Step, Ruined;
    if actions == [] {
      NothingRuined(i);
    } else {
      var before, a := actions[..|actions| - 1], actions[|actions| - 1];
      assert actions == before + [a];
      StuckExactly(cx, limit, before, i);
      var s := Writers.Run(cx, Start(limit), before).value;
      ClosedStep(cx, s, a, i);
      RuinedSnoc(before, a, i);
    }
  }

  lemma NothingRuined(i: nat)
    ensures !Ruined([], i)
  {
  }

  lemma OneMoreAction(cx: Codec, s: Sender, actions: seq<Action>, a: Action)
    requires ValidCodec(cx) && s.table.Valid()
    ensures var r := Writers.Run(cx, s, actions);
            Writers.Run(cx, s, actions + [a]) == if r.None? then None else Step(cx, r.value, a)
  {
    assert (actions + [a])[..|actions|] == actions;
  }

  /** A sender with this much credit and one stream, and otherwise like `base`. */
  function OneStream(base: Sender, size: int, st: OutStream): Sender {
    base.(conn := Win(size, false, {}), streams := [st])
  }

  function FirstWant(chunk: bytes): nat {
    if |chunk| < DEFAULT_WINDOW_SIZE then |chunk| else DEFAULT_WINDOW_SIZE
  }

  /** A first stream with its first chunk accepted, and holding the lock. */
  function FirstChunk(chunk: bytes): OutStream {
    Enqueue(NewOutStream(DEFAULT_WINDOW_SIZE), chunk)
  }

  function FirstAt(chunk: bytes, pc: Pc): OutStream {
    FirstChunk(chunk).(queue := [], pc := pc)
  }

  /** It has been granted all that the windows allow. */
  function FirstGrant(base: Sender, chunk: bytes): Sender {
    var n := FirstWant(chunk);
    var st := FirstAt(chunk, Allowed(chunk, n));
    OneStream(base, DEFAULT_WINDOW_SIZE - n, st.(window := Win(DEFAULT_WINDOW_SIZE - n, false, {})))
  }

  function ToGrant(chunk: bytes): seq<Action> {
    [Write(0, chunk), Acquire(0)] + [TurnStream(0), TurnParent(0)] + [Debit(0)]
  }

  lemma FirstSteps(cx: Codec, base: Sender, chunk: bytes)
    requires ValidCodec(cx) && base.table.Valid() && chunk != []
    ensures Step(cx, OneStream(base, DEFAULT_WINDOW_SIZE, NewOutStream(DEFAULT_WINDOW_SIZE)), Write(0, chunk))
            == Some(OneStream(base, DEFAULT_WINDOW_SIZE, FirstChunk(chunk)))
    ensures Step(cx, OneStream(base, DEFAULT_WINDOW_SIZE, FirstChunk(chunk)), Acquire(0))
            == Some(OneStream(base, DEFAULT_WINDOW_SIZE, FirstAt(chunk, AtStream(chunk))))
  {
    hide ValidCodec;
    var first, st := NewOutStream(DEFAULT_WINDOW_SIZE), FirstChunk(chunk);
    assert [] + [Chunk(chunk)] == [Chunk(chunk)];
    assert [first][0 := st] == [st] && st.queue[1..] == [];
    assert [st][0 := FirstAt(chunk, AtStream(chunk))] == [FirstAt(chunk, AtStream(chunk))];
  }

  lemma NextSteps(cx: Codec, base: Sender, chunk: bytes)
    requires ValidCodec(cx) && base.table.Valid() && chunk != []
    ensures var n, at := FirstWant(chunk), (pc: Pc) => FirstAt(chunk, pc);
            && Step(cx, OneStream(base, DEFAULT_WINDOW_SIZE, at(AtStream(chunk))), TurnStream(0))
               == Some(OneStream(base, DEFAULT_WINDOW_SIZE, at(AtParent(chunk, n))))
            && Step(cx, OneStream(base, DEFAULT_WINDOW_SIZE, at(AtParent(chunk, n))), TurnParent(0))
               == Some(OneStream(base, DEFAULT_WINDOW_SIZE - n, at(Granted(chunk, n))))
            && Step(cx, OneStream(base, DEFAULT_WINDOW_SIZE - n, at(Granted(chunk, n))),
               Debit(0)) == Some(FirstGrant(base, chunk))
  {
    hide ValidCodec, Enqueue;
    var n := FirstWant(chunk);
    var a, b, c := FirstAt(chunk, AtStream(chunk)), FirstAt(chunk, AtParent(chunk, n)),
        FirstAt(chunk, Granted(chunk, n));
    var d := FirstGrant(base, chunk).streams[0];
    FirstWindow(chunk);
    assert [a][0 := b] == [b] && [b][0 := c] == [c] && [c][0 := d] == [d];
  }

  lemma FirstWindow(chunk: bytes)
    ensures FirstChunk(chunk).window == Win(DEFAULT_WINDOW_SIZE, false, {})
  {
  }

  lemma GrantIsReached(cx: Codec, base: Sender, chunk: bytes)
    requires ValidCodec(cx) && base.table.Valid() && chunk != []
    ensures Writers.Run(cx, OneStream(base, DEFAULT_WINDOW_SIZE, NewOutStream(DEFAULT_WINDOW_SIZE)), ToGrant(chunk))
            == Some(FirstGrant(base, chunk))
  {
    hide ValidCodec, Writers.Run, Step, FirstGrant, FirstAt, FirstChunk, NewOutStream;
    var n, size := FirstWant(chunk), DEFAULT_WINDOW_SIZE;
    var s := OneStream(base, size, NewOutStream(size));
    var a, b := [Write(0, chunk), Acquire(0)], [TurnStream(0), TurnParent(0)];
    NoActions(cx, s);
    FirstSteps(cx, base, chunk);
    NextSteps(cx, base, chunk);
    var x, y := OneStream(base, size, FirstChunk(chunk)), OneStream(base, size, FirstAt(chunk, AtStream(chunk)));
    TwoActions(cx, s, [], Write(0, chunk), Acquire(0), s, x, y);
    assert [] + a == a;
    var z, u := OneStream(base, size, FirstAt(chunk, AtParent(chunk, n))),
        OneStream(base, size - n, FirstAt(chunk, Granted(chunk, n)));
    TwoActions(cx, s, a, TurnStream(0), TurnParent(0), y, z, u);
    OneMoreAction(cx, s, a + b, Debit(0));
  }

  /** From the start of the connection. */
  lemma FirstGrantIsReached(cx: Codec, limit: nat, chunk: bytes)
    requires ValidCodec(cx) && chunk != []
    ensures Writers.Run(cx, Start(limit),
            [Create(DEFAULT_WINDOW_SIZE)] + ToGrant(chunk)) == Some(FirstGrant(Start(limit), chunk))
  {
    hide ValidCodec, Writers.Run, ToGrant, FirstGrant;
    FirstStream(cx, limit);
    GrantIsReached(cx, Start(limit), chunk);
    RunConcat(cx, Start(limit), [Create(DEFAULT_WINDOW_SIZE)], ToGrant(chunk));
  }

  lemma FirstStream(cx: Codec, limit: nat)
    requires ValidCodec(cx)
    ensures Writers.Run(cx, Start(limit), [Create(DEFAULT_WINDOW_SIZE)])
            == Some(OneStream(Start(limit), DEFAULT_WINDOW_SIZE, NewOutStream(DEFAULT_WINDOW_SIZE)))
  {
    hide ValidCodec, Writers.Run;
    NoActions(cx, Start(limit));
    OneMoreAction(cx, Start(limit), [], Create(DEFAULT_WINDOW_SIZE));
    assert [] + [Create(DEFAULT_WINDOW_SIZE)] == [Create(DEFAULT_WINDOW_SIZE)];
    assert [] + [NewOutStream(DEFAULT_WINDOW_SIZE)] == [NewOutStream(DEFAULT_WINDOW_SIZE)];
  }

  lemma NoActions(cx: Codec, s: Sender)
    requires ValidCodec(cx) && s.table.Valid()
    ensures Writers.Run(cx, s, []) == Some(s)
  {
  }

  lemma TwoActions(cx: Codec, s: Sender, actions: seq<Action>, a: Action, b: Action, t: Sender, u: Sender, v: Sender)
    requires ValidCodec(cx) && s.table.Valid() && t.table.Valid() && u.table.Valid()
    requires Writers.Run(cx, s, actions) == Some(t) && Step(cx, t, a) == Some(u) && Step(cx, u, b) == Some(v)
    ensures Writers.Run(cx, s, actions + [a, b]) == Some(v)
  {
    hide ValidCodec, Writers.Run, Step;
    OneMoreAction(cx, s, actions, a);
    OneMoreAction(cx, s, actions + [a], b);
    assert actions + [a, b] == actions + [a] + [b];
  }

  lemma {:induction false} RunConcat(cx: Codec, s: Sender, a: seq<Action>, b: seq<Action>)
    requires ValidCodec(cx) && s.table.Valid() && Writers.Run(cx, s, a).Some?
    ensures Writers.Run(cx, s, a + b) == Writers.Run(cx, Writers.Run(cx, s, a).value, b)
    decreases |b|
  {
    hide ValidCodec, Step;
    if b == [] {
      assert a + b == a;
    } else {
      var n := |b| - 1;
      RunConcat(cx, s, a, b[..n]);
      assert (a + b)[..|a| + n] == a + b[..n];
    }
  }

  /** Such runs exist for every chunk: the socket is closed between its grant and the write of its frame. */
  lemma SomeWriterFails(cx: Codec, limit: nat, chunk: bytes)
    requires ValidCodec(cx) && chunk != []
    ensures var r := Writers.Run(cx, Start(limit),
            [Create(DEFAULT_WINDOW_SIZE)] + ToGrant(chunk) + [CloseSocket, Send(0)]);
            r.Some? && |r.value.streams| == 1 && r.value.streams[0].pc.Stuck? && r.value.wire == []
  {
    hide ValidCodec, Writers.Run, ToGrant;
    FirstGrantIsReached(cx, limit, chunk);
    var s := FirstGrant(Start(limit), chunk);
    var t := s.(socketOpen := false);
    assert Step(cx, t, Send(0)).Some?;
    TwoActions(cx, Start(limit), [Create(DEFAULT_WINDOW_SIZE)] + ToGrant(chunk), CloseSocket, Send(0), s, t,
               Step(cx, t, Send(0)).value);
  }

  lemma StuckStep(cx: Codec, s: Sender, a: Action, i: nat)
    requires ValidCodec(cx) && s.table.Valid() && Step(cx, s, a).Some?
    requires i < |s.streams| && s.streams[i].pc.Stuck?
    ensures var t := Step(cx, s, a).value;
            && i < |t.streams| && t.streams[i].pc == s.streams[i].pc
            && Sent(t.wire, i) == Sent(s.wire, i) && Ended(t.wire, i) == Ended(s.wire, i)
  {
    hide ValidCodec, EncodeBlock, Sent, Ended;
    var t := Step(cx, s, a).value;
    if t.wire != s.wire {
      var f := t.wire[|s.wire|];
      assert t.wire == s.wire + [f];
      NotSent(s.wire, f, i);
    }
  }

  lemma NotSent(wire: seq<OutFrame>, f: OutFrame, i: nat)
    requires !f.Data? || f.stream != i
    ensures Sent(wire + [f], i) == Sent(wire, i) && Ended(wire + [f], i) == Ended(wire, i)
  {
    assert (wire + [f])[..|wire|] == wire;
  }

  /**
   * A writer that raised keeps the lock: whatever happens afterwards, no more data of its stream is
   * sent, nor its end.
   */
  lemma {:induction false} StuckIsFinal(cx: Codec, s: Sender, actions: seq<Action>, i: nat)
    requires ValidCodec(cx) && s.table.Valid() && Writers.Run(cx, s, actions).Some?
    requires i < |s.streams| && s.streams[i].pc.Stuck?
    ensures var t := Writers.Run(cx, s, actions).value;
            && i < |t.streams| && t.streams[i].pc == s.streams[i].pc
            && Sent(t.wire, i) == Sent(s.wire, i) && Ended(t.wire, i) == Ended(s.wire, i)
    decreases |actions|
  {
    hide ValidCodec, Step, Sent, Ended;
    if actions != [] {
      var n := |actions| - 1;
      StuckIsFinal(cx, s, actions[..n], i);
      StuckStep(cx, Writers.Run(cx, s, actions[..n]).value, actions[n], i);
    }
  }

  /** The step a writer takes next. */
  function NextAction(pc: Pc, i: nat): Action {
    match pc
    case AtStream(_) => TurnStream(i)
    case AtParent(_, _) => TurnParent(i)
    case Granted(_, _) => Debit(i)
    case Allowed(_, _) => Send(i)
    case Flushing(_, _) => Flushed(i)
    case _ => Acquire(i)
  }

  /** A writer that has work, has not failed and is not registered as a waiter can take its next step. */
  lemma WritersMakeProgress(cx: Codec, limit: nat, actions: seq<Action>, i: nat)
    requires ValidCodec(cx)
    ensures var r := Writers.Run(cx, Start(limit), actions);
            r.Some? && i < |r.value.streams| ==>
              var s, st := r.value, r.value.streams[i];
              || (st.pc == Idle && st.queue == [])
              || st.pc.Stuck?
              || (i in st.window.waiters && st.window.size <= 0)
              || (i in s.conn.waiters && s.conn.size <= 0)
              || Step(cx, s, NextAction(st.pc, i)).Some?
  {
    RunKeeps(cx, limit, actions);
    hide ValidCodec, Writers.Run, StreamInv, Step, NextAction;
    var r := Writers.Run(cx, Start(limit), actions);
    if r.Some? && i < |r.value.streams| {
      ProgressAt(cx, r.value, i);
    }
  }

  lemma ProgressAt(cx: Codec, s: Sender, i: nat)
    requires ValidCodec(cx) && s.table.Valid() && i < |s.streams|
    requires StreamInv(s.streams[i], s.wire, i) && ConnOk(s)
    ensures var st := s.streams[i];
            || (st.pc == Idle && st.queue == [])
            || st.pc.Stuck?
            || (i in st.window.waiters && st.window.size <= 0)
            || (i in s.conn.waiters && s.conn.size <= 0)
            || Step(cx, s, NextAction(st.pc, i)).Some?
  {
    hide ValidCodec, Sent, Ended, NothingAfterEnd, Queued, Held, SentTotal, WriteHeadersStep;
  }

  /**
   * For every interleaving of `write_headers` over the streams, called any number of times on each,
   * the header blocks are on the wire in the order they were encoded, so a peer that decodes them
   * recovers every header list. While the socket is open they are all there, and it ends up with the
   * encoder's table.
   */
  lemma HeadersSurviveInterleaving(cx: Codec, limit: nat, actions: seq<Action>)
    requires ValidCodec(cx)
    ensures var r := Writers.Run(cx, Start(limit), actions);
            r.Some? ==>
              var s, t0, n := r.value, Table([], 0, limit), |Blocks(r.value.wire)|;
              var (results, table) := DecodeBlocks(cx, t0, Blocks(s.wire));
              && n <= |s.blocks| == |s.authors| && Authors(s.wire) == s.authors[..n]
              && (forall k :: 0 <= k < n ==> results[k] == Some(SeenAt(cx, t0, s.blocks, k)))
              && (s.socketOpen ==> n == |s.blocks| && table == s.table)
  {
    hide ValidCodec, Writers.Run, EncodeBlocks, DecodeBlocks, Blocks, Authors;
    RunKeeps(cx, limit, actions);
    var r := Writers.Run(cx, Start(limit), actions);
    if r.Some? {
      var s, t0, n := r.value, Table([], 0, limit), |Blocks(r.value.wire)|;
      BlocksRoundTrip(cx, t0, s.blocks[..n]);
      assert s.socketOpen ==> s.blocks[..n] == s.blocks;
      forall k | 0 <= k < n
        ensures SeenAt(cx, t0, s.blocks[..n], k) == SeenAt(cx, t0, s.blocks, k)
      {
        assert s.blocks[..n][..k] == s.blocks[..k];
      }
    }
  }
}
