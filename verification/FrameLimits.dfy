/** What is too large for a frame, and runs in which a delivery fails. */
module FrameLimits {
  import opened Bits
  import opened Protocol
  import opened FlowControl
  import opened StaticTable
  import opened Hpack
  import opened Writers
  import opened WriterRuns
  import opened Network
  import opened NetworkRuns
  import opened Credit
  import opened Failures

  // ---------- chunks ----------

  predicate SmallWrites(actions: seq<NetAction>) {
    forall k :: 0 <= k < |actions| && actions[k].SenderActs? && actions[k].a.Write? ==>
        |actions[k].a.chunk| <= DEFAULT_MAX_FRAME_SIZE
  }

  ghost predicate SmallStream(st: OutStream) {
    && (!st.pc.Idle? ==> |st.pc.chunk| <= DEFAULT_MAX_FRAME_SIZE)
    && (forall k :: 0 <= k < |st.queue| && st.queue[k].Chunk? ==> |st.queue[k].data| <= DEFAULT_MAX_FRAME_SIZE)
  }

  ghost predicate SmallSender(s: Sender) {
    && (forall i :: 0 <= i < |s.streams| ==> SmallStream(s.streams[i]))
    && (forall k :: 0 <= k < |s.wire| && s.wire[k].Data? ==> |s.wire[k].payload| <= DEFAULT_MAX_FRAME_SIZE)
  }

  lemma SmallLocalStep(st: OutStream, i: nat, socketOpen: bool, a: Action)
    requires SmallStream(st) && LocalStep(st, i, socketOpen, a).Some?
    requires a.Write? ==> |a.chunk| <= DEFAULT_MAX_FRAME_SIZE
    ensures var l := LocalStep(st, i, socketOpen, a).value;
            && SmallStream(l.st)
            && (l.frame.Some? && l.frame.value.Data? ==> |l.frame.value.payload| <= DEFAULT_MAX_FRAME_SIZE)
  {
    hide Adjusted, TurnOf, HeadersStep;
  }

  lemma SmallTurnParent(s: Sender, i: nat)
    requires SmallSender(s) && TurnParentStep(s, i).Some?
    ensures SmallSender(TurnParentStep(s, i).value)
  {
  }

  lemma SmallHeaders(cx: Codec, s: Sender, i: nat, length: Option<int>, headers: seq<Header>)
    requires ValidCodec(cx) && s.table.Valid() && SmallSender(s) && WriteHeadersStep(cx, s, i, length, headers).Some?
    ensures SmallSender(WriteHeadersStep(cx, s, i, length, headers).value)
  {
    hide ValidCodec, EncodeBlock;
  }

  lemma SmallStep(cx: Codec, s: Sender, a: Action)
    requires ValidCodec(cx) && s.table.Valid() && SmallSender(s) && Step(cx, s, a).Some?
    requires a.Write? ==> |a.chunk| <= DEFAULT_MAX_FRAME_SIZE
    ensures SmallSender(Step(cx, s, a).value)
  {
    hide ValidCodec, LocalStep, TurnParentStep, WriteHeadersStep;
    match a
    case Create(_) =>
    case WriteHeaders(i, length, headers) => SmallHeaders(cx, s, i, length, headers);
    case TurnParent(i) => SmallTurnParent(s, i);
    case UpdateConn(_) =>
    case CloseConn =>
    case CloseSocket =>
    case _ => SmallLocalStep(s.streams[a.i], a.i, s.socketOpen, a);
  }

  /**
   * DATA frames are bounded by the windows only. They all fit the receiver's default frame size if no
   * chunk is longer than that.
   */
  lemma {:induction false} SmallChunksFit(env: Env, limit: nat, actions: seq<NetAction>)
    requires ValidCodec(env.cx) && SmallWrites(actions)
    ensures var r := NetRun(env, limit, actions);
            r.Next? ==> SmallSender(r.net.sender)
    decreases |actions|
  {
    hide ValidCodec, NetStepOf, SmallSender;
    if actions == [] {
      SmallStart(limit);
    } else {
      var before, a := actions[..|actions| - 1], actions[|actions| - 1];
      SmallChunksFit(env, limit, before);
      if NetRun(env, limit, actions).Next? {
        SmallNetStep(env, NetRun(env, limit, before).net, a);
      }
    }
  }

  lemma SmallNetStep(env: Env, n: Net, a: NetAction)
    requires ValidCodec(env.cx) && n.sender.table.Valid() && n.receiver.table.Valid() && SmallSender(n.sender)
    requires a.SenderActs? && a.a.Write? ==> |a.a.chunk| <= DEFAULT_MAX_FRAME_SIZE
    requires NetStepOf(env, n, a).Next?
    ensures SmallSender(NetStepOf(env, n, a).net.sender)
  {
    hide ValidCodec, Step, SmallSender, DeliverStep, Dispatch.Step;
    match a
    case SenderActs(b) => SmallStep(env.cx, n.sender, b);
    case ReceiverActs(_) =>
    case Deliver(deferred) => DeliverShape(env, n, deferred);
    case Complete(_) =>
    case Receive =>
      if n.back != [] {
        SmallStep(env.cx, n.sender, UpdateAction(n.back[0]));
      }
  }

  lemma SmallStart(limit: nat)
    ensures SmallSender(Start(limit))
  {
  }

  lemma DataFits(s: Sender, d: nat)
    requires SmallSender(s) && d < |s.wire| && s.wire[d].Data?
    ensures !TooLarge(s.wire[d])
  {
  }

  /** The receiver refuses the next frame for its size exactly if it is too large, whatever else may happen to it. */
  lemma FrameSizeExactly(env: Env, n: Net, deferred: bool)
    requires n.receiver.table.Valid() && n.delivered < |n.sender.wire|
    ensures DeliverStep(env, n, deferred) == Error(ConnectionError(FRAME_SIZE_ERROR)) <==>
            TooLarge(n.sender.wire[n.delivered])
  {
    hide Dispatch.Receive, Dispatch.Act, Hearing.NewlyHeard, AsFrame;
    FrameOutcomes(env, n.receiver, n.sender.wire[n.delivered]);
  }

  /** With small chunks the only frames refused for their size are header blocks. */
  lemma OnlyLargeBlocksAreRefused(env: Env, limit: nat, actions: seq<NetAction>, deferred: bool)
    requires ValidCodec(env.cx) && SmallWrites(actions) && NetRun(env, limit, actions).Next?
    ensures var n := NetRun(env, limit, actions).net;
            n.delivered < |n.sender.wire| ==>
              (DeliverStep(env, n, deferred) == Error(ConnectionError(FRAME_SIZE_ERROR)) <==>
               n.sender.wire[n.delivered].HeaderBlock? && TooLarge(n.sender.wire[n.delivered]))
  {
    hide ValidCodec, NetRun, SmallSender, AsFrame, DeliverStep;
    SmallChunksFit(env, limit, actions);
    var n := NetRun(env, limit, actions).net;
    if n.delivered < |n.sender.wire| {
      FrameSizeExactly(env, n, deferred);
      if n.sender.wire[n.delivered].Data? {
        DataFits(n.sender, n.delivered);
      } else if n.sender.wire[n.delivered].Reset? {
        ResetFits(n.sender.wire[n.delivered]);
      }
    }
  }

  lemma ResetFits(f: OutFrame)
    requires f.Reset?
    ensures !TooLarge(f)
  {
  }

  // ---------- runs of the sender alone ----------

  lemma NetRunSnoc(env: Env, limit: nat, actions: seq<NetAction>, a: NetAction)
    requires ValidCodec(env.cx) && NetRun(env, limit, actions).Next?
    ensures NetRun(env, limit, actions + [a]) == NetStepOf(env, NetRun(env, limit, actions).net, a)
  {
    assert (actions + [a])[..|actions|] == actions;
  }

  lemma StartRun(env: Env, limit: nat)
    requires ValidCodec(env.cx)
    ensures NetRun(env, limit, []) == Next(StartNet(env.isClient, limit))
  {
  }

  function BySender(actions: seq<Action>): (r: seq<NetAction>)
    ensures |r| == |actions|
  {
    seq(|actions|, k requires 0 <= k < |actions| => SenderActs(actions[k]))
  }

  /** While nothing is delivered the two endpoints do what the sender does. */
  lemma {:induction false} SenderAlone(env: Env, limit: nat, actions: seq<Action>)
    requires ValidCodec(env.cx) && Writers.Run(env.cx, Start(limit), actions).Some?
    requires forall k :: 0 <= k < |actions| ==> !actions[k].UpdateStream? && !actions[k].UpdateConn?
    ensures NetRun(env, limit, BySender(actions)) ==
            Next(StartNet(env.isClient, limit).(sender := Writers.Run(env.cx, Start(limit), actions).value))
    decreases |actions|
  {
    hide ValidCodec, Step;
    if actions == [] {
      StartRun(env, limit);
    } else {
      var before, a := actions[..|actions| - 1], actions[|actions| - 1];
      SenderAlone(env, limit, before);
      assert BySender(actions) == BySender(before) + [SenderActs(a)];
      NetRunSnoc(env, limit, BySender(before), SenderActs(a));
    }
  }

  // ---------- a long chunk is refused ----------

  function ToFirstFrame(chunk: bytes): seq<Action> {
    [Create(DEFAULT_WINDOW_SIZE)] + ToGrant(chunk) + [Send(0)]
  }

  lemma FirstFrameIsSent(cx: Codec, base: Sender, chunk: bytes)
    requires ValidCodec(cx) && base.table.Valid() && base.socketOpen
    ensures var s, n := FirstGrant(base, chunk), FirstWant(chunk);
            Step(cx, s, Send(0)) == Some(s.(streams := [s.streams[0].(pc := Flushing(chunk, n))],
                                            wire := base.wire + [Data(0, chunk[..n], false)]))
  {
    hide ValidCodec, Enqueue;
    var s, n := FirstGrant(base, chunk), FirstWant(chunk);
    var t := s.streams[0].(pc := Flushing(chunk, n));
    assert s.streams[0 := t] == [t];
  }

  lemma LongChunkIsRefused(env: Env, limit: nat, chunk: bytes)
    requires ValidCodec(env.cx) && |chunk| > DEFAULT_MAX_FRAME_SIZE
    ensures RefusedAfter(env, limit, BySender(ToFirstFrame(chunk)), chunk)
  {
    hide ValidCodec, NetRun, Writers.Run, Step, FirstGrant, ToGrant;
    FirstGrantIsReached(env.cx, limit, chunk);
    var before, actions := [Create(DEFAULT_WINDOW_SIZE)] + ToGrant(chunk), ToFirstFrame(chunk);
    OneMoreAction(env.cx, Start(limit), before, Send(0));
    FirstFrameIsSent(env.cx, Start(limit), chunk);
    NoUpdatesInGrant(chunk);
    SenderAlone(env, limit, actions);
    var n := NetRun(env, limit, BySender(actions)).net;
    assert n.sender.wire == [] + [Data(0, chunk[..FirstWant(chunk)], false)];
    FrameSizeExactly(env, n, false);
    NetRunSnoc(env, limit, BySender(actions), Deliver(false));
    assert BySender(actions)[1] == SenderActs(Write(0, chunk));
  }

  lemma NoUpdatesInGrant(chunk: bytes)
    ensures forall k :: 0 <= k < |ToFirstFrame(chunk)| ==>
              !ToFirstFrame(chunk)[k].UpdateStream? && !ToFirstFrame(chunk)[k].UpdateConn?
    ensures forall k :: 0 <= k < |ToFirstFrame(chunk)| && ToFirstFrame(chunk)[k].Write? ==>
            ToFirstFrame(chunk)[k].chunk == chunk
    ensures |ToFirstFrame(chunk)| > 1 && ToFirstFrame(chunk)[1] == Write(0, chunk)
  {
  }

  /** After these actions, which write this chunk and no other, a DATA frame is refused for its size. */
  ghost predicate RefusedAfter(env: Env, limit: nat, actions: seq<NetAction>, chunk: bytes)
    requires ValidCodec(env.cx)
  {
    && (exists k, i: nat :: 0 <= k < |actions| && actions[k] == SenderActs(Write(i, chunk)))
    && (forall k :: 0 <= k < |actions| && actions[k].SenderActs? && actions[k].a.Write? ==> actions[k].a.chunk == chunk)
    && NetRun(env, limit, actions).Next?
    && var n := NetRun(env, limit, actions).net;
       && n.delivered < |n.sender.wire| && n.sender.wire[n.delivered].Data?
       && NetStepOf(env, n, Deliver(false)) == Error(ConnectionError(FRAME_SIZE_ERROR))
  }

  /**
   * DATA frames are bounded by the windows and not by the frame size: a chunk can make the receiver
   * close the connection if and only if it is longer than the default frame size.
   */
  lemma RefusedExactly(env: Env, limit: nat, chunk: bytes)
    requires ValidCodec(env.cx)
    ensures (exists actions :: RefusedAfter(env, limit, actions, chunk)) <==> |chunk| > DEFAULT_MAX_FRAME_SIZE
  {
    hide ValidCodec, NetRun;
    if |chunk| > DEFAULT_MAX_FRAME_SIZE {
      LongChunkIsRefused(env, limit, chunk);
    } else {
      forall actions
        ensures !RefusedAfter(env, limit, actions, chunk)
      {
        if RefusedAfter(env, limit, actions, chunk) {
          OnlyLargeBlocksAreRefused(env, limit, actions, false);
          assert false;
        }
      }
    }
  }

  // ---------- a large header block is refused ----------

  /**
   * A header list that is encoded to more bytes than fit in a frame is refused: `write_headers` never
   * splits a block.
   */
  lemma LargeBlockIsRefused(env: Env, limit: nat, headers: seq<Header>)
    requires ValidCodec(env.cx)
    ensures var actions := BySender([Create(DEFAULT_WINDOW_SIZE), WriteHeaders(0, None, headers)]) + [Deliver(false)];
            NetRun(env, limit, actions) == Error(ConnectionError(FRAME_SIZE_ERROR)) <==>
            |EncodeBlock(env.cx, DynamicTable.Table([], 0, limit), headers).0| / 8 > DEFAULT_MAX_FRAME_SIZE
  {
    hide ValidCodec, EncodeBlock, NetRun, Writers.Run, DeliverStep, NewOutStream;
    var t0 := DynamicTable.Table([], 0, limit);
    var actions := [Create(DEFAULT_WINDOW_SIZE), WriteHeaders(0, None, headers)];
    HeadersAreSent(env.cx, limit, headers);
    SenderAlone(env, limit, actions);
    NetRunSnoc(env, limit, BySender(actions), Deliver(false));
    var n := NetRun(env, limit, BySender(actions)).net;
    FrameSizeExactly(env, n, false);
    WholeBlock(env.cx, t0, headers);
    BlockLength(env.cx, t0, headers, n.sender.wire[0]);
  }

  lemma BlockLength(cx: Codec, t: DynamicTable.Table, headers: seq<Header>, f: OutFrame)
    requires ValidCodec(cx) && t.Valid() && f.HeaderBlock? && f.block == EncodeBlock(cx, t, headers).0
    ensures |AsFrame(f).data| == |EncodeBlock(cx, t, headers).0| / 8
  {
    hide ValidCodec, EncodeBlock;
    WholeBlock(cx, t, headers);
  }

  /** The sender after these headers of its first stream. */
  function WithHeaders(cx: Codec, base: Sender, headers: seq<Header>): (s: Sender)
    requires ValidCodec(cx) && base.table.Valid()
    ensures s.table.Valid() && s.socketOpen == base.socketOpen
  {
    var (block, table) := EncodeBlock(cx, base.table, headers);
    base.(wire := base.wire + [HeaderBlock(0, block)], table := table, blocks := base.blocks + [headers], authors :=
        base.authors + [0])
  }

  lemma OneMoreHeaderBlock(cx: Codec, base: Sender, st: OutStream, headers: seq<Header>)
    requires ValidCodec(cx) && base.table.Valid() && base.socketOpen
    ensures Step(cx, OneStream(base, DEFAULT_WINDOW_SIZE, st), WriteHeaders(0, None, headers))
            == Some(OneStream(WithHeaders(cx, base, headers), DEFAULT_WINDOW_SIZE, st))
  {
    hide ValidCodec, EncodeBlock;
    assert [st][0 := st] == [st];
  }

  lemma HeadersAreSent(cx: Codec, limit: nat, headers: seq<Header>)
    requires ValidCodec(cx)
    ensures Writers.Run(cx, Start(limit), [Create(DEFAULT_WINDOW_SIZE), WriteHeaders(0, None, headers)])
            == Some(OneStream(WithHeaders(cx, Start(limit), headers), DEFAULT_WINDOW_SIZE,
                NewOutStream(DEFAULT_WINDOW_SIZE)))
  {
    hide ValidCodec, EncodeBlock, Writers.Run, Step, WithHeaders, NewOutStream;
    FirstStream(cx, limit);
    OneMoreAction(cx, Start(limit), [Create(DEFAULT_WINDOW_SIZE)], WriteHeaders(0, None, headers));
    OneMoreHeaderBlock(cx, Start(limit), NewOutStream(DEFAULT_WINDOW_SIZE), headers);
    assert [Create(DEFAULT_WINDOW_SIZE)] + [WriteHeaders(0, None, headers)] ==
           [Create(DEFAULT_WINDOW_SIZE), WriteHeaders(0, None, headers)];
  }

  /** Such header lists exist, with and without Huffman coding: no code is shorter than one bit. */
  lemma LongValueIsRefused(env: Env, limit: nat, h: Header)
    requires ValidCodec(env.cx) && StaticEntry(Lower(h.name), Some(h.value)) !in env.cx.st.rows
    requires |h.value| >= 8 * (DEFAULT_MAX_FRAME_SIZE + 1)
    ensures NetRun(env, limit, BySender([Create(DEFAULT_WINDOW_SIZE),
            WriteHeaders(0, None, [h])]) + [Deliver(false)]) ==
            Error(ConnectionError(FRAME_SIZE_ERROR))
  {
    hide ValidCodec, NetRun;
    LargeBlockIsRefused(env, limit, [h]);
    IndexAgreement(env.cx, DynamicTable.Table([], 0, limit), Lower(h.name), h.value);
    BlockAtLeast(env.cx, DynamicTable.Table([], 0, limit), h);
  }

  // ---------- a second header block ----------

  /** `write_headers` is called twice, then a chunk is written. */
  function TwoHeaders(h1: seq<Header>, h2: seq<Header>, chunk: bytes): seq<Action> {
    [Create(DEFAULT_WINDOW_SIZE), WriteHeaders(0, None, h1)] + [WriteHeaders(0, None, h2)] + ToGrant(chunk) + [Send(0)]
  }

  /** What is on the wire then. */
  function TwoBlocks(cx: Codec, limit: nat, h1: seq<Header>, h2: seq<Header>, chunk: bytes): seq<OutFrame>
    requires ValidCodec(cx)
  {
    WithHeaders(cx, WithHeaders(cx, Start(limit), h1), h2).wire + [Data(0, chunk[..FirstWant(chunk)], false)]
  }

  lemma TwoHeadersAreSent(cx: Codec, limit: nat, h1: seq<Header>, h2: seq<Header>, chunk: bytes)
    requires ValidCodec(cx) && chunk != []
    ensures var r := Writers.Run(cx, Start(limit), TwoHeaders(h1, h2, chunk));
            r.Some? && r.value.wire == TwoBlocks(cx, limit, h1, h2, chunk)
  {
    hide ValidCodec, EncodeBlock, Writers.Run, Step, WithHeaders, NewOutStream, ToGrant, FirstGrant;
    var a := [Create(DEFAULT_WINDOW_SIZE), WriteHeaders(0, None, h1)];
    var b := a + [WriteHeaders(0, None, h2)];
    var s1 := WithHeaders(cx, Start(limit), h1);
    var s2 := WithHeaders(cx, s1, h2);
    HeadersAreSent(cx, limit, h1);
    OneMoreAction(cx, Start(limit), a, WriteHeaders(0, None, h2));
    OneMoreHeaderBlock(cx, s1, NewOutStream(DEFAULT_WINDOW_SIZE), h2);
    GrantIsReached(cx, s2, chunk);
    RunConcat(cx, Start(limit), b, ToGrant(chunk));
    OneMoreAction(cx, Start(limit), b + ToGrant(chunk), Send(0));
    FirstFrameIsSent(cx, s2, chunk);
  }

  lemma TwoHeadersHaveNoUpdates(h1: seq<Header>, h2: seq<Header>, chunk: bytes)
    ensures var actions := TwoHeaders(h1, h2, chunk);
            forall k :: 0 <= k < |actions| ==> !actions[k].UpdateStream? && !actions[k].UpdateConn?
  {
  }

  /** Two header blocks of stream 0 and a DATA frame: the headers come first, and nothing has ended. */
  lemma TwoBlocksThenData(wire: seq<OutFrame>)
    requires |wire| == 3 && wire[0].HeaderBlock? && wire[1].HeaderBlock? && wire[2].Data? && !wire[2].endStream
    requires forall k :: 0 <= k < 3 ==> wire[k].stream == 0
    ensures forall d :: 0 <= d <= 3 ==>
              HeadersBeforeEnd(wire[..d]) && HeadersFirst(wire[..d], 0) && !Ended(wire[..d], 0)
    ensures BlocksOf(wire[..0], 0) == 0 && BlocksOf(wire[..1], 0) == 1 && BlocksOf(wire[..2], 0) == 2
  {
    assert wire[..0] == [];
    WireGrows(wire[..0], wire[0], 0);
    assert wire[..1] == wire[..0] + [wire[0]];
    WireGrows(wire[..1], wire[1], 0);
    assert wire[..2] == wire[..1] + [wire[1]];
    WireGrows(wire[..2], wire[2], 0);
    assert wire[..3] == wire[..2] + [wire[2]];
    forall d | 0 <= d <= 3
      ensures HeadersBeforeEnd(wire[..d]) && HeadersFirst(wire[..d], 0) && !Ended(wire[..d], 0)
    {
      assert d == 0 || d == 1 || d == 2 || d == 3;
    }
  }

  /** A frame of stream 0 that fits and is a header block is delivered. */
  lemma BlockIsDelivered(env: Env, limit: nat, actions: seq<NetAction>, wire: seq<OutFrame>, d: nat)
    requires ValidCodec(env.cx) && Agreeable(env) && NetRun(env, limit, actions).Next?
    requires NetRun(env, limit, actions).net.sender.wire == wire
             && NetRun(env, limit, actions).net.delivered == d < |wire|
    requires wire[d].HeaderBlock? && wire[d].stream == 0 && !TooLarge(wire[d])
    requires HeadersBeforeEnd(wire[..d + 1]) && HeadersFirst(wire[..d + 1], 0)
    ensures var r := NetRun(env, limit, actions + [Deliver(false)]);
            r.Next? && r.net.sender.wire == wire && r.net.delivered == d + 1
  {
    hide ValidCodec, NetRun, Agreeable, HeadersBeforeEnd, HeadersFirst, BlocksOf, TooLarge, DeliverStep;
    ServerFailsExactly(env, limit, actions, false);
    NetRunSnoc(env, limit, actions, Deliver(false));
    DeliverIsPossible(env, NetRun(env, limit, actions).net, false);
    DeliverShape(env, NetRun(env, limit, actions).net, false);
  }

  lemma DeliverIsPossible(env: Env, n: Net, deferred: bool)
    requires n.receiver.table.Valid() && n.delivered < |n.sender.wire|
    ensures DeliverStep(env, n, deferred) != Impossible
  {
    hide Dispatch.Receive, Dispatch.Act, Hearing.NewlyHeard, AsFrame;
  }

  /**
   * However small they are, a second header block on a stream makes the next DATA frame end the
   * connection with PROTOCOL_ERROR, even with a server that accepts all headers: the block is taken
   * for trailers.
   */
  lemma DataAfterTwoBlocksFails(env: Env, limit: nat, h1: seq<Header>, h2: seq<Header>, chunk: bytes)
    requires ValidCodec(env.cx) && Agreeable(env) && 1 <= |chunk| <= DEFAULT_MAX_FRAME_SIZE
    requires var wire := TwoBlocks(env.cx, limit, h1, h2, chunk); !TooLarge(wire[0]) && !TooLarge(wire[1])
    ensures var actions := BySender(TwoHeaders(h1, h2, chunk)) + [Deliver(false)] + [Deliver(false)] + [Deliver(false)];
            NetRun(env, limit, actions) == Error(ConnectionError(PROTOCOL_ERROR))
  {
    hide ValidCodec, NetRun, NetInv, Agreeable, HeadersBeforeEnd, HeadersFirst, BlocksOf, TooLarge, Writers.Run,
      TwoHeaders, DeliverStep, EncodeBlock, Ended;
    var actions, wire := BySender(TwoHeaders(h1, h2, chunk)), TwoBlocks(env.cx, limit, h1, h2, chunk);
    TwoHeadersAreSent(env.cx, limit, h1, h2, chunk);
    TwoHeadersHaveNoUpdates(h1, h2, chunk);
    SenderAlone(env, limit, TwoHeaders(h1, h2, chunk));
    TwoBlocksThenData(wire);
    BlockIsDelivered(env, limit, actions, wire, 0);
    BlockIsDelivered(env, limit, actions + [Deliver(false)], wire, 1);
    var last := actions + [Deliver(false)] + [Deliver(false)];
    ServerFailsExactly(env, limit, last, false);
    NotYetFinished(env, limit, last, 0);
    NetRunKeeps(env, limit, last);
    ChunkFits(chunk);
    DataErrors(env, limit, NetRun(env, limit, last).net, false);
    NetRunSnoc(env, limit, last, Deliver(false));
  }

  lemma ChunkFits(chunk: bytes)
    requires |chunk| <= DEFAULT_MAX_FRAME_SIZE
    ensures !TooLarge(Data(0, chunk[..FirstWant(chunk)], false))
  {
  }

  lemma NotYetFinished(env: Env, limit: nat, actions: seq<NetAction>, i: nat)
    requires ValidCodec(env.cx) && NetRun(env, limit, actions).Next?
    requires var n := NetRun(env, limit, actions).net;
             n.delivered <= |n.sender.wire| && !Ended(n.sender.wire[..n.delivered], i)
    ensures !Target(NetRun(env, limit, actions).net.receiver, i).finished
  {
    hide ValidCodec, NetRun, NetInv, Ended, Sent, HeadersFirst, Follows;
    var n := NetRun(env, limit, actions).net;
    NetRunKeeps(env, limit, actions);
    NetStreams(env, limit, n);
    OneStreamOk(n, i);
  }
}
