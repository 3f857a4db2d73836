/** What every run of two endpoints keeps. */
module NetworkRuns {
  import opened Bits
  import opened Protocol
  import opened FlowControl
  import opened DynamicTable
  import opened Hpack
  import opened Writers
  import opened WriterRuns
  import opened Network
  import PeerBlocks

  // ---------- one stream of the receiver ----------

  lemma PrefixMore(a: bytes, b: bytes, c: bytes)
    requires a <= b
    ensures a <= b + c
  {
  }

  lemma DataFollows(isClient: bool, s: StreamState, wire: seq<OutFrame>, f: OutFrame)
    requires f.Data? && Receiving.StreamInv(isClient, s) && s.headerFrames == []
    requires !s.finished && s.phase != Receiving.TrailersPhase
    requires HeadersFirst(wire + [f], f.stream) && Follows(s, wire, f.stream)
    ensures Follows(Receiving.HandleData(s, AsFrame(f)).0, wire + [f], f.stream)
  {
    hide Sent, Ended, NothingAfterEnd, BlocksOf, HeadersFirst, Receiving.Bodies, Receiving.WithoutCloses,
      Receiving.HandleData, Receiving.InOrder, Receiving.LengthInv;
    FlagsOfFrames(f);
    Hearing.DataHeard(s, AsFrame(f));
    WireGrows(wire, f, f.stream);
    PrefixMore(Receiving.Bodies(s.calls), Sent(wire, f.stream), f.payload);
  }

  lemma FinishedFollows(isClient: bool, s: StreamState, wire: seq<OutFrame>, f: OutFrame)
    requires s.finished && Receiving.StreamInv(isClient, s) && Ended(wire, f.stream)
    requires Follows(s, wire, f.stream)
    ensures Follows(s, wire + [f], f.stream)
  {
    hide Sent, Ended, NothingAfterEnd, BlocksOf, Receiving.Bodies, Receiving.WithoutCloses, Receiving.InOrder,
      Receiving.LengthInv;
    WireGrows(wire, f, f.stream);
    PrefixMore(Receiving.Bodies(s.calls), Sent(wire, f.stream), if f.Data? then f.payload else []);
  }

  lemma BlockFollows(env: Env, s: StreamState, t: Table, wire: seq<OutFrame>, f: OutFrame)
    requires f.HeaderBlock? && t.Valid() && s.headerFrames == [] && !s.finished
    requires Follows(s, wire, f.stream)
    ensures Follows(Receiving.HandleFrame(env, s, t, AsFrame(f)).s, wire + [f], f.stream)
  {
    hide Sent, Ended, NothingAfterEnd, BlocksOf, Receiving.Bodies, Receiving.WithoutCloses, Receiving.HandleFrame,
      BlockBytes;
    FlagsOfFrames(f);
    Hearing.BlockChanges(env, s, t, AsFrame(f));
    WireGrows(wire, f, f.stream);
  }

  lemma ResetFollows(env: Env, s: StreamState, t: Table, wire: seq<OutFrame>, f: OutFrame)
    requires f.Reset? && t.Valid() && Follows(s, wire, f.stream)
    ensures Follows(Receiving.HandleFrame(env, s, t, AsFrame(f)).s, wire + [f], f.stream)
  {
    hide Sent, Ended, NothingAfterEnd, BlocksOf, Receiving.Bodies, Receiving.HandleFrame;
    Hearing.ResetChanges(env, s, t, AsFrame(f));
    WireGrows(wire, f, f.stream);
    ResetAddsNoCall(env, s, t, AsFrame(f));
  }

  lemma ResetAddsNoCall(env: Env, s: StreamState, t: Table, f: Frames.Frame)
    requires f.typ == Frames.RST_STREAM && |f.data| == 4 && t.Valid()
    ensures Receiving.WithoutCloses(Receiving.HandleFrame(env, s, t, f).s.calls) == Receiving.WithoutCloses(s.calls)
  {
    Receiving.CallsGrow(s.calls, Receiving.ConnectionClose);
    assert Receiving.WithoutCloses(s.calls) + [] == Receiving.WithoutCloses(s.calls);
  }

  lemma NewFollows(id: nat, size: int, wire: seq<OutFrame>, i: nat)
    requires Sent(wire, i) == []
    ensures Follows(Receiving.NewStream(id, size), wire, i)
  {
  }

  lemma {:induction false} NothingBeforeHeaders(wire: seq<OutFrame>, i: nat)
    requires HeadersFirst(wire, i) && BlocksOf(wire, i) == 0
    ensures Sent(wire, i) == [] && !Ended(wire, i)
  {
    if wire != [] {
      NothingBeforeHeaders(wire[..|wire| - 1], i);
    }
  }

  // ---------- a stream of the receiver handles a frame ----------

  /** What a frame makes of a stream that is there. */
  ghost predicate Handles(s: StreamState, s': StreamState, wire: seq<OutFrame>, f: OutFrame) {
    var i := f.stream;
    && s'.headerFrames == [] && s'.id == s.id
    && (s'.finished ==> Ended(wire + [f], i))
    && Receiving.Delivered(s'.calls) == Receiving.Delivered(s.calls) + Hearing.NewlyHeard(s, s')
    && Hearing.NewlyHeard(s, s') <= (if f.Data? then |f.payload| else 0)
    && (HeadersFirst(wire + [f], i) ==> Follows(s', wire + [f], i))
  }

  lemma SameHandles(isClient: bool, s: StreamState, wire: seq<OutFrame>, f: OutFrame)
    requires Receiving.StreamInv(isClient, s) && s.headerFrames == [] && s.finished && Ended(wire, f.stream)
    requires HeadersFirst(wire, f.stream) ==> Follows(s, wire, f.stream)
    ensures Handles(s, s, wire, f)
  {
    hide Follows, Receiving.StreamInv, Sent, Ended, HeadersFirst, Receiving.Bodies;
    WireGrows(wire, f, f.stream);
    if HeadersFirst(wire, f.stream) {
      FinishedFollows(isClient, s, wire, f);
    }
  }

  lemma DataHandles(env: Env, s: StreamState, t: Table, wire: seq<OutFrame>, f: OutFrame)
    requires f.Data? && t.Valid() && Receiving.StreamInv(env.isClient, s) && s.headerFrames == []
    requires s.finished ==> Ended(wire, f.stream)
    requires HeadersFirst(wire, f.stream) ==> Follows(s, wire, f.stream)
    ensures var h := Receiving.HandleFrame(env, s, t, AsFrame(f));
            && h.t == t
            && (if !s.finished && s.phase == Receiving.TrailersPhase then h.outcome == ConnectionError(PROTOCOL_ERROR)
                else Handles(s, h.s, wire, f) && !h.outcome.ConnectionError? && h.outcome != Fatal)
  {
    hide Follows, Receiving.StreamInv, Receiving.HandleData, Sent, Ended, HeadersFirst, Receiving.Bodies,
      Hearing.NewlyHeard;
    WireGrows(wire, f, f.stream);
    if s.finished {
      SameHandles(env.isClient, s, wire, f);
    } else {
      TrailersRefuseData(s, AsFrame(f));
      if s.phase != Receiving.TrailersPhase {
        FlagsOfFrames(f);
        Hearing.DataHeard(s, AsFrame(f));
        if HeadersFirst(wire + [f], f.stream) {
          DataFollows(env.isClient, s, wire, f);
        }
      }
    }
  }

  lemma TrailersRefuseData(s: StreamState, f: Frames.Frame)
    ensures s.phase == Receiving.TrailersPhase ==> Receiving.HandleData(s, f).1 == ConnectionError(PROTOCOL_ERROR)
  {
  }

  lemma BlockHandles(env: Env, s: StreamState, t: Table, wire: seq<OutFrame>, f: OutFrame)
    requires f.HeaderBlock? && t.Valid() && Receiving.StreamInv(env.isClient, s) && s.headerFrames == []
    requires s.finished ==> Ended(wire, f.stream)
    requires HeadersFirst(wire, f.stream) ==> Follows(s, wire, f.stream)
    ensures Handles(s, Receiving.HandleFrame(env, s, t, AsFrame(f)).s, wire, f)
  {
    hide Follows, Receiving.StreamInv, Receiving.HandleFrame, Sent, Ended, HeadersFirst, Receiving.Bodies,
      Hearing.NewlyHeard, BlockBytes;
    WireGrows(wire, f, f.stream);
    FlagsOfFrames(f);
    Hearing.BlockChanges(env, s, t, AsFrame(f));
    if s.finished {
      SameHandles(env.isClient, s, wire, f);
    } else if HeadersFirst(wire, f.stream) {
      BlockFollows(env, s, t, wire, f);
    }
  }

  lemma ResetHandles(env: Env, s: StreamState, t: Table, wire: seq<OutFrame>, f: OutFrame)
    requires f.Reset? && t.Valid() && s.headerFrames == []
    requires s.finished ==> Ended(wire, f.stream)
    requires HeadersFirst(wire, f.stream) ==> Follows(s, wire, f.stream)
    ensures var h := Receiving.HandleFrame(env, s, t, AsFrame(f));
            h.t == t && h.outcome == Ok && Handles(s, h.s, wire, f)
  {
    hide Follows, Receiving.HandleFrame, Sent, Ended, HeadersFirst, Receiving.Bodies, Hearing.NewlyHeard;
    WireGrows(wire, f, f.stream);
    Hearing.ResetChanges(env, s, t, AsFrame(f));
    if HeadersFirst(wire, f.stream) {
      ResetFollows(env, s, t, wire, f);
    }
  }

  // ---------- the receiver's loop ----------

  predicate Known(c: Conn, i: nat) {
    Id(i) in c.streams
  }

  lemma StreamHasInv(isClient: bool, c: Conn, i: nat)
    requires ReceiverOk(isClient, c) && Known(c, i)
    ensures Receiving.StreamInv(isClient, c.streams[Id(i)]) && c.streams[Id(i)].headerFrames == []
            && c.streams[Id(i)].id == Id(i)
    ensures c.table.Valid()
  {
    hide Receiving.StreamInv, Dispatch.LegalSettings, DispatchRuns.OnlyLastPending, LocalsKnown;
    assert DispatchRuns.HasStreamInv(isClient, c, Id(i));
  }

  lemma OnKnown(env: Env, c: Conn, f: OutFrame)
    requires ReceiverOk(env.isClient, c) && Known(c, f.stream) && c.table.Valid()
    ensures var frame, id := AsFrame(f), Id(f.stream);
            Dispatch.Act(env, c, frame) == Dispatch.Settle(c, id,
                Receiving.HandleFrame(env, c.streams[id], c.table, frame))
  {
    hide DispatchRuns.ConnInv, LocalsKnown, Receiving.HandleFrame, BlockBytes;
  }

  lemma OnNew(env: Env, c: Conn, f: OutFrame)
    requires ReceiverOk(env.isClient, c) && !Known(c, f.stream) && c.table.Valid() && !env.isClient && f.HeaderBlock?
    ensures var frame, id := AsFrame(f), Id(f.stream);
            var c1 := Dispatch.CreateRemote(c, id);
            && !Dispatch.IsLocal(c, id)
            && Dispatch.Act(env, c, frame) == Dispatch.Settle(c1, id,
               Receiving.HandleFrame(env, c1.streams[id], c.table, frame))
  {
    hide DispatchRuns.HasStreamInv, Dispatch.LegalSettings, DispatchRuns.OnlyLastPending, LocalsKnown,
      Receiving.HandleFrame, BlockBytes;
  }

  /** A frame for a stream that the receiver does not have, and cannot create for it. */
  predicate Stray(env: Env, c: Conn, f: OutFrame) {
    !Known(c, f.stream) && (env.isClient || !f.HeaderBlock?)
  }

  /** Such a frame ends the connection if its number is yet to be used; a client has used all that are below. */
  predicate FromTheFuture(env: Env, c: Conn, f: OutFrame) {
    env.isClient || Id(f.stream) > c.maxRemote
  }

  lemma OnStray(env: Env, c: Conn, f: OutFrame)
    requires ReceiverOk(env.isClient, c) && c.table.Valid() && Stray(env, c, f)
    ensures var a := Dispatch.Act(env, c, AsFrame(f));
            && a.c == c
            && (if FromTheFuture(env, c, f) then a.outcome == ConnectionError(PROTOCOL_ERROR)
                else a.outcome == Ok || a.outcome == StreamError(Id(f.stream), STREAM_CLOSED))
  {
    hide DispatchRuns.HasStreamInv, Dispatch.LegalSettings, DispatchRuns.OnlyLastPending, BlockBytes;
  }

  lemma OtherStream(c: Conn, c': Conn, wire: seq<OutFrame>, f: OutFrame, k: nat)
    requires StreamOk(c, wire, k) && k != f.stream && Known(c', k) == Known(c, k)
    requires Known(c, k) ==> c'.streams[Id(k)] == c.streams[Id(k)]
    ensures StreamOk(c', wire + [f], k)
  {
    hide Sent, Ended, NothingAfterEnd, BlocksOf, HeadersFirst, Receiving.Bodies;
    WireGrows(wire, f, k);
  }

  lemma StreamsSettled(c: Conn, c': Conn, wire: seq<OutFrame>, f: OutFrame, s: StreamState, s': StreamState)
    requires forall k: nat :: StreamOk(c, wire, k)
    requires c'.streams == c.streams[Id(f.stream) := s'] && Handles(s, s', wire, f)
    requires Receiving.Delivered(s.calls) <= |Sent(wire, f.stream)|
    ensures forall k: nat :: StreamOk(c', wire + [f], k)
  {
    hide Sent, Ended, NothingAfterEnd, BlocksOf, HeadersFirst, Receiving.Bodies, Follows, Hearing.NewlyHeard;
    WireGrows(wire, f, f.stream);
    forall k: nat
      ensures StreamOk(c', wire + [f], k)
    {
      if k != f.stream {
        OtherStream(c, c', wire, f, k);
      }
    }
  }

  lemma StreamsUntouched(c: Conn, c': Conn, wire: seq<OutFrame>, f: OutFrame)
    requires forall k: nat :: StreamOk(c, wire, k)
    requires c'.streams == c.streams && !Known(c, f.stream) && !f.HeaderBlock?
    ensures forall k: nat :: StreamOk(c', wire + [f], k)
  {
    hide Sent, Ended, NothingAfterEnd, BlocksOf, HeadersFirst, Receiving.Bodies, Follows;
    WireGrows(wire, f, f.stream);
    assert StreamOk(c, wire, f.stream);
    forall k: nat
      ensures StreamOk(c', wire + [f], k)
    {
      if k != f.stream {
        OtherStream(c, c', wire, f, k);
      }
    }
  }

  /** Ids of streams, and what is known of them, survive every frame that leaves the connection alive. */
  lemma ReceiverKeeps(env: Env, c: Conn, f: OutFrame)
    requires ReceiverOk(env.isClient, c) && c.table.Valid() && Dispatch.Receive(env, c, AsFrame(f)).alive
    requires HeaderBlocks.NonePending(Dispatch.Receive(env, c, AsFrame(f)))
    ensures ReceiverOk(env.isClient, Dispatch.Receive(env, c, AsFrame(f)))
  {
    hide DispatchRuns.ConnInv, HeaderBlocks.NonePending, Dispatch.Act, Dispatch.Conclude, AsFrame;
    var a := Dispatch.Act(env, c, AsFrame(f));
    DispatchRuns.ActKeeps(env, c, AsFrame(f));
    DispatchRuns.ConcludeKeeps(env.isClient, a);
    NumbersKept(env, c, AsFrame(f));
    DispatchRuns.GrowsTrans(c, a.c, Dispatch.Conclude(a));
    assert forall id :: id in c.streams ==> id in Dispatch.Conclude(a).streams;
  }

  lemma NumbersKept(env: Env, c: Conn, f: Frames.Frame)
    requires c.table.Valid()
    ensures Dispatch.Receive(env, c, f).nextId == c.nextId
  {
    hide Receiving.HandleFrame, Dispatch.ApplySettings;
  }

  /** What the delivery of a frame comes to: its stream hands over `amount` bytes, the others nothing. */
  ghost predicate Heard(c: Conn, c': Conn, wire: seq<OutFrame>, f: OutFrame) {
    var amount := Hearing.NewlyHeard(StreamOf(c, f.stream), StreamOf(c', f.stream));
    && HeardOf(c', f.stream) == HeardOf(c, f.stream) + amount
    && amount <= (if f.Data? then |f.payload| else 0)
    && (forall k: nat :: k != f.stream ==> HeardOf(c', k) == HeardOf(c, k))
    && HeaderBlocks.NonePending(c')
    && forall k: nat :: StreamOk(c', wire + [f], k)
  }

  lemma SettledIsHeard(c: Conn, c': Conn, wire: seq<OutFrame>, f: OutFrame, s: StreamState, s': StreamState)
    requires (forall k: nat :: StreamOk(c, wire, k)) && HeaderBlocks.NonePending(c)
    requires c'.streams == c.streams[Id(f.stream) := s'] && Handles(s, s', wire, f)
             && s.calls == StreamOf(c, f.stream).calls
    requires Receiving.Delivered(s.calls) <= |Sent(wire, f.stream)|
    ensures Heard(c, c', wire, f)
  {
    hide Sent, Ended, NothingAfterEnd, BlocksOf, HeadersFirst, Receiving.Bodies, Receiving.Delivered, Follows,
      StreamOk;
    StreamsSettled(c, c', wire, f, s, s');
    forall k: nat | k != f.stream
      ensures HeardOf(c', k) == HeardOf(c, k)
    {
    }
  }

  lemma KnownIsHeard(env: Env, c: Conn, wire: seq<OutFrame>, f: OutFrame)
    requires ReceiverOk(env.isClient, c) && Known(c, f.stream) && c.table.Valid()
             && (forall k: nat :: StreamOk(c, wire, k))
    requires Dispatch.Receive(env, c, AsFrame(f)).alive
    ensures Heard(c, Dispatch.Receive(env, c, AsFrame(f)), wire, f)
  {
    hide Sent, Ended, NothingAfterEnd, BlocksOf, HeadersFirst, Receiving.Bodies, Follows, Handles, AsFrame,
      Receiving.HandleFrame, DispatchRuns.ConnInv, LocalsKnown, Dispatch.Act, Heard;
    var s := c.streams[Id(f.stream)];
    var h := Receiving.HandleFrame(env, s, c.table, AsFrame(f));
    StreamHasInv(env.isClient, c, f.stream);
    assert StreamOk(c, wire, f.stream);
    OnKnown(env, c, f);
    match f {
      case Data(_, _, _) => DataHandles(env, s, c.table, wire, f);
      case HeaderBlock(_, _) => BlockHandles(env, s, c.table, wire, f);
      case Reset(_) => ResetHandles(env, s, c.table, wire, f);
    }
    SettledIsHeard(c, Dispatch.Receive(env, c, AsFrame(f)), wire, f, s, h.s);
  }

  lemma NewIsHeard(env: Env, c: Conn, wire: seq<OutFrame>, f: OutFrame)
    requires ReceiverOk(env.isClient, c) && !Known(c, f.stream) && !env.isClient && f.HeaderBlock?
    requires c.table.Valid() && (forall k: nat :: StreamOk(c, wire, k))
    requires Dispatch.Receive(env, c, AsFrame(f)).alive
    ensures Heard(c, Dispatch.Receive(env, c, AsFrame(f)), wire, f)
  {
    hide Sent, Ended, NothingAfterEnd, BlocksOf, HeadersFirst, Receiving.Bodies, Follows, Handles, AsFrame,
      Receiving.HandleFrame, DispatchRuns.ConnInv, LocalsKnown, Dispatch.Act, Heard, Receiving.StreamInv;
    var id, size := Id(f.stream), Dispatch.Setting(c.settings, Dispatch.INITIAL_WINDOW_SIZE, DEFAULT_WINDOW_SIZE);
    var s := Receiving.NewStream(id, size);
    var h := Receiving.HandleFrame(env, s, c.table, AsFrame(f));
    OnNew(env, c, f);
    DispatchRuns.NewStreamInv(env.isClient, id, size);
    assert StreamOk(c, wire, f.stream);
    NothingHeardYet(id, size);
    if HeadersFirst(wire, f.stream) {
      NothingBeforeHeaders(wire, f.stream);
      NewFollows(id, size, wire, f.stream);
    }
    BlockHandles(env, s, c.table, wire, f);
    var c' := Dispatch.Receive(env, c, AsFrame(f));
    assert Dispatch.CreateRemote(c, id).streams[id := h.s] == c.streams[id := h.s];
    SettledIsHeard(c, c', wire, f, s, h.s);
  }

  lemma NothingHeardYet(id: nat, size: int)
    ensures Receiving.Delivered(Receiving.NewStream(id, size).calls) == 0
  {
  }

  lemma StrayIsHeard(env: Env, c: Conn, wire: seq<OutFrame>, f: OutFrame)
    requires ReceiverOk(env.isClient, c) && Stray(env, c, f) && c.table.Valid()
             && (forall k: nat :: StreamOk(c, wire, k))
    requires Dispatch.Receive(env, c, AsFrame(f)).alive
    ensures Heard(c, Dispatch.Receive(env, c, AsFrame(f)), wire, f)
  {
    hide Sent, Ended, NothingAfterEnd, BlocksOf, HeadersFirst, Receiving.Bodies, Receiving.Delivered, Follows,
      AsFrame, DispatchRuns.ConnInv, LocalsKnown, Dispatch.Act, StreamOk;
    OnStray(env, c, f);
    StreamsUntouched(c, Dispatch.Receive(env, c, AsFrame(f)), wire, f);
  }

  /** Every frame that leaves the connection alive is heard, on whatever stream it comes. */
  lemma FrameIsHeard(env: Env, c: Conn, wire: seq<OutFrame>, f: OutFrame)
    requires ReceiverOk(env.isClient, c) && c.table.Valid() && (forall k: nat :: StreamOk(c, wire, k))
    requires Dispatch.Receive(env, c, AsFrame(f)).alive
    ensures Heard(c, Dispatch.Receive(env, c, AsFrame(f)), wire, f)
    ensures ReceiverOk(env.isClient, Dispatch.Receive(env, c, AsFrame(f)))
  {
    hide ReceiverOk, StreamOk, Heard, AsFrame;
    if Known(c, f.stream) {
      KnownIsHeard(env, c, wire, f);
    } else if Stray(env, c, f) {
      StrayIsHeard(env, c, wire, f);
    } else {
      NewIsHeard(env, c, wire, f);
    }
    HeardNonePending(c, Dispatch.Receive(env, c, AsFrame(f)), wire, f);
    ReceiverKeeps(env, c, f);
  }

  lemma HeardNonePending(c: Conn, c': Conn, wire: seq<OutFrame>, f: OutFrame)
    requires Heard(c, c', wire, f)
    ensures HeaderBlocks.NonePending(c')
  {
  }

  // ---------- the decoder's table ----------

  lemma {:induction false} BlocksPrefix(wire: seq<OutFrame>, d: nat)
    requires d <= |wire|
    ensures Blocks(wire[..d]) <= Blocks(wire)
    decreases |wire|
  {
    if d == |wire| {
      assert wire[..d] == wire;
    } else {
      BlocksPrefix(wire[..|wire| - 1], d);
      assert wire[..|wire| - 1][..d] == wire[..d];
    }
  }

  lemma BlockAt(wire: seq<OutFrame>, d: nat)
    requires d < |wire| && wire[d].HeaderBlock?
    ensures var k := |Blocks(wire[..d])|; k < |Blocks(wire)| && Blocks(wire)[k] == wire[d].block
  {
    hide Blocks;
    OneMoreFrame(wire[..d], wire[d]);
    assert wire[..d + 1] == wire[..d] + [wire[d]];
    BlocksPrefix(wire, d + 1);
  }

  lemma {:induction false} EncodedAt(cx: Codec, t: Table, blocks: seq<seq<Header>>, k: nat)
    requires ValidCodec(cx) && t.Valid() && k < |blocks|
    ensures EncodeBlocks(cx, t, blocks).0[k] == EncodeBlock(cx, EncodeBlocks(cx, t, blocks[..k]).1, blocks[k]).0
    decreases |blocks|
  {
    hide ValidCodec, EncodeBlock;
    var n := |blocks| - 1;
    if k < n {
      EncodedAt(cx, t, blocks[..n], k);
      assert blocks[..n][..k] == blocks[..k];
    }
  }

  lemma TableAfterBlock(cx: Codec, limit: nat, blocks: seq<seq<Header>>, k: nat)
    requires ValidCodec(cx) && k < |blocks|
    ensures TableAt(cx, limit, blocks, k + 1) == EncodeBlock(cx, TableAt(cx, limit, blocks, k), blocks[k]).1
  {
    hide ValidCodec, EncodeBlock;
    assert blocks[..k + 1][..k] == blocks[..k];
  }

  /** A header block on the wire is the block of the header list with its number, encoded with the table of its time. */
  lemma FrameCarries(cx: Codec, limit: nat, s: Sender, d: nat)
    requires ValidCodec(cx) && HeadersOk(cx, limit, s) && d < |s.wire| && s.wire[d].HeaderBlock?
    ensures var k := |Blocks(s.wire[..d])|;
            k < |s.blocks| && PeerBlocks.Carries(cx, TableAt(cx, limit, s.blocks, k), AsFrame(s.wire[d]), s.blocks[k])
  {
    hide ValidCodec, EncodeBlocks, EncodeBlock, Blocks, Authors;
    var k, n := |Blocks(s.wire[..d])|, |Blocks(s.wire)|;
    BlockAt(s.wire, d);
    EncodedAt(cx, Table([], 0, limit), s.blocks[..n], k);
    assert s.blocks[..n][..k] == s.blocks[..k];
    FrameCarriesBlock(cx, TableAt(cx, limit, s.blocks, k), s.wire[d], s.blocks[k]);
  }

  lemma FrameCarriesBlock(cx: Codec, t: Table, f: OutFrame, hs: seq<Header>)
    requires ValidCodec(cx) && t.Valid() && f.HeaderBlock? && f.block == EncodeBlock(cx, t, hs).0
    ensures PeerBlocks.Carries(cx, t, AsFrame(f), hs)
  {
    hide ValidCodec, EncodeBlock, BitsBytes, BytesBits;
    WholeBlock(cx, t, hs);
    BitsBytesBits(f.block);
    FlagsOfFrames(f);
  }

  /** Where the interpretation of a header block finds its stream. */
  function Target(c: Conn, i: nat): StreamState {
    if Known(c, i) then c.streams[Id(i)]
    else Receiving.NewStream(Id(i), Dispatch.Setting(c.settings, Dispatch.INITIAL_WINDOW_SIZE, DEFAULT_WINDOW_SIZE))
  }

  /** The loop gives a header block to its stream, with the headers that were encoded. */
  lemma BlockIsGiven(env: Env, c: Conn, f: OutFrame, hs: seq<Header>)
    requires ValidCodec(env.cx) && ReceiverOk(env.isClient, c) && c.table.Valid() && f.HeaderBlock? && !Stray(env, c, f)
    requires PeerBlocks.Carries(env.cx, c.table, AsFrame(f), hs) && !Target(c, f.stream).finished
    ensures var h := Receiving.AfterDecode(env, Hearing.Listening(env, Target(c, f.stream), AsFrame(f)),
                                           EncodeBlock(env.cx, c.table, hs).1, AsFrame(f).flags,
                                               SeenBlock(env.cx, c.table, hs));
            var a := Dispatch.Act(env, c, AsFrame(f));
            && a.outcome == h.outcome && a.c.table == EncodeBlock(env.cx, c.table, hs).1
            && a.c.streams == c.streams[Id(f.stream) := h.s]
  {
    hide ValidCodec, ReceiverOk, EncodeBlock, SeenBlock, Receiving.AfterDecode, AsFrame, Dispatch.Act,
      Receiving.HandleFrame, PeerBlocks.Carries;
    var s := Target(c, f.stream);
    if Known(c, f.stream) {
      StreamHasInv(env.isClient, c, f.stream);
      OnKnown(env, c, f);
    } else {
      OnNew(env, c, f);
    }
    Hearing.BlockHeard(env, s, c.table, AsFrame(f), hs);
    var s' := Receiving.HandleFrame(env, s, c.table, AsFrame(f)).s;
    assert Dispatch.CreateRemote(c, Id(f.stream)).streams[Id(f.stream) := s'] == c.streams[Id(f.stream) := s'];
  }

  lemma OtherFramesKeepTable(env: Env, c: Conn, f: OutFrame)
    requires c.table.Valid() && HeaderBlocks.NonePending(c) && !f.HeaderBlock?
    ensures Dispatch.Receive(env, c, AsFrame(f)).table == c.table
  {
    PeerBlocks.OtherFrames(env, c, AsFrame(f));
  }

  /** A block that is not behind the end of its stream keeps the decoder in step. */
  lemma BlockStaysInStep(env: Env, limit: nat, s: Sender, c: Conn, d: nat)
    requires ValidCodec(env.cx) && HeadersOk(env.cx, limit, s) && d < |s.wire| && s.wire[d].HeaderBlock?
    requires ReceiverOk(env.isClient, c) && StreamOk(c, s.wire[..d], s.wire[d].stream)
             && !Ended(s.wire[..d], s.wire[d].stream)
    requires |Blocks(s.wire[..d])| <= |s.blocks| && c.table == TableAt(env.cx, limit, s.blocks, |Blocks(s.wire[..d])|)
    requires Dispatch.Receive(env, c, AsFrame(s.wire[d])).alive
    ensures var k := |Blocks(s.wire[..d])|;
            k < |s.blocks| && Dispatch.Receive(env, c, AsFrame(s.wire[d])).table == TableAt(env.cx, limit, s.blocks,
                k + 1)
  {
    hide ValidCodec, HeadersOk, ReceiverOk, EncodeBlock, TableAt, SeenBlock, Receiving.AfterDecode,
      Hearing.Listening, AsFrame, Dispatch.Act, PeerBlocks.Carries, Follows, Sent, Ended, Blocks, HeadersFirst,
      Receiving.Delivered;
    var f, k := s.wire[d], |Blocks(s.wire[..d])|;
    FrameCarries(env.cx, limit, s, d);
    TableAfterBlock(env.cx, limit, s.blocks, k);
    if Stray(env, c, f) {
      OnStray(env, c, f);
    } else {
      BlockIsGiven(env, c, f, s.blocks[k]);
    }
  }

  // ---------- steps of the sender ----------

  lemma InvParts(cx: Codec, limit: nat, s: Sender)
    requires ValidCodec(cx) && Inv(cx, limit, s)
    ensures KnownStreams(s) && StreamsInv(s) && ConnOk(s) && HeadersOk(cx, limit, s)
  {
  }

  lemma UnknownUncredited(n: Net, i: nat)
    requires AmountsOk(n) && KnownStreams(n.sender) && n.delivered <= |n.sender.wire| && i >= |n.sender.streams|
    requires StreamOk(n.receiver, n.sender.wire[..n.delivered], i)
    ensures HeardOf(n.receiver, i) == 0 && PendingOf(n.pending, i) == 0 && BackTo(n.back, Some(i)) == 0
  {
    NothingFromUnknown(n.sender.wire[..n.delivered], i);
    PendingOfUnknown(n.pending, i);
    BackToUnknown(n.back, i);
  }

  lemma BlocksOnlyGrow(cx: Codec, s: Sender, a: Action)
    requires ValidCodec(cx) && s.table.Valid() && Step(cx, s, a).Some?
    ensures s.blocks <= Step(cx, s, a).value.blocks
  {
    hide ValidCodec, EncodeBlock;
  }

  /** What was delivered, and the table it left, stay what they were. */
  lemma DeliveredIsKept(cx: Codec, limit: nat, n: Net, n': Net)
    requires ValidCodec(cx) && n.delivered <= |n.sender.wire| && StreamsOk(n) && InStep(cx, limit, n)
    requires n'.delivered == n.delivered && n'.receiver == n.receiver
    requires n.sender.wire <= n'.sender.wire && n.sender.blocks <= n'.sender.blocks
    ensures StreamsOk(n') && InStep(cx, limit, n')
  {
    hide ValidCodec, StreamOk, EncodeBlocks, Blocks, HeadersBeforeEnd;
    var d := n.delivered;
    assert n'.sender.wire[..d] == n.sender.wire[..d];
    var k := |Blocks(n.sender.wire[..d])|;
    assert k <= |n.sender.blocks| ==> n'.sender.blocks[..k] == n.sender.blocks[..k];
  }

  lemma SenderStepKeeps(env: Env, limit: nat, n: Net, a: Action)
    requires ValidCodec(env.cx) && n.sender.table.Valid() && n.receiver.table.Valid() && NetInv(env, limit, n)
    requires NetStepOf(env, n, SenderActs(a)).Next?
    ensures NetInv(env, limit, NetStepOf(env, n, SenderActs(a)).net)
  {
    hide ValidCodec, Inv, Step, Sent, SentTotal, PendingOf, PendingTotal, BackTo, StreamOk, StreamsOk, InStep,
      ReceiverOk, HeardOf;
    var t := Step(env.cx, n.sender, a).value;
    InvParts(env.cx, limit, n.sender);
    StepKeeps(env.cx, limit, n.sender, a);
    StepCreditsNothing(env.cx, n.sender, a);
    BlocksOnlyGrow(env.cx, n.sender, a);
    var n' := n.(sender := t);
    assert t.wire[..n.delivered] == n.sender.wire[..n.delivered];
    DeliveredIsKept(env.cx, limit, n, n');
    forall i | 0 <= i < |n'.sender.streams|
      ensures StreamCredit(n', i)
    {
      if i < |n.sender.streams| {
        assert StreamCredit(n, i);
      } else {
        OneStreamOk(n, i);
        UnknownUncredited(n, i);
      }
    }
  }

  lemma OneStreamOk(n: Net, i: nat)
    requires n.delivered <= |n.sender.wire| && StreamsOk(n)
    ensures StreamOk(n.receiver, n.sender.wire[..n.delivered], i)
  {
  }

  // ---------- steps of the receiver's application ----------

  lemma LocalStream(env: Env, c: Conn, e: Dispatch.Event, wire: seq<OutFrame>, i: nat)
    requires c.table.Valid() && !e.Read? && StreamOk(c, wire, i) && (Id(i) in c.streams ==> c.nextId != Id(i))
    ensures StreamOk(Dispatch.Step(env, c, e), wire, i) && HeardOf(Dispatch.Step(env, c, e), i) == HeardOf(c, i)
  {
    hide Sent, Ended, NothingAfterEnd, BlocksOf, HeadersFirst, Receiving.Bodies, Receiving.WithoutCloses;
    if e.Open? && c.nextId == Id(i) {
      NothingHeardYet(Id(i), Dispatch.Setting(c.settings, Dispatch.INITIAL_WINDOW_SIZE, DEFAULT_WINDOW_SIZE));
      NothingHeardYet(Id(i), DEFAULT_WINDOW_SIZE);
      if HeadersFirst(wire, i) {
        NothingBeforeHeaders(wire, i);
        NewFollows(Id(i), Dispatch.Setting(c.settings, Dispatch.INITIAL_WINDOW_SIZE, DEFAULT_WINDOW_SIZE), wire, i);
      }
    }
  }

  lemma LocalReceiver(env: Env, c: Conn, e: Dispatch.Event)
    requires ReceiverOk(env.isClient, c) && c.table.Valid() && !e.Read?
    ensures ReceiverOk(env.isClient, Dispatch.Step(env, c, e)) && Dispatch.Step(env, c, e).table == c.table
    ensures c.nextId !in c.streams
  {
    hide DispatchRuns.ConnInv, HeaderBlocks.NonePending;
    DispatchRuns.StepKeeps(env, c, e);
    PeerBlocks.LocalEvents(env, c, e);
    DispatchRuns.CreateIsFresh(env.isClient, c);
  }

  lemma ReceiverActsKeeps(env: Env, limit: nat, n: Net, e: Dispatch.Event)
    requires ValidCodec(env.cx) && n.sender.table.Valid() && n.receiver.table.Valid() && NetInv(env, limit, n)
             && !e.Read?
    ensures NetInv(env, limit, n.(receiver := Dispatch.Step(env, n.receiver, e)))
  {
    hide ValidCodec, Inv, PendingOf, PendingTotal, BackTo, StreamOk, ReceiverOk, HeardOf, SentTotal, TableAt, Blocks,
      HeadersBeforeEnd, Dispatch.Step;
    var n' := n.(receiver := Dispatch.Step(env, n.receiver, e));
    LocalReceiver(env, n.receiver, e);
    forall i: nat
      ensures StreamOk(n'.receiver, n.sender.wire[..n.delivered], i)
              && HeardOf(n'.receiver, i) == HeardOf(n.receiver, i)
    {
      LocalStream(env, n.receiver, e, n.sender.wire[..n.delivered], i);
    }
    forall i | 0 <= i < |n'.sender.streams|
      ensures StreamCredit(n', i)
    {
      assert StreamCredit(n, i);
    }
  }

  // ---------- delivery ----------

  lemma DeliverIsHeard(env: Env, limit: nat, n: Net, deferred: bool)
    requires ValidCodec(env.cx) && n.receiver.table.Valid() && NetInv(env, limit, n)
             && DeliverStep(env, n, deferred).Next?
    ensures var f, n' := n.sender.wire[n.delivered], DeliverStep(env, n, deferred).net;
            && n.sender.wire[..n.delivered + 1] == n.sender.wire[..n.delivered] + [f]
            && n'.receiver == Dispatch.Receive(env, n.receiver, AsFrame(f)) && n'.receiver.alive
            && Heard(n.receiver, n'.receiver, n.sender.wire[..n.delivered], f) && ReceiverOk(env.isClient, n'.receiver)
  {
    hide ValidCodec, Inv, StreamOk, ReceiverOk, Heard, AsFrame, InStep, ConnCredit, AmountsOk, StreamCredit,
      Hearing.NewlyHeard;
    AliveOk(env.isClient, n.receiver);
    FrameIsHeard(env, n.receiver, n.sender.wire[..n.delivered], n.sender.wire[n.delivered]);
  }

  lemma AliveOk(isClient: bool, c: Conn)
    requires ReceiverOk(isClient, c)
    ensures c.alive && c.table.Valid()
  {
  }

  lemma StaysInStep(env: Env, limit: nat, s: Sender, c: Conn, d: nat)
    requires ValidCodec(env.cx) && HeadersOk(env.cx, limit, s) && d < |s.wire|
    requires ReceiverOk(env.isClient, c) && c.table.Valid() && StreamOk(c, s.wire[..d], s.wire[d].stream)
    requires HeadersBeforeEnd(s.wire[..d + 1]) && Dispatch.Receive(env, c, AsFrame(s.wire[d])).alive
    requires |Blocks(s.wire[..d])| <= |s.blocks| && c.table == TableAt(env.cx, limit, s.blocks, |Blocks(s.wire[..d])|)
    ensures var k := |Blocks(s.wire[..d + 1])|;
            k <= |s.blocks| && Dispatch.Receive(env, c, AsFrame(s.wire[d])).table == TableAt(env.cx, limit, s.blocks, k)
  {
    hide ValidCodec, HeadersOk, StreamOk, ReceiverOk, AsFrame, TableAt, Blocks, HeadersBeforeEnd, Ended,
      Dispatch.Receive;
    var w, f := s.wire[..d], s.wire[d];
    assert s.wire[..d + 1] == w + [f];
    WireGrows(w, f, f.stream);
    OneMoreFrame(w, f);
    if f.HeaderBlock? {
      BlockStaysInStep(env, limit, s, c, d);
    } else {
      ReceiverNonePending(env.isClient, c);
      OtherFramesKeepTable(env, c, f);
    }
  }

  /** What a delivery leaves alone, and where it stands then. */
  lemma DeliverShape(env: Env, n: Net, deferred: bool)
    requires n.receiver.table.Valid() && DeliverStep(env, n, deferred).Next?
    ensures n.delivered < |n.sender.wire|
    ensures var n' := DeliverStep(env, n, deferred).net;
            && n'.sender == n.sender && n'.delivered == n.delivered + 1
            && n'.receiver == Dispatch.Receive(env, n.receiver, AsFrame(n.sender.wire[n.delivered]))
               && n'.receiver.alive
  {
    hide Dispatch.Receive, Dispatch.Act, Hearing.NewlyHeard, AsFrame;
  }

  lemma DeliverInStep(env: Env, limit: nat, n: Net, deferred: bool)
    requires ValidCodec(env.cx) && n.receiver.table.Valid() && NetInv(env, limit, n)
             && DeliverStep(env, n, deferred).Next?
    ensures InStep(env.cx, limit, DeliverStep(env, n, deferred).net)
  {
    hide ValidCodec, Inv, StreamOk, ReceiverOk, AsFrame, ConnCredit, AmountsOk, StreamCredit, TableAt, Blocks,
      HeadersBeforeEnd, Dispatch.Receive, DeliverStep;
    DeliverShape(env, n, deferred);
    var d := n.delivered;
    InvParts(env.cx, limit, n.sender);
    if HeadersBeforeEnd(n.sender.wire[..d + 1]) {
      EarlierHeadersBeforeEnd(n.sender.wire, d);
      StaysInStep(env, limit, n.sender, n.receiver, d);
    }
  }

  lemma EarlierHeadersBeforeEnd(wire: seq<OutFrame>, d: nat)
    requires d < |wire| && HeadersBeforeEnd(wire[..d + 1])
    ensures HeadersBeforeEnd(wire[..d])
  {
    assert wire[..d + 1][..d] == wire[..d];
  }

  lemma ReceiverNonePending(isClient: bool, c: Conn)
    requires ReceiverOk(isClient, c)
    ensures HeaderBlocks.NonePending(c)
  {
  }

  lemma DeliverCounts(env: Env, n: Net, deferred: bool, i: nat, target: Option<nat>)
    requires n.receiver.table.Valid() && DeliverStep(env, n, deferred).Next?
    ensures var n', f := DeliverStep(env, n, deferred).net, n.sender.wire[n.delivered];
            var amount := Hearing.NewlyHeard(StreamOf(n.receiver, f.stream), StreamOf(n'.receiver, f.stream));
            && n'.heard == n.heard + amount
            && PendingOf(n'.pending, i) == PendingOf(n.pending, i) + (if deferred && f.stream == i then amount else 0)
            && PendingTotal(n'.pending) == PendingTotal(n.pending) + (if deferred then amount else 0)
            && BackTo(n'.back, target) == BackTo(n.back, target)
                 + (if !deferred && (target == None || target == Some(f.stream)) then amount else 0)
  {
    hide Hearing.NewlyHeard, StreamOf, AsFrame, Dispatch.Receive, Dispatch.Act;
    var f, n' := n.sender.wire[n.delivered], DeliverStep(env, n, deferred).net;
    var amount := Hearing.NewlyHeard(StreamOf(n.receiver, f.stream), StreamOf(n'.receiver, f.stream));
    if amount > 0 {
      var p := [Pending(f.stream, amount)];
      assert p[1..] == [];
      PendingConcat(n.pending, p, i);
      BackConcat(n.back, Updates(f.stream, amount), target);
      BackOfUpdates(f.stream, amount, target);
    }
  }

  lemma DeliverAmounts(env: Env, n: Net, deferred: bool)
    requires n.receiver.table.Valid() && AmountsOk(n) && KnownStreams(n.sender) && DeliverStep(env, n, deferred).Next?
    requires var f, c := n.sender.wire[n.delivered], DeliverStep(env, n, deferred).net.receiver;
             Hearing.NewlyHeard(StreamOf(n.receiver, f.stream), StreamOf(c, f.stream)) <= (if f.Data? then |f.payload|
                 else 0)
    ensures AmountsOk(DeliverStep(env, n, deferred).net)
  {
    hide Hearing.NewlyHeard, StreamOf, Dispatch.Receive, Dispatch.Act, BlockBytes;
  }

  lemma DeliverKeeps(env: Env, limit: nat, n: Net, deferred: bool)
    requires ValidCodec(env.cx) && n.sender.table.Valid() && n.receiver.table.Valid() && NetInv(env, limit, n)
    requires DeliverStep(env, n, deferred).Next?
    ensures NetInv(env, limit, DeliverStep(env, n, deferred).net)
  {
    hide ValidCodec, Inv, StreamsInv, ConnOk, HeadersOk, KnownStreams, StreamOk, ReceiverOk, HeardOf, Sent,
      SentTotal, PendingOf, PendingTotal, BackTo, InStep, AmountsOk, Hearing.NewlyHeard, Dispatch.Receive,
      Dispatch.Act, AsFrame;
    InvParts(env.cx, limit, n.sender);
    DeliverIsHeard(env, limit, n, deferred);
    DeliverInStep(env, limit, n, deferred);
    DeliverAmounts(env, n, deferred);
    var n', f, w := DeliverStep(env, n, deferred).net, n.sender.wire[n.delivered], n.sender.wire[..n.delivered];
    WireGrows(w, f, f.stream);
    DeliverCounts(env, n, deferred, f.stream, None);
    forall i | 0 <= i < |n'.sender.streams|
      ensures StreamCredit(n', i)
    {
      assert StreamCredit(n, i);
      DeliverCounts(env, n, deferred, i, Some(i));
    }
  }

  // ---------- futures and updates ----------

  lemma CompleteKeeps(env: Env, limit: nat, n: Net, j: nat)
    requires ValidCodec(env.cx) && NetInv(env, limit, n) && CompleteStep(n, j).Next?
    ensures NetInv(env, limit, CompleteStep(n, j).net)
  {
    hide ValidCodec, Inv, SentTotal, PendingOf, PendingTotal, BackTo, StreamOk, ReceiverOk, HeardOf, TableAt, Blocks,
      HeadersBeforeEnd;
    var n', p := CompleteStep(n, j).net, n.pending[j];
    PendingWithout(n.pending, j, p.stream);
    BackConcat(n.back, Updates(p.stream, p.amount), None);
    BackOfUpdates(p.stream, p.amount, None);
    forall i | 0 <= i < |n'.sender.streams|
      ensures StreamCredit(n', i)
    {
      assert StreamCredit(n, i);
      PendingWithout(n.pending, j, i);
      BackConcat(n.back, Updates(p.stream, p.amount), Some(i));
      BackOfUpdates(p.stream, p.amount, Some(i));
    }
  }

  lemma BackHead(back: seq<Update>, target: Option<nat>)
    requires back != []
    ensures BackTo(back, target) == BackTo(back[1..], target) + if back[0].target == target then back[0].amount else 0
  {
  }

  lemma NothingSent(i: nat)
    ensures Sent([], i) == [] && SentTotal([]) == 0
  {
  }

  lemma SentStep(wire: seq<OutFrame>, i: nat)
    requires wire != []
    ensures var n := |wire| - 1;
            var length := if wire[n].Data? then |wire[n].payload| else 0;
            && |Sent(wire, i)| == |Sent(wire[..n], i)| + (if wire[n].stream == i then length else 0)
            && SentTotal(wire) == SentTotal(wire[..n]) + length
  {
  }

  /** What is sent is what was delivered and what is in flight. */
  lemma {:induction false} SentPrefix(wire: seq<OutFrame>, d: nat, i: nat)
    requires d <= |wire|
    ensures |Sent(wire, i)| == |Sent(wire[..d], i)| + |Sent(wire[d..], i)|
    ensures SentTotal(wire) == SentTotal(wire[..d]) + SentTotal(wire[d..])
    decreases |wire|
  {
    hide Sent, SentTotal;
    var n := |wire| - 1;
    if d == |wire| {
      NothingSent(i);
      assert wire[..d] == wire && wire[d..] == [];
    } else {
      SentPrefix(wire[..n], d, i);
      assert wire[..n][..d] == wire[..d];
      assert wire[..n][d..] == wire[d..][..n - d] && wire[d..][n - d] == wire[n];
      SentStep(wire, i);
      SentStep(wire[d..], i);
    }
  }

  /** What a stream has handed over was sent on it. */
  lemma HeardIsSent(n: Net, i: nat)
    requires n.delivered <= |n.sender.wire| && StreamsOk(n)
    ensures HeardOf(n.receiver, i) <= |Sent(n.sender.wire[..n.delivered], i)|
  {
    hide Sent, Ended, Follows, HeadersFirst, BlocksOf;
    assert StreamOk(n.receiver, n.sender.wire[..n.delivered], i);
    NothingHeardYet(Id(i), DEFAULT_WINDOW_SIZE);
  }

  /** Credit in flight never exceeds what the window started with, so `adjust` does not raise. */
  lemma AdjustIsSafe(env: Env, limit: nat, n: Net)
    requires ValidCodec(env.cx) && NetInv(env, limit, n) && n.back != []
    ensures var u := n.back[0];
            if u.target.None? then !AdjustFails(n.sender.conn, u.amount)
            else u.target.value < |n.sender.streams| && !AdjustFails(n.sender.streams[u.target.value].window, u.amount)
  {
    hide ValidCodec, PcOk, QueueOk, LengthOk, WaitersOk, DataOk, EndOk, Sent, SentTotal, PendingOf, PendingTotal,
      BackTo, Held, HeadersOk, StreamOk, ReceiverOk, HeardOf, InStep;
    var u := n.back[0];
    BackHead(n.back, u.target);
    SentPrefix(n.sender.wire, n.delivered, 0);
    if u.target.Some? {
      var i := u.target.value;
      assert StreamCredit(n, i) && StreamInv(n.sender.streams[i], n.sender.wire, i);
      SentPrefix(n.sender.wire, n.delivered, i);
      HeardIsSent(n, i);
    }
  }

  lemma ReceiveKeeps(env: Env, limit: nat, n: Net)
    requires ValidCodec(env.cx) && n.sender.table.Valid() && NetInv(env, limit, n) && n.back != []
    ensures ReceiveStep(env.cx, n).Next? && NetInv(env, limit, ReceiveStep(env.cx, n).net)
  {
    hide ValidCodec, Inv, SentTotal, PendingOf, PendingTotal, BackTo, StreamsOk, StreamOk, ReceiverOk, HeardOf,
      InStep;
    AdjustIsSafe(env, limit, n);
    var u := n.back[0];
    assert Step(env.cx, n.sender, UpdateAction(u)).Some?;
    StepKeeps(env.cx, limit, n.sender, UpdateAction(u));
    var n' := ReceiveStep(env.cx, n).net;
    DeliveredIsKept(env.cx, limit, n, n');
    BackHead(n.back, None);
    forall i | 0 <= i < |n'.sender.streams|
      ensures StreamCredit(n', i)
    {
      assert StreamCredit(n, i);
      BackHead(n.back, Some(i));
    }
  }

  // ---------- every run ----------

  lemma NetStepKeeps(env: Env, limit: nat, n: Net, a: NetAction)
    requires ValidCodec(env.cx) && n.sender.table.Valid() && n.receiver.table.Valid() && NetInv(env, limit, n)
    ensures NetStepOf(env, n, a).Next? ==> NetInv(env, limit, NetStepOf(env, n, a).net)
    ensures NetStepOf(env, n, a).Error? ==> a.Deliver?
  {
    hide ValidCodec, NetInv, Step, ReceiveStep, CompleteStep, DeliverStep, Dispatch.Step;
    match a
    case SenderActs(b) =>
      if NetStepOf(env, n, a).Next? {
        SenderStepKeeps(env, limit, n, b);
      }
    case ReceiverActs(e) =>
      if !e.Read? {
        ReceiverActsKeeps(env, limit, n, e);
      }
    case Deliver(deferred) =>
      if DeliverStep(env, n, deferred).Next? {
        DeliverKeeps(env, limit, n, deferred);
      }
    case Complete(j) =>
      CompleteMayStep(n, j);
      if CompleteStep(n, j).Next? {
        CompleteKeeps(env, limit, n, j);
      }
    case Receive =>
      ReceiveMayStep(env.cx, n);
      if n.back != [] {
        ReceiveKeeps(env, limit, n);
      }
  }

  lemma CompleteMayStep(n: Net, j: nat)
    ensures !CompleteStep(n, j).Error?
  {
  }

  lemma ReceiveMayStep(cx: Codec, n: Net)
    requires ValidCodec(cx) && n.sender.table.Valid()
    ensures n.back == [] ==> ReceiveStep(cx, n) == Impossible
  {
  }

  lemma StartInv(env: Env, limit: nat)
    requires ValidCodec(env.cx)
    ensures NetInv(env, limit, StartNet(env.isClient, limit))
  {
    DispatchRuns.OpenedInv(env.isClient, limit);
    forall i: nat
      ensures StreamOk(StartNet(env.isClient, limit).receiver, [], i)
    {
    }
  }

  lemma {:induction false} NetRunKeeps(env: Env, limit: nat, actions: seq<NetAction>)
    requires ValidCodec(env.cx)
    ensures var r := NetRun(env, limit, actions);
            r.Next? ==> NetInv(env, limit, r.net)
    decreases |actions|
  {
    hide ValidCodec, NetStepOf, NetInv;
    if actions == [] {
      StartInv(env, limit);
    } else {
      var before := actions[..|actions| - 1];
      NetRunKeeps(env, limit, before);
      if NetRun(env, limit, before).Next? {
        NetStepKeeps(env, limit, NetRun(env, limit, before).net, actions[|actions| - 1]);
      }
    }
  }
}
