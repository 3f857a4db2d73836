/** From the application of one endpoint, through bytes, into the loop of the other. */
module WireBytes {
  import opened Protocol
  import opened DynamicTable
  import opened Hpack
  import opened Writers
  import opened WriterRuns
  import opened Network
  import opened NetworkRuns
  import opened Failures

  /** The frames of the write path as the connection writes them. */
  function AsFrames(wire: seq<OutFrame>): (r: seq<Frames.Frame>)
    ensures |r| == |wire|
  {
    seq(|wire|, k requires 0 <= k < |wire| => AsFrame(wire[k]))
  }

  /** All fit in a frame of the default size, and their streams in 31 bits. */
  predicate Transmittable(wire: seq<OutFrame>) {
    forall k :: 0 <= k < |wire| ==> !TooLarge(wire[k]) && Id(wire[k].stream) < 0x8000_0000
  }

  lemma FramesAreWritable(wire: seq<OutFrame>)
    requires Transmittable(wire)
    ensures var frames := AsFrames(wire);
            forall k :: 0 <= k < |frames| ==> Frames.Writable(frames[k]) && |frames[k].data| <= DEFAULT_MAX_FRAME_SIZE
  {
    hide BlockBytes;
  }

  lemma ReceiveAllSnoc(env: Env, c: Conn, frames: seq<Frames.Frame>, f: Frames.Frame)
    requires c.table.Valid()
    ensures Dispatch.ReceiveAll(env, c, frames + [f]) == Dispatch.Receive(env, Dispatch.ReceiveAll(env, c, frames), f)
    decreases |frames|
  {
    hide Dispatch.Receive;
    if frames == [] {
      assert [] + [f] == [f] && [f][1..] == [];
    } else {
      assert (frames + [f])[1..] == frames[1..] + [f];
      ReceiveAllSnoc(env, Dispatch.Receive(env, c, frames[0]), frames[1..], f);
    }
  }

  /** The other end after the first d frames. */
  function Arrived(env: Env, limit: nat, wire: seq<OutFrame>, d: nat): (c: Conn)
    requires d <= |wire|
    ensures c.table.Valid()
  {
    Dispatch.ReceiveAll(env, Dispatch.Opened(env.isClient, limit), AsFrames(wire[..d]))
  }

  lemma OneMoreArrives(env: Env, limit: nat, wire: seq<OutFrame>, d: nat)
    requires d < |wire|
    ensures Arrived(env, limit, wire, d + 1) == Dispatch.Receive(env, Arrived(env, limit, wire, d), AsFrame(wire[d]))
  {
    ReceiveAllSnoc(env, Dispatch.Opened(env.isClient, limit), AsFrames(wire[..d]), AsFrame(wire[d]));
    assert AsFrames(wire[..d + 1]) == AsFrames(wire[..d]) + [AsFrame(wire[d])];
  }

  lemma NothingArrived(env: Env, limit: nat, wire: seq<OutFrame>)
    ensures Arrived(env, limit, wire, 0) == Dispatch.Opened(env.isClient, limit) && wire[..0] == []
    ensures ReceiverOk(env.isClient, Arrived(env, limit, wire, 0))
            && forall k: nat :: StreamOk(Arrived(env, limit, wire, 0), wire[..0], k)
  {
    DispatchRuns.OpenedInv(env.isClient, limit);
  }

  /** The receiver is in order after d frames, and in step as long as no block came behind the end of its stream. */
  ghost predicate ArrivedOk(env: Env, limit: nat, s: Sender, c: Conn, d: nat)
    requires ValidCodec(env.cx) && d <= |s.wire|
  {
    && ReceiverOk(env.isClient, c) && (forall k: nat :: StreamOk(c, s.wire[..d], k))
    && (HeadersBeforeEnd(s.wire[..d]) ==>
          |Blocks(s.wire[..d])| <= |s.blocks| && c.table == TableAt(env.cx, limit, s.blocks, |Blocks(s.wire[..d])|))
  }

  lemma StartArrived(env: Env, limit: nat, s: Sender)
    requires ValidCodec(env.cx)
    ensures ArrivedOk(env, limit, s, Arrived(env, limit, s.wire, 0), 0)
  {
    hide ValidCodec, ReceiverOk, StreamOk, Arrived, TableAt, Blocks;
    NothingArrived(env, limit, s.wire);
    NoBlocksYet(env.cx, limit, s.blocks);
  }

  lemma NextArrived(env: Env, limit: nat, s: Sender, c: Conn, d: nat)
    requires ValidCodec(env.cx) && HeadersOk(env.cx, limit, s) && d < |s.wire| && ArrivedOk(env, limit, s, c, d)
    requires c.table.Valid() && Dispatch.Receive(env, c, AsFrame(s.wire[d])).alive
    ensures ArrivedOk(env, limit, s, Dispatch.Receive(env, c, AsFrame(s.wire[d])), d + 1)
  {
    hide ValidCodec, HeadersOk, ReceiverOk, StreamOk, Heard, AsFrame, TableAt, Blocks, HeadersBeforeEnd,
      Dispatch.Receive;
    var w, f := s.wire[..d], s.wire[d];
    FrameIsHeard(env, c, w, f);
    assert s.wire[..d + 1] == w + [f];
    HeardStreams(c, Dispatch.Receive(env, c, AsFrame(f)), w, f);
    if HeadersBeforeEnd(s.wire[..d + 1]) {
      EarlierHeadersBeforeEnd(s.wire, d);
      StaysInStep(env, limit, s, c, d);
    }
  }

  /** While the other end lives it is in order, and in step. */
  lemma {:induction false} ArrivedInStep(env: Env, limit: nat, s: Sender, d: nat)
    requires ValidCodec(env.cx) && HeadersOk(env.cx, limit, s) && d <= |s.wire| && Arrived(env, limit, s.wire, d).alive
    ensures ArrivedOk(env, limit, s, Arrived(env, limit, s.wire, d), d)
    decreases d
  {
    hide ValidCodec, HeadersOk, ArrivedOk, AsFrame, Arrived, Dispatch.Receive;
    if d == 0 {
      StartArrived(env, limit, s);
    } else {
      var c := Arrived(env, limit, s.wire, d - 1);
      OneMoreArrives(env, limit, s.wire, d - 1);
      AliveBefore(env, c, AsFrame(s.wire[d - 1]));
      ArrivedInStep(env, limit, s, d - 1);
      NextArrived(env, limit, s, c, d - 1);
    }
  }

  lemma NoBlocksYet(cx: Codec, limit: nat, blocks: seq<seq<Header>>)
    requires ValidCodec(cx)
    ensures Blocks([]) == [] && TableAt(cx, limit, blocks, 0) == Table([], 0, limit)
  {
    hide ValidCodec;
    assert blocks[..0] == [];
  }

  lemma AliveBefore(env: Env, c: Conn, f: Frames.Frame)
    requires c.table.Valid() && Dispatch.Receive(env, c, f).alive
    ensures c.alive
  {
    hide Dispatch.Act;
  }

  lemma HeardStreams(c: Conn, c': Conn, wire: seq<OutFrame>, f: OutFrame)
    requires Heard(c, c', wire, f)
    ensures forall k: nat :: StreamOk(c', wire + [f], k)
  {
    hide StreamOk;
  }

  /**
   * Whatever the applications of one endpoint do, in whatever interleaving: the bytes it has written
   * are read back as its frames, and if these leave the loop of the other endpoint alive, and no header block
   * came behind the end of its stream, the decoder there has the encoder's table.
   */
  lemma BytesLeaveDecoderInStep(env: Env, limit: nat, actions: seq<Action>)
    requires ValidCodec(env.cx) && Writers.Run(env.cx, Start(limit), actions).Some?
    requires var s := Writers.Run(env.cx, Start(limit), actions).value;
             Transmittable(s.wire) && s.socketOpen && HeadersBeforeEnd(s.wire)
    ensures var s := Writers.Run(env.cx, Start(limit), actions).value;
            && (forall k :: 0 <= k < |s.wire| ==> Frames.Writable(AsFrames(s.wire)[k]))
            && var (frames, end) := Frames.ReadAll(Frames.WriteAll(AsFrames(s.wire)), DEFAULT_MAX_FRAME_SIZE);
               && frames == AsFrames(s.wire) && end == Frames.Incomplete
               && var c := Dispatch.ReceiveAll(env, Dispatch.Opened(env.isClient, limit), frames);
                  c.alive ==> c.table == s.table
  {
    hide ValidCodec, Writers.Run, ReceiverOk, StreamOk, StreamsInv, ConnOk, TableAt, Blocks, Authors,
      HeadersBeforeEnd, Frames.ReadAll, Frames.WriteAll, Transmittable;
    RunKeeps(env.cx, limit, actions);
    var s := Writers.Run(env.cx, Start(limit), actions).value;
    FramesAreWritable(s.wire);
    Frames.FramesRoundTrip(AsFrames(s.wire), DEFAULT_MAX_FRAME_SIZE);
    assert s.wire[..|s.wire|] == s.wire;
    assert Arrived(env, limit, s.wire, |s.wire|) == Dispatch.ReceiveAll(env, Dispatch.Opened(env.isClient, limit),
           AsFrames(s.wire));
    if Arrived(env, limit, s.wire, |s.wire|).alive {
      ArrivedInStep(env, limit, s, |s.wire|);
      AllBlocks(env.cx, limit, s);
    }
  }

  lemma AllBlocks(cx: Codec, limit: nat, s: Sender)
    requires ValidCodec(cx) && HeadersOk(cx, limit, s) && s.socketOpen
    ensures |Blocks(s.wire)| == |s.blocks| && TableAt(cx, limit, s.blocks, |s.blocks|) == s.table
  {
    hide ValidCodec, EncodeBlocks, Blocks, Authors;
    assert s.blocks[..|s.blocks|] == s.blocks;
  }
}
