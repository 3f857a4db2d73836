/** Exactly which deliveries end the connection. */
module Failures {
  import opened Bits
  import opened Protocol
  import opened DynamicTable
  import opened Hpack
  import opened Writers
  import opened WriterRuns
  import opened Network
  import opened NetworkRuns
  import opened Delivery

  predicate Ends(o: Outcome) {
    o.ConnectionError? || o == Fatal
  }

  predicate TooLarge(f: OutFrame) {
    |AsFrame(f).data| > DEFAULT_MAX_FRAME_SIZE
  }

  /** The stream cannot take these headers: they are refused as a whole, or by the start of the request. */
  predicate HeadersFail(env: Env, s: StreamState, headers: seq<Decoded>) {
    var v := env.interpret(s.phase == Receiving.TrailersPhase, headers);
    || v.RefuseConnection? || v.Raise?
    || (v.Accept? && s.phase == Receiving.HeadersPhase
        && (if env.isClient && s.headRequest.None? then true
            else if env.isClient && (s.headRequest.value || v.status == 304) then false
            else v.length.Malformed?))
  }

  lemma HeadersEnd(env: Env, s: StreamState, t: Table, flags: byte, headers: seq<Decoded>)
    ensures Ends(Receiving.AfterDecode(env, s, t, flags, headers).outcome) <==> HeadersFail(env, s, headers)
  {
  }

  /** A block cannot be decoded, or the stream cannot take what it is decoded to. */
  predicate BlockFails(env: Env, s: StreamState, t: Table, f: Frames.Frame)
    requires t.Valid()
  {
    var headers := DecodeBlock(env.cx, t, BytesBits(f.data), true).0;
    headers.None? || HeadersFail(env, Hearing.Listening(env, s, f), headers.value)
  }

  /** The receiver's loop ends at the next frame, which fits. */
  predicate NextFails(env: Env, n: Net)
    requires n.delivered < |n.sender.wire| && n.receiver.table.Valid()
  {
    var f := n.sender.wire[n.delivered];
    var s := Target(n.receiver, f.stream);
    if Stray(env, n.receiver, f) then FromTheFuture(env, n.receiver, f)
    else
      match f
      case Data(_, _, _) => !s.finished && s.phase == Receiving.TrailersPhase
      case HeaderBlock(_, _) => !s.finished && BlockFails(env, s, n.receiver.table, AsFrame(f))
      case Reset(_) => false
  }

  lemma LoopEnds(env: Env, c: Conn, f: Frames.Frame)
    requires c.table.Valid() && c.alive && Dispatch.Act(env, c, f).c.alive
    ensures !Dispatch.Receive(env, c, f).alive <==> Ends(Dispatch.Act(env, c, f).outcome)
  {
    hide Dispatch.Act;
  }

  lemma ActLeavesAlive(env: Env, c: Conn, f: Frames.Frame)
    requires c.table.Valid()
    ensures Dispatch.Act(env, c, f).c.alive == c.alive
  {
    hide Receiving.HandleFrame, Dispatch.ApplySettings;
  }

  lemma BlockEnds(env: Env, s: StreamState, t: Table, f: OutFrame)
    requires t.Valid() && f.HeaderBlock? && s.headerFrames == []
    ensures Ends(Receiving.HandleFrame(env, s, t, AsFrame(f)).outcome) <==>
            !s.finished && BlockFails(env, s, t, AsFrame(f))
  {
    hide DecodeBlock, Receiving.AfterDecode, HeadersFail, AsFrame, Receiving.Joined;
    BlockFrame(f);
    var frame := AsFrame(f);
    if !s.finished {
      FlagsOfFrames(f);
      HeaderBlocks.KeptByPadding(frame);
      HeaderBlocks.JoinedSingle(frame);
      assert [] + [frame] == [frame];
      var (headers, t') := DecodeBlock(env.cx, t, BytesBits(frame.data), true);
      if headers.Some? {
        HeadersEnd(env, Hearing.Listening(env, s, frame), t', frame.flags, headers.value);
      }
    }
  }

  lemma BlockFrame(f: OutFrame)
    requires f.HeaderBlock?
    ensures AsFrame(f).typ == Frames.HEADERS
  {
  }

  lemma NextBlockEnds(env: Env, n: Net)
    requires ReceiverOk(env.isClient, n.receiver) && n.receiver.table.Valid() && n.delivered < |n.sender.wire|
    requires n.sender.wire[n.delivered].HeaderBlock? && !Stray(env, n.receiver, n.sender.wire[n.delivered])
    ensures var f := n.sender.wire[n.delivered];
            var s := Target(n.receiver, f.stream);
            Ends(Dispatch.Act(env, n.receiver, AsFrame(f)).outcome) <==>
            !s.finished && BlockFails(env, s, n.receiver.table, AsFrame(f))
  {
    hide ReceiverOk, AsFrame, BlockFails, Dispatch.Act, Receiving.HandleFrame;
    var f := n.sender.wire[n.delivered];
    if Known(n.receiver, f.stream) {
      StreamHasInv(env.isClient, n.receiver, f.stream);
      OnKnown(env, n.receiver, f);
    } else {
      OnNew(env, n.receiver, f);
    }
    BlockEnds(env, Target(n.receiver, f.stream), n.receiver.table, f);
  }

  /** A block that is not behind the end of its stream is decoded to the very headers that were encoded. */
  lemma NextIsDecoded(env: Env, limit: nat, n: Net)
    requires ValidCodec(env.cx) && NetInv(env, limit, n) && NextIsBlock(n) && n.receiver.table.Valid()
    ensures |Blocks(n.sender.wire[..n.delivered])| < |n.sender.blocks|
            && !Target(n.receiver, n.sender.wire[n.delivered].stream).finished
    ensures DecodeBlock(env.cx, n.receiver.table, BytesBits(AsFrame(n.sender.wire[n.delivered]).data), true).0
            == Some(NextHeaders(env.cx, limit, n))
  {
    hide ValidCodec, NetInv, ReceiverOk, HeadersBeforeEnd, Blocks, EncodeBlock, DecodeBlock;
    var f, k := n.sender.wire[n.delivered], |Blocks(n.sender.wire[..n.delivered])|;
    NextBlockCarries(env, limit, n);
    FlagsOfFrames(f);
    BlockRoundTrip(env.cx, n.receiver.table, n.sender.blocks[k]);
  }

  lemma NextOtherEnds(env: Env, limit: nat, n: Net)
    requires ValidCodec(env.cx) && NetInv(env, limit, n) && n.receiver.table.Valid() && n.delivered < |n.sender.wire|
    requires var f := n.sender.wire[n.delivered]; !f.HeaderBlock? && Known(n.receiver, f.stream)
    ensures var f := n.sender.wire[n.delivered];
            var s := Target(n.receiver, f.stream);
            Ends(Dispatch.Act(env, n.receiver, AsFrame(f)).outcome) <==>
            f.Data? && !s.finished && s.phase == Receiving.TrailersPhase
  {
    hide ValidCodec, Inv, ReceiverOk, Follows, HeadersFirst, Sent, Ended, BlocksOf, ConnCredit, AmountsOk, InStep,
      AsFrame, Receiving.HandleFrame, Dispatch.Act, Receiving.StreamInv, Handles;
    var f, w := n.sender.wire[n.delivered], n.sender.wire[..n.delivered];
    var s := n.receiver.streams[Id(f.stream)];
    OneStreamOk(n, f.stream);
    StreamHasInv(env.isClient, n.receiver, f.stream);
    OnKnown(env, n.receiver, f);
    if f.Data? {
      DataHandles(env, s, n.receiver.table, w, f);
    } else {
      ResetHandles(env, s, n.receiver.table, w, f);
    }
  }

  lemma NextStrayEnds(env: Env, n: Net)
    requires ReceiverOk(env.isClient, n.receiver) && n.receiver.table.Valid() && n.delivered < |n.sender.wire|
    requires Stray(env, n.receiver, n.sender.wire[n.delivered])
    ensures Ends(Dispatch.Act(env, n.receiver, AsFrame(n.sender.wire[n.delivered])).outcome) <==>
            FromTheFuture(env, n.receiver, n.sender.wire[n.delivered])
  {
    hide ReceiverOk, Dispatch.Act, AsFrame;
    OnStray(env, n.receiver, n.sender.wire[n.delivered]);
  }

  /**
   * On every run, exactly these deliveries end the connection: a frame beyond the frame size; a frame
   * that belongs to no stream yet; DATA on an unfinished stream that is in its trailers, which is where
   * a second header block leaves it; and, on an unfinished stream, a block that cannot be decoded or
   * headers that cannot be taken.
   */
  lemma DeliveryFailsExactly(env: Env, limit: nat, actions: seq<NetAction>, deferred: bool)
    requires ValidCodec(env.cx) && NetRun(env, limit, actions).Next?
    requires NetRun(env, limit, actions).net.delivered < |NetRun(env, limit, actions).net.sender.wire|
    ensures var n := NetRun(env, limit, actions).net;
            DeliverStep(env, n, deferred).Error? <==> TooLarge(n.sender.wire[n.delivered]) || NextFails(env, n)
  {
    hide ValidCodec, NetRun, NetInv, ReceiverOk, AsFrame, BlockFails, Dispatch.Act, Dispatch.Receive,
      Hearing.NewlyHeard;
    NetRunKeeps(env, limit, actions);
    var n := NetRun(env, limit, actions).net;
    var f := n.sender.wire[n.delivered];
    NetReceiver(env, limit, n);
    AliveOk(env.isClient, n.receiver);
    ActLeavesAlive(env, n.receiver, AsFrame(f));
    LoopEnds(env, n.receiver, AsFrame(f));
    if Stray(env, n.receiver, f) {
      NextStrayEnds(env, n);
    } else if f.HeaderBlock? {
      NextBlockEnds(env, n);
    } else {
      NextOtherEnds(env, limit, n);
    }
  }

  /**
   * A header block that is not behind the end of its stream fails exactly if the headers that were
   * encoded cannot be taken.
   */
  lemma BlockFailsExactly(env: Env, limit: nat, actions: seq<NetAction>, deferred: bool)
    requires ValidCodec(env.cx) && NetRun(env, limit, actions).Next?
    requires var n := NetRun(env, limit, actions).net;
             NextIsBlock(n) && !Stray(env, n.receiver, n.sender.wire[n.delivered])
    ensures var n := NetRun(env, limit, actions).net;
            var f := n.sender.wire[n.delivered];
            && |Blocks(n.sender.wire[..n.delivered])| < |n.sender.blocks|
            && (DeliverStep(env, n, deferred).Error? <==>
                || TooLarge(f)
                || HeadersFail(env, Hearing.Listening(env, Target(n.receiver, f.stream), AsFrame(f)),
                   NextHeaders(env.cx, limit, n)))
  {
    hide ValidCodec, NetRun, NetInv, HeadersBeforeEnd, Blocks, AsFrame, HeadersFail, Hearing.Listening, DecodeBlock,
      DeliverStep, SeenAt;
    NetRunKeeps(env, limit, actions);
    NextIsDecoded(env, limit, NetRun(env, limit, actions).net);
    DeliveryFailsExactly(env, limit, actions, deferred);
  }

  lemma NetReceiver(env: Env, limit: nat, n: Net)
    requires ValidCodec(env.cx) && NetInv(env, limit, n)
    ensures ReceiverOk(env.isClient, n.receiver)
  {
  }

  // ---------- a server that accepts what it is sent ----------

  /** A server that finds nothing wrong with any headers. */
  ghost predicate Agreeable(env: Env) {
    !env.isClient
    && forall trailers, headers ::
         env.interpret(trailers, headers).Accept? && !env.interpret(trailers, headers).length.Malformed?
  }

  lemma AgreeableBlock(env: Env, s: StreamState, t: Table, f: OutFrame)
    requires Agreeable(env) && t.Valid() && f.HeaderBlock? && s.headerFrames == [] && !s.finished
    requires !Ends(Receiving.HandleFrame(env, s, t, AsFrame(f)).outcome)
    ensures Receiving.HandleFrame(env, s, t, AsFrame(f)).s.phase != Receiving.HeadersPhase
  {
    hide BlockBytes, DecodeBlock, Receiving.Joined;
    FlagsOfFrames(f);
    HeaderBlocks.KeptByPadding(AsFrame(f));
    assert [] + [AsFrame(f)] == [AsFrame(f)];
  }

  /** The phase tells how many header blocks a stream has had: none, one, or more. */
  ghost predicate Counted(c: Conn, wire: seq<OutFrame>, i: nat) {
    Known(c, i) && HeadersFirst(wire, i) ==>
      var s := c.streams[Id(i)];
      && s.phase != Receiving.HeadersPhase
      && (!s.finished && BlocksOf(wire, i) >= 2 ==> s.phase == Receiving.TrailersPhase)
  }

  lemma OtherCounted(c: Conn, c': Conn, wire: seq<OutFrame>, f: OutFrame, k: nat)
    requires Counted(c, wire, k) && k != f.stream && Known(c', k) == Known(c, k)
    requires Known(c, k) ==> c'.streams[Id(k)] == c.streams[Id(k)]
    ensures Counted(c', wire + [f], k)
  {
    hide HeadersFirst, BlocksOf;
    WireGrows(wire, f, k);
  }

  /** What a frame makes of the phase of a stream that is there. */
  lemma PhaseAfter(env: Env, s: StreamState, t: Table, wire: seq<OutFrame>, f: OutFrame)
    requires Agreeable(env) && t.Valid() && s.headerFrames == []
    requires !Ends(Receiving.HandleFrame(env, s, t, AsFrame(f)).outcome)
    requires HeadersFirst(wire, f.stream) ==> Follows(s, wire, f.stream)
    requires HeadersFirst(wire, f.stream) && BlocksOf(wire, f.stream) >= 1 ==> s.phase != Receiving.HeadersPhase
    requires HeadersFirst(wire, f.stream) && !s.finished && BlocksOf(wire, f.stream) >= 2 ==>
             s.phase == Receiving.TrailersPhase
    ensures var s' := Receiving.HandleFrame(env, s, t, AsFrame(f)).s;
            HeadersFirst(wire + [f], f.stream) ==>
              && s'.phase != Receiving.HeadersPhase
              && (!s'.finished && BlocksOf(wire + [f], f.stream) >= 2 ==> s'.phase == Receiving.TrailersPhase)
  {
    hide HeadersFirst, BlocksOf, Sent, Ended, NothingAfterEnd, BlockBytes, Receiving.HandleFrame, Receiving.Bodies,
      Agreeable, Receiving.WithoutCloses;
    WireGrows(wire, f, f.stream);
    FlagsOfFrames(f);
    match f
    case HeaderBlock(_, _) =>
      Hearing.BlockChanges(env, s, t, AsFrame(f));
      if !s.finished {
        AgreeableBlock(env, s, t, f);
      }
    case Data(_, _, _) => DataPhase(env, s, t, f);
    case Reset(_) => Hearing.ResetChanges(env, s, t, AsFrame(f));
  }

  lemma DataPhase(env: Env, s: StreamState, t: Table, f: OutFrame)
    requires f.Data? && t.Valid() && s.headerFrames == [] && !Ends(Receiving.HandleFrame(env, s, t, AsFrame(f)).outcome)
    ensures var s' := Receiving.HandleFrame(env, s, t, AsFrame(f)).s;
            if s.finished then s' == s else s.phase != Receiving.TrailersPhase && s'.phase == Receiving.BodyPhase
  {
    hide Receiving.HandleData, Hearing.NewlyHeard, Receiving.Bodies;
    FlagsOfFrames(f);
    if !s.finished {
      TrailersRefuseData(s, AsFrame(f));
      if s.phase != Receiving.TrailersPhase {
        Hearing.DataHeard(s, AsFrame(f));
      }
    }
  }

  ghost predicate AllCounted(n: Net)
    requires n.delivered <= |n.sender.wire|
  {
    forall i: nat :: Counted(n.receiver, n.sender.wire[..n.delivered], i)
  }

  lemma DeliverCounted(env: Env, limit: nat, n: Net, deferred: bool)
    requires ValidCodec(env.cx) && Agreeable(env) && n.receiver.table.Valid() && NetInv(env, limit, n) && AllCounted(n)
    requires DeliverStep(env, n, deferred).Next?
    ensures AllCounted(DeliverStep(env, n, deferred).net)
  {
    hide ValidCodec, NetInv, Counted, ReceiverOk, Heard, HeadersFirst, BlocksOf, Follows, Agreeable, AsFrame,
      Dispatch.Act, Dispatch.Receive, Receiving.HandleFrame, Hearing.NewlyHeard, StreamOk;
    var n', w, f := DeliverStep(env, n, deferred).net, n.sender.wire[..n.delivered], n.sender.wire[n.delivered];
    DeliverIsHeard(env, limit, n, deferred);
    NetReceiver(env, limit, n);
    assert Counted(n.receiver, w, f.stream);
    FrameCounted(env, limit, n);
    forall i: nat
      ensures Counted(n'.receiver, w + [f], i)
    {
      assert Counted(n.receiver, w, i);
      if i != f.stream {
        OtherUntouched(env, n.receiver, f, i);
        OtherCounted(n.receiver, n'.receiver, w, f, i);
      }
    }
  }

  lemma OtherUntouched(env: Env, c: Conn, f: OutFrame, k: nat)
    requires ReceiverOk(env.isClient, c) && c.table.Valid() && k != f.stream
    ensures var c' := Dispatch.Receive(env, c, AsFrame(f));
            Known(c', k) == Known(c, k) && (Known(c, k) ==> c'.streams[Id(k)] == c.streams[Id(k)])
  {
    hide Receiving.HandleFrame, AsFrame, ReceiverOk, Dispatch.Act;
    if Known(c, f.stream) {
      OnKnown(env, c, f);
    } else if Stray(env, c, f) {
      OnStray(env, c, f);
    } else {
      OnNew(env, c, f);
    }
  }

  lemma FrameCounted(env: Env, limit: nat, n: Net)
    requires ValidCodec(env.cx) && Agreeable(env) && n.receiver.table.Valid() && NetInv(env, limit, n)
    requires n.delivered < |n.sender.wire|
    requires var f := n.sender.wire[n.delivered];
             && Dispatch.Receive(env, n.receiver, AsFrame(f)).alive
                && Counted(n.receiver, n.sender.wire[..n.delivered], f.stream)
    ensures var f := n.sender.wire[n.delivered];
            Counted(Dispatch.Receive(env, n.receiver, AsFrame(f)), n.sender.wire[..n.delivered] + [f], f.stream)
  {
    hide ValidCodec, Inv, ReceiverOk, HeadersFirst, BlocksOf, Follows, Agreeable, AsFrame, Dispatch.Act,
      Receiving.HandleFrame, Sent, Ended, ConnCredit, AmountsOk, InStep;
    var c, w, f := n.receiver, n.sender.wire[..n.delivered], n.sender.wire[n.delivered];
    var s := Target(c, f.stream);
    OneStreamOk(n, f.stream);
    WireGrows(w, f, f.stream);
    NetReceiver(env, limit, n);
    AliveOk(env.isClient, c);
    ActLeavesAlive(env, c, AsFrame(f));
    LoopEnds(env, c, AsFrame(f));
    if Known(c, f.stream) {
      StreamHasInv(env.isClient, c, f.stream);
      OnKnown(env, c, f);
      PhaseAfter(env, s, c.table, w, f);
    } else if Stray(env, c, f) {
      OnStray(env, c, f);
    } else {
      NotClient(env);
      OnNew(env, c, f);
      if HeadersFirst(w, f.stream) {
        NothingBeforeHeaders(w, f.stream);
        NewFollows(s.id, s.window.size, w, f.stream);
      }
      PhaseAfter(env, s, c.table, w, f);
    }
  }

  lemma NotClient(env: Env)
    requires Agreeable(env)
    ensures !env.isClient
  {
  }

  lemma LocalCounted(env: Env, c: Conn, e: Dispatch.Event, wire: seq<OutFrame>, i: nat)
    requires ReceiverOk(env.isClient, c) && c.table.Valid() && !env.isClient && !e.Read? && Counted(c, wire, i)
    ensures Counted(Dispatch.Step(env, c, e), wire, i)
  {
    hide HeadersFirst, BlocksOf, DispatchRuns.HasStreamInv, Dispatch.LegalSettings, DispatchRuns.OnlyLastPending,
      LocalsKnown;
  }

  lemma {:induction false} RunCounted(env: Env, limit: nat, actions: seq<NetAction>)
    requires ValidCodec(env.cx) && Agreeable(env)
    ensures var r := NetRun(env, limit, actions);
            r.Next? ==> r.net.delivered <= |r.net.sender.wire| && AllCounted(r.net)
    decreases |actions|
  {
    hide ValidCodec, NetStepOf, NetInv, Agreeable, AllCounted;
    if actions == [] {
      StartCounted(env, limit);
    } else {
      var before, a := actions[..|actions| - 1], actions[|actions| - 1];
      RunCounted(env, limit, before);
      NetRunKeeps(env, limit, before);
      NetRunKeeps(env, limit, actions);
      if NetRun(env, limit, actions).Next? {
        StepCounted(env, limit, NetRun(env, limit, before).net, a);
      }
    }
  }

  lemma StartCounted(env: Env, limit: nat)
    ensures AllCounted(StartNet(env.isClient, limit))
  {
  }

  lemma StepCounted(env: Env, limit: nat, n: Net, a: NetAction)
    requires ValidCodec(env.cx) && Agreeable(env) && n.sender.table.Valid() && n.receiver.table.Valid()
             && NetInv(env, limit, n)
    requires n.delivered <= |n.sender.wire| && AllCounted(n) && NetStepOf(env, n, a).Next?
    ensures var n' := NetStepOf(env, n, a).net; n'.delivered <= |n'.sender.wire| && AllCounted(n')
  {
    hide ValidCodec, NetInv, Counted, Agreeable, Step, DeliverStep, Dispatch.Step, ReceiverOk;
    var n' := NetStepOf(env, n, a).net;
    NotClient(env);
    match a
    case SenderActs(b) =>
      StepCreditsNothing(env.cx, n.sender, b);
      assert n'.sender.wire[..n.delivered] == n.sender.wire[..n.delivered];
    case ReceiverActs(e) =>
      NetReceiver(env, limit, n);
      forall i: nat
        ensures Counted(n'.receiver, n.sender.wire[..n.delivered], i)
      {
        assert Counted(n.receiver, n.sender.wire[..n.delivered], i);
        LocalCounted(env, n.receiver, e, n.sender.wire[..n.delivered], i);
      }
    case Deliver(deferred) =>
      DeliverCounted(env, limit, n, deferred);
      DeliverShape(env, n, deferred);
    case Complete(j) =>
    case Receive => UpdateLeavesWire(env.cx, n);
  }

  lemma UpdateLeavesWire(cx: Codec, n: Net)
    requires ValidCodec(cx) && n.sender.table.Valid() && ReceiveStep(cx, n).Next?
    ensures ReceiveStep(cx, n).net.sender.wire == n.sender.wire
  {
    hide ValidCodec;
  }

  /**
   * With a server that accepts what it is sent, and streams whose headers come first and not behind
   * their end, exactly these deliveries end the connection: frames beyond the frame size, and DATA behind
   * a second header block of a stream that is not finished.
   */
  lemma ServerFailsExactly(env: Env, limit: nat, actions: seq<NetAction>, deferred: bool)
    requires ValidCodec(env.cx) && Agreeable(env) && NetRun(env, limit, actions).Next?
    requires var n := NetRun(env, limit, actions).net;
             && n.delivered < |n.sender.wire| && HeadersBeforeEnd(n.sender.wire[..n.delivered + 1])
             && HeadersFirst(n.sender.wire[..n.delivered + 1], n.sender.wire[n.delivered].stream)
    ensures var n := NetRun(env, limit, actions).net;
            var f := n.sender.wire[n.delivered];
            DeliverStep(env, n, deferred).Error? <==>
            || TooLarge(f)
            || (f.Data? && BlocksOf(n.sender.wire[..n.delivered], f.stream) >= 2
               && !Target(n.receiver, f.stream).finished)
  {
    hide ValidCodec, NetRun, NetInv, ReceiverOk, HeadersBeforeEnd, HeadersFirst, BlocksOf, Sent, Ended, Blocks,
      AsFrame, DeliverStep, Hearing.Listening, SeenAt, Receiving.Bodies, DecodeBlock;
    var n := NetRun(env, limit, actions).net;
    var w, f := n.sender.wire[..n.delivered], n.sender.wire[n.delivered];
    NetRunKeeps(env, limit, actions);
    RunCounted(env, limit, actions);
    assert Counted(n.receiver, w, f.stream);
    assert StreamOk(n.receiver, w, f.stream) by { NetStreams(env, limit, n); OneStreamOk(n, f.stream); }
    assert n.sender.wire[..n.delivered + 1] == w + [f];
    WireGrows(w, f, f.stream);
    if f.HeaderBlock? {
      BlockFailsExactly(env, limit, actions, deferred);
    } else {
      DeliveryFailsExactly(env, limit, actions, deferred);
    }
  }

  lemma NetStreams(env: Env, limit: nat, n: Net)
    requires ValidCodec(env.cx) && NetInv(env, limit, n)
    ensures n.delivered <= |n.sender.wire| && StreamsOk(n)
  {
  }

  /** A stream's header block comes first, and there is only one of it. */
  predicate OneBlockFirst(wire: seq<OutFrame>, i: nat) {
    HeadersFirst(wire, i) && BlocksOf(wire, i) <= 1
  }

  /** So with one header block a stream, written first, and frames that fit, nothing ever fails. */
  lemma PoliteRunsSucceed(env: Env, limit: nat, actions: seq<NetAction>, a: NetAction)
    requires ValidCodec(env.cx) && Agreeable(env) && NetRun(env, limit, actions).Next?
    requires var n := NetRun(env, limit, actions).net;
             n.delivered < |n.sender.wire| ==>
               && OneBlockFirst(n.sender.wire[..n.delivered + 1], n.sender.wire[n.delivered].stream)
               && HeadersBeforeEnd(n.sender.wire[..n.delivered + 1]) && !TooLarge(n.sender.wire[n.delivered])
    ensures !NetStepOf(env, NetRun(env, limit, actions).net, a).Error?
  {
    hide ValidCodec, NetRun, NetInv, Agreeable, HeadersBeforeEnd, HeadersFirst, BlocksOf, TooLarge, DeliverStep,
      Step, Dispatch.Step, Target;
    var n := NetRun(env, limit, actions).net;
    NetRunKeeps(env, limit, actions);
    NetStepKeeps(env, limit, n, a);
    if a.Deliver? {
      if n.delivered < |n.sender.wire| {
        ServerFailsExactly(env, limit, actions, a.deferred);
        var w, f := n.sender.wire[..n.delivered], n.sender.wire[n.delivered];
        assert n.sender.wire[..n.delivered + 1] == w + [f];
        WireGrows(w, f, f.stream);
      } else {
        NothingToDeliver(env, n, a.deferred);
      }
    }
  }

  lemma NothingToDeliver(env: Env, n: Net, deferred: bool)
    requires n.receiver.table.Valid() && n.delivered >= |n.sender.wire|
    ensures DeliverStep(env, n, deferred) == Impossible
  {
  }

  /** DATA that fits can only end a connection with PROTOCOL_ERROR. */
  lemma DataErrors(env: Env, limit: nat, n: Net, deferred: bool)
    requires ValidCodec(env.cx) && NetInv(env, limit, n) && n.receiver.table.Valid() && n.delivered < |n.sender.wire|
    requires n.sender.wire[n.delivered].Data? && !TooLarge(n.sender.wire[n.delivered])
             && DeliverStep(env, n, deferred).Error?
    ensures DeliverStep(env, n, deferred) == Error(ConnectionError(PROTOCOL_ERROR))
  {
    hide ValidCodec, Inv, ReceiverOk, Follows, HeadersFirst, Sent, Ended, BlocksOf, ConnCredit, AmountsOk, InStep,
      AsFrame, Receiving.HandleFrame, Dispatch.Act, Receiving.StreamInv, Handles, Hearing.NewlyHeard;
    var c, f, w := n.receiver, n.sender.wire[n.delivered], n.sender.wire[..n.delivered];
    NetReceiver(env, limit, n);
    AliveOk(env.isClient, c);
    ActLeavesAlive(env, c, AsFrame(f));
    LoopEnds(env, c, AsFrame(f));
    OneStreamOk(n, f.stream);
    if Known(c, f.stream) {
      StreamHasInv(env.isClient, c, f.stream);
      OnKnown(env, c, f);
      DataHandles(env, c.streams[Id(f.stream)], c.table, w, f);
    } else {
      OnStray(env, c, f);
    }
  }
}
