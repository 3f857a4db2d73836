/** What arrives at the other end: the headers and the body that were written, and exactly when a delivery fails. */
module Delivery {
  import opened Protocol
  import opened DynamicTable
  import opened Hpack
  import opened Writers
  import opened WriterRuns
  import opened Network
  import opened NetworkRuns

  // ---------- bodies ----------

  lemma {:induction false} EndedBefore(wire: seq<OutFrame>, d: nat, i: nat)
    requires d <= |wire| && NothingAfterEnd(wire, i)
    ensures NothingAfterEnd(wire[..d], i)
    decreases |wire|
  {
    if d == |wire| {
      assert wire[..d] == wire;
    } else {
      EndedBefore(wire[..|wire| - 1], d, i);
      assert wire[..|wire| - 1][..d] == wire[..d];
    }
  }

  lemma {:induction false} DeliveredIsPrefix(wire: seq<OutFrame>, d: nat, i: nat)
    requires d <= |wire|
    ensures Sent(wire[..d], i) <= Sent(wire, i)
    ensures Ended(wire[..d], i) ==> Ended(wire, i)
    ensures Ended(wire[..d], i) && NothingAfterEnd(wire, i) ==> Sent(wire[..d], i) == Sent(wire, i)
    decreases |wire|
  {
    if d == |wire| {
      assert wire[..d] == wire;
    } else {
      DeliveredIsPrefix(wire[..|wire| - 1], d, i);
      assert wire[..|wire| - 1][..d] == wire[..d];
    }
  }

  /** The delegate of a stream has been told to finish. */
  predicate ToldToFinish(s: StreamState) {
    var calls := Receiving.WithoutCloses(s.calls);
    calls != [] && calls[|calls| - 1].Finish?
  }

  /**
   * From end to end: if the headers of a stream come first, what its delegate has been given is a
   * prefix of what was written to the stream, in order; and once it is told to finish it has been given
   * all of it, unless more was written after the end.
   */
  lemma DelegateHearsWhatWasWritten(env: Env, limit: nat, actions: seq<NetAction>, i: nat)
    requires ValidCodec(env.cx)
    ensures var r := NetRun(env, limit, actions);
            r.Next? && i < |r.net.sender.streams| ==>
              var n, st, s := r.net, r.net.sender.streams[i], StreamOf(r.net.receiver, i);
              && n.delivered <= |n.sender.wire|
              && (HeadersFirst(n.sender.wire[..n.delivered], i) ==>
                    && Receiving.Bodies(s.calls) <= st.accepted
                    && (ToldToFinish(s) && !st.lateChunk ==> Receiving.Bodies(s.calls) == st.accepted))
  {
    hide ValidCodec, NetRun, PcOk, QueueOk, LengthOk, WaitersOk, WindowOk, Sent, Ended, NothingAfterEnd, HeadersOk,
      ReceiverOk, InStep, HeadersFirst, BlocksOf, Receiving.Bodies, ConnCredit, AmountsOk;
    NetRunKeeps(env, limit, actions);
    var r := NetRun(env, limit, actions);
    if r.Next? && i < |r.net.sender.streams| {
      var n, wire, d := r.net, r.net.sender.wire, r.net.delivered;
      assert StreamInv(n.sender.streams[i], wire, i);
      DataMeaning(n.sender.streams[i], wire, i);
      DeliveredIsPrefix(wire, d, i);
      assert StreamOk(n.receiver, wire[..d], i);
      NothingSaidYet(Id(i));
      if Known(n.receiver, i) {
        FinishedIfTold(env.isClient, n.receiver, i);
      }
      if NothingAfterEnd(wire, i) {
        EndedBefore(wire, d, i);
      }
    }
  }

  lemma NothingSaidYet(id: nat)
    ensures var s := Receiving.NewStream(id, DEFAULT_WINDOW_SIZE); Receiving.Bodies(s.calls) == [] && !ToldToFinish(s)
  {
  }

  lemma FinishedIfTold(isClient: bool, c: Conn, i: nat)
    requires ReceiverOk(isClient, c) && Known(c, i)
    ensures var s := c.streams[Id(i)];
            ToldToFinish(s) ==> s.finished && Receiving.WithoutCloses(s.calls) != []
  {
    hide Receiving.InOrder, Receiving.LengthInv, Receiving.WithoutCloses;
    StreamHasInv(isClient, c, i);
  }

  // ---------- headers ----------

  /**
   * As long as no block has come behind the end of its stream, the decoder's table is the one the next
   * block was encoded with.
   */
  lemma TablesAgree(env: Env, limit: nat, actions: seq<NetAction>)
    requires ValidCodec(env.cx)
    ensures var r := NetRun(env, limit, actions);
            r.Next? ==>
              var n, s := r.net, r.net.sender;
              && n.delivered <= |s.wire|
              && (HeadersBeforeEnd(s.wire[..n.delivered]) ==>
                    && |Blocks(s.wire[..n.delivered])| <= |s.blocks|
                    && n.receiver.table == TableAt(env.cx, limit, s.blocks, |Blocks(s.wire[..n.delivered])|)
                    && (n.delivered == |s.wire| && s.socketOpen ==> n.receiver.table == s.table))
  {
    hide ValidCodec, NetRun, StreamsInv, ConnOk, ReceiverOk, StreamOk, HeadersBeforeEnd, Blocks, Authors,
      EncodeBlocks;
    NetRunKeeps(env, limit, actions);
    var r := NetRun(env, limit, actions);
    if r.Next? {
      var n, s := r.net, r.net.sender;
      if n.delivered == |s.wire| {
        assert s.wire[..n.delivered] == s.wire;
        assert s.blocks[..|s.blocks|] == s.blocks;
      }
    }
  }

  /** The headers that the next block on the wire carries, as a peer sees them. */
  function NextHeaders(cx: Codec, limit: nat, n: Net): seq<Decoded>
    requires ValidCodec(cx) && n.delivered <= |n.sender.wire|
             && |Blocks(n.sender.wire[..n.delivered])| < |n.sender.blocks|
  {
    SeenAt(cx, Table([], 0, limit), n.sender.blocks, |Blocks(n.sender.wire[..n.delivered])|)
  }

  /** The next frame on the wire is a header block, and not behind the end of its stream. */
  predicate NextIsBlock(n: Net) {
    && n.delivered < |n.sender.wire| && n.sender.wire[n.delivered].HeaderBlock?
    && HeadersBeforeEnd(n.sender.wire[..n.delivered + 1])
  }

  lemma NextBlockCarries(env: Env, limit: nat, n: Net)
    requires ValidCodec(env.cx) && NetInv(env, limit, n) && NextIsBlock(n)
    ensures var w, f, k := n.sender.wire[..n.delivered], n.sender.wire[n.delivered],
            |Blocks(n.sender.wire[..n.delivered])|;
            && k < |n.sender.blocks| && n.receiver.table == TableAt(env.cx, limit, n.sender.blocks, k)
            && n.receiver.table.Valid() && ReceiverOk(env.isClient, n.receiver)
            && PeerBlocks.Carries(env.cx, n.receiver.table, AsFrame(f), n.sender.blocks[k])
            && !Target(n.receiver, f.stream).finished
  {
    hide ValidCodec, Inv, ReceiverOk, HeadersBeforeEnd, Blocks, TableAt, PeerBlocks.Carries, AsFrame, Follows,
      HeadersFirst, Sent, Ended, BlocksOf, ConnCredit, AmountsOk;
    var d := n.delivered;
    InvParts(env.cx, limit, n.sender);
    EarlierHeadersBeforeEnd(n.sender.wire, d);
    FrameCarries(env.cx, limit, n.sender, d);
    OneStreamOk(n, n.sender.wire[d].stream);
    NotEnded(n.sender.wire, d);
  }

  lemma NotEnded(wire: seq<OutFrame>, d: nat)
    requires d < |wire| && wire[d].HeaderBlock? && HeadersBeforeEnd(wire[..d + 1])
    ensures !Ended(wire[..d], wire[d].stream)
  {
    hide Ended;
    assert wire[..d + 1][..d] == wire[..d];
  }

  /**
   * Every header block that is delivered, and not behind the end of its stream, reaches the stream it
   * was written to as the very headers that were encoded; what they are taken for decides the rest.
   */
  lemma HeadersAreGiven(env: Env, limit: nat, actions: seq<NetAction>)
    requires ValidCodec(env.cx) && NetRun(env, limit, actions).Next?
    requires var n := NetRun(env, limit, actions).net;
             NextIsBlock(n) && !Stray(env, n.receiver, n.sender.wire[n.delivered])
    ensures var n := NetRun(env, limit, actions).net;
            var f, k := n.sender.wire[n.delivered], |Blocks(n.sender.wire[..n.delivered])|;
            && k < |n.sender.blocks| == |n.sender.authors| && n.sender.authors[k] == f.stream
            && var h := Receiving.AfterDecode(env, Hearing.Listening(env, Target(n.receiver, f.stream), AsFrame(f)),
                                              TableAt(env.cx, limit, n.sender.blocks, k + 1), AsFrame(f).flags,
                                              NextHeaders(env.cx, limit, n));
               var a := Dispatch.Act(env, n.receiver, AsFrame(f));
               && a.outcome == h.outcome && a.c.table == TableAt(env.cx, limit, n.sender.blocks, k + 1)
               && a.c.streams == n.receiver.streams[Id(f.stream) := h.s]
  {
    hide ValidCodec, NetRun, Inv, ReceiverOk, StreamOk, HeadersBeforeEnd, Blocks, Authors, AsFrame,
      Receiving.AfterDecode, PeerBlocks.Carries, Dispatch.Act, Hearing.Listening, EncodeBlock, ConnCredit, AmountsOk,
      InStep;
    NetRunKeeps(env, limit, actions);
    var n := NetRun(env, limit, actions).net;
    var d, k := n.delivered, |Blocks(n.sender.wire[..n.delivered])|;
    InvParts(env.cx, limit, n.sender);
    NextBlockCarries(env, limit, n);
    AuthorOfBlock(env.cx, limit, n.sender, d);
    TableAfterBlock(env.cx, limit, n.sender.blocks, k);
    BlockIsGiven(env, n.receiver, n.sender.wire[d], n.sender.blocks[k]);
  }

  lemma {:induction false} AuthorsPrefix(wire: seq<OutFrame>, d: nat)
    requires d <= |wire|
    ensures Authors(wire[..d]) <= Authors(wire) && |Authors(wire)| == |Blocks(wire)|
    decreases |wire|
  {
    if d == |wire| {
      assert wire[..d] == wire;
      if wire != [] {
        AuthorsPrefix(wire[..d - 1], d - 1);
      }
    } else {
      AuthorsPrefix(wire[..|wire| - 1], d);
      assert wire[..|wire| - 1][..d] == wire[..d];
    }
  }

  lemma AuthorOfBlock(cx: Codec, limit: nat, s: Sender, d: nat)
    requires ValidCodec(cx) && HeadersOk(cx, limit, s) && d < |s.wire| && s.wire[d].HeaderBlock?
    ensures var k := |Blocks(s.wire[..d])|; k < |s.blocks| == |s.authors| && s.authors[k] == s.wire[d].stream
  {
    hide ValidCodec, Blocks, Authors, EncodeBlocks;
    OneMoreFrame(s.wire[..d], s.wire[d]);
    assert s.wire[..d + 1] == s.wire[..d] + [s.wire[d]];
    AuthorsPrefix(s.wire, d + 1);
    AuthorsPrefix(s.wire[..d], d);
    BlockAt(s.wire, d);
  }
}
