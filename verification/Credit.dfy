/** Flow control between two endpoints: credit is conserved, never exceeded, and does not run dry. */
module Credit {
  import opened Bits
  import opened Protocol
  import opened FlowControl
  import opened Hpack
  import opened Writers
  import opened WriterRuns
  import opened Network
  import opened NetworkRuns

  // ---------- what is lost ----------

  /** Bytes delivered to stream i that were not handed to a delegate; nobody gives credit back for them. */
  function Lost(n: Net, i: nat): int
    requires n.delivered <= |n.sender.wire|
  {
    |Sent(n.sender.wire[..n.delivered], i)| - HeardOf(n.receiver, i)
  }

  function LostTotal(n: Net): int
    requires n.delivered <= |n.sender.wire|
  {
    SentTotal(n.sender.wire[..n.delivered]) - n.heard
  }

  function SumHeard(c: Conn, k: nat): nat {
    if k == 0 then 0 else SumHeard(c, k - 1) + HeardOf(c, k - 1)
  }

  function SumSent(wire: seq<OutFrame>, k: nat): nat {
    if k == 0 then 0 else SumSent(wire, k - 1) + |Sent(wire, k - 1)|
  }

  lemma {:induction false} SumSentSnoc(wire: seq<OutFrame>, f: OutFrame, k: nat)
    ensures SumSent(wire + [f], k) == SumSent(wire, k) + if f.Data? && f.stream < k then |f.payload| else 0
  {
    hide Sent;
    if k > 0 {
      SumSentSnoc(wire, f, k - 1);
      WireGrows(wire, f, k - 1);
    }
  }

  lemma {:induction false} SumSentOfNothing(k: nat)
    ensures SumSent([], k) == 0
  {
    if k > 0 {
      SumSentOfNothing(k - 1);
    }
  }

  lemma {:induction false} SumSentIsTotal(wire: seq<OutFrame>, k: nat)
    requires forall j :: 0 <= j < |wire| ==> wire[j].stream < k
    ensures SumSent(wire, k) == SentTotal(wire)
  {
    if wire == [] {
      SumSentOfNothing(k);
    } else {
      var n := |wire| - 1;
      SumSentIsTotal(wire[..n], k);
      SumSentSnoc(wire[..n], wire[n], k);
      assert wire == wire[..n] + [wire[n]];
    }
  }

  lemma {:induction false} SumHeardChanges(c: Conn, c': Conn, i: nat, amount: nat, k: nat)
    requires forall j: nat :: HeardOf(c', j) == HeardOf(c, j) + if j == i then amount else 0
    ensures SumHeard(c', k) == SumHeard(c, k) + if i < k then amount else 0
  {
    hide HeardOf;
    if k > 0 {
      SumHeardChanges(c, c', i, amount, k - 1);
    }
  }

  lemma StreamsOnlyGrow(cx: Codec, s: Sender, a: Action)
    requires ValidCodec(cx) && s.table.Valid() && Step(cx, s, a).Some?
    ensures |s.streams| <= |Step(cx, s, a).value.streams| <= |s.streams| + 1
  {
    hide ValidCodec, EncodeBlock;
  }

  /** The bytes handed over in all are those handed over by the streams. */
  lemma {:induction false} HeardAddsUp(env: Env, limit: nat, actions: seq<NetAction>)
    requires ValidCodec(env.cx)
    ensures var r := NetRun(env, limit, actions);
            r.Next? ==> r.net.heard == SumHeard(r.net.receiver, |r.net.sender.streams|)
    decreases |actions|
  {
    hide ValidCodec, NetStepOf, NetInv;
    if actions == [] {
      NoStreamsHeard(env, limit);
    } else {
      var before, a := actions[..|actions| - 1], actions[|actions| - 1];
      HeardAddsUp(env, limit, before);
      NetRunKeeps(env, limit, before);
      if NetRun(env, limit, before).Next? {
        HeardStep(env, limit, NetRun(env, limit, before).net, a);
      }
    }
  }

  lemma NoStreamsHeard(env: Env, limit: nat)
    ensures SumHeard(StartNet(env.isClient, limit).receiver, 0) == 0
  {
  }

  lemma HeardStep(env: Env, limit: nat, n: Net, a: NetAction)
    requires ValidCodec(env.cx) && n.sender.table.Valid() && n.receiver.table.Valid() && NetInv(env, limit, n)
    requires n.heard == SumHeard(n.receiver, |n.sender.streams|)
    ensures var r := NetStepOf(env, n, a);
            r.Next? ==> r.net.heard == SumHeard(r.net.receiver, |r.net.sender.streams|)
  {
    hide ValidCodec, NetInv, Step, HeardOf, SumHeard, DeliverStep, Dispatch.Step;
    match a
    case SenderActs(b) =>
      if NetStepOf(env, n, a).Next? {
        StreamsOnlyGrow(env.cx, n.sender, b);
        SumHeardMore(env, limit, n, NetStepOf(env, n, a).net);
      }
    case ReceiverActs(e) =>
      if !e.Read? {
        LocalsHeard(env, limit, n, e);
        SumHeardChanges(n.receiver, Dispatch.Step(env, n.receiver, e), 0, 0, |n.sender.streams|);
      }
    case Deliver(deferred) =>
      if DeliverStep(env, n, deferred).Next? {
        DeliverHeard(env, limit, n, deferred);
      }
    case Complete(j) =>
    case Receive =>
      if NetStepOf(env, n, a).Next? {
        StreamsOnlyGrow(env.cx, n.sender, UpdateAction(n.back[0]));
        SumHeardMore(env, limit, n, NetStepOf(env, n, a).net);
      }
  }

  lemma SumHeardMore(env: Env, limit: nat, n: Net, n': Net)
    requires ValidCodec(env.cx) && NetInv(env, limit, n) && n'.receiver == n.receiver
    requires |n.sender.streams| <= |n'.sender.streams| <= |n.sender.streams| + 1
    ensures SumHeard(n'.receiver, |n'.sender.streams|) == SumHeard(n.receiver, |n.sender.streams|)
  {
    hide ValidCodec, Inv, StreamsInv, ConnOk, HeadersOk, KnownStreams, AmountsOk, StreamOk, ReceiverOk, HeardOf,
      InStep, ConnCredit, PendingOf, BackTo, SumHeard;
    var k := |n.sender.streams|;
    InvParts(env.cx, limit, n.sender);
    OneStreamOk(n, k);
    UnknownUncredited(n, k);
    SumHeardNext(n.receiver, k);
  }

  lemma SumHeardNext(c: Conn, k: nat)
    ensures SumHeard(c, k + 1) == SumHeard(c, k) + HeardOf(c, k)
  {
  }

  lemma LocalsHeard(env: Env, limit: nat, n: Net, e: Dispatch.Event)
    requires ValidCodec(env.cx) && n.receiver.table.Valid() && NetInv(env, limit, n) && !e.Read?
    ensures forall i: nat :: HeardOf(Dispatch.Step(env, n.receiver, e), i) == HeardOf(n.receiver, i)
  {
    hide ValidCodec, Inv, StreamOk, ReceiverOk, HeardOf, InStep, ConnCredit, Dispatch.Step;
    LocalReceiver(env, n.receiver, e);
    forall i: nat
      ensures HeardOf(Dispatch.Step(env, n.receiver, e), i) == HeardOf(n.receiver, i)
    {
      OneStreamOk(n, i);
      LocalStream(env, n.receiver, e, n.sender.wire[..n.delivered], i);
    }
  }

  lemma DeliverHeard(env: Env, limit: nat, n: Net, deferred: bool)
    requires ValidCodec(env.cx) && n.sender.table.Valid() && n.receiver.table.Valid() && NetInv(env, limit, n)
    requires DeliverStep(env, n, deferred).Next?
    requires n.heard == SumHeard(n.receiver, |n.sender.streams|)
    ensures var n' := DeliverStep(env, n, deferred).net; n'.heard == SumHeard(n'.receiver, |n'.sender.streams|)
  {
    hide ValidCodec, Inv, StreamOk, ReceiverOk, HeardOf, InStep, ConnCredit, SumHeard, Hearing.NewlyHeard, AsFrame,
      Dispatch.Receive, Dispatch.Act, KnownStreams, StreamsInv, ConnOk, HeadersOk;
    InvParts(env.cx, limit, n.sender);
    var n', f := DeliverStep(env, n, deferred).net, n.sender.wire[n.delivered];
    DeliverIsHeard(env, limit, n, deferred);
    DeliverCounts(env, n, deferred, 0, None);
    KnownFrame(n.sender, n.delivered);
    SumHeardChanges(n.receiver, n'.receiver, f.stream, n'.heard - n.heard, |n.sender.streams|);
  }

  lemma KnownFrame(s: Sender, d: nat)
    requires KnownStreams(s) && d < |s.wire|
    ensures s.wire[d].stream < |s.streams|
  {
  }

  /** All that was lost was lost by streams. */
  lemma LossesAddUp(env: Env, limit: nat, actions: seq<NetAction>)
    requires ValidCodec(env.cx)
    ensures var r := NetRun(env, limit, actions);
            r.Next? ==>
              && r.net.delivered <= |r.net.sender.wire|
              && LostTotal(r.net) == SumSent(r.net.sender.wire[..r.net.delivered], |r.net.sender.streams|)
                                     - SumHeard(r.net.receiver, |r.net.sender.streams|)
  {
    hide ValidCodec, NetRun, StreamOk, StreamsInv, ConnOk, HeadersOk, ReceiverOk, InStep, SumSent, SumHeard;
    NetRunKeeps(env, limit, actions);
    HeardAddsUp(env, limit, actions);
    var r := NetRun(env, limit, actions);
    if r.Next? {
      SumSentIsTotal(r.net.sender.wire[..r.net.delivered], |r.net.sender.streams|);
    }
  }

  // ---------- conservation ----------

  /**
   * Credit is conserved: on every run, for each stream and for the connection, the sender's window,
   * what its writer holds, the DATA in flight, the bytes lost, the bytes awaiting a delegate and the
   * WINDOW_UPDATEs in flight add up to the initial size.
   */
  lemma CreditIsConserved(env: Env, limit: nat, actions: seq<NetAction>)
    requires ValidCodec(env.cx)
    ensures var r := NetRun(env, limit, actions);
            r.Next? ==>
              var n, s := r.net, r.net.sender;
              && n.delivered <= |s.wire|
              && LostTotal(n) >= 0
              && s.conn.size + Held(s.streams) + SentTotal(s.wire[n.delivered..]) + LostTotal(n)
                 + PendingTotal(n.pending)
                 + BackTo(n.back, None) == DEFAULT_WINDOW_SIZE
              && forall i :: 0 <= i < |s.streams| ==>
                   && Lost(n, i) >= 0
                   && s.streams[i].window.size + HeldOfStream(s.streams[i].pc) + |Sent(s.wire[n.delivered..],
                      i)| + Lost(n, i)
                      + PendingOf(n.pending, i) + BackTo(n.back, Some(i)) == s.streams[i].initial
  {
    hide ValidCodec, NetRun, PcOk, QueueOk, LengthOk, WaitersOk, DataOk, EndOk, Sent, SentTotal, PendingOf,
      PendingTotal, BackTo, Held, HeadersOk, StreamOk, ReceiverOk, HeardOf, InStep;
    NetRunKeeps(env, limit, actions);
    var r := NetRun(env, limit, actions);
    if r.Next? {
      var n, s := r.net, r.net.sender;
      SentPrefix(s.wire, n.delivered, 0);
      forall i | 0 <= i < |s.streams|
        ensures Lost(n, i) >= 0
        ensures s.streams[i].window.size + HeldOfStream(s.streams[i].pc) + |Sent(s.wire[n.delivered..], i)| + Lost(n, i)
                + PendingOf(n.pending, i) + BackTo(n.back, Some(i)) == s.streams[i].initial
      {
        assert StreamCredit(n, i) && StreamInv(s.streams[i], s.wire, i);
        SentPrefix(s.wire, n.delivered, i);
        HeardIsSent(n, i);
      }
    }
  }

  /**
   * Nothing is lost on a stream whose headers came first and which is attentive: its headers have not
   * been handled yet, or its delegate is started and its body has not run over.
   */
  lemma NothingIsLost(env: Env, limit: nat, actions: seq<NetAction>, i: nat)
    requires ValidCodec(env.cx)
    ensures var r := NetRun(env, limit, actions);
            r.Next? ==>
              var n := r.net;
              && n.delivered <= |n.sender.wire|
              && (HeadersFirst(n.sender.wire[..n.delivered], i) && Attentive(StreamOf(n.receiver, i)) ==>
                 Lost(n, i) == 0)
  {
    hide ValidCodec, NetRun, Inv, ReceiverOk, InStep, ConnCredit, Sent, Ended, HeadersFirst, BlocksOf,
      NothingAfterEnd;
    NetRunKeeps(env, limit, actions);
    var r := NetRun(env, limit, actions);
    if r.Next? {
      var w := r.net.sender.wire[..r.net.delivered];
      assert StreamOk(r.net.receiver, w, i);
      NothingHeardYet(Id(i), DEFAULT_WINDOW_SIZE);
      if HeadersFirst(w, i) && !Known(r.net.receiver, i) {
        NothingBeforeHeaders(w, i);
      }
    }
  }

  // ---------- how a connection can end ----------

  lemma StreamOutcomes(env: Env, s: StreamState, t: DynamicTable.Table, f: OutFrame)
    requires t.Valid()
    ensures var o := Receiving.HandleFrame(env, s, t, AsFrame(f)).outcome;
            o.ConnectionError? ==> o.code == PROTOCOL_ERROR || o.code == COMPRESSION_ERROR
  {
    hide Hpack.DecodeBlock, BlockBytes, Receiving.Joined;
  }

  /** The frames that the write path produces are never refused for their size or for flow control. */
  lemma FrameOutcomes(env: Env, c: Conn, f: OutFrame)
    requires c.table.Valid()
    ensures var o := Dispatch.Act(env, c, AsFrame(f)).outcome;
            o.ConnectionError? ==> o.code == PROTOCOL_ERROR || o.code == COMPRESSION_ERROR
  {
    hide Receiving.HandleFrame, BlockBytes;
    if Known(c, f.stream) {
      StreamOutcomes(env, c.streams[Id(f.stream)], c.table, f);
    } else {
      StreamOutcomes(env, Dispatch.CreateRemote(c, Id(f.stream)).streams[Id(f.stream)], c.table, f);
    }
  }

  /** No run of the two endpoints ever ends in FLOW_CONTROL_ERROR. */
  lemma {:induction false} NoFlowControlError(env: Env, limit: nat, actions: seq<NetAction>)
    requires ValidCodec(env.cx)
    ensures NetRun(env, limit, actions) != Error(ConnectionError(FLOW_CONTROL_ERROR))
    decreases |actions|
  {
    hide ValidCodec, NetInv, Dispatch.Act, Dispatch.Receive, AsFrame, Hearing.NewlyHeard, Dispatch.Step, Step;
    if actions != [] {
      var before, a := actions[..|actions| - 1], actions[|actions| - 1];
      NoFlowControlError(env, limit, before);
      NetRunKeeps(env, limit, before);
      if NetRun(env, limit, before).Next? {
        var n := NetRun(env, limit, before).net;
        NetStepKeeps(env, limit, n, a);
        if a.Deliver? && n.delivered < |n.sender.wire| {
          FrameOutcomes(env, n.receiver, n.sender.wire[n.delivered]);
        }
      }
    }
  }

  // ---------- flow control does not deadlock ----------

  lemma LocalSends(st: OutStream, i: nat, socketOpen: bool, a: Action)
    ensures var l := LocalStep(st, i, socketOpen, a);
            l.Some? ==>
              && l.value.st.initial == st.initial
              && (l.value.frame.Some? && l.value.frame.value.Data? && l.value.frame.value.payload != [] ==>
                    l.value.frame.value.stream == i && st.pc.Allowed?)
  {
    hide TurnOf, Adjusted;
  }

  /** A step that sends nothing on stream i, except perhaps an empty frame, and leaves its initial window alone. */
  ghost predicate Silent(s: Sender, t: Sender, i: nat) {
    && (t.wire == s.wire
        || exists f :: t.wire == s.wire + [f] && (f.Data? && f.payload != [] ==> f.stream != i))
    && |s.streams| <= |t.streams|
    && (i < |s.streams| ==> t.streams[i].initial == s.streams[i].initial)
  }

  lemma TurnParentSilent(s: Sender, k: nat, i: nat)
    requires TurnParentStep(s, k).Some?
    ensures Silent(s, TurnParentStep(s, k).value, i)
  {
    var t := TurnParentStep(s, k).value;
    assert t.wire == s.wire || t.wire == s.wire + [Reset(k)];
  }

  lemma HeadersSilent(cx: Codec, s: Sender, k: nat, length: Option<int>, headers: seq<Header>, i: nat)
    requires ValidCodec(cx) && s.table.Valid() && WriteHeadersStep(cx, s, k, length, headers).Some?
    ensures Silent(s, WriteHeadersStep(cx, s, k, length, headers).value, i)
  {
    hide ValidCodec, EncodeBlock;
    var t := WriteHeadersStep(cx, s, k, length, headers).value;
    assert t.wire == s.wire || t.wire == s.wire + [HeaderBlock(k, EncodeBlock(cx, s.table, headers).0)];
  }

  lemma LocalSilent(s: Sender, a: Action, k: nat, i: nat)
    requires k < |s.streams| && LocalStep(s.streams[k], k, s.socketOpen, a).Some?
    ensures var l := LocalStep(s.streams[k], k, s.socketOpen, a).value;
            var t := s.(streams := s.streams[k := l.st], wire := Append(s.wire, l.frame));
            && (Silent(s, t, i) || (k == i && s.streams[i].pc.Allowed?))
            && |t.streams| == |s.streams| && (i < |s.streams| ==> t.streams[i].initial == s.streams[i].initial)
  {
    hide LocalStep;
    LocalSends(s.streams[k], k, s.socketOpen, a);
    var l := LocalStep(s.streams[k], k, s.socketOpen, a).value;
    if l.frame.Some? {
      assert Append(s.wire, l.frame) == s.wire + [l.frame.value];
    }
  }

  lemma SilentSendsNothing(s: Sender, t: Sender, i: nat)
    requires Silent(s, t, i)
    ensures Sent(t.wire, i) == Sent(s.wire, i)
  {
    hide Sent;
    if t.wire != s.wire {
      var f :| t.wire == s.wire + [f] && (f.Data? && f.payload != [] ==> f.stream != i);
      WireGrows(s.wire, f, i);
      assert Sent(s.wire, i) + [] == Sent(s.wire, i);
    }
  }

  /** Only a writer that has been granted something sends data. */
  lemma SentGrows(cx: Codec, s: Sender, a: Action, i: nat)
    requires ValidCodec(cx) && s.table.Valid() && Step(cx, s, a).Some?
    ensures var t := Step(cx, s, a).value;
            && (Sent(t.wire, i) == Sent(s.wire, i) || (i < |s.streams| && s.streams[i].pc.Allowed?))
            && |s.streams| <= |t.streams|
            && (i < |s.streams| ==> t.streams[i].initial == s.streams[i].initial)
  {
    hide ValidCodec, Sent, LocalStep, TurnParentStep, WriteHeadersStep, Append;
    var t := Step(cx, s, a).value;
    match a {
      case Create(_) =>
      case WriteHeaders(k, length, headers) => HeadersSilent(cx, s, k, length, headers, i);
      case TurnParent(k) => TurnParentSilent(s, k, i);
      case UpdateConn(_) =>
      case CloseConn =>
      case CloseSocket =>
      case _ => LocalSilent(s, a, a.i, i);
    }
    if Silent(s, t, i) {
      SilentSendsNothing(s, t, i);
    }
  }

  /** Without an initial window a stream never sends a byte: it gets credit only for what it has sent. */
  lemma {:induction false} NothingWithoutWindow(env: Env, limit: nat, actions: seq<NetAction>, i: nat)
    requires ValidCodec(env.cx)
    ensures var r := NetRun(env, limit, actions);
            r.Next? && i < |r.net.sender.streams| && r.net.sender.streams[i].initial == 0 ==>
                Sent(r.net.sender.wire, i) == []
    decreases |actions|
  {
    hide ValidCodec, NetStepOf, NetInv;
    if actions != [] {
      var before, a := actions[..|actions| - 1], actions[|actions| - 1];
      NothingWithoutWindow(env, limit, before, i);
      NetRunKeeps(env, limit, before);
      if NetRun(env, limit, before).Next? {
        WindowlessStep(env, limit, NetRun(env, limit, before).net, a, i);
      }
    }
  }

  lemma WindowlessStep(env: Env, limit: nat, n: Net, a: NetAction, i: nat)
    requires ValidCodec(env.cx) && n.sender.table.Valid() && n.receiver.table.Valid() && NetInv(env, limit, n)
    requires i < |n.sender.streams| && n.sender.streams[i].initial == 0 ==> Sent(n.sender.wire, i) == []
    ensures var r := NetStepOf(env, n, a);
            r.Next? && i < |r.net.sender.streams| && r.net.sender.streams[i].initial == 0 ==>
                Sent(r.net.sender.wire, i) == []
  {
    hide ValidCodec, NetInv, Step, Sent, DeliverStep, Dispatch.Step;
    var r := NetStepOf(env, n, a);
    if r.Next? {
      if a.SenderActs? || a.Receive? {
        var b := if a.SenderActs? then a.a else UpdateAction(n.back[0]);
        SentGrows(env.cx, n.sender, b, i);
        if i >= |n.sender.streams| {
          UnknownSendsNothing(env, limit, n, i);
        } else if n.sender.streams[i].initial == 0 {
          WindowlessIsNotAllowed(env, limit, n, i);
        }
      } else if a.Deliver? {
        DeliverShape(env, n, a.deferred);
      }
    }
  }

  lemma UnknownSendsNothing(env: Env, limit: nat, n: Net, i: nat)
    requires ValidCodec(env.cx) && NetInv(env, limit, n) && i >= |n.sender.streams|
    ensures Sent(n.sender.wire, i) == []
  {
    hide ValidCodec, ReceiverOk, StreamOk, InStep, StreamsInv, ConnOk, HeadersOk;
    NothingFromUnknown(n.sender.wire, i);
  }

  lemma WindowlessIsNotAllowed(env: Env, limit: nat, n: Net, i: nat)
    requires ValidCodec(env.cx) && NetInv(env, limit, n) && i < |n.sender.streams|
    requires n.sender.streams[i].initial == 0 && Sent(n.sender.wire, i) == []
    ensures !n.sender.streams[i].pc.Allowed?
  {
    hide ValidCodec, QueueOk, LengthOk, WaitersOk, DataOk, EndOk, Sent, PendingOf, BackTo, HeadersOk, ReceiverOk,
      StreamOk, HeardOf, InStep, SentTotal, Held;
    var st := n.sender.streams[i];
    assert StreamInv(st, n.sender.wire, i) && StreamCredit(n, i);
    HeardIsSent(n, i);
    SentPrefix(n.sender.wire, n.delivered, i);
  }

  /** Nothing is in flight, nobody has failed, and no writer can take a step. */
  ghost predicate Quiet(cx: Codec, n: Net)
    requires ValidCodec(cx) && n.sender.table.Valid()
  {
    && n.delivered == |n.sender.wire| && n.pending == [] && n.back == []
    && forall i :: 0 <= i < |n.sender.streams| ==>
         && !n.sender.streams[i].pc.Stuck?
         && Step(cx, n.sender, NextAction(n.sender.streams[i].pc, i)).None?
  }

  lemma {:induction false} NothingHeld(streams: seq<OutStream>)
    requires forall i :: 0 <= i < |streams| ==> HeldOfConn(streams[i].pc) == 0
    ensures Held(streams) == 0
  {
    if streams != [] {
      NothingHeld(streams[..|streams| - 1]);
    }
  }

  /** A writer that holds a grant can go on. */
  lemma HolderMoves(cx: Codec, s: Sender, i: nat)
    requires ValidCodec(cx) && s.table.Valid() && i < |s.streams| && PcOk(s.streams[i]) && !s.streams[i].pc.Stuck?
    requires HeldOfConn(s.streams[i].pc) > 0
    ensures Step(cx, s, NextAction(s.streams[i].pc, i)).Some?
  {
    hide ValidCodec, EncodeBlock;
  }

  /**
   * Flow control does not deadlock. When nothing is in flight and no writer can move, and no byte was
   * lost, then all that was written to a stream has been sent, unless the stream never had a window.
   */
  lemma NoDeadlock(env: Env, limit: nat, actions: seq<NetAction>, i: nat)
    requires ValidCodec(env.cx) && NetRun(env, limit, actions).Next?
    requires var n := NetRun(env, limit, actions).net;
             && i < |n.sender.streams| && Quiet(env.cx, n) && n.delivered <= |n.sender.wire|
             && forall j :: 0 <= j < |n.sender.streams| ==> Lost(n, j) == 0
    ensures var s := NetRun(env, limit, actions).net.sender;
            Sent(s.wire, i) == s.streams[i].accepted <==> s.streams[i].initial > 0 || s.streams[i].accepted == []
  {
    hide ValidCodec, NetRun, Step, QueueOk, LengthOk, WaitersOk, WindowOk, EndOk, ReceiverOk, StreamOk, InStep,
      HeadersOk, SumSent, SumHeard, SentTotal, HeardOf, NextAction, Sent;
    NetRunKeeps(env, limit, actions);
    var n := NetRun(env, limit, actions).net;
    var s := n.sender;
    assert s.wire[..n.delivered] == s.wire;
    forall j | 0 <= j < |s.streams|
      ensures HeldOfConn(s.streams[j].pc) == 0
    {
      assert StreamInv(s.streams[j], s.wire, j);
      if HeldOfConn(s.streams[j].pc) > 0 {
        HolderMoves(env.cx, s, j);
      }
    }
    NothingHeld(s.streams);
    LossesAddUp(env, limit, actions);
    SumsAgree(n, |s.streams|);
    QuietStream(env, limit, n, i);
    NothingWithoutWindow(env, limit, actions, i);
  }

  lemma {:induction false} SumsAgree(n: Net, k: nat)
    requires n.delivered <= |n.sender.wire| && forall j :: 0 <= j < k ==> Lost(n, j) == 0
    ensures SumSent(n.sender.wire[..n.delivered], k) == SumHeard(n.receiver, k)
  {
    hide HeardOf, Sent;
    if k > 0 {
      assert Lost(n, k - 1) == 0;
      SumsAgree(n, k - 1);
    }
  }

  /** With all credit back, a stream that had a window is not waiting. */
  lemma QuietStream(env: Env, limit: nat, n: Net, i: nat)
    requires ValidCodec(env.cx) && n.sender.table.Valid() && NetInv(env, limit, n) && i < |n.sender.streams|
             && Quiet(env.cx, n)
    requires LostTotal(n) == 0 && Lost(n, i) == 0 && Held(n.sender.streams) == 0
             && HeldOfConn(n.sender.streams[i].pc) == 0
    ensures n.sender.streams[i].initial > 0 ==> Sent(n.sender.wire, i) == n.sender.streams[i].accepted
  {
    hide ValidCodec, QueueOk, LengthOk, WaitersOk, EndOk, PcOk, ReceiverOk, StreamOk, InStep, HeadersOk, SentTotal,
      HeardOf, Sent, Step, NextAction, Held, PendingOf, PendingTotal, BackTo;
    var s, st := n.sender, n.sender.streams[i];
    assert s.wire[..n.delivered] == s.wire;
    assert StreamInv(st, s.wire, i) && StreamCredit(n, i);
    NothingPending(n, i);
    ProgressAt(env.cx, s, i);
    DataMeaning(st, s.wire, i);
  }

  lemma NothingPending(n: Net, i: nat)
    requires n.pending == [] && n.back == []
    ensures PendingOf(n.pending, i) == 0 && PendingTotal(n.pending) == 0
    ensures BackTo(n.back, None) == 0 && BackTo(n.back, Some(i)) == 0
  {
  }
}
