/** A whole message from `write_headers` at one end to `finish` at the other: everything accepts what it should. */
module EndToEnd {
  import opened Bits
  import opened Protocol
  import opened FlowControl
  import opened DynamicTable
  import opened Hpack
  import opened Writers
  import opened WriteOutcomes
  import opened Network
  import opened FrameLimits
  import ContentLength

  // ---------- the sender ----------

  /** The calls of an application that writes one message, and what the lock and the windows let them do. */
  function Calls(window: nat, hs: seq<Header>, body: bytes): seq<Action> {
    [Create(window)] + [WriteHeaders(0, Some(|body|), hs)] + [Write(0, body)] + [Finish(0)] + [Acquire(0)]
  }

  function Message(window: nat, hs: seq<Header>, body: bytes): seq<Action> {
    Calls(window, hs, body) + [TurnStream(0), TurnParent(0), Debit(0), Send(0), Flushed(0)] + [Acquire(0)]
  }

  function WireOf(cx: Codec, limit: nat, hs: seq<Header>, body: bytes): seq<OutFrame>
    requires ValidCodec(cx)
  {
    [HeaderBlock(0, EncodeBlock(cx, Table([], 0, limit), hs).0), Data(0, body, false), Data(0, [], true)]
  }

  lemma {:induction false} RunConcat(cx: Codec, s: Sender, a: seq<Action>, b: seq<Action>)
    requires ValidCodec(cx) && s.table.Valid() && Run(cx, s, a).Some?
    ensures Run(cx, s, a + b) == Run(cx, Run(cx, s, a).value, b)
    decreases |b|
  {
    hide ValidCodec, Step;
    if b == [] {
      assert a + b == a;
    } else {
      var b' := b[..|b| - 1];
      RunConcat(cx, s, a, b');
      assert (a + b)[..|a + b| - 1] == a + b';
    }
  }

  /** The stream that has queued the body and its end, and gets the lock. */
  lemma CallsMade(cx: Codec, limit: nat, window: nat, hs: seq<Header>, body: bytes)
    requires ValidCodec(cx) && body != [] && window <= MAX_WINDOW_SIZE
    ensures var r := Run(cx, Start(limit), Calls(window, hs, body));
            r.Some? &&
            var s := r.value;
            && |s.streams| == 1 && s.socketOpen && s.conn == Win(65535, false, {}) && s.table.Valid()
            && s.wire == [HeaderBlock(0, EncodeBlock(cx, Table([], 0, limit), hs).0)]
            && var st := s.streams[0];
               && st.window == Win(window, false, {}) && st.pc == AtStream(body) && st.queue == [End]
               && st.accepted == body && st.finished
  {
    hide ValidCodec, EncodeBlock, Step, Run;
    var s0 := Start(limit);
    var s1 := Created(cx, limit, window);
    var s2 := WithHeaders(cx, s1, hs, |body|);
    LastStep(cx, s0, [Create(window)], WriteHeaders(0, Some(|body|), hs), s1);
    WriteAccepts(cx, s2, 0, body);
    var s3 := Step(cx, s2, Write(0, body)).value;
    LastStep(cx, s0, [Create(window)] + [WriteHeaders(0, Some(|body|), hs)], Write(0, body), s2);
    FinishAccepts(cx, s3, 0);
    var s4 := Step(cx, s3, Finish(0)).value;
    LastStep(cx, s0, [Create(window)] + [WriteHeaders(0, Some(|body|), hs)] + [Write(0, body)], Finish(0), s3);
    AcquireServesFirst(cx, s4, 0);
    assert s4.streams[0].queue == [Chunk(body), End];
    LastStep(cx, s0, [Create(window)] + [WriteHeaders(0, Some(|body|), hs)] + [Write(0, body)] + [Finish(0)],
      Acquire(0), s4);
  }

  lemma Created(cx: Codec, limit: nat, window: nat) returns (s: Sender)
    requires ValidCodec(cx) && window <= MAX_WINDOW_SIZE
    ensures Run(cx, Start(limit), [Create(window)]) == Some(s) && s.table == Table([], 0, limit)
    ensures s.streams == [NewOutStream(window)] && s.wire == [] && s.socketOpen && s.conn == Win(65535, false, {})
  {
    hide ValidCodec;
    s := Start(limit).(streams := [NewOutStream(window)]);
    assert [] + [NewOutStream(window)] == [NewOutStream(window)];
    assert [Create(window)][..0] == [];
    assert Run(cx, Start(limit), []) == Some(Start(limit));
  }

  lemma WithHeaders(cx: Codec, s: Sender, hs: seq<Header>, length: nat) returns (s': Sender)
    requires ValidCodec(cx) && s.table.Valid() && |s.streams| == 1 && s.socketOpen && s.wire == []
    requires s.streams[0].accepted == []
    ensures Step(cx, s, WriteHeaders(0, Some(length), hs)) == Some(s') && s'.table.Valid() && |s'.streams| == 1
    ensures s'.wire == [HeaderBlock(0, EncodeBlock(cx, s.table, hs).0)] && s'.socketOpen && s'.conn == s.conn
    ensures var st, st' := s.streams[0], s'.streams[0];
            st' == st.(remaining := Some(length),
                       declared := st'.declared, base := st'.base, lateLength := st'.lateLength)
  {
    hide ValidCodec, EncodeBlock;
    s' := Step(cx, s, WriteHeaders(0, Some(length), hs)).value;
  }

  lemma MessageSent(cx: Codec, limit: nat, window: nat, hs: seq<Header>, body: bytes)
    requires ValidCodec(cx) && 1 <= |body| <= window <= MAX_WINDOW_SIZE && |body| <= 65535
    ensures var r := Run(cx, Start(limit), Message(window, hs, body));
            r.Some? &&
            var s := r.value;
            && |s.streams| == 1 && s.wire == WireOf(cx, limit, hs, body) && s.table.Valid()
            && s.conn == Win(65535 - |body|, false, {})
            && s.streams[0].window == Win(window - |body|, false, {})
            && s.streams[0].pc == Idle && s.streams[0].queue == []
  {
    hide ValidCodec, EncodeBlock, Step, Run, Calls;
    var s0, turn := Start(limit), [TurnStream(0), TurnParent(0), Debit(0), Send(0), Flushed(0)];
    CallsMade(cx, limit, window, hs, body);
    var s5 := Run(cx, s0, Calls(window, hs, body)).value;
    OneTurn(cx, s5, 0);
    RunConcat(cx, s0, Calls(window, hs, body), turn);
    assert body[..|body|] == body;
    var s6 := Run(cx, s5, turn).value;
    AcquireServesFirst(cx, s6, 0);
    LastStep(cx, s0, Calls(window, hs, body) + turn, Acquire(0), s6);
  }

  // ---------- the receiver ----------

  /** A connection whose only stream is `s`, the client's first. */
  ghost predicate Serving(c: Conn, s: StreamState) {
    c.alive && c.table.Valid() && c.streams == map[1 := s] && s.id == 1 && s.headerFrames == []
  }

  /** Nothing but the receiver, and what it hands over, has changed. */
  ghost predicate Handled(n: Net, n': Net, amount: nat) {
    && n' == n.(delivered := n.delivered + 1, receiver := n'.receiver, heard := n.heard + amount,
                back := if amount == 0 then n.back else n.back + [Update(None, amount), Update(Some(0), amount)])
  }

  /** A new server takes the first block for a request. */
  lemma RequestHeard(env: Env, limit: nat, f: Frames.Frame, headers: seq<Decoded>, status: int, length: int)
    requires !env.isClient && f.id == 1 && f.typ == Frames.HEADERS && !Frames.Has(f.flags, Frames.FLAG_END_STREAM)
    requires ContentLength.Whole(env, Table([], 0, limit), f, headers)
    requires env.interpret(false, headers) == Receiving.Accept(status, Receiving.Declared(length))
    ensures var c := Dispatch.Receive(env, Dispatch.Opened(false, limit), f);
            Serving(c, Receiving.NewStream(1, 65535).(
              phase := Receiving.BodyPhase, remaining := Some(length), started := true,
              calls := [Receiving.HeadersReceived(status, Some(length))]))
  {
    hide Receiving.HandleFrame, ContentLength.Whole, Frames.Has;
    var c0 := Dispatch.Opened(false, limit);
    var c := Dispatch.CreateRemote(c0, 1);
    ContentLength.HeadersAccepted(env, c.streams[1], c.table, f, headers);
    assert [] + [Receiving.HeadersReceived(status, Some(length))] == [Receiving.HeadersReceived(status, Some(length))];
  }

  lemma BlockDelivered(env: Env, limit: nat, n: Net, hs: seq<Header>, status: int, length: int)
    requires ValidCodec(env.cx) && !env.isClient && n.receiver == Dispatch.Opened(false, limit)
    requires n.delivered < |n.sender.wire|
    requires n.sender.wire[n.delivered] == HeaderBlock(0, EncodeBlock(env.cx, Table([], 0, limit), hs).0)
    requires |EncodeBlock(env.cx, Table([], 0, limit), hs).0| <= 8 * 16384
    requires env.interpret(false, SeenBlock(env.cx, Table([], 0, limit), hs)) ==
             Receiving.Accept(status, Receiving.Declared(length))
    ensures var r := DeliverStep(env, n, false);
            && r.Next? && Handled(n, r.net, 0)
            && Serving(r.net.receiver, Receiving.NewStream(1, 65535).(
                 phase := Receiving.BodyPhase, remaining := Some(length), started := true,
                 calls := [Receiving.HeadersReceived(status, Some(length))]))
  {
    hide ValidCodec, EncodeBlock, DecodeBlock, SeenBlock, Dispatch.Receive, Dispatch.Act, BitsBytes, BytesBits;
    var t, f := Table([], 0, limit), AsFrame(n.sender.wire[n.delivered]);
    FlagsOfFrames(n.sender.wire[n.delivered]);
    WholeBlock(env.cx, t, hs);
    BitsBytesBits(EncodeBlock(env.cx, t, hs).0);
    BlockRoundTrip(env.cx, t, hs);
    RequestHeard(env, limit, f, SeenBlock(env.cx, t, hs), status, length);
  }

  lemma DataHandled(env: Env, c: Conn, s: StreamState, payload: bytes, last: bool)
    requires Serving(c, s) && s.started && !s.finished && s.phase == Receiving.BodyPhase
    requires s.remaining.Some? && |payload| <= s.remaining.value && (last ==> |payload| == s.remaining.value)
    ensures var c' := Dispatch.Receive(env, c, AsFrame(Data(0, payload, last)));
            Serving(c', s.(
              remaining := Some(s.remaining.value - |payload|), started := !last, finished := last,
              calls := s.calls + (if payload == [] then [] else [Receiving.DataReceived(payload)])
                       + (if last then [Receiving.Finish] else [])))
  {
    FlagsOfFrames(Data(0, payload, last));
    assert s.calls + [] == s.calls && forall calls: seq<Receiving.Call> :: calls + [] == calls;
  }

  lemma DataDelivered(env: Env, n: Net, s: StreamState, payload: bytes, last: bool)
    requires Serving(n.receiver, s) && s.started && !s.finished && s.phase == Receiving.BodyPhase
    requires s.remaining.Some? && |payload| <= s.remaining.value && (last ==> |payload| == s.remaining.value)
    requires |payload| <= 16384
    requires n.delivered < |n.sender.wire| && n.sender.wire[n.delivered] == Data(0, payload, last)
    ensures var r := DeliverStep(env, n, false);
            && r.Next? && Handled(n, r.net, |payload|)
            && Serving(r.net.receiver, s.(
                 remaining := Some(s.remaining.value - |payload|), started := !last, finished := last,
                 calls := s.calls + (if payload == [] then [] else [Receiving.DataReceived(payload)])
                          + (if last then [Receiving.Finish] else [])))
  {
    hide Dispatch.Receive, Dispatch.Act;
    DataHandled(env, n.receiver, s, payload, last);
  }

  // ---------- there and back ----------

  /** The two updates give both windows back what the body took. */
  lemma CreditReturns(env: Env, n: Net, amount: nat)
    requires ValidCodec(env.cx) && n.sender.table.Valid() && n.receiver.table.Valid() && |n.sender.streams| == 1
    requires n.back == [Update(None, amount), Update(Some(0), amount)] && 1 <= amount
    requires 0 <= n.sender.conn.size && n.sender.conn.size + amount <= MAX_WINDOW_SIZE
    requires 0 <= n.sender.streams[0].window.size && n.sender.streams[0].window.size + amount <= MAX_WINDOW_SIZE
    ensures var r1 := NetStepOf(env, n, Receive);
            r1.Next? &&
            var r2 := NetStepOf(env, r1.net, Receive);
            && r2.Next? && r2.net.back == [] && r2.net == n.(sender := r2.net.sender, back := [])
            && r2.net.sender.wire == n.sender.wire && |r2.net.sender.streams| == 1
            && r2.net.sender.conn.size == n.sender.conn.size + amount
            && r2.net.sender.streams[0].window.size == n.sender.streams[0].window.size + amount
  {
    hide ValidCodec, EncodeBlock;
    var n1 := NetStepOf(env, n, Receive).net;
    assert n1.back == [Update(Some(0), amount)];
  }

  /** Everything up to the last delivery: the three frames arrive, and the body's credit is on its way back. */
  lemma MessageArrives(env: Env, limit: nat, window: nat, hs: seq<Header>, body: bytes, status: int)
    requires ValidCodec(env.cx) && !env.isClient && 1 <= |body| <= window <= MAX_WINDOW_SIZE && |body| <= 16384
    requires |EncodeBlock(env.cx, Table([], 0, limit), hs).0| <= 8 * 16384
    requires env.interpret(false, SeenBlock(env.cx, Table([], 0, limit), hs)) ==
             Receiving.Accept(status, Receiving.Declared(|body|))
    ensures var sent := BySender(Message(window, hs, body));
            var r := NetRun(env, limit, sent + [Deliver(false)] + [Deliver(false)] + [Deliver(false)]);
            r.Next? &&
            var n, s := r.net, Run(env.cx, Start(limit), Message(window, hs, body));
            && s == Some(n.sender) && n.delivered == 3 && n.pending == []
            && n.back == [Update(None, |body|), Update(Some(0), |body|)]
            && Serving(n.receiver, Receiving.NewStream(1, 65535).(
                 phase := Receiving.BodyPhase, remaining := Some(0), started := false, finished := true,
                 calls := [Receiving.HeadersReceived(status, Some(|body|)), Receiving.DataReceived(body),
                           Receiving.Finish]))
  {
    hide ValidCodec, EncodeBlock, SeenBlock, Run, NetRun, DeliverStep, Message;
    var actions := BySender(Message(window, hs, body));
    MessageSent(env.cx, limit, window, hs, body);
    NoUpdates(window, hs, body);
    SenderAlone(env, limit, Message(window, hs, body));
    var n := NetRun(env, limit, actions).net;
    BlockDelivered(env, limit, n, hs, status, |body|);
    NetRunSnoc(env, limit, actions, Deliver(false));
    var n1 := DeliverStep(env, n, false).net;
    var s1 := n1.receiver.streams[1];
    DataDelivered(env, n1, s1, body, false);
    NetRunSnoc(env, limit, actions + [Deliver(false)], Deliver(false));
    var n2 := DeliverStep(env, n1, false).net;
    DataDelivered(env, n2, n2.receiver.streams[1], [], true);
    NetRunSnoc(env, limit, actions + [Deliver(false)] + [Deliver(false)], Deliver(false));
    var h, d := Receiving.HeadersReceived(status, Some(|body|)), Receiving.DataReceived(body);
    assert [h] + [d] + [] == [h, d] && [h, d] + [] + [Receiving.Finish] == [h, d, Receiving.Finish];
  }

  lemma NoUpdates(window: nat, hs: seq<Header>, body: bytes)
    ensures forall k :: 0 <= k < |Message(window, hs, body)| ==>
              !Message(window, hs, body)[k].UpdateStream? && !Message(window, hs, body)[k].UpdateConn?
  {
  }

  /**
   * A request that the peer's application accepts goes through, whatever its headers and its body: the delegate is
   * given the headers, the body as it was written and the end, and the windows are what they were.
   */
  lemma MessageGoesThrough(env: Env, limit: nat, window: nat, hs: seq<Header>, body: bytes, status: int)
    requires ValidCodec(env.cx) && !env.isClient && 1 <= |body| <= window <= MAX_WINDOW_SIZE && |body| <= 16384
    requires |EncodeBlock(env.cx, Table([], 0, limit), hs).0| <= 8 * 16384
    requires env.interpret(false, SeenBlock(env.cx, Table([], 0, limit), hs)) ==
             Receiving.Accept(status, Receiving.Declared(|body|))
    ensures exists actions ::
              var r := NetRun(env, limit, actions);
              r.Next? &&
              var n := r.net;
              && n.delivered == |n.sender.wire| && n.back == [] && n.pending == []
              && n.sender.conn.size == 65535 && |n.sender.streams| == 1 && n.sender.streams[0].window.size == window
              && n.receiver.alive && n.receiver.streams.Keys == {1} && n.receiver.streams[1].finished
              && n.receiver.streams[1].calls ==
                 [Receiving.HeadersReceived(status, Some(|body|)), Receiving.DataReceived(body), Receiving.Finish]
  {
    hide ValidCodec, EncodeBlock, SeenBlock, Run, NetRun, NetStepOf, Message;
    var actions := BySender(Message(window, hs, body)) + [Deliver(false)] + [Deliver(false)] + [Deliver(false)];
    MessageSent(env.cx, limit, window, hs, body);
    MessageArrives(env, limit, window, hs, body, status);
    var n := NetRun(env, limit, actions).net;
    CreditReturns(env, n, |body|);
    NetRunSnoc(env, limit, actions, Receive);
    NetRunSnoc(env, limit, actions + [Receive], Receive);
  }
}
