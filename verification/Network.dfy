/**
 * Two endpoints of this code joined by FIFO channels: what one writes (`Writers`) is read by the loop of the
 * other (`Dispatch`), whose streams answer the DATA they hand over with WINDOW_UPDATEs the other way.
 */
module Network {
  import opened Bits
  import opened Protocol
  import opened FlowControl
  import opened DynamicTable
  import opened Hpack
  import opened Writers
  import opened WriterRuns
  import Frames
  import Receiving
  import Dispatch
  import DispatchRuns
  import HeaderBlocks
  import Hearing

  type Conn = Dispatch.Conn
  type Env = Receiving.Env
  type StreamState = Receiving.StreamState

  /** A WINDOW_UPDATE frame for a stream, or for the connection. */
  datatype Update = Update(target: Option<nat>, amount: nat)

  /** Payload bytes given to a delegate whose future has not resolved yet. */
  datatype Pending = Pending(stream: nat, amount: nat)

  /**
   * The sender, how many of its frames have been handled, the receiver, how many bytes it has handed
   * over, and the updates on their way back.
   */
  datatype Net = Net(
    sender: Sender,
    delivered: nat,
    receiver: Conn,
    heard: nat,
    pending: seq<Pending>,
    back: seq<Update>)

  function StartNet(isClient: bool, limit: nat): Net {
    Net(Start(limit), 0, Dispatch.Opened(isClient, limit), 0, [], [])
  }

  datatype NetAction =
    | SenderActs(a: Action)
    | ReceiverActs(e: Dispatch.Event)         // what the receiver's application does
    | Deliver(deferred: bool)                 // the receiver handles the next frame
    | Complete(j: nat)                        // a delegate's future resolves
    | Receive                                 // the sender handles the next WINDOW_UPDATE

  /** An error is one that ends a connection. */
  datatype NetStep = Next(net: Net) | Impossible | Error(outcome: Outcome)

  // ---------- frames ----------

  /** Requests and their responses travel on the streams that the client opens. */
  function Id(i: nat): nat {
    2 * i + 1
  }

  /** An encoded block fills whole bytes. */
  function BlockBytes(block: seq<bool>): bytes {
    if |block| % 8 == 0 then BitsBytes(block) else []
  }

  function AsFrame(f: OutFrame): Frames.Frame {
    match f
    case HeaderBlock(i, block) => Frames.Frame(Frames.HEADERS, Frames.FLAG_END_HEADERS, Id(i), BlockBytes(block))
    case Data(i, payload, endStream) =>
      Frames.Frame(Frames.DATA, if endStream then Frames.FLAG_END_STREAM else 0, Id(i), payload)
    case Reset(i) => Frames.Frame(Frames.RST_STREAM, 0, Id(i), [0, 0, 0, 0])
  }

  lemma FlagsOfFrames(f: OutFrame)
    ensures var flags := AsFrame(f).flags;
            && !Frames.Has(flags, Frames.FLAG_PADDED) && !Frames.Has(flags, Frames.FLAG_PRIORITY)
            && (Frames.Has(flags, Frames.FLAG_END_STREAM) <==> f.Data? && f.endStream)
            && (f.HeaderBlock? ==> Frames.Has(flags, Frames.FLAG_END_HEADERS))
  {
  }

  // ---------- steps ----------

  function StreamOf(c: Conn, i: nat): StreamState {
    if Id(i) in c.streams then c.streams[Id(i)] else Receiving.NewStream(Id(i), DEFAULT_WINDOW_SIZE)
  }

  /** `_send_window_update` credits the connection and the stream. */
  function Updates(i: nat, amount: nat): seq<Update> {
    [Update(None, amount), Update(Some(i), amount)]
  }

  /** The receiver's loop reads a frame; what its stream hands over is credited at once, or once a future resolves. */
  function DeliverStep(env: Env, n: Net, deferred: bool): NetStep
    requires n.receiver.table.Valid()
  {
    if n.delivered >= |n.sender.wire| then Impossible
    else
      var f := n.sender.wire[n.delivered];
      var frame := AsFrame(f);
      if |frame.data| > DEFAULT_MAX_FRAME_SIZE then Error(ConnectionError(FRAME_SIZE_ERROR))
      else
        var c := Dispatch.Receive(env, n.receiver, frame);
        if !c.alive then Error(Dispatch.Act(env, n.receiver, frame).outcome)
        else
          var amount := Hearing.NewlyHeard(StreamOf(n.receiver, f.stream), StreamOf(c, f.stream));
          var n' := n.(delivered := n.delivered + 1, receiver := c, heard := n.heard + amount);
          if amount == 0 then Next(n')
          else if deferred then Next(n'.(pending := n.pending + [Pending(f.stream, amount)]))
          else Next(n'.(back := n.back + Updates(f.stream, amount)))
  }

  function CompleteStep(n: Net, j: nat): NetStep {
    if j >= |n.pending| then Impossible
    else
      var p := n.pending[j];
      Next(n.(pending := n.pending[..j] + n.pending[j + 1..], back := n.back + Updates(p.stream, p.amount)))
  }

  function UpdateAction(u: Update): Action {
    if u.target.None? then UpdateConn(u.amount) else UpdateStream(u.target.value, u.amount)
  }

  function ReceiveStep(cx: Codec, n: Net): NetStep
    requires ValidCodec(cx) && n.sender.table.Valid()
  {
    if n.back == [] then Impossible
    else
      var u := n.back[0];
      var fails := match u.target
        case None => AdjustFails(n.sender.conn, u.amount)
        case Some(i) => i < |n.sender.streams| && AdjustFails(n.sender.streams[i].window, u.amount);
      if fails then Error(ConnectionError(FLOW_CONTROL_ERROR))
      else
        match Step(cx, n.sender, UpdateAction(u))
        case None => Impossible
        case Some(s) => Next(n.(sender := s, back := n.back[1..]))
  }

  function NetStepOf(env: Env, n: Net, a: NetAction): (r: NetStep)
    requires ValidCodec(env.cx) && n.sender.table.Valid() && n.receiver.table.Valid()
    ensures r.Next? ==> r.net.sender.table.Valid() && r.net.receiver.table.Valid()
  {
    match a
    case SenderActs(b) =>
      if b.UpdateStream? || b.UpdateConn? then Impossible
      else
        match Step(env.cx, n.sender, b) {
          case None => Impossible
          case Some(s) => Next(n.(sender := s))
        }
    case ReceiverActs(e) =>
      if e.Read? then Impossible else Next(n.(receiver := Dispatch.Step(env, n.receiver, e)))
    case Deliver(deferred) => DeliverStep(env, n, deferred)
    case Complete(j) => CompleteStep(n, j)
    case Receive => ReceiveStep(env.cx, n)
  }

  function NetRun(env: Env, limit: nat, actions: seq<NetAction>): (r: NetStep)
    requires ValidCodec(env.cx)
    ensures r.Next? ==> r.net.sender.table.Valid() && r.net.receiver.table.Valid()
    decreases |actions|
  {
    if actions == [] then Next(StartNet(env.isClient, limit))
    else
      match NetRun(env, limit, actions[..|actions| - 1])
      case Next(n) => NetStepOf(env, n, actions[|actions| - 1])
      case r => r
  }

  // ---------- credit on its way back ----------

  function PendingOf(pending: seq<Pending>, i: nat): nat {
    if pending == [] then 0
    else PendingOf(pending[1..], i) + if pending[0].stream == i then pending[0].amount else 0
  }

  function PendingTotal(pending: seq<Pending>): nat {
    if pending == [] then 0 else PendingTotal(pending[1..]) + pending[0].amount
  }

  function BackTo(back: seq<Update>, target: Option<nat>): nat {
    if back == [] then 0
    else BackTo(back[1..], target) + if back[0].target == target then back[0].amount else 0
  }

  lemma {:induction false} PendingConcat(a: seq<Pending>, b: seq<Pending>, i: nat)
    ensures PendingOf(a + b, i) == PendingOf(a, i) + PendingOf(b, i)
    ensures PendingTotal(a + b) == PendingTotal(a) + PendingTotal(b)
  {
    if a == [] {
      assert a + b == b;
    } else {
      PendingConcat(a[1..], b, i);
      assert (a + b)[1..] == a[1..] + b;
    }
  }

  lemma {:induction false} BackConcat(a: seq<Update>, b: seq<Update>, target: Option<nat>)
    ensures BackTo(a + b, target) == BackTo(a, target) + BackTo(b, target)
  {
    if a == [] {
      assert a + b == b;
    } else {
      BackConcat(a[1..], b, target);
      assert (a + b)[1..] == a[1..] + b;
    }
  }

  lemma BackOfUpdates(i: nat, amount: nat, target: Option<nat>)
    ensures BackTo(Updates(i, amount), target) == if target == None || target == Some(i) then amount else 0
  {
    var second := [Update(Some(i), amount)];
    assert Updates(i, amount)[1..] == second && second[1..] == [];
    assert BackTo(second, target) == if target == Some(i) then amount else 0;
  }

  lemma PendingWithout(pending: seq<Pending>, j: nat, i: nat)
    requires j < |pending|
    ensures PendingOf(pending, i) ==
            PendingOf(pending[..j] + pending[j + 1..], i) + if pending[j].stream == i then pending[j].amount else 0
    ensures PendingTotal(pending) == PendingTotal(pending[..j] + pending[j + 1..]) + pending[j].amount
  {
    var a, p, b := pending[..j], pending[j..j + 1], pending[j + 1..];
    assert pending == a + (p + b);
    assert p[1..] == [];
    PendingConcat(a, p + b, i);
    PendingConcat(p, b, i);
    PendingConcat(a, b, i);
  }

  // ---------- what was delivered ----------

  /** How many header blocks of stream i there are. */
  function BlocksOf(wire: seq<OutFrame>, i: nat): nat {
    if wire == [] then 0
    else
      var f := wire[|wire| - 1];
      BlocksOf(wire[..|wire| - 1], i) + if f.HeaderBlock? && f.stream == i then 1 else 0
  }

  /** Every frame of stream i comes behind a header block of it. */
  predicate HeadersFirst(wire: seq<OutFrame>, i: nat) {
    wire == []
    || (HeadersFirst(wire[..|wire| - 1], i)
        && (var f := wire[|wire| - 1];
            f.stream == i && !f.HeaderBlock? ==> BlocksOf(wire[..|wire| - 1], i) > 0))
  }

  /** No header block comes behind the end of its stream. */
  predicate HeadersBeforeEnd(wire: seq<OutFrame>) {
    wire == []
    || (HeadersBeforeEnd(wire[..|wire| - 1])
        && (var f := wire[|wire| - 1]; f.HeaderBlock? ==> !Ended(wire[..|wire| - 1], f.stream)))
  }

  lemma WireGrows(wire: seq<OutFrame>, f: OutFrame, i: nat)
    ensures BlocksOf(wire + [f], i) == BlocksOf(wire, i) + if f.HeaderBlock? && f.stream == i then 1 else 0
    ensures HeadersFirst(wire + [f], i) <==>
            HeadersFirst(wire, i) && (f.stream == i && !f.HeaderBlock? ==> BlocksOf(wire, i) > 0)
    ensures HeadersBeforeEnd(wire + [f]) <==>
            HeadersBeforeEnd(wire) && (f.HeaderBlock? ==> !Ended(wire, f.stream))
    ensures SentTotal(wire + [f]) == SentTotal(wire) + if f.Data? then |f.payload| else 0
    ensures Sent(wire + [f], i) == if f.Data? && f.stream == i then Sent(wire, i) + f.payload else Sent(wire, i)
    ensures Ended(wire + [f], i) <==> Ended(wire, i) || (f.Data? && f.stream == i && f.endStream)
    ensures NothingAfterEnd(wire + [f], i) <==>
            NothingAfterEnd(wire, i)
            && (f.Data? && f.stream == i && Ended(wire, i) ==> f.endStream && f.payload == [])
  {
    assert (wire + [f])[..|wire|] == wire;
  }

  // ---------- the invariant ----------

  /** A stream that has handed over everything so far, and goes on to do so. */
  predicate Attentive(s: StreamState) {
    s.phase == Receiving.HeadersPhase || (s.started && !(s.remaining.Some? && s.remaining.value < 0))
  }

  /** What a stream whose headers come first has handed over, compared with what was delivered to it. */
  ghost predicate Follows(s: StreamState, wire: seq<OutFrame>, i: nat) {
    var heard, sent := Receiving.Bodies(s.calls), Sent(wire, i);
    && heard <= sent
    && (Attentive(s) ==> heard == sent)
    && (s.finished && Receiving.WithoutCloses(s.calls) != [] && NothingAfterEnd(wire, i) ==> heard == sent)
    && (s.phase == Receiving.HeadersPhase ==> sent == [] && !s.finished)
    && (s.phase != Receiving.HeadersPhase ==> BlocksOf(wire, i) >= 1)
    && (s.phase == Receiving.TrailersPhase ==> BlocksOf(wire, i) >= 2)
  }

  ghost predicate StreamOk(c: Conn, wire: seq<OutFrame>, i: nat) {
    if Id(i) in c.streams then
      var s := c.streams[Id(i)];
      && (s.finished ==> Ended(wire, i))
      && Receiving.Delivered(s.calls) <= |Sent(wire, i)|
      && (HeadersFirst(wire, i) ==> Follows(s, wire, i))
    else BlocksOf(wire, i) == 0
  }

  /** All local numbers below the next are taken. */
  ghost predicate LocalsKnown(c: Conn) {
    forall id: nat :: 1 <= id < c.nextId && Dispatch.IsLocal(c, id) ==> id in c.streams
  }

  ghost predicate ReceiverOk(isClient: bool, c: Conn) {
    c.alive && DispatchRuns.ConnInv(isClient, c) && HeaderBlocks.NonePending(c) && LocalsKnown(c)
  }

  function HeardOf(c: Conn, i: nat): nat {
    Receiving.Delivered(StreamOf(c, i).calls)
  }

  /** Everything handed over has been credited, awaits its delegate, or is on its way back. */
  ghost predicate StreamCredit(n: Net, i: nat)
    requires i < |n.sender.streams|
  {
    HeardOf(n.receiver, i) == n.sender.streams[i].credited + PendingOf(n.pending, i) + BackTo(n.back, Some(i))
  }

  ghost predicate ConnCredit(n: Net)
    requires n.delivered <= |n.sender.wire|
  {
    && n.heard == n.sender.credited + PendingTotal(n.pending) + BackTo(n.back, None)
    && n.heard <= SentTotal(n.sender.wire[..n.delivered])
  }

  /** Updates are legal increments for existing streams. */
  ghost predicate AmountsOk(n: Net) {
    && (forall k :: 0 <= k < |n.pending| ==>
          n.pending[k].stream < |n.sender.streams| && 1 <= n.pending[k].amount <= MAX_WINDOW_SIZE)
    && (forall k :: 0 <= k < |n.back| ==>
          && 1 <= n.back[k].amount <= MAX_WINDOW_SIZE
          && (n.back[k].target.Some? ==> n.back[k].target.value < |n.sender.streams|))
  }

  ghost predicate StreamsOk(n: Net)
    requires n.delivered <= |n.sender.wire|
  {
    forall i: nat :: StreamOk(n.receiver, n.sender.wire[..n.delivered], i)
  }

  /** The table that block k was encoded with. */
  function TableAt(cx: Codec, limit: nat, blocks: seq<seq<Header>>, k: nat): (t: Table)
    requires ValidCodec(cx) && k <= |blocks|
    ensures t.Valid()
  {
    EncodeBlocks(cx, Table([], 0, limit), blocks[..k]).1
  }

  /**
   * As long as no block has come behind the end of its stream, the decoder's table is the one the next
   * block was encoded with.
   */
  ghost predicate InStep(cx: Codec, limit: nat, n: Net)
    requires ValidCodec(cx) && n.delivered <= |n.sender.wire|
  {
    var wire := n.sender.wire[..n.delivered];
    HeadersBeforeEnd(wire) ==>
      && |Blocks(wire)| <= |n.sender.blocks|
      && n.receiver.table == TableAt(cx, limit, n.sender.blocks, |Blocks(wire)|)
  }

  ghost predicate NetInv(env: Env, limit: nat, n: Net)
    requires ValidCodec(env.cx)
  {
    && Inv(env.cx, limit, n.sender) && n.delivered <= |n.sender.wire| && ReceiverOk(env.isClient, n.receiver)
    && AmountsOk(n) && ConnCredit(n) && StreamsOk(n) && InStep(env.cx, limit, n)
    && forall i :: 0 <= i < |n.sender.streams| ==> StreamCredit(n, i)
  }

  // ---------- the sender's own steps ----------

  /** They only append to the wire and credit nothing. */
  lemma StepCreditsNothing(cx: Codec, s: Sender, a: Action)
    requires ValidCodec(cx) && s.table.Valid() && Step(cx, s, a).Some? && !a.UpdateStream? && !a.UpdateConn?
    ensures var t := Step(cx, s, a).value;
            && s.wire <= t.wire && |s.streams| <= |t.streams| && t.credited == s.credited
            && (forall i :: 0 <= i < |s.streams| ==> t.streams[i].credited == s.streams[i].credited)
            && (forall i :: |s.streams| <= i < |t.streams| ==> t.streams[i].credited == 0)
  {
    hide ValidCodec, EncodeBlock;
  }

  lemma {:induction false} PendingOfUnknown(pending: seq<Pending>, i: nat)
    requires forall k :: 0 <= k < |pending| ==> pending[k].stream != i
    ensures PendingOf(pending, i) == 0
  {
    if pending != [] {
      PendingOfUnknown(pending[1..], i);
    }
  }

  lemma {:induction false} BackToUnknown(back: seq<Update>, i: nat)
    requires forall k :: 0 <= k < |back| ==> back[k].target != Some(i)
    ensures BackTo(back, Some(i)) == 0
  {
    if back != [] {
      BackToUnknown(back[1..], i);
    }
  }

}
