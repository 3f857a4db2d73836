/** What a call of `write_headers`, `write` or `finish` achieves, and what the holder of the lock sends in one turn. */
module WriteOutcomes {
  import opened Bits
  import opened FlowControl
  import opened Hpack
  import opened Writers

  // ---------- one call ----------

  /** Stream i becomes `st`, and `frames` are written if the socket takes them; everything else stays. */
  ghost predicate Only(s: Sender, s': Sender, i: nat, st: OutStream, frames: seq<OutFrame>) {
    && i < |s.streams|
    && s' == s.(streams := s.streams[i := st], wire := if s.socketOpen then s.wire + frames else s.wire)
  }

  /**
   * A chunk is accepted, and waits for the lock, exactly if no length is declared or it does not go beyond what is
   * left; otherwise the stream is reset. Either way it is subtracted.
   */
  lemma WriteAccepts(cx: Codec, s: Sender, i: nat, chunk: bytes)
    requires ValidCodec(cx) && s.table.Valid() && i < |s.streams| && chunk != []
    ensures var r, st := Step(cx, s, Write(i, chunk)), s.streams[i];
            r.Some? &&
            var s', fits := r.value, st.remaining.None? || |chunk| <= st.remaining.value;
            var left := if st.remaining.None? then None else Some(st.remaining.value - |chunk|);
            && (fits ==> Only(s, s', i, st.(accepted := st.accepted + chunk, queue := st.queue + [Chunk(chunk)],
                                            remaining := left, lateChunk := st.lateChunk || st.finished), []))
            && (!fits ==> Only(s, s', i, st.(remaining := left), [Reset(i)]))
            && (fits <==> s'.streams[i].accepted == st.accepted + chunk)
  {
    hide ValidCodec;
    assert s.wire + [] == s.wire;
  }

  lemma EmptyChunk(cx: Codec, s: Sender, i: nat)
    requires ValidCodec(cx) && s.table.Valid() && i < |s.streams|
    ensures Step(cx, s, Write(i, [])) == Some(s)
  {
    hide ValidCodec;
    assert s.streams[i := s.streams[i]] == s.streams;
  }

  /** A stream is finished exactly if nothing is left of the declared length, or none was declared. */
  lemma FinishAccepts(cx: Codec, s: Sender, i: nat)
    requires ValidCodec(cx) && s.table.Valid() && i < |s.streams|
    ensures var r, st := Step(cx, s, Finish(i)), s.streams[i];
            r.Some? &&
            if st.remaining.None? || st.remaining.value == 0 then
              Only(s, r.value, i, st.(queue := st.queue + [End], finished := true), [])
            else
              Only(s, r.value, i, st, [Reset(i)])
  {
    hide ValidCodec;
    assert s.wire + [] == s.wire;
  }

  /**
   * Headers declare the length they carry, and the peer that has seen all blocks before decodes the block to the
   * headers given; the tables are equal again.
   */
  lemma HeadersDeclare(cx: Codec, s: Sender, i: nat, length: Option<int>, headers: seq<Header>)
    requires ValidCodec(cx) && s.table.Valid() && i < |s.streams|
    ensures var r := Step(cx, s, WriteHeaders(i, length, headers));
            r.Some? &&
            var s', st' := r.value, r.value.streams[i];
            && st'.remaining == (if length.Some? then length else s.streams[i].remaining)
            && st'.queue == s.streams[i].queue && st'.accepted == s.streams[i].accepted
            && (exists block ::
                  && s'.wire == (if s.socketOpen then s.wire + [HeaderBlock(i, block)] else s.wire)
                  && DecodeBlock(cx, s.table, block, true) == (Some(SeenBlock(cx, s.table, headers)), s'.table))
            && (forall j :: 0 <= j < |s.streams| && j != i ==> s'.streams[j] == s.streams[j])
            && s'.conn == s.conn && |s'.streams| == |s.streams|
  {
    hide ValidCodec, EncodeBlock, DecodeBlock, SeenBlock;
    BlockRoundTrip(cx, s.table, headers);
    var block := EncodeBlock(cx, s.table, headers).0;
    var s' := Step(cx, s, WriteHeaders(i, length, headers)).value;
    assert s'.wire == if s.socketOpen then s.wire + [HeaderBlock(i, block)] else s.wire;
  }

  /** The first in the queue gets the free lock: a chunk is held until it is sent, END_STREAM is written at once. */
  lemma AcquireServesFirst(cx: Codec, s: Sender, i: nat)
    requires ValidCodec(cx) && s.table.Valid() && i < |s.streams|
    ensures var r, st := Step(cx, s, Acquire(i)), s.streams[i];
            && (r.Some? <==> st.pc == Idle && st.queue != [])
            && (r.Some? && st.queue[0] == End ==> Only(s, r.value, i, st.(queue := st.queue[1..]), [Data(i, [], true)]))
            && (r.Some? && st.queue[0] != End ==>
                  Only(s, r.value, i, st.(queue := st.queue[1..], pc := AtStream(st.queue[0].data)), []))
  {
    hide ValidCodec;
    assert s.wire + [] == s.wire;
  }

  // ---------- a whole body ----------

  /** The chunks that a run hands to stream i. */
  function Handed(actions: seq<Action>, i: nat): seq<bytes> {
    if actions == [] then []
    else
      var a := actions[|actions| - 1];
      Handed(actions[..|actions| - 1], i) + if a.Write? && a.i == i then [a.chunk] else []
  }

  function Joined(chunks: seq<bytes>): bytes {
    if chunks == [] then [] else Joined(chunks[..|chunks| - 1]) + chunks[|chunks| - 1]
  }

  ghost predicate DeclaresNothing(actions: seq<Action>, i: nat) {
    forall k :: 0 <= k < |actions| ==> !(actions[k].WriteHeaders? && actions[k].i == i && actions[k].length.Some?)
  }

  lemma OtherAction(cx: Codec, s: Sender, a: Action, i: nat)
    requires ValidCodec(cx) && s.table.Valid() && i < |s.streams| && Step(cx, s, a).Some?
    requires a.Write? ==> a.i != i
    requires DeclaresNothing([a], i)
    ensures var s' := Step(cx, s, a).value;
            && i < |s'.streams| && s'.streams[i].remaining == s.streams[i].remaining
            && s'.streams[i].accepted == s.streams[i].accepted
  {
    hide ValidCodec, EncodeBlock, TurnOf, AfterTurn, Adjusted;
    assert [a][0] == a;
  }

  /**
   * Whatever else happens meanwhile: the body written to a stream is accepted as a whole exactly if it does not go
   * beyond the length left.
   */
  lemma {:induction false} BodyIsAccepted(cx: Codec, s: Sender, actions: seq<Action>, i: nat)
    requires ValidCodec(cx) && s.table.Valid() && i < |s.streams| && Run(cx, s, actions).Some?
    requires DeclaresNothing(actions, i)
    ensures var s', body := Run(cx, s, actions).value, Joined(Handed(actions, i));
            i < |s'.streams| &&
            var st, st' := s.streams[i], s'.streams[i];
            && (st.remaining.None? ==> st'.remaining.None? && st'.accepted == st.accepted + body)
            && (st.remaining.Some? ==>
                  && st'.remaining == Some(st.remaining.value - |body|)
                  && |st'.accepted| <= |st.accepted| + |body|
                  && (0 <= st.remaining.value ==>
                        (st'.accepted == st.accepted + body <==> |body| <= st.remaining.value)))
    decreases |actions|
  {
    hide ValidCodec, Step;
    if actions != [] {
      var n := |actions| - 1;
      var a := actions[n];
      BodyIsAccepted(cx, s, actions[..n], i);
      var t := Run(cx, s, actions[..n]).value;
      assert DeclaresNothing([a], i);
      if a.Write? && a.i == i {
        var before := Handed(actions[..n], i);
        assert (before + [a.chunk])[..|before|] == before;
        if a.chunk == [] {
          EmptyChunk(cx, t, i);
        } else {
          WriteAccepts(cx, t, i, a.chunk);
          ConcatAssoc(s.streams[i].accepted, Joined(before), a.chunk);
        }
      } else {
        assert Handed(actions, i) == Handed(actions[..n], i);
        OtherAction(cx, t, a, i);
      }
    }
  }

  /** And its end is queued exactly if the body has that length; otherwise the stream is reset. */
  lemma BodyFinishes(cx: Codec, s: Sender, actions: seq<Action>, i: nat)
    requires ValidCodec(cx) && s.table.Valid() && i < |s.streams| && Run(cx, s, actions).Some?
    requires DeclaresNothing(actions, i) && s.streams[i].remaining.Some?
    ensures var s', length := Run(cx, s, actions).value, |Joined(Handed(actions, i))|;
            var r := Step(cx, s', Finish(i));
            && i < |s'.streams| && r.Some?
            && (r.value.streams[i].queue == s'.streams[i].queue + [End] <==> length == s.streams[i].remaining.value)
            && (r.value.wire == s'.wire + [Reset(i)] <==>
                  s'.socketOpen && length != s.streams[i].remaining.value)
  {
    hide ValidCodec, Step, Run, Handed, Joined;
    BodyIsAccepted(cx, s, actions, i);
    FinishAccepts(cx, Run(cx, s, actions).value, i);
    assert forall q: seq<Op> :: |q + [End]| == |q| + 1;
  }

  // ---------- one turn of the loop ----------

  /**
   * A writer that nobody interrupts sends the least of its chunk and the two windows in one DATA frame, takes it from
   * both windows, and keeps the lock for the rest.
   */
  lemma OneTurn(cx: Codec, s: Sender, i: nat)
    requires ValidCodec(cx) && s.table.Valid() && i < |s.streams| && s.streams[i].pc.AtStream? && s.socketOpen
    requires !s.conn.closed && s.conn.size > 0 && i !in s.conn.waiters
    requires var w := s.streams[i].window; !w.closed && w.size > 0 && i !in w.waiters
    requires s.streams[i].pc.chunk != []
    ensures var st := s.streams[i];
            var chunk := st.pc.chunk;
            var n := Least(|chunk|, st.window.size, s.conn.size);
            var st' := st.(window := st.window.(size := st.window.size - n),
                           pc := if n == |chunk| then Idle else AtStream(chunk[n..]));
            && n > 0
            && Run(cx, s, [TurnStream(i), TurnParent(i), Debit(i), Send(i), Flushed(i)]) ==
               Some(s.(conn := s.conn.(size := s.conn.size - n), streams := s.streams[i := st'],
                       wire := s.wire + [Data(i, chunk[..n], false)]))
  {
    hide ValidCodec, Step, Run;
    var st := s.streams[i];
    var chunk := st.pc.chunk;
    var want := if st.window.size < |chunk| then st.window.size else |chunk|;
    var n := if s.conn.size < want then s.conn.size else want;
    var s3 := Allotted(cx, s, i, want, n);
    var s4 := Written(cx, s3, i);
    UpdateTwice(s, i, s3.streams[i], s3.streams[i].(pc := if n == |chunk| then Idle else AtStream(chunk[n..])));
    LastStep(cx, s, [TurnStream(i), TurnParent(i), Debit(i)], Send(i), s3);
    LastStep(cx, s, [TurnStream(i), TurnParent(i), Debit(i)] + [Send(i)], Flushed(i), s4);
    assert [TurnStream(i), TurnParent(i), Debit(i)] + [Send(i)] + [Flushed(i)] ==
           [TurnStream(i), TurnParent(i), Debit(i), Send(i), Flushed(i)];
  }

  /** The first half of the turn: the grant is taken from both windows. */
  lemma Allotted(cx: Codec, s: Sender, i: nat, want: nat, n: nat) returns (s3: Sender)
    requires ValidCodec(cx) && s.table.Valid() && i < |s.streams| && s.streams[i].pc.AtStream?
    requires !s.conn.closed && s.conn.size > 0 && i !in s.conn.waiters
    requires var w := s.streams[i].window; !w.closed && w.size > 0 && i !in w.waiters
    requires var st := s.streams[i]; want == if st.window.size < |st.pc.chunk| then st.window.size else |st.pc.chunk|
    requires n == if s.conn.size < want then s.conn.size else want
    ensures s3.table.Valid() && Run(cx, s, [TurnStream(i), TurnParent(i), Debit(i)]) == Some(s3)
    ensures var st := s.streams[i];
            var taken := st.(window := st.window.(size := st.window.size - n), pc := Allowed(st.pc.chunk, n));
            s3 == With(s, i, taken).(conn := s.conn.(size := s.conn.size - n))
  {
    hide ValidCodec, Step;
    var st := s.streams[i];
    var chunk := st.pc.chunk;
    TurnStreamDone(cx, s, i);
    var s1 := Step(cx, s, TurnStream(i)).value;
    TurnParentDone(cx, s1, i);
    UpdateTwice(s, i, st.(pc := AtParent(chunk, want)), st.(pc := Granted(chunk, n)));
    var s2 := Step(cx, s1, TurnParent(i)).value;
    DebitDone(cx, s2, i);
    UpdateTwice(s, i, st.(pc := Granted(chunk, n)), s2.streams[i].(window :=
      st.window.(size := st.window.size - n), pc := Allowed(chunk, n)));
    s3 := Step(cx, s2, Debit(i)).value;
    LastStep(cx, s, [], TurnStream(i), s);
    LastStep(cx, s, [TurnStream(i)], TurnParent(i), s1);
    LastStep(cx, s, [TurnStream(i), TurnParent(i)], Debit(i), s2);
    assert [] + [TurnStream(i)] == [TurnStream(i)];
    assert [TurnStream(i)] + [TurnParent(i)] == [TurnStream(i), TurnParent(i)];
    assert [TurnStream(i), TurnParent(i)] + [Debit(i)] == [TurnStream(i), TurnParent(i), Debit(i)];
  }

  /** The second half: the frame is written, and the lock released if the chunk is empty. */
  lemma Written(cx: Codec, s: Sender, i: nat) returns (s4: Sender)
    requires ValidCodec(cx) && s.table.Valid() && i < |s.streams| && s.streams[i].pc.Allowed? && s.socketOpen
    requires s.streams[i].pc.grant <= |s.streams[i].pc.chunk|
    ensures s4.table.Valid() && Step(cx, s, Send(i)) == Some(s4)
    ensures var st := s.streams[i];
            var chunk, n := st.pc.chunk, st.pc.grant;
            var pc := if n == |chunk| then Idle else AtStream(chunk[n..]);
            Step(cx, s4, Flushed(i)) ==
            Some(With(s, i, st.(pc := pc)).(wire := s.wire + [Data(i, chunk[..n], false)]))
  {
    hide ValidCodec, Step;
    var st := s.streams[i];
    var chunk, n := st.pc.chunk, st.pc.grant;
    SendDone(cx, s, i);
    s4 := Step(cx, s, Send(i)).value;
    FlushedDone(cx, s4, i);
    UpdateTwice(s, i, s4.streams[i], st.(pc := if n == |chunk| then Idle else AtStream(chunk[n..])));
  }

  ghost function With(s: Sender, i: nat, st: OutStream): Sender
    requires i < |s.streams|
  {
    s.(streams := s.streams[i := st])
  }

  lemma UpdateTwice(s: Sender, i: nat, a: OutStream, b: OutStream)
    requires i < |s.streams|
    ensures s.streams[i := a][i := b] == s.streams[i := b]
  {
  }

  lemma TurnStreamDone(cx: Codec, s: Sender, i: nat)
    requires ValidCodec(cx) && s.table.Valid() && i < |s.streams| && s.streams[i].pc.AtStream?
    requires var w := s.streams[i].window; !w.closed && w.size > 0 && i !in w.waiters
    ensures var st := s.streams[i];
            var want := if st.window.size < |st.pc.chunk| then st.window.size else |st.pc.chunk|;
            Step(cx, s, TurnStream(i)) == Some(With(s, i, st.(pc := AtParent(st.pc.chunk, want))))
  {
    hide ValidCodec;
  }

  lemma TurnParentDone(cx: Codec, s: Sender, i: nat)
    requires ValidCodec(cx) && s.table.Valid() && i < |s.streams| && s.streams[i].pc.AtParent?
    requires !s.conn.closed && s.conn.size > 0 && i !in s.conn.waiters
    ensures var st := s.streams[i];
            var n := if s.conn.size < st.pc.want then s.conn.size else st.pc.want;
            Step(cx, s, TurnParent(i)) ==
            Some(With(s, i, st.(pc := Granted(st.pc.chunk, n))).(conn := s.conn.(size := s.conn.size - n)))
  {
    hide ValidCodec;
  }

  lemma DebitDone(cx: Codec, s: Sender, i: nat)
    requires ValidCodec(cx) && s.table.Valid() && i < |s.streams| && s.streams[i].pc.Granted?
    ensures var st := s.streams[i];
            var w := st.window.(size := st.window.size - st.pc.grant);
            Step(cx, s, Debit(i)) == Some(With(s, i, st.(window := w, pc := Allowed(st.pc.chunk, st.pc.grant))))
  {
    hide ValidCodec;
  }

  lemma SendDone(cx: Codec, s: Sender, i: nat)
    requires ValidCodec(cx) && s.table.Valid() && i < |s.streams| && s.streams[i].pc.Allowed? && s.socketOpen
    requires s.streams[i].pc.grant <= |s.streams[i].pc.chunk|
    ensures var st := s.streams[i];
            var data := Data(i, st.pc.chunk[..st.pc.grant], false);
            Step(cx, s, Send(i)) ==
            Some(With(s, i, st.(pc := Flushing(st.pc.chunk, st.pc.grant))).(wire := s.wire + [data]))
  {
    hide ValidCodec;
  }

  lemma FlushedDone(cx: Codec, s: Sender, i: nat)
    requires ValidCodec(cx) && s.table.Valid() && i < |s.streams| && s.streams[i].pc.Flushing?
    requires s.streams[i].pc.grant <= |s.streams[i].pc.chunk|
    ensures var st := s.streams[i];
            var pc := if st.pc.grant == |st.pc.chunk| then Idle else AtStream(st.pc.chunk[st.pc.grant..]);
            Step(cx, s, Flushed(i)) == Some(With(s, i, st.(pc := pc)))
  {
    hide ValidCodec;
  }

  lemma LastStep(cx: Codec, s: Sender, actions: seq<Action>, a: Action, s': Sender)
    requires ValidCodec(cx) && s.table.Valid() && Run(cx, s, actions) == Some(s')
    ensures Run(cx, s, actions + [a]) == Step(cx, s', a)
  {
    hide ValidCodec, Step;
    assert (actions + [a])[..|actions|] == actions;
  }

  // ---------- windows ----------

  /** A writer that finds an empty window waits there; nothing else changes. */
  lemma EmptyWindowWaits(cx: Codec, s: Sender, i: nat)
    requires ValidCodec(cx) && s.table.Valid() && i < |s.streams|
    ensures var st := s.streams[i];
            st.pc.AtStream? && i !in st.window.waiters && !st.window.closed && st.window.size <= 0 ==>
              Step(cx, s, TurnStream(i)) ==
              Some(With(s, i, st.(window := st.window.(waiters := st.window.waiters + {i}))))
    ensures s.streams[i].pc.AtParent? && i !in s.conn.waiters && !s.conn.closed && s.conn.size <= 0 ==>
              Step(cx, s, TurnParent(i)) == Some(s.(conn := s.conn.(waiters := s.conn.waiters + {i})))
  {
    hide ValidCodec;
  }

  /** A waiter cannot go on before it is woken, which an update of its window within the bound does. */
  lemma UpdateWakes(cx: Codec, s: Sender, i: nat, increment: nat)
    requires ValidCodec(cx) && s.table.Valid() && i < |s.streams| && 1 <= increment <= 0x7fff_ffff
    ensures i in s.streams[i].window.waiters ==> Step(cx, s, TurnStream(i)) == None
    ensures i in s.conn.waiters ==> Step(cx, s, TurnParent(i)) == None
    ensures var st, size := s.streams[i], s.streams[i].window.size + increment;
            var waiters := if size <= 0x7fff_ffff then {} else st.window.waiters;
            Step(cx, s, UpdateStream(i, increment)) ==
            Some(With(s, i, st.(window := st.window.(size := size, waiters := waiters),
                                credited := st.credited + increment)))
    ensures var size := s.conn.size + increment;
            var waiters := if size <= 0x7fff_ffff then {} else s.conn.waiters;
            Step(cx, s, UpdateConn(increment)) ==
            Some(s.(conn := s.conn.(size := size, waiters := waiters), credited := s.credited + increment))
  {
    hide ValidCodec;
  }

  // ---------- what goes wrong ----------

  /** A writer that finds a window closed raises: the stream is reset, and the lock stays taken. */
  lemma ClosedWindowRaises(cx: Codec, s: Sender, i: nat)
    requires ValidCodec(cx) && s.table.Valid() && i < |s.streams|
    ensures var st := s.streams[i];
            st.pc.AtStream? && i !in st.window.waiters && st.window.closed ==>
              var r := Step(cx, s, TurnStream(i));
              r.Some? && Only(s, r.value, i, st.(pc := Stuck(st.pc.chunk, 0)), [Reset(i)])
    ensures var st := s.streams[i];
            st.pc.AtParent? && i !in s.conn.waiters && s.conn.closed ==>
              var r := Step(cx, s, TurnParent(i));
              r.Some? && Only(s, r.value, i, st.(pc := Stuck(st.pc.chunk, 0)), [Reset(i)])
  {
    hide ValidCodec;
  }

  /** So does one whose frame the closed socket does not take, before or after it has been written. */
  lemma ClosedSocketRaises(cx: Codec, s: Sender, i: nat)
    requires ValidCodec(cx) && s.table.Valid() && i < |s.streams| && !s.socketOpen
    requires var pc := s.streams[i].pc; (pc.Allowed? || pc.Flushing?) && pc.grant <= |pc.chunk|
    ensures var st := s.streams[i];
            && (st.pc.Allowed? ==>
                  Step(cx, s, Send(i)) == Some(With(s, i, st.(pc := Stuck(st.pc.chunk, st.pc.grant)))))
            && (st.pc.Flushing? ==>
                  Step(cx, s, FlushFails(i)) == Some(With(s, i, st.(pc := Stuck(st.pc.chunk[st.pc.grant..], 0)))))
  {
    hide ValidCodec;
  }

  /** Closing a window wakes everybody that waits for it. */
  lemma ClosingWakes(cx: Codec, s: Sender, i: nat)
    requires ValidCodec(cx) && s.table.Valid() && i < |s.streams|
    ensures var st := s.streams[i];
            Step(cx, s, CloseStream(i)) == Some(With(s, i, st.(window := Win(st.window.size, true, {}))))
    ensures Step(cx, s, CloseConn) == Some(s.(conn := Win(s.conn.size, true, {})))
    ensures Step(cx, s, CloseSocket) == Some(s.(socketOpen := false))
  {
    hide ValidCodec;
  }
}
