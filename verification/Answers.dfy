/**
 * How a connection answers every kind of frame between two header blocks, as its peer sees it (sections 5.1, 5.4 and 6
 * of RFC 7540).
 */
module Answers {
  import opened Bits
  import opened Protocol
  import opened FlowControl
  import opened Frames
  import opened Receiving
  import opened Dispatch
  import opened SettingsEffect

  // ---------- the forms of an answer ----------

  function Answer(c: Conn, r: Reply): Conn {
    c.(replies := c.replies + [r])
  }

  /** GOAWAY is written and the socket closed. */
  function GoesAway(c: Conn, code: ErrorCode): Conn {
    c.(replies := c.replies + [GoAway(code)], alive := false)
  }

  ghost predicate Ready(c: Conn) {
    c.table.Valid() && c.alive && BetweenBlocks(c)
  }

  // ---------- stream 0 ----------

  lemma PingIsEchoed(env: Env, c: Conn, f: Frame)
    requires Ready(c) && f.id == 0 && f.typ == PING
    ensures Receive(env, c, f) ==
            if f.flags % 2 == 1 then c
            else if |f.data| == 8 then Answer(c, PingAck(f.data))
            else GoesAway(c, FRAME_SIZE_ERROR)
  {
  }

  lemma SettingsAckMustBeEmpty(env: Env, c: Conn, f: Frame)
    requires Ready(c) && f.id == 0 && f.typ == SETTINGS && f.flags % 2 == 1
    ensures Receive(env, c, f) == if f.data == [] then c else GoesAway(c, FRAME_SIZE_ERROR)
  {
  }

  /**
   * GOAWAY ends the connection without an answer, an unknown type is ignored, and types meant for
   * streams are refused.
   */
  lemma OtherControl(env: Env, c: Conn, f: Frame)
    requires Ready(c) && f.id == 0
    ensures f.typ == GOAWAY ==> Receive(env, c, f) == c.(alive := false)
    ensures f.typ.UNKNOWN? ==> Receive(env, c, f) == c
    ensures f.typ in [DATA, HEADERS, PRIORITY, RST_STREAM, PUSH_PROMISE, CONTINUATION] ==>
              Receive(env, c, f) == GoesAway(c, PROTOCOL_ERROR)
  {
  }

  /** The connection's window: too large an update, or one by zero, ends the connection. */
  lemma ConnectionUpdate(env: Env, c: Conn, f: Frame)
    requires Ready(c) && f.id == 0 && f.typ == WINDOW_UPDATE
    ensures var c', n := Receive(env, c, f), if |f.data| == 4 then BigEndian(f.data) % 0x8000_0000 else 0;
            && (|f.data| != 4 ==> c' == GoesAway(c, FRAME_SIZE_ERROR))
            && (|f.data| == 4 && n == 0 ==> c' == GoesAway(c, PROTOCOL_ERROR))
            && (n > 0 && c.window.size + n > 0x7fff_ffff ==>
                  c' == GoesAway(c.(window := c.window.(size := c.window.size + n)), FLOW_CONTROL_ERROR))
            && (n > 0 && c.window.size + n <= 0x7fff_ffff ==>
                  c' == c.(window := c.window.(size := c.window.size + n, waiters := {})))
  {
    hide Updated, UpdateOutcome, Has;
    UpdateBytes(c.window, code => ConnectionError(code), f.data);
  }

  lemma UpdateBytes(w: Win, raising: ErrorCode -> Outcome, data: bytes)
    ensures var n := if |data| == 4 then BigEndian(data) % 0x8000_0000 else 0;
            && (|data| != 4 ==> UpdateOutcome(w, raising, data) == ConnectionError(FRAME_SIZE_ERROR))
            && (|data| == 4 && n == 0 ==> UpdateOutcome(w, raising, data) == raising(PROTOCOL_ERROR))
            && (n == 0 ==> Updated(w, data) == w)
            && (n > 0 && w.size + n > 0x7fff_ffff ==>
                  && UpdateOutcome(w, raising, data) == raising(FLOW_CONTROL_ERROR)
                  && Updated(w, data) == w.(size := w.size + n))
            && (n > 0 && w.size + n <= 0x7fff_ffff ==>
                  && UpdateOutcome(w, raising, data) == Ok
                  && Updated(w, data) == w.(size := w.size + n, waiters := {}))
  {
    hide Updated, UpdateOutcome;
    UpdateExactly(w, raising, data);
  }

  // ---------- a stream that is there ----------

  /** The connection once stream `id` has become `s` by a frame. */
  function Becomes(c: Conn, id: nat, s: StreamState): Conn {
    c.(streams := c.streams[id := s], last := Some(id))
  }

  ghost predicate Hosts(c: Conn, id: nat) {
    Ready(c) && id != 0 && id in c.streams && c.streams[id].id == id
  }

  /** A stream that is finished answers anything but PRIORITY, RST_STREAM and WINDOW_UPDATE with STREAM_CLOSED. */
  lemma FinishedIsClosed(env: Env, c: Conn, f: Frame)
    requires Hosts(c, f.id) && c.streams[f.id].finished
    requires f.typ in [HEADERS, CONTINUATION, DATA] || f.typ.UNKNOWN?
    ensures Receive(env, c, f) == Answer(Becomes(c, f.id, c.streams[f.id]), ResetStream(f.id, STREAM_CLOSED))
  {
    hide HandleHeaders, HandleData, AddFragment;
  }

  lemma StreamControl(env: Env, c: Conn, f: Frame)
    requires Hosts(c, f.id)
    ensures var c', s, same := Receive(env, c, f), c.streams[f.id], Becomes(c, f.id, c.streams[f.id]);
            && (f.typ == PRIORITY ==>
                  c' == if |f.data| == 5 then same else Answer(same, ResetStream(f.id, FRAME_SIZE_ERROR)))
            && (f.typ == RST_STREAM && |f.data| != 4 ==> c' == GoesAway(same, FRAME_SIZE_ERROR))
            && (f.typ == RST_STREAM && |f.data| == 4 ==>
                  c' == Becomes(c, f.id, if s.started then s.(calls := s.calls + [ConnectionClose]) else s))
            && (f.typ in [SETTINGS, GOAWAY, PUSH_PROMISE] ==> c' == same.(alive := false))
            && (f.typ.UNKNOWN? && !s.finished ==> c' == same)
  {
    hide HandleHeaders, HandleData, AddFragment, Updated, UpdateOutcome;
  }

  /** A stream's window: too large an update, or one by zero, resets the stream. */
  lemma StreamUpdate(env: Env, c: Conn, f: Frame)
    requires Hosts(c, f.id) && f.typ == WINDOW_UPDATE
    ensures var c', s, w := Receive(env, c, f), c.streams[f.id], c.streams[f.id].window;
            var n := if |f.data| == 4 then BigEndian(f.data) % 0x8000_0000 else 0;
            && (|f.data| != 4 ==> c' == GoesAway(Becomes(c, f.id, s), FRAME_SIZE_ERROR))
            && (|f.data| == 4 && n == 0 ==> c' == Answer(Becomes(c, f.id, s), ResetStream(f.id, PROTOCOL_ERROR)))
            && (n > 0 && w.size + n > 0x7fff_ffff ==>
                  c' == Answer(Becomes(c, f.id, s.(window := w.(size := w.size + n))),
                               ResetStream(f.id, FLOW_CONTROL_ERROR)))
            && (n > 0 && w.size + n <= 0x7fff_ffff ==>
                  c' == Becomes(c, f.id, s.(window := w.(size := w.size + n, waiters := {}))))
  {
    hide HandleHeaders, HandleData, AddFragment, Updated, UpdateOutcome, BigEndian;
    var s := c.streams[f.id];
    UpdateBytes(s.window, code => StreamError(s.id, code), f.data);
    assert s.(window := s.window) == s;
  }

  /** DATA out of place ends the connection; so does a CONTINUATION that continues nothing. */
  lemma OutOfPlace(env: Env, c: Conn, f: Frame)
    requires Hosts(c, f.id) && !c.streams[f.id].finished
    requires var s := c.streams[f.id];
             if f.typ == CONTINUATION then s.headerFrames == []
             else f.typ == DATA && (s.phase == TrailersPhase || s.headerFrames != [])
    ensures Receive(env, c, f) == GoesAway(Becomes(c, f.id, c.streams[f.id]), PROTOCOL_ERROR)
  {
    hide HandleHeaders, AddFragment;
  }

  /** DATA without padding that goes beyond the length left, or ends short of it, resets the stream. */
  lemma WrongLength(env: Env, c: Conn, f: Frame)
    requires Hosts(c, f.id) && !c.streams[f.id].finished && f.typ == DATA && !Has(f.flags, FLAG_PADDED)
    requires var s := c.streams[f.id]; s.phase != TrailersPhase && s.headerFrames == [] && s.remaining.Some?
    ensures var c', left := Receive(env, c, f), c.streams[f.id].remaining.value - |f.data|;
            && c'.alive
            && c'.replies == (if left < 0 || (left > 0 && f.flags % 2 == 1) then
                                c.replies + [ResetStream(f.id, PROTOCOL_ERROR)]
                              else c.replies)
  {
    hide HandleHeaders, AddFragment;
  }

  // ---------- a stream that is not there ----------

  /** Local streams number up to the next one less two, those of the peer up to the largest seen. */
  predicate Past(c: Conn, id: nat) {
    if id % 2 == c.nextId % 2 then id + 2 <= c.nextId else id <= c.maxRemote
  }

  lemma NotThere(env: Env, c: Conn, f: Frame)
    requires Ready(c) && f.id != 0 && f.id !in c.streams
    requires env.isClient || f.typ != HEADERS
    ensures Receive(env, c, f) ==
            if !Past(c, f.id) then GoesAway(c, PROTOCOL_ERROR)
            else if f.typ == WINDOW_UPDATE || f.typ == RST_STREAM then c
            else Answer(c, ResetStream(f.id, STREAM_CLOSED))
  {
  }

  /** A client's HEADERS create the stream, unless the number is one of the server's own. */
  lemma HeadersCreate(env: Env, c: Conn, f: Frame)
    requires Ready(c) && f.id != 0 && f.id !in c.streams && !env.isClient && f.typ == HEADERS
    ensures var c' := Receive(env, c, f);
            if f.id % 2 == c.nextId % 2 then c' == GoesAway(c, PROTOCOL_ERROR)
            else
              && c'.streams.Keys == c.streams.Keys + {f.id} && c'.last == Some(f.id)
              && c'.maxRemote == (if f.id > c.maxRemote then f.id else c.maxRemote)
              && (forall id :: id in c.streams ==> c'.streams[id] == c.streams[id])
              && c'.nextId == c.nextId && c'.settings == c.settings && c'.window == c.window
  {
    hide HandleFrame, Conclude, Settle;
    if f.id % 2 != c.nextId % 2 {
      var c' := CreateRemote(c, f.id);
      SettledAlone(c', f.id, HandleFrame(env, c'.streams[f.id], c'.table, f));
    } else {
      Refused(c);
    }
  }

  lemma Refused(c: Conn)
    ensures Conclude(Acted(c, ConnectionError(PROTOCOL_ERROR))) == GoesAway(c, PROTOCOL_ERROR)
  {
  }

  lemma SettledAlone(c: Conn, id: nat, h: Handled)
    requires id in c.streams
    ensures var c' := Conclude(Settle(c, id, h));
            && c'.streams == c.streams[id := h.s] && c'.last == Some(id)
            && c' == c.(streams := c'.streams, last := c'.last, table := h.t, alive := c'.alive, replies := c'.replies)
  {
  }

  // ---------- streams of this endpoint ----------

  /** The request line and the windows are all that the application changes on a stream that is there. */
  lemma LocalEvents(env: Env, c: Conn, id: nat, head: bool, w: Win)
    requires c.table.Valid() && id in c.streams && id != 0
    ensures var s, c' := c.streams[id], Step(env, c, Request(id, head));
            c' == c.(streams := c.streams[id := s.(headRequest := Some(head))])
    ensures var s, c' := c.streams[id], Step(env, c, Write(id, w));
            c' == c.(streams := c.streams[id := s.(window := w)])
    ensures Step(env, c, Write(0, w)) == c.(window := w)
  {
  }

  function Opens(events: seq<Event>): nat {
    if events == [] then 0 else (if events[0].Open? then 1 else 0) + Opens(events[1..])
  }

  /** The streams with this endpoint's numbers are those below the next one. */
  ghost predicate LocalsExact(isClient: bool, c: Conn) {
    var first := if isClient then 1 else 2;
    && c.nextId >= first && c.nextId % 2 == first % 2
    && forall id: nat :: id % 2 == first % 2 ==> (id in c.streams <==> first <= id < c.nextId)
  }

  lemma ReceiveKeepsKeys(env: Env, c: Conn, f: Frame)
    requires c.table.Valid()
    ensures var c' := Receive(env, c, f);
            && c'.nextId == c.nextId
            && (c'.streams.Keys == c.streams.Keys
                || (!env.isClient && f.id % 2 != c.nextId % 2 && c'.streams.Keys == c.streams.Keys + {f.id}))
  {
    hide Act, Conclude;
    ActKeepsKeys(env, c, f);
    Concluded(Act(env, c, f));
  }

  lemma Concluded(a: Acted)
    ensures Conclude(a).streams == a.c.streams && Conclude(a).nextId == a.c.nextId
  {
  }

  lemma ActKeepsKeys(env: Env, c: Conn, f: Frame)
    requires c.table.Valid()
    ensures var c' := Act(env, c, f).c;
            && c'.nextId == c.nextId
            && (c'.streams.Keys == c.streams.Keys
                || (!env.isClient && f.id % 2 != c.nextId % 2 && c'.streams.Keys == c.streams.Keys + {f.id}))
  {
    hide HandleFrame, HandleControl, UnknownStream;
    ControlKeepsStreams(c, f);
  }

  lemma ControlKeepsStreams(c: Conn, f: Frame)
    ensures HandleControl(c, f).c.streams == c.streams && HandleControl(c, f).c.nextId == c.nextId
  {
    hide ApplySettings, Updated, UpdateOutcome, Has;
  }

  lemma StepKeepsLocals(env: Env, c: Conn, e: Event)
    requires c.table.Valid() && LocalsExact(env.isClient, c)
    ensures LocalsExact(env.isClient, Step(env, c, e))
    ensures Step(env, c, e).nextId == c.nextId + if e.Open? then 2 else 0
  {
    hide Receive;
    if e.Read? {
      ReceiveKeepsKeys(env, c, e.f);
      var c' := Receive(env, c, e.f);
      assert forall id: nat :: id in c'.streams <==> id in c'.streams.Keys;
      assert forall id: nat :: id in c.streams <==> id in c.streams.Keys;
    }
  }

  lemma {:induction false} RunKeepsLocals(env: Env, c: Conn, events: seq<Event>)
    requires c.table.Valid() && LocalsExact(env.isClient, c)
    ensures LocalsExact(env.isClient, Run(env, c, events))
    ensures Run(env, c, events).nextId == c.nextId + 2 * Opens(events)
    decreases |events|
  {
    hide Step, LocalsExact;
    if events != [] {
      StepKeepsLocals(env, c, events[0]);
      RunKeepsLocals(env, Step(env, c, events[0]), events[1..]);
    }
  }

  /**
   * Section 5.1.1 of RFC 7540: whatever happens, the streams that the application has opened are 1, 3, 5 and so on at a
   * client and 2, 4, 6 and so on at a server, without gaps, and a peer never creates a stream among them.
   */
  lemma LocalNumbers(env: Env, headerTableSize: nat, events: seq<Event>)
    ensures var c, first := Run(env, Opened(env.isClient, headerTableSize), events), if env.isClient then 1 else 2;
            forall id: nat :: id % 2 == first % 2 ==>
              (id in c.streams <==> first <= id < first + 2 * Opens(events))
  {
    hide Run;
    RunKeepsLocals(env, Opened(env.isClient, headerTableSize), events);
  }
}
