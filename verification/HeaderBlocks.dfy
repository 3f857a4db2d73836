/**
 * Header blocks cut into fragments, and the decoder's table over a whole connection (sections 4.3 and
 * 6.10 of RFC 7540).
 */
module HeaderBlocks {
  import opened Bits
  import opened Protocol
  import opened Frames
  import opened DynamicTable
  import opened Hpack
  import opened Receiving
  import opened Dispatch
  import opened DispatchRuns

  // ---------- fragments ----------

  /** The frames read among these events. */
  function Fragments(events: seq<Event>): seq<Frame> {
    if events == [] then []
    else (if events[0].Read? then [events[0].f] else []) + Fragments(events[1..])
  }

  /** The events that are not frames: the loop waits for the next frame while the application goes on. */
  function Locals(events: seq<Event>): seq<Event> {
    if events == [] then []
    else (if events[0].Read? then [] else [events[0]]) + Locals(events[1..])
  }

  /** All the continuations of a block, the last of which ends it, with any local events between them. */
  predicate Continuations(id: nat, events: seq<Event>) {
    && (events != [] ==> events[|events| - 1].Read?)
    && forall k :: 0 <= k < |events| && events[k].Read? ==>
         && events[k].f.typ == CONTINUATION && events[k].f.id == id
         && (Has(events[k].f.flags, FLAG_END_HEADERS) <==> k == |events| - 1)
  }

  /** `h` and the fragments after it carry what the single unpadded frame `whole` does. `h` may be padded. */
  predicate Splits(whole: Frame, h: Frame, after: seq<Event>) {
    && whole.typ == HEADERS && Has(whole.flags, FLAG_END_HEADERS) && !Has(whole.flags, FLAG_PADDED)
    && h.typ == HEADERS && h.id == whole.id
    && (Has(h.flags, FLAG_END_STREAM) <==> Has(whole.flags, FLAG_END_STREAM))
    && (Has(h.flags, FLAG_PRIORITY) <==> Has(whole.flags, FLAG_PRIORITY))
    && (Has(h.flags, FLAG_END_HEADERS) <==> after == [])
    && Continuations(whole.id, after)
    && WithoutPadding(h).Unpadded? && whole.data == WithoutPadding(h).frame.data + Joined(Fragments(after))
  }

  lemma {:induction false} JoinedConcat(a: seq<Frame>, b: seq<Frame>)
    ensures Joined(a + b) == Joined(a) + Joined(b)
    decreases |b|
  {
    if b == [] {
      assert a + b == a;
    } else {
      var n := |b| - 1;
      JoinedConcat(a, b[..n]);
      assert (a + b)[..|a| + n] == a + b[..n];
    }
  }

  lemma JoinedSingle(f: Frame)
    ensures Joined([f]) == f.data
  {
    assert [f][..0] == [];
  }

  /** Only the joined data and what the first frame says of the block matter. */
  lemma ParseJoined(env: Env, a: StreamState, b: StreamState, t: Table)
    requires t.Valid() && a.headerFrames != [] && b == a.(headerFrames := b.headerFrames) && b.headerFrames != []
    requires Joined(a.headerFrames) == Joined(b.headerFrames)
    requires var f, g := a.headerFrames[0], b.headerFrames[0];
             && f.id == g.id
             && (Has(f.flags, FLAG_END_STREAM) <==> Has(g.flags, FLAG_END_STREAM))
             && (Has(f.flags, FLAG_PRIORITY) <==> Has(g.flags, FLAG_PRIORITY))
    ensures ParseHeaders(env, a, t) == ParseHeaders(env, b, t)
  {
    hide DecodeBlock, StartRequest, Joined, Has;
  }

  lemma JoinedPrefix(a: seq<Frame>, b: seq<Frame>)
    ensures |Joined(a)| <= |Joined(a + b)|
  {
    JoinedConcat(a, b);
  }

  // ---------- fragmentation does not matter ----------

  /** The stream may be sent a header block: it is there and not finished, or a server can create it. */
  predicate Acceptable(env: Env, c: Conn, id: nat) {
    if id in c.streams then !c.streams[id].finished else !env.isClient
  }

  predicate NonePending(c: Conn) {
    forall id :: id in c.streams ==> !NeedsContinuation(c.streams[id])
  }

  /** On every run, between two header blocks. */
  lemma NonePendingWhenIdle(env: Env, headerTableSize: nat, events: seq<Event>)
    requires var c := After(env, headerTableSize, events); c.last.Some? ==> !Pending(c, c.last.value)
    ensures NonePending(After(env, headerTableSize, events))
  {
    hide Run, StreamInv;
    OpenedInv(env.isClient, headerTableSize);
    RunKeeps(env, Opened(env.isClient, headerTableSize), events);
  }

  /** The connection as the stream's handler finds it, with the stream created if it may be. */
  function Ready(c: Conn, id: nat): Conn {
    if id in c.streams || id == 0 || IsLocal(c, id) then c else CreateRemote(c, id)
  }

  function WithFragments(s: StreamState, frames: seq<Frame>): StreamState {
    s.(phase := if s.phase == BodyPhase then TrailersPhase else s.phase, headerFrames := frames)
  }

  /** HEADERS for the connection itself, or for a local stream that is not there, end the connection. */
  predicate Refused(c: Conn, id: nat) {
    id == 0 || (id !in c.streams && IsLocal(c, id))
  }

  /** A header frame is refused by the connection, or its fragment is kept, or parsed if it is the whole block. */
  lemma FirstFragment(env: Env, c: Conn, h: Frame)
    requires c.table.Valid() && c.alive && NonePending(c) && Acceptable(env, c, h.id)
    requires h.typ == HEADERS && WithoutPadding(h).Unpadded? && |WithoutPadding(h).frame.data| <= env.maxHeaderSize
    ensures if Refused(c, h.id) then
              Receive(env, c, h) == c.(alive := false, replies := c.replies + [GoAway(PROTOCOL_ERROR)])
            else
              var c', f := Ready(c, h.id), WithoutPadding(h).frame;
              var s := WithFragments(c'.streams[h.id], [f]);
              Receive(env, c, h) == Conclude(Settle(c', h.id,
                if Has(h.flags, FLAG_END_HEADERS) then ParseHeaders(env, s, c.table) else Handled(s, c.table, Ok)))
  {
    hide ParseHeaders, Joined;
    var c', f := Ready(c, h.id), WithoutPadding(h).frame;
    JoinedSingle(f);
    if h.id in c'.streams {
      assert c'.streams[h.id].headerFrames + [f] == [f];
    }
  }

  lemma KeptByPadding(f: Frame)
    ensures var r := WithoutPadding(f);
            if !Has(f.flags, FLAG_PADDED) then r == Unpadded(f) else r.Unpadded? ==> r.frame == f.(data := r.frame.data)
  {
  }

  // ---------- a header block under way ----------

  /** The connection `c` with these fragments of a header block for stream `id`, and otherwise untouched. */
  function Holding(c: Conn, id: nat, frames: seq<Frame>): (r: Conn)
    requires id in c.streams
    ensures r.table == c.table
  {
    c.(streams := c.streams[id := WithFragments(c.streams[id], frames)], last := Some(id))
  }

  /** A stream that may be given the rest of a header block. */
  ghost predicate Receptive(isClient: bool, c: Conn, id: nat) {
    ConnInv(isClient, c) && c.table.Valid() && c.alive && NonePending(c) && id != 0 && id in c.streams
        && !c.streams[id].finished
  }

  /** What the application does meanwhile is the same whether the fragments are there or not. */
  lemma LocalEvent(env: Env, c: Conn, id: nat, frames: seq<Frame>, e: Event)
    requires Receptive(env.isClient, c, id) && !e.Read?
    ensures Receptive(env.isClient, Step(env, c, e), id) && Step(env, c, e).table == c.table
    ensures Step(env, Holding(c, id, frames), e) == Holding(Step(env, c, e), id, frames)
  {
    hide ConnInv, NonePending, Holding, Step;
    StepKeeps(env, c, e);
    NotNext(env.isClient, c, id);
    LocalIsQuiet(env, c, id, e);
    LocalCommutes(env, c, id, frames, e);
  }

  lemma NotNext(isClient: bool, c: Conn, id: nat)
    requires ConnInv(isClient, c) && id in c.streams
    ensures id != c.nextId
  {
    hide StreamInv, LegalSettings, OnlyLastPending;
    assert HasStreamInv(isClient, c, id);
  }

  lemma LocalIsQuiet(env: Env, c: Conn, id: nat, e: Event)
    requires c.table.Valid() && NonePending(c) && id in c.streams && id != c.nextId && !e.Read?
    ensures var d := Step(env, c, e);
            && NonePending(d) && d.alive == c.alive && d.table == c.table
            && id in d.streams && d.streams[id].finished == c.streams[id].finished
  {
  }

  lemma LocalCommutes(env: Env, c: Conn, id: nat, frames: seq<Frame>, e: Event)
    requires c.table.Valid() && id in c.streams && id != c.nextId && !e.Read?
    ensures id in Step(env, c, e).streams
            && Step(env, Holding(c, id, frames), e) == Holding(Step(env, c, e), id, frames)
  {
    var d, d' := Step(env, c, e), Step(env, Holding(c, id, frames), e);
    assert d'.streams == Holding(d, id, frames).streams;
  }

  lemma OneFragment(env: Env, c: Conn, id: nat, frames: seq<Frame>, f: Frame)
    requires Receptive(env.isClient, c, id) && frames != []
    requires f.typ == CONTINUATION && f.id == id && |Joined(frames + [f])| <= env.maxHeaderSize
    ensures Receive(env, Holding(c, id, frames), f) ==
            if Has(f.flags, FLAG_END_HEADERS) then
              Conclude(Settle(c, id, ParseHeaders(env, WithFragments(c.streams[id], frames + [f]), c.table)))
            else Holding(c, id, frames + [f])
  {
    hide ParseHeaders, Joined, ConnInv, NonePending;
    var d, s := Holding(c, id, frames), WithFragments(c.streams[id], frames + [f]);
    assert d.streams[id].(headerFrames := frames + [f]) == s;
    var h := if Has(f.flags, FLAG_END_HEADERS) then ParseHeaders(env, s, c.table) else Handled(s, c.table, Ok);
    assert AddFragment(env, d.streams[id], c.table, f) == h;
    assert Receive(env, d, f) == Conclude(Settle(d, id, h));
    assert d.streams[id := h.s] == c.streams[id := h.s];
  }

  lemma FirstEvent(events: seq<Event>, id: nat)
    requires events != [] && Continuations(id, events)
    ensures |events| > 1 ==> Continuations(id, events[1..])
    ensures var e := events[0];
            if e.Read? then e.f.typ == CONTINUATION && e.f.id == id
                && (Has(e.f.flags, FLAG_END_HEADERS) <==> |events| == 1)
            else |events| > 1
  {
    hide Has;
    var more := events[1..];
    forall k | 0 <= k < |more| && more[k].Read?
      ensures more[k].f.typ == CONTINUATION && more[k].f.id == id
      ensures Has(more[k].f.flags, FLAG_END_HEADERS) <==> k == |more| - 1
    {
      assert more[k] == events[k + 1];
    }
  }

  lemma FirstOf(events: seq<Event>)
    requires events != []
    ensures var e, more := events[0], events[1..];
            if e.Read? then Fragments(events) == [e.f] + Fragments(more) && Locals(events) == Locals(more)
            else Fragments(events) == Fragments(more) && Locals(events) == [e] + Locals(more)
  {
    assert [] + Fragments(events[1..]) == Fragments(events[1..]) && [] + Locals(events[1..]) == Locals(events[1..]);
  }

  /** With the last fragment they are all parsed together, on the connection as the local events have made it. */
  lemma {:induction false} RestOfBlock(env: Env, c: Conn, id: nat, frames: seq<Frame>, events: seq<Event>)
    requires Receptive(env.isClient, c, id) && frames != [] && events != [] && Continuations(id, events)
    requires |Joined(frames + Fragments(events))| <= env.maxHeaderSize
    ensures var d := Run(env, c, Locals(events));
            && Receptive(env.isClient, d, id) && d.table == c.table
            && Run(env, Holding(c, id, frames), events) ==
               Conclude(Settle(d, id, ParseHeaders(env, WithFragments(d.streams[id], frames + Fragments(events)),
                   d.table)))
    decreases |events|
  {
    hide ConnInv, NonePending, ParseHeaders, Receive, Joined, Continuations, Fragments, Locals, Conclude, Settle,
      WithFragments, Holding;
    var e, more := events[0], events[1..];
    FirstEvent(events, id);
    FirstOf(events);
    RunStep(env, Holding(c, id, frames), events);
    if e.Read? {
      ConcatAssoc(frames, [e.f], Fragments(more));
      JoinedPrefix(frames + [e.f], Fragments(more));
      OneFragment(env, c, id, frames, e.f);
      if more == [] {
        NoEvents(env, Step(env, Holding(c, id, frames), e));
        NoEvents(env, c);
        assert frames + Fragments(events) == frames + [e.f];
      } else {
        RestOfBlock(env, c, id, frames + [e.f], more);
      }
    } else {
      LocalEvent(env, c, id, frames, e);
      RunStep(env, c, [e] + Locals(more));
      assert ([e] + Locals(more))[1..] == Locals(more);
      RestOfBlock(env, Step(env, c, e), id, frames, more);
    }
  }

  lemma RunStep(env: Env, c: Conn, events: seq<Event>)
    requires c.table.Valid() && events != []
    ensures Run(env, c, events) == Run(env, Step(env, c, events[0]), events[1..])
  {
  }

  lemma NoEvents(env: Env, c: Conn)
    requires c.table.Valid()
    ensures Run(env, c, []) == c && Fragments([]) == [] && Locals([]) == []
  {
  }

  // ---------- fragmentation does not matter ----------

  lemma {:induction false} DeadStaysDead(env: Env, c: Conn, events: seq<Event>)
    requires c.table.Valid() && !c.alive
    ensures Run(env, c, events) == Run(env, c, Locals(events)) && !Run(env, c, events).alive
    decreases |events|
  {
    if events != [] {
      DeadStaysDead(env, Step(env, c, events[0]), events[1..]);
      assert ([events[0]] + Locals(events[1..]))[1..] == Locals(events[1..]);
      assert [] + Locals(events[1..]) == Locals(events[1..]);
    }
  }

  /**
   * A header block is handled as if it came in one frame, whatever its split, whatever happens between
   * its fragments and whatever its outcome: the decoder is given the joined block once, and streams,
   * table, windows and replies are as if the stream had been created first, the local events had come
   * next, and then the whole block. A block that is refused ends the connection at its first frame.
   */
  lemma FragmentationDoesNotMatter(env: Env, c: Conn, whole: Frame, h: Frame, after: seq<Event>)
    requires ConnInv(env.isClient, c) && c.alive && NonePending(c) && Acceptable(env, c, whole.id)
    requires Splits(whole, h, after) && |whole.data| <= env.maxHeaderSize
    ensures if Refused(c, whole.id) then
              Run(env, c, [Read(h)] + after) == Run(env, Receive(env, c, whole), Locals(after))
            else
              && Ready(c, whole.id).table.Valid()
              && Run(env, c, [Read(h)] + after) == Receive(env, Run(env, Ready(c, whole.id), Locals(after)), whole)
  {
    hide HasStreamInv, LegalSettings, OnlyLastPending, ParseHeaders, Receive, Joined, Conclude, IsLocal, Has,
      NonePending, Settle;
    RunStep(env, c, [Read(h)] + after);
    assert ([Read(h)] + after)[1..] == after;
    if Refused(c, whole.id) {
      KeptByPadding(whole);
      FirstFragment(env, c, whole);
      FirstFragment(env, c, h);
      DeadStaysDead(env, Receive(env, c, h), after);
    } else {
      AcceptedBlock(env, c, whole, h, after);
    }
  }

  lemma AcceptedBlock(env: Env, c: Conn, whole: Frame, h: Frame, after: seq<Event>)
    requires ConnInv(env.isClient, c) && c.alive && NonePending(c) && Acceptable(env, c, whole.id)
             && !Refused(c, whole.id)
    requires Splits(whole, h, after) && |whole.data| <= env.maxHeaderSize
    ensures Receptive(env.isClient, Ready(c, whole.id), whole.id)
    ensures var d := Run(env, Ready(c, whole.id), Locals(after));
            && Receptive(env.isClient, d, whole.id) && d.table == c.table
            && Run(env, Receive(env, c, h), after) == Receive(env, d, whole)
  {
    hide HasStreamInv, LegalSettings, OnlyLastPending, ParseHeaders, Receive, Joined, Conclude, Continuations,
      IsLocal, WithoutPadding, Has, NonePending, Settle, Holding, Ready;
    var id, f := h.id, WithoutPadding(h).frame;
    var c' := Ready(c, id);
    ReadyIsReceptive(env, c, id);
    KeptByPadding(whole);
    KeptByPadding(h);
    FirstFragment(env, c, h);
    JoinedConcat([f], Fragments(after));
    JoinedSingle(f);
    JoinedSingle(whole);
    if after == [] {
      NoEvents(env, Receive(env, c, h));
      NoEvents(env, c');
      assert [f] + [] == [f];
    } else {
      HoldsFirst(c', id, f);
      RestOfBlock(env, c', id, [f], after);
    }
    var d := Run(env, c', Locals(after));
    ReceptiveIsReady(env, d, whole);
    FirstFragment(env, d, whole);
    ParseJoined(env, WithFragments(d.streams[id], [whole]), WithFragments(d.streams[id], [f] + Fragments(after)),
        d.table);
  }

  lemma ReadyIsReceptive(env: Env, c: Conn, id: nat)
    requires ConnInv(env.isClient, c) && c.alive && NonePending(c) && Acceptable(env, c, id) && !Refused(c, id)
    ensures Receptive(env.isClient, Ready(c, id), id) && Ready(c, id).table == c.table
  {
    hide HasStreamInv, LegalSettings, OnlyLastPending;
    if id !in c.streams {
      CreateRemoteKeeps(env, c, id);
    }
  }

  lemma ReceptiveIsReady(env: Env, c: Conn, f: Frame)
    requires Receptive(env.isClient, c, f.id)
    ensures c.table.Valid() && Acceptable(env, c, f.id) && !Refused(c, f.id) && Ready(c, f.id) == c
  {
    hide StreamInv, LegalSettings;
  }

  lemma HoldsFirst(c: Conn, id: nat, f: Frame)
    requires id in c.streams
    ensures Conclude(Settle(c, id, Handled(WithFragments(c.streams[id], [f]), c.table, Ok))) == Holding(c, id, [f])
  {
  }
}
