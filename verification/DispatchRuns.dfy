/** What holds after every run of the connection's loop. */
module DispatchRuns {
  import opened Bits
  import opened Protocol
  import opened FlowControl
  import opened Frames
  import opened Receiving
  import opened Dispatch

  // ---------- the invariant ----------

  /** Local streams are below the next local number, remote ones exist on a server only. */
  predicate Numbered(isClient: bool, c: Conn, id: nat) {
    && id >= 1
    && (if IsLocal(c, id) then id < c.nextId else !isClient && id <= c.maxRemote)
  }

  ghost predicate HasStreamInv(isClient: bool, c: Conn, id: nat)
    requires id in c.streams
  {
    && c.streams[id].id == id
    && StreamInv(isClient, c.streams[id])
    && Numbered(isClient, c, id)
  }

  ghost predicate OnlyLastPending(c: Conn) {
    forall id :: id in c.streams && NeedsContinuation(c.streams[id]) ==> c.last == Some(id)
  }

  ghost predicate ConnInv(isClient: bool, c: Conn) {
    && c.table.Valid()
    && c.nextId >= 1 && c.nextId % 2 == (if isClient then 1 else 0)
    && LegalSettings(c.settings)
    && OnlyLastPending(c)
    && forall id :: id in c.streams ==> HasStreamInv(isClient, c, id)
  }

  /** Streams stay and never go back. */
  ghost predicate Grows(c: Conn, c': Conn) {
    forall id :: id in c.streams ==> id in c'.streams && Advances(c.streams[id], c'.streams[id])
  }

  lemma GrowsTrans(a: Conn, b: Conn, c: Conn)
    requires Grows(a, b) && Grows(b, c)
    ensures Grows(a, c)
  {
    hide Expected;
  }

  lemma NewStreamInv(isClient: bool, id: nat, size: int)
    ensures StreamInv(isClient, NewStream(id, size))
  {
  }

  /** A locally created stream never takes the place of another. */
  lemma CreateIsFresh(isClient: bool, c: Conn)
    requires ConnInv(isClient, c)
    ensures c.nextId !in c.streams
    ensures ConnInv(isClient, CreateLocal(c)) && Grows(c, CreateLocal(c))
  {
    hide StreamInv, Expected;
    forall id | id in c.streams
      ensures id != c.nextId
    {
      assert HasStreamInv(isClient, c, id);
    }
    NewStreamInv(isClient, c.nextId, Setting(c.settings, INITIAL_WINDOW_SIZE, DEFAULT_WINDOW_SIZE));
    forall id | id in CreateLocal(c).streams
      ensures HasStreamInv(isClient, CreateLocal(c), id)
    {
      assert id != c.nextId ==> HasStreamInv(isClient, c, id);
    }
  }

  /** A frame of its own kind, or of the stream that is waiting for it, is handled by a stream. */
  lemma StreamKeeps(env: Env, c: Conn, f: Frame)
    requires ConnInv(env.isClient, c) && f.id in c.streams
    requires c.last.Some? && Pending(c, c.last.value) ==> f.id == c.last.value
    ensures var a := Settle(c, f.id, HandleFrame(env, c.streams[f.id], c.table, f));
            ConnInv(env.isClient, a.c) && Grows(c, a.c)
  {
    hide StreamInv, Expected, HandleFrame, LegalSettings;
    assert HasStreamInv(env.isClient, c, f.id);
    FrameKeeps(env, c.streams[f.id], c.table, f);
    var c' := Settle(c, f.id, HandleFrame(env, c.streams[f.id], c.table, f)).c;
    forall id | id in c'.streams
      ensures HasStreamInv(env.isClient, c', id)
    {
      assert HasStreamInv(env.isClient, c, id);
    }
  }

  lemma CreateRemoteKeeps(env: Env, c: Conn, id: nat)
    requires ConnInv(env.isClient, c) && id >= 1 && id !in c.streams && !env.isClient && !IsLocal(c, id)
    ensures ConnInv(env.isClient, CreateRemote(c, id)) && Grows(c, CreateRemote(c, id))
  {
    hide StreamInv, Expected, LegalSettings;
    NewStreamInv(env.isClient, id, Setting(c.settings, INITIAL_WINDOW_SIZE, DEFAULT_WINDOW_SIZE));
    forall k | k in CreateRemote(c, id).streams
      ensures HasStreamInv(env.isClient, CreateRemote(c, id), k)
    {
      assert k != id ==> HasStreamInv(env.isClient, c, k);
    }
  }

  lemma SameStreams(isClient: bool, c: Conn, c': Conn)
    requires ConnInv(isClient, c) && LegalSettings(c'.settings)
    requires c'.streams == c.streams && c'.table == c.table && c'.nextId == c.nextId && c'.maxRemote == c.maxRemote
             && c'.last == c.last
    ensures ConnInv(isClient, c') && Grows(c, c')
  {
    hide StreamInv, Expected, LegalSettings;
    forall id | id in c'.streams
      ensures HasStreamInv(isClient, c', id)
    {
      assert HasStreamInv(isClient, c, id);
    }
  }

  lemma ControlKeeps(isClient: bool, c: Conn, f: Frame)
    requires ConnInv(isClient, c)
    ensures ConnInv(isClient, HandleControl(c, f).c) && Grows(c, HandleControl(c, f).c)
  {
    hide HasStreamInv, Advances, LegalSettings, ApplySettings, Updated;
    SettingsStayLegal(c.settings, f.data);
    SameStreams(isClient, c, HandleControl(c, f).c);
  }

  lemma ConcludeKeeps(isClient: bool, a: Acted)
    requires ConnInv(isClient, a.c)
    ensures ConnInv(isClient, Conclude(a)) && Grows(a.c, Conclude(a))
  {
    hide HasStreamInv, Advances, LegalSettings;
    SameStreams(isClient, a.c, Conclude(a));
  }

  lemma ActKeeps(env: Env, c: Conn, f: Frame)
    requires ConnInv(env.isClient, c)
    ensures ConnInv(env.isClient, Act(env, c, f).c) && Grows(c, Act(env, c, f).c)
  {
    hide HasStreamInv, Advances, LegalSettings, HandleFrame, HandleControl, Settle;
    SameStreams(env.isClient, c, c);
    if c.last.Some? && Pending(c, c.last.value) && (f.typ != CONTINUATION || f.id != c.last.value) {
    } else if f.id == 0 {
      ControlKeeps(env.isClient, c, f);
    } else if f.id in c.streams {
      StreamKeeps(env, c, f);
    } else if !env.isClient && f.typ == HEADERS && !IsLocal(c, f.id) {
      var c' := CreateRemote(c, f.id);
      CreateRemoteKeeps(env, c, f.id);
      StreamKeeps(env, c', f);
      GrowsTrans(c, c', Settle(c', f.id, HandleFrame(env, c'.streams[f.id], c'.table, f)).c);
    }
  }

  lemma ChangedStreamKeeps(isClient: bool, c: Conn, id: nat, s: StreamState)
    requires ConnInv(isClient, c) && id in c.streams
    requires s == c.streams[id].(headRequest := s.headRequest, window := s.window)
    ensures ConnInv(isClient, c.(streams := c.streams[id := s])) && Grows(c, c.(streams := c.streams[id := s]))
  {
    hide LegalSettings, Expected, StreamInv;
    var c' := c.(streams := c.streams[id := s]);
    assert HasStreamInv(isClient, c, id);
    OutsideKeeps(isClient, c.streams[id], s.headRequest, s.window);
    forall k | k in c'.streams
      ensures HasStreamInv(isClient, c', k)
    {
      assert HasStreamInv(isClient, c, k);
    }
  }

  lemma StepKeeps(env: Env, c: Conn, e: Event)
    requires ConnInv(env.isClient, c)
    ensures ConnInv(env.isClient, Step(env, c, e)) && Grows(c, Step(env, c, e))
  {
    hide HasStreamInv, Advances, LegalSettings, Act, Conclude;
    SameStreams(env.isClient, c, c);
    match e
    case Read(f) =>
      var a := Act(env, c, f);
      ActKeeps(env, c, f);
      ConcludeKeeps(env.isClient, a);
      GrowsTrans(c, a.c, Conclude(a));
    case Open => CreateIsFresh(env.isClient, c);
    case Request(id, head) =>
      if id in c.streams {
        ChangedStreamKeeps(env.isClient, c, id, c.streams[id].(headRequest := Some(head)));
      }
    case Write(id, w) =>
      if id == 0 {
        SameStreams(env.isClient, c, c.(window := w));
      } else if id in c.streams {
        ChangedStreamKeeps(env.isClient, c, id, c.streams[id].(window := w));
      }
  }

  /** Every run keeps the invariant, and no stream is lost or goes back. */
  lemma {:induction false} RunKeeps(env: Env, c: Conn, events: seq<Event>)
    requires ConnInv(env.isClient, c)
    ensures ConnInv(env.isClient, Run(env, c, events)) && Grows(c, Run(env, c, events))
    decreases |events|
  {
    hide HasStreamInv, Advances, LegalSettings, Step, OnlyLastPending;
    if events == [] {
      SameStreams(env.isClient, c, c);
    } else {
      StepKeeps(env, c, events[0]);
      RunKeeps(env, Step(env, c, events[0]), events[1..]);
      GrowsTrans(c, Step(env, c, events[0]), Run(env, c, events));
    }
  }

  lemma OpenedInv(isClient: bool, headerTableSize: nat)
    ensures ConnInv(isClient, Opened(isClient, headerTableSize))
  {
  }

  /** What a fresh connection has become after these events. */
  function After(env: Env, headerTableSize: nat, events: seq<Event>): (c: Conn)
    ensures c.table.Valid()
  {
    Run(env, Opened(env.isClient, headerTableSize), events)
  }

  // ---------- the properties of all runs ----------

  /** Section 6.10 of RFC 7540: header blocks are contiguous. */
  lemma OneHeaderBlockAtATime(env: Env, headerTableSize: nat, events: seq<Event>, a: nat, b: nat)
    requires var c := After(env, headerTableSize, events); Pending(c, a) && Pending(c, b)
    ensures a == b && After(env, headerTableSize, events).last == Some(a)
  {
    hide Run, StreamInv;
    OpenedInv(env.isClient, headerTableSize);
    RunKeeps(env, Opened(env.isClient, headerTableSize), events);
  }

  /** While a block is unfinished every frame but its next fragment ends the connection. */
  lemma NothingInBetween(env: Env, headerTableSize: nat, events: seq<Event>, id: nat, f: Frame)
    requires var c := After(env, headerTableSize, events); c.alive && Pending(c, id)
    ensures var c := After(env, headerTableSize, events);
            f.typ != CONTINUATION || f.id != id ==>
              Receive(env, c, f) == c.(alive := false, replies := c.replies + [GoAway(PROTOCOL_ERROR)])
  {
    hide Run;
    OneHeaderBlockAtATime(env, headerTableSize, events, id, id);
  }

  /**
   * The delegate of every stream sees headers first, and further ones only after an informational
   * response to a client; then data; and at most one finish, after which nothing comes. A stream that
   * was ever started is finished exactly when its delegate is.
   */
  lemma DelegateCallsInOrder(env: Env, headerTableSize: nat, events: seq<Event>, id: nat)
    requires id in After(env, headerTableSize, events).streams
    ensures var s := After(env, headerTableSize, events).streams[id];
            var calls := WithoutCloses(s.calls);
            && InOrder(env.isClient, calls)
            && (s.started <==> calls != [] && !s.finished)
            && (calls != [] ==> (s.finished <==> calls[|calls| - 1].Finish?))
  {
    hide Run, Expected, InOrder, WithoutCloses, Delivered;
    OpenedInv(env.isClient, headerTableSize);
    RunKeeps(env, Opened(env.isClient, headerTableSize), events);
    assert HasStreamInv(env.isClient, After(env, headerTableSize, events), id);
  }

  /** Section 8.1.2.6 of RFC 7540: a finished stream has delivered exactly the length its headers announced. */
  lemma CompletedIsComplete(env: Env, headerTableSize: nat, events: seq<Event>, id: nat)
    requires var c := After(env, headerTableSize, events); id in c.streams && c.streams[id].finished
    ensures var s := After(env, headerTableSize, events).streams[id];
            Expected(s.calls).Some? ==> Delivered(s.calls) == Expected(s.calls).value
  {
    hide Run, CallsInv;
    OpenedInv(env.isClient, headerTableSize);
    RunKeeps(env, Opened(env.isClient, headerTableSize), events);
    assert HasStreamInv(env.isClient, After(env, headerTableSize, events), id);
  }

  /** A body that has run over its length. */
  predicate Overrun(s: StreamState) {
    s.phase != HeadersPhase && s.remaining.Some? && s.remaining.value < 0
  }

  /** After an overrun nothing that can happen completes the stream, and the announced length stands. */
  lemma OverrunIsFinal(env: Env, headerTableSize: nat, before: seq<Event>, after: seq<Event>, id: nat)
    requires var c := After(env, headerTableSize, before); id in c.streams && Overrun(c.streams[id])
    ensures var s, c' := After(env, headerTableSize, before).streams[id],
            Run(env, After(env, headerTableSize, before), after);
            && id in c'.streams
            && !c'.streams[id].finished && Overrun(c'.streams[id])
            && Expected(c'.streams[id].calls) == Expected(s.calls)
  {
    hide Run, CallsInv, Expected, Delivered;
    OpenedInv(env.isClient, headerTableSize);
    RunKeeps(env, Opened(env.isClient, headerTableSize), before);
    var c := After(env, headerTableSize, before);
    RunKeeps(env, c, after);
    assert HasStreamInv(env.isClient, Run(env, c, after), id);
  }
}
