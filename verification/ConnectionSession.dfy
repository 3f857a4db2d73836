/**
 * A connection and its streams as objects, from their creation on, and what all the lemmas about runs
 * mean for them.
 */
module ConnectionSession {
  import opened Bits
  import opened FlowControl
  import opened Frames
  import opened DynamicTable
  import opened Hpack
  import HpackSession
  import opened Receiving
  import opened Dispatch
  import opened DispatchRuns
  import opened HeaderBlocks
  import opened PeerBlocks
  import opened Connections

  // ---------- windows ----------

  lemma UpdatedKeeps(w: Win, data: bytes)
    requires NoLostWakeup(w)
    ensures NoLostWakeup(Updated(w, data))
  {
  }

  lemma ParsedWindow(env: Env, s: StreamState, t: Table)
    requires t.Valid() && s.headerFrames != []
    ensures ParseHeaders(env, s, t).s.window == s.window
  {
    hide DecodeBlock, Joined;
  }

  lemma FragmentWindow(env: Env, s: StreamState, t: Table, f: Frame)
    requires t.Valid()
    ensures AddFragment(env, s, t, f).s.window == s.window
    ensures HandleHeaders(env, s, t, f).s.window == s.window
  {
    hide ParseHeaders, Joined;
    forall s': StreamState | s'.headerFrames != []
      ensures ParseHeaders(env, s', t).s.window == s'.window
    {
      ParsedWindow(env, s', t);
    }
  }

  lemma DataWindow(s: StreamState, f: Frame)
    ensures HandleData(s, f).0.window == s.window
  {
  }

  /** Only a WINDOW_UPDATE changes a stream's window. */
  lemma HandledWindow(env: Env, s: StreamState, t: Table, f: Frame)
    requires t.Valid()
    ensures HandleFrame(env, s, t, f).s.window == if f.typ == WINDOW_UPDATE then Updated(s.window, f.data) else s.window
  {
    hide AddFragment, HandleHeaders, HandleData, Updated;
    FragmentWindow(env, s, t, f);
    DataWindow(s, f);
  }

  ghost predicate WindowsOk(c: Conn) {
    NoLostWakeup(c.window) && forall id :: id in c.streams ==> NoLostWakeup(c.streams[id].window)
  }

  lemma SettledWindows(env: Env, c: Conn, id: nat, f: Frame)
    requires c.table.Valid() && WindowsOk(c) && id in c.streams
    ensures WindowsOk(Settle(c, id, HandleFrame(env, c.streams[id], c.table, f)).c)
  {
    hide HandleFrame, NoLostWakeup, Updated;
    HandledWindow(env, c.streams[id], c.table, f);
    UpdatedKeeps(c.streams[id].window, f.data);
  }

  lemma ControlWindows(c: Conn, f: Frame)
    requires WindowsOk(c)
    ensures WindowsOk(HandleControl(c, f).c)
  {
    hide NoLostWakeup, Updated, ApplySettings;
    UpdatedKeeps(c.window, f.data);
  }

  lemma ConcludedWindows(a: Acted)
    requires WindowsOk(a.c)
    ensures WindowsOk(Conclude(a))
  {
    hide NoLostWakeup;
  }

  lemma ActKeepsWindows(env: Env, c: Conn, f: Frame)
    requires c.table.Valid() && WindowsOk(c)
    ensures WindowsOk(Act(env, c, f).c)
  {
    hide HandleFrame, HandleControl, Settle, NoLostWakeup;
    ControlWindows(c, f);
    if f.id in c.streams {
      SettledWindows(env, c, f.id, f);
    } else {
      CreatedWindows(c, f.id);
      SettledWindows(env, CreateRemote(c, f.id), f.id, f);
    }
  }

  lemma CreatedWindows(c: Conn, id: nat)
    requires WindowsOk(c)
    ensures WindowsOk(CreateRemote(c, id))
  {
  }

  /** Nobody waits in vain: whatever is read, a registered waiter's window is empty and open. */
  lemma {:induction false} ReceiveKeepsWindows(env: Env, c: Conn, frames: seq<Frame>)
    requires c.table.Valid() && WindowsOk(c)
    ensures WindowsOk(ReceiveAll(env, c, frames))
    decreases |frames|
  {
    hide WindowsOk, Act, Conclude;
    if frames != [] {
      ActKeepsWindows(env, c, frames[0]);
      ConcludedWindows(Act(env, c, frames[0]));
      ReceiveKeepsWindows(env, Receive(env, c, frames[0]), frames[1..]);
    }
  }

  lemma WrittenWindows(env: Env, c: Conn, id: nat, w: Win, shared: Win)
    requires c.table.Valid() && WindowsOk(c) && NoLostWakeup(w) && NoLostWakeup(shared)
    ensures WindowsOk(Step(env, Step(env, c, Write(id, w)), Write(0, shared)))
  {
    hide NoLostWakeup;
  }

  // ---------- events that are only frames ----------

  function Reads(frames: seq<Frame>): (r: seq<Event>)
    ensures |r| == |frames|
  {
    seq(|frames|, i requires 0 <= i < |frames| => Read(frames[i]))
  }

  lemma {:induction false} FragmentsOfReads(frames: seq<Frame>)
    ensures Fragments(Reads(frames)) == frames
    decreases |frames|
  {
    if frames != [] {
      assert Reads(frames)[1..] == Reads(frames[1..]);
      FragmentsOfReads(frames[1..]);
      assert frames == [frames[0]] + frames[1..];
    }
  }

  lemma {:induction false} FragmentsConcat(a: seq<Event>, b: seq<Event>)
    ensures Fragments(a + b) == Fragments(a) + Fragments(b)
    decreases |a|
  {
    if a == [] {
      assert a + b == b;
    } else {
      assert (a + b)[1..] == a[1..] + b;
      FragmentsConcat(a[1..], b);
      ConcatAssoc(if a[0].Read? then [a[0].f] else [], Fragments(a[1..]), Fragments(b));
    }
  }

  // ---------- the session ----------

  /**
   * Frames arrive, a stream is opened, a client's request is written, a writer asks for credit, or a
   * window is closed.
   */
  datatype Command =
    | Feed(frames: seq<Frame>)
    | OpenStream
    | SendRequest(id: nat, head: bool)
    | TakeCredit(id: nat, amount: nat)
    | CloseWindow(id: nat)

  /** What a command comes to in this state. */
  function CommandEvents(c: Conn, command: Command): seq<Event> {
    match command
    case Feed(frames) => Reads(frames)
    case OpenStream => [Open]
    case SendRequest(id, head) => if id in c.streams then [Request(id, head)] else []
    case TakeCredit(id, amount) =>
      if id in c.streams && id > 0 && amount > 0 then
        var (w, shared) := AfterConsume(c.streams[id].window, c.window, id, amount);
        [Write(id, w), Write(0, shared)]
      else []
    case CloseWindow(id) => if id in c.streams && id > 0 then [Write(id, FlowControl.Closed(c.streams[id].window))]
        else []
  }

  /** What a script comes to from this state on. */
  function ScriptEvents(env: Env, c: Conn, script: seq<Command>): seq<Event>
    requires c.table.Valid()
    decreases |script|
  {
    if script == [] then []
    else
      var before := ScriptEvents(env, c, script[..|script| - 1]);
      before + CommandEvents(Run(env, c, before), script[|script| - 1])
  }

  /** The frames that arrive in the course of a script. */
  function Fed(script: seq<Command>): seq<Frame> {
    if script == [] then []
    else Fed(script[..|script| - 1]) + if script[|script| - 1].Feed? then script[|script| - 1].frames else []
  }

  /** A script adds no frames to those it feeds. */
  lemma {:induction false} ScriptFrames(env: Env, c: Conn, script: seq<Command>)
    requires c.table.Valid()
    ensures Fragments(ScriptEvents(env, c, script)) == Fed(script)
    decreases |script|
  {
    hide Run;
    if script != [] {
      var before, last := script[..|script| - 1], script[|script| - 1];
      ScriptFrames(env, c, before);
      var d := Run(env, c, ScriptEvents(env, c, before));
      FragmentsConcat(ScriptEvents(env, c, before), CommandEvents(d, last));
      if last.Feed? {
        FragmentsOfReads(last.frames);
      } else {
        CommandFrames(d, last);
      }
    }
  }

  lemma CommandFrames(c: Conn, command: Command)
    requires !command.Feed?
    ensures Fragments(CommandEvents(c, command)) == []
  {
    var events := CommandEvents(c, command);
    if |events| == 2 {
      assert events == [events[0]] + [events[1]];
      FragmentsConcat([events[0]], [events[1]]);
    }
  }

  method FeedFrames(conn: Connection, frames: seq<Frame>)
    requires conn.Valid() && WindowsOk(conn.View())
    modifies conn.Touched()
    ensures conn.Valid() && WindowsOk(conn.View()) && fresh(conn.Touched() - old(conn.Touched()))
    ensures conn.View() == Run(conn.Environment(), old(conn.View()), Reads(frames))
  {
    hide Connection.Touched, Connection.StreamViews, Connection.Wired, Run, ReceiveAll, WindowsOk;
    ghost var env, c := conn.Environment(), conn.View();
    conn.LooksAt(0);
    conn.ConnLoop(frames);
    ReceiveKeepsWindows(env, c, frames);
    ReceiveAllIsRun(env, c, frames);
  }

  method OpenOne(conn: Connection)
    requires conn.Valid() && WindowsOk(conn.View())
    modifies conn.Touched()
    ensures conn.Valid() && WindowsOk(conn.View()) && fresh(conn.Touched() - old(conn.Touched()))
    ensures conn.View() == Run(conn.Environment(), old(conn.View()), [Open])
  {
    hide Connection.Touched, Connection.StreamViews, Connection.Wired, Run, WindowsOk;
    ghost var env, c := conn.Environment(), conn.View();
    conn.LooksAt(0);
    conn.TouchedObjects(0);
    var _ := conn.CreateStream();
    LocalWindows(env, c, Open);
    OneEvent(env, c, Open);
  }

  method Ask(conn: Connection, id: nat, head: bool)
    requires conn.Valid() && WindowsOk(conn.View()) && id in conn.streams
    modifies conn.Touched()
    ensures conn.Valid() && WindowsOk(conn.View()) && conn.Touched() == old(conn.Touched())
    ensures conn.View() == Run(conn.Environment(), old(conn.View()), [Request(id, head)])
  {
    hide Connection.Touched, Connection.StreamViews, Connection.Wired, Run, WindowsOk;
    ghost var env, c := conn.Environment(), conn.View();
    conn.LooksAt(id);
    conn.WriteRequest(id, head);
    LocalWindows(env, c, Request(id, head));
    OneEvent(env, c, Request(id, head));
  }

  method Take(conn: Connection, id: nat, amount: nat)
    requires conn.Valid() && WindowsOk(conn.View()) && id in conn.streams && id > 0 && amount > 0
    modifies conn.Touched()
    ensures conn.Valid() && WindowsOk(conn.View()) && conn.Touched() == old(conn.Touched())
    ensures conn.View() == Run(conn.Environment(), old(conn.View()),
            CommandEvents(old(conn.View()), TakeCredit(id, amount)))
  {
    hide Connection.Touched, Connection.StreamViews, Connection.Wired, Run, Step, NoLostWakeup, AfterConsume;
    ghost var env, c := conn.Environment(), conn.View();
    conn.LooksAt(id);
    var _ := conn.Consume(id, amount);
    ghost var (w, shared) := AfterConsume(c.streams[id].window, c.window, id, amount);
    ConsumedWindows(c.streams[id].window, c.window, id, amount);
    WrittenWindows(env, c, id, w, shared);
    TwoEvents(env, c, Write(id, w), Write(0, shared));
  }

  method Shut(conn: Connection, id: nat)
    requires conn.Valid() && WindowsOk(conn.View()) && id in conn.streams && id > 0
    modifies conn.Touched()
    ensures conn.Valid() && WindowsOk(conn.View()) && conn.Touched() == old(conn.Touched())
    ensures conn.View() == Run(conn.Environment(), old(conn.View()), CommandEvents(old(conn.View()), CloseWindow(id)))
  {
    hide Connection.Touched, Connection.StreamViews, Connection.Wired, Run, Step, WindowsOk;
    ghost var env, c := conn.Environment(), conn.View();
    conn.LooksAt(id);
    conn.CloseWindow(id);
    ClosedWindows(env, c, id);
    OneEvent(env, c, Write(id, FlowControl.Closed(c.streams[id].window)));
  }

  lemma ConsumedWindows(w: Win, shared: Win, writer: nat, amount: nat)
    requires NoLostWakeup(w) && NoLostWakeup(shared)
    ensures var (w', shared') := AfterConsume(w, shared, writer, amount); NoLostWakeup(w') && NoLostWakeup(shared')
  {
  }

  lemma ClosedWindows(env: Env, c: Conn, id: nat)
    requires c.table.Valid() && WindowsOk(c) && id in c.streams && id > 0
    ensures WindowsOk(Step(env, c, Write(id, FlowControl.Closed(c.streams[id].window))))
  {
  }

  lemma LocalWindows(env: Env, c: Conn, e: Event)
    requires c.table.Valid() && WindowsOk(c) && (e.Open? || e.Request?)
    ensures WindowsOk(Step(env, c, e))
  {
  }

  lemma TwoEvents(env: Env, c: Conn, a: Event, b: Event)
    requires c.table.Valid()
    ensures Run(env, c, [a, b]) == Step(env, Step(env, c, a), b)
  {
    assert [a, b] == [a] + [b];
    RunConcat(env, c, [a], [b]);
    OneEvent(env, c, a);
    OneEvent(env, Step(env, c, a), b);
  }

  /** Every command is exactly the events it comes to. */
  method Perform(conn: Connection, command: Command)
    requires conn.Valid() && WindowsOk(conn.View())
    modifies conn.Touched()
    ensures conn.Valid() && WindowsOk(conn.View()) && fresh(conn.Touched() - old(conn.Touched()))
    ensures conn.View() == Run(conn.Environment(), old(conn.View()), CommandEvents(old(conn.View()), command))
  {
    hide Connection.Touched, Connection.StreamViews, Connection.Wired, Run, Step, WindowsOk;
    conn.LooksAt(0);
    NoEvents(conn.Environment(), conn.View());
    match command {
      case Feed(frames) => FeedFrames(conn, frames);
      case OpenStream => OpenOne(conn);
      case SendRequest(id, head) =>
        conn.LooksAt(id);
        if id in conn.streams {
          Ask(conn, id, head);
        }
      case TakeCredit(id, amount) =>
        conn.LooksAt(id);
        if id in conn.streams && id > 0 && amount > 0 {
          Take(conn, id, amount);
        }
      case CloseWindow(id) =>
        conn.LooksAt(id);
        if id in conn.streams && id > 0 {
          Shut(conn, id);
        }
    }
  }

  // ---------- what holds of the objects ----------

  /** Headers first, then data, then one finish, of exactly the announced length. */
  ghost predicate Orderly(isClient: bool, s: StreamState) {
    var calls := WithoutCloses(s.calls);
    && InOrder(isClient, calls)
    && (calls != [] ==> (s.finished <==> calls[|calls| - 1].Finish?))
    && (s.finished && Expected(s.calls).Some? ==> Delivered(s.calls) == Expected(s.calls).value)
    && (Overrun(s) ==> !s.finished)
  }

  lemma RunIsOrderly(env: Env, headerTableSize: nat, events: seq<Event>, id: nat)
    requires id in After(env, headerTableSize, events).streams
    ensures Orderly(env.isClient, After(env, headerTableSize, events).streams[id])
  {
    hide After, Run, InOrder, WithoutCloses, Expected, Delivered;
    var s := After(env, headerTableSize, events).streams[id];
    DelegateCallsInOrder(env, headerTableSize, events, id);
    if s.finished {
      CompletedIsComplete(env, headerTableSize, events, id);
    }
    if Overrun(s) {
      OverrunIsFinal(env, headerTableSize, events, [], id);
      NoEvents(env, After(env, headerTableSize, events));
    }
  }

  const HEADER_TABLE_SIZE := 4096

  lemma OpenedWindows(isClient: bool, headerTableSize: nat)
    ensures WindowsOk(Opened(isClient, headerTableSize))
  {
  }

  /** A new connection, with a decoder built from the published tables. */
  method Connect(isClient: bool, maxHeaderSize: nat, interpret: (bool, seq<Decoded>) -> Verdict)
      returns (conn: Connection)
    ensures conn.Valid() && WindowsOk(conn.View())
    ensures conn.Touched() == {conn, conn.window, conn.decoder.table, conn.decoder.tree}
    ensures fresh(conn) && fresh(conn.window) && fresh(conn.decoder.table) && fresh(conn.decoder.tree)
    ensures conn.isClient == isClient && conn.maxHeaderSize == maxHeaderSize && conn.interpret == interpret
    ensures conn.View() == Opened(isClient, HEADER_TABLE_SIZE) && ValidCodec(conn.decoder.cx)
  {
    hide ValidCodec, WindowsOk, Connection.Wired, Connection.LocalsBelow, Connection.StreamViews, Connection.Touched;
    OpenedWindows(isClient, HEADER_TABLE_SIZE);
    var _, decoder := HpackSession.Open(HEADER_TABLE_SIZE, false);
    conn := new Connection(isClient, maxHeaderSize, interpret, decoder);
  }

  method Play(conn: Connection, script: seq<Command>)
    requires conn.Valid() && WindowsOk(conn.View())
    modifies conn.Touched()
    ensures conn.Valid() && old(conn.View()).table.Valid()
    ensures conn.View() == Run(conn.Environment(), old(conn.View()),
            ScriptEvents(conn.Environment(), old(conn.View()), script))
  {
    hide Connection.StreamViews, Connection.Wired, Run, WindowsOk, CommandEvents;
    ghost var env, c := conn.Environment(), conn.View();
    conn.LooksAt(0);
    NoEvents(env, c);
    for i := 0 to |script|
      invariant conn.Valid() && WindowsOk(conn.View()) && fresh(conn.Touched() - old(conn.Touched()))
      invariant conn.View() == Run(env, c, ScriptEvents(env, c, script[..i]))
    {
      ghost var before := ScriptEvents(env, c, script[..i]);
      Perform(conn, script[i]);
      assert script[..i + 1][..i] == script[..i];
      RunConcat(env, c, before, CommandEvents(Run(env, c, before), script[i]));
    }
    assert script[..|script|] == script;
  }

  /** What the lemmas about runs say of the objects. */
  lemma ObjectsAreOrderly(conn: Connection, events: seq<Event>)
    requires conn.Valid() && conn.View() == After(conn.Environment(), HEADER_TABLE_SIZE, events)
    ensures forall id :: id in conn.streams ==> Orderly(conn.isClient, conn.streams[id].View())
    ensures forall a, b :: a in conn.streams && b in conn.streams ==>
              (conn.streams[a].headerFrames != [] && conn.streams[b].headerFrames != [] ==> a == b)
  {
    hide After, Orderly, Connection.Wired;
    forall id | id in conn.streams
      ensures Orderly(conn.isClient, conn.streams[id].View())
    {
      RunIsOrderly(conn.Environment(), HEADER_TABLE_SIZE, events, id);
    }
    forall a, b | a in conn.streams && b in conn.streams && conn.streams[a].headerFrames != []
        && conn.streams[b].headerFrames != []
      ensures a == b
    {
      OneHeaderBlockAtATime(conn.Environment(), HEADER_TABLE_SIZE, events, a, b);
    }
  }

  /** These events are what happens with a peer whose encoder ends up with table `t`. */
  ghost predicate FromPeer(env: Env, events: seq<Event>, t: Table)
    requires ValidCodec(env.cx)
  {
    var t0 := Table([], 0, HEADER_TABLE_SIZE);
    exists items :: Events(items) == events && Sends(env, Opened(env.isClient, HEADER_TABLE_SIZE), t0, items)
                    && t == EncoderTable(env.cx, t0, items)
  }

  lemma PeerInStep(env: Env, events: seq<Event>, t: Table)
    requires ValidCodec(env.cx) && FromPeer(env, events, t) && After(env, HEADER_TABLE_SIZE, events).alive
    ensures After(env, HEADER_TABLE_SIZE, events).table == t
  {
    hide ValidCodec, Sends, EncoderTable, After;
    var t0 := Table([], 0, HEADER_TABLE_SIZE);
    var items :| Events(items) == events && Sends(env, Opened(env.isClient, HEADER_TABLE_SIZE), t0, items)
                 && t == EncoderTable(env.cx, t0, items);
    InStepFromTheStart(env, HEADER_TABLE_SIZE, items);
  }

  /**
   * A connection from its creation through any script. On the objects themselves: every stream's
   * delegate has been called in order and given exactly what was announced, at most one stream has
   * an unfinished header block, and if what happened is what a peer with an encoder sends, the decoder's
   * table is that encoder's, as long as the connection lives.
   */
  method Serve(isClient: bool, maxHeaderSize: nat, interpret: (bool, seq<Decoded>) -> Verdict, script: seq<Command>)
    returns (conn: Connection)
    ensures fresh(conn) && conn.Valid() && ValidCodec(conn.decoder.cx)
    ensures conn.isClient == isClient && conn.maxHeaderSize == maxHeaderSize && conn.interpret == interpret
    ensures conn.View() == After(conn.Environment(), HEADER_TABLE_SIZE, Played(conn, script))
    ensures forall id :: id in conn.streams ==> Orderly(isClient, conn.streams[id].View())
    ensures forall a, b :: a in conn.streams && b in conn.streams ==>
              (conn.streams[a].headerFrames != [] && conn.streams[b].headerFrames != [] ==> a == b)
    ensures forall t :: conn.alive && FromPeer(conn.Environment(), Played(conn, script), t) ==>
              conn.decoder.table.View() == t
  {
    hide ValidCodec, FromPeer, Orderly, WindowsOk, Run, Opened, ScriptEvents, Connection.StreamViews,
      Connection.Wired, Connection.Touched;
    conn := Connect(isClient, maxHeaderSize, interpret);
    Play(conn, script);
    ghost var events := Played(conn, script);
    ObjectsAreOrderly(conn, events);
    forall t | conn.alive && FromPeer(conn.Environment(), events, t)
      ensures conn.decoder.table.View() == t
    {
      PeerInStep(conn.Environment(), events, t);
    }
  }

  /** What a script comes to from the start of a connection. */
  ghost function Played(conn: Connection, script: seq<Command>): seq<Event> {
    StartIsValid(conn.isClient);
    ScriptEvents(conn.Environment(), Opened(conn.isClient, HEADER_TABLE_SIZE), script)
  }

  lemma StartIsValid(isClient: bool)
    ensures Opened(isClient, HEADER_TABLE_SIZE).table.Valid()
  {
  }
}
