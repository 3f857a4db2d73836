/** The connection as the object the loop updates, and the loop (tornado_http2/connection.py). */
module Connections {
  import opened Bits
  import opened Protocol
  import opened FlowControl
  import opened Frames
  import opened Hpack
  import opened HpackCodec
  import opened Receiving
  import opened Dispatch
  import opened Streams

  class Connection {
    const isClient: bool
    const maxHeaderSize: nat
    const interpret: (bool, seq<Decoded>) -> Verdict
    const decoder: HpackDecoder
    const window: Window
    var streams: map<nat, Stream>
    var settings: map<nat, nat>
    var nextStreamId: nat
    var maxRemoteStreamId: nat
    var lastStream: Stream?
    var alive: bool
    var replies: seq<Reply>

    ghost function Environment(): Env {
      Env(decoder.cx, isClient, maxHeaderSize, interpret)
    }

    /** A stream of this connection under its own number. */
    ghost predicate Owns(id: nat, s: Stream) {
      && s.id == id && s.decoder == decoder
      && s.isClient == isClient && s.maxHeaderSize == maxHeaderSize && s.interpret == interpret
      && s.window.parent == window && s.window.streamId == id
    }

    ghost predicate Wired()
      reads this`streams, this`lastStream, decoder, decoder.table, decoder.tree
    {
      && decoder.Valid() && window.parent == null
      && (forall id :: id in streams ==> Owns(id, streams[id]))
      && (lastStream != null ==> lastStream.id in streams && streams[lastStream.id] == lastStream)
    }

    /** The next local number is always free. */
    ghost predicate LocalsBelow()
      reads this`streams, this`nextStreamId
    {
      forall id :: id in streams && id % 2 == nextStreamId % 2 ==> id < nextStreamId
    }

    ghost predicate Valid()
      reads this`streams, this`lastStream, this`nextStreamId, decoder, decoder.table, decoder.tree
    {
      Wired() && LocalsBelow()
    }

    ghost function StreamViews(): map<nat, StreamState>
      reads this`streams, set id | id in streams :: streams[id], set id | id in streams :: streams[id].window
    {
      map id | id in streams :: streams[id].View()
    }

    twostate lemma ViewsKept()
      requires streams == old(streams)
      requires forall id :: id in streams ==> streams[id].View() == old(streams[id].View())
      ensures StreamViews() == old(StreamViews())
    {
    }

    twostate lemma OneViewChanged(id: nat, new s: Stream)
      requires streams == old(streams)[id := s]
      requires forall k :: k in old(streams) && k != id ==> streams[k].View() == old(streams[k].View())
      ensures StreamViews() == old(StreamViews())[id := s.View()]
    {
    }

    ghost function View(): Conn
      reads this, decoder.table, window
      reads set id | id in streams :: streams[id], set id | id in streams :: streams[id].window
    {
      Conn(StreamViews(), decoder.table.View(), window.View(), settings, nextStreamId, maxRemoteStreamId,
           if lastStream == null then None else Some(lastStream.id), alive, replies)
    }

    constructor (isClient: bool, maxHeaderSize: nat, interpret: (bool, seq<Decoded>) -> Verdict, decoder: HpackDecoder)
      requires decoder.Valid()
      ensures Valid() && fresh(window) && this.decoder == decoder
              && Touched() == {this, window, decoder.table, decoder.tree}
      ensures this.isClient == isClient && this.maxHeaderSize == maxHeaderSize && this.interpret == interpret
      ensures Environment() == Env(decoder.cx, isClient, maxHeaderSize, interpret)
      ensures View() == Opened(isClient, 0).(table := decoder.table.View())
    {
      this.isClient, this.maxHeaderSize, this.interpret := isClient, maxHeaderSize, interpret;
      this.decoder := decoder;
      window := new Window(null, 0, DEFAULT_WINDOW_SIZE);
      streams, settings := map[], map[];
      nextStreamId, maxRemoteStreamId := if isClient then 1 else 2, 0;
      lastStream, alive, replies := null, true, [];
    }

    /** All that reading a frame may change. */
    ghost function Touched(): set<object>
      reads this`streams
    {
      {this, window, decoder.table, decoder.tree}
      + (set id | id in streams :: streams[id] as object) + (set id | id in streams :: streams[id].window as object)
    }

    lemma TouchedObjects(id: nat)
      ensures this in Touched() && window in Touched() && decoder.table in Touched() && decoder.tree in Touched()
      ensures id in streams ==> streams[id] in Touched() && streams[id].window in Touched()
    {
    }

    lemma SharedWindow()
      requires Valid()
      ensures window.parent == null && forall id :: id in streams ==> streams[id].window != window
    {
    }

    lemma OwnWindow(id: nat)
      requires Valid() && id in streams
      ensures streams[id].window.parent == window && window.parent == null
      ensures forall k :: k in streams && k != id ==> streams[k].window != streams[id].window
    {
    }

    twostate lemma TouchedGrows(id: nat, new s: Stream)
      requires streams == old(streams)[id := s] && fresh(s) && fresh(s.window)
      ensures fresh(Touched() - old(Touched()))
    {
    }

    lemma LooksAt(id: nat)
      requires Valid()
      ensures View().table.Valid()
      ensures id in streams <==> id in View().streams
      ensures id in streams ==> View().streams[id] == streams[id].View()
    {
    }

    /** What the loop looks at before it dispatches a frame. */
    lemma Looks(f: Frame)
      requires Valid()
      ensures f.id in streams <==> f.id in View().streams
      ensures f.id in streams ==> View().streams[f.id] == streams[f.id].View()
      ensures lastStream != null ==> (Pending(View(), lastStream.id) <==> lastStream.headerFrames != [])
    {
    }

    /** The loop of `_handle_settings_frame`. */
    method StoreSettings(payload: bytes) returns (r: Outcome)
      modifies this`settings
      ensures (settings, r) == ApplySettings(old(settings), payload)
    {
      var data := payload;
      while data != []
        invariant ApplySettings(settings, data) == ApplySettings(old(settings), payload)
        decreases |data|
      {
        if |data| < 6 {
          return ConnectionError(FRAME_SIZE_ERROR);
        }
        var (code, value) := FirstSetting(data);
        data := data[6..];
        if code == ENABLE_PUSH {
          if value > 1 {
            return ConnectionError(PROTOCOL_ERROR);
          }
        } else if code == INITIAL_WINDOW_SIZE {
          if value > MAX_WINDOW_SIZE {
            return ConnectionError(FLOW_CONTROL_ERROR);
          }
        } else if code == MAX_FRAME_SIZE {
          if value < DEFAULT_MAX_FRAME_SIZE || value > MAX_MAX_FRAME_SIZE {
            return ConnectionError(PROTOCOL_ERROR);
          }
        }
        settings := settings[code := value];
      }
      return Ok;
    }

    method HandleSettingsFrame(f: Frame) returns (r: Outcome)
      requires f.typ == SETTINGS
      modifies this`settings, this`replies
      ensures Acted(View(), r) == HandleControl(old(View()), f)
    {
      hide StreamViews, ApplySettings;
      if Has(f.flags, FLAG_ACK) {
        return if f.data != [] then ConnectionError(FRAME_SIZE_ERROR) else Ok;
      }
      r := StoreSettings(f.data);
      if r == Ok {
        replies := replies + [SettingsAck];
      }
    }

    method HandleFrame(f: Frame) returns (r: Outcome)
      requires Valid()
      modifies Touched()
      ensures Valid() && Touched() == old(Touched())
      ensures Acted(View(), r) == HandleControl(old(View()), f)
    {
      hide Valid, Touched, StreamViews, ApplySettings, Updated;
      TouchedObjects(0);
      SharedWindow();
      match f.typ {
        case SETTINGS => r := HandleSettingsFrame(f);
        case WINDOW_UPDATE =>
          r := window.ApplyWindowUpdate(f.data);
          ViewsKept();
        case PING =>
          if Has(f.flags, FLAG_ACK) {
            return Ok;
          }
          if |f.data| != 8 {
            return ConnectionError(FRAME_SIZE_ERROR);
          }
          replies := replies + [PingAck(f.data)];
          return Ok;
        case GOAWAY => return Fatal;
        case UNKNOWN(_) => return Ok;
        case _ => return ConnectionError(PROTOCOL_ERROR);
      }
    }

    /** A frame for a stream that is there. */
    method HandleOnStream(f: Frame) returns (r: Outcome)
      requires Valid() && f.id in View().streams
      modifies Touched()
      ensures Valid() && Touched() == old(Touched())
      ensures var c := old(View());
              Acted(View(), r) == Settle(c, f.id, Receiving.HandleFrame(Environment(), c.streams[f.id], c.table, f))
    {
      hide Touched, StreamViews, Receiving.HandleFrame, ValidCodec;
      TouchedObjects(f.id);
      Looks(f);
      lastStream := streams[f.id];
      r := lastStream.HandleFrame(f);
      OneViewChanged(f.id, lastStream);
    }

    method AddStream(id: nat) returns (s: Stream)
      requires Wired() && id !in streams
      modifies this`streams
      ensures Wired() && fresh(s) && fresh(s.window) && streams == old(streams)[id := s]
      ensures s.id == id && s.View() == NewStream(id, Setting(settings, INITIAL_WINDOW_SIZE, DEFAULT_WINDOW_SIZE))
      ensures View() == old(View()).(streams := old(StreamViews())[id := s.View()])
    {
      hide StreamViews, ValidCodec;
      s := new Stream(id, isClient, maxHeaderSize, interpret, decoder, window,
        Setting(settings, INITIAL_WINDOW_SIZE, DEFAULT_WINDOW_SIZE));
      streams := streams[id := s];
      OneViewChanged(id, s);
    }

    method CreateStream() returns (s: Stream)
      requires Valid()
      modifies this`streams, this`nextStreamId
      ensures Valid() && fresh(s) && fresh(s.window) && s.id == old(nextStreamId) && s.id !in old(streams)
      ensures streams == old(streams)[s.id := s] && fresh(Touched() - old(Touched()))
      ensures View() == CreateLocal(old(View()))
    {
      hide Touched, StreamViews, Wired;
      s := AddStream(nextStreamId);
      TouchedGrows(nextStreamId, s);
      nextStreamId := nextStreamId + 2;
    }

    /** A client writes the request of a stream. */
    method WriteRequest(id: nat, head: bool)
      requires Valid() && id in streams
      modifies Touched()
      ensures Valid() && Touched() == old(Touched())
      ensures View() == Step(Environment(), old(View()), Request(id, head))
    {
      hide Touched, StreamViews, ValidCodec;
      TouchedObjects(id);
      LooksAt(id);
      streams[id].KeepRequest(head);
      OneViewChanged(id, streams[id]);
    }

    /** A writer of a stream asks for credit. */
    method Consume(id: nat, amount: nat) returns (r: Consumed)
      requires Valid() && id in streams && id > 0 && amount > 0
      requires NoLostWakeup(streams[id].window.View()) && NoLostWakeup(window.View())
      modifies Touched()
      ensures Valid() && Touched() == old(Touched()) && streams == old(streams)
      ensures NoLostWakeup(streams[id].window.View()) && NoLostWakeup(window.View())
      ensures var (w, shared) := AfterConsume(old(View()).streams[id].window, old(View()).window, id, amount);
              View() == Step(Environment(), Step(Environment(), old(View()), Write(id, w)), Write(0, shared))
    {
      hide Valid, Touched, StreamViews;
      TouchedObjects(id);
      OwnWindow(id);
      SharedWindow();
      LooksAt(id);
      r := streams[id].window.Consume(id, amount);
      OneViewChanged(id, streams[id]);
    }

    /** A stream's window is closed, and everybody waiting on it is woken. */
    method CloseWindow(id: nat)
      requires Valid() && id in streams && id > 0
      modifies Touched()
      ensures Valid() && Touched() == old(Touched())
      ensures View() == Step(Environment(), old(View()), Write(id, Closed(old(View()).streams[id].window)))
    {
      hide Valid, Touched, StreamViews;
      TouchedObjects(id);
      LooksAt(id);
      OwnWindow(id);
      SharedWindow();
      streams[id].window.Close();
      OneViewChanged(id, streams[id]);
    }

    /** A frame for a stream that a server creates for it. */
    method HandleOnNewStream(f: Frame) returns (r: Outcome)
      requires Valid() && f.id !in View().streams && f.id % 2 != nextStreamId % 2
      modifies Touched()
      ensures Valid() && fresh(Touched() - old(Touched()))
      ensures var c := CreateRemote(old(View()), f.id);
              Acted(View(), r) == Settle(c, f.id, Receiving.HandleFrame(Environment(), c.streams[f.id], c.table, f))
    {
      hide Wired, Touched, StreamViews, Receiving.HandleFrame;
      TouchedObjects(f.id);
      Looks(f);
      if f.id > maxRemoteStreamId {
        maxRemoteStreamId := f.id;
      }
      var s := AddStream(f.id);
      TouchedGrows(f.id, s);
      assert View() == CreateRemote(old(View()), f.id);
      r := HandleOnStream(f);
    }

    /** A frame for a stream that is not there. */
    method Refuse(f: Frame) returns (r: Outcome)
      ensures r == UnknownStream(View(), f)
    {
      var isLocal := f.id % 2 == nextStreamId % 2;
      var maxStreamId: int;
      if isLocal {
        maxStreamId := nextStreamId - 2;
      } else {
        maxStreamId := maxRemoteStreamId;
      }
      if f.id <= maxStreamId {
        if f.typ != WINDOW_UPDATE && f.typ != RST_STREAM {
          return StreamError(f.id, STREAM_CLOSED);
        }
        return Ok;
      }
      return ConnectionError(PROTOCOL_ERROR);
    }

    /** The loop's turn up to where errors are caught. */
    method Act(f: Frame) returns (r: Outcome)
      requires Valid()
      modifies Touched()
      ensures Valid() && fresh(Touched() - old(Touched()))
      ensures Acted(View(), r) == Dispatch.Act(Environment(), old(View()), f)
    {
      hide Touched, StreamViews, Receiving.HandleFrame, HandleControl, Settle, CreateRemote, ValidCodec;
      Looks(f);
      if lastStream != null && lastStream.headerFrames != [] {
        if f.typ != CONTINUATION || f.id != lastStream.id {
          return ConnectionError(PROTOCOL_ERROR);
        }
      }
      if f.id == 0 {
        r := HandleFrame(f);
      } else if f.id in streams {
        r := HandleOnStream(f);
      } else if !isClient && f.typ == HEADERS {
        if f.id % 2 == nextStreamId % 2 {
          return ConnectionError(PROTOCOL_ERROR);
        }
        r := HandleOnNewStream(f);
      } else {
        r := Refuse(f);
      }
    }

    /** The handlers of the errors that a turn may raise. */
    method Conclude(outcome: Outcome)
      requires Valid()
      modifies this`alive, this`replies
      ensures Valid() && Touched() == old(Touched())
      ensures View() == Dispatch.Conclude(Acted(old(View()), outcome))
    {
      hide Valid, Touched, StreamViews;
      match outcome {
        case Ok =>
        case StreamError(id, code) =>
          replies := replies + [ResetStream(id, code)];
        case ConnectionError(code) =>
          replies := replies + [GoAway(code)];
          alive := false;
        case Fatal =>
          alive := false;
      }
    }

    /** One turn of the loop. */
    method Receive(f: Frame)
      requires Valid()
      modifies Touched()
      ensures Valid() && fresh(Touched() - old(Touched()))
      ensures View() == Dispatch.Receive(Environment(), old(View()), f)
    {
      hide Valid, Touched, StreamViews, Dispatch.Act, Dispatch.Conclude;
      TouchedObjects(f.id);
      if alive {
        var outcome := Act(f);
        Conclude(outcome);
      }
    }

    /** The loop over the frames that are read. */
    method ConnLoop(frames: seq<Frame>)
      requires Valid()
      modifies Touched()
      ensures Valid() && fresh(Touched() - old(Touched()))
      ensures View() == ReceiveAll(Environment(), old(View()), frames)
    {
      hide Wired, LocalsBelow, StreamViews, Dispatch.Receive;
      LooksAt(0);
      for i := 0 to |frames|
        invariant Valid() && View().table.Valid() && fresh(Touched() - old(Touched()))
        invariant ReceiveAll(Environment(), View(), frames[i..]) == ReceiveAll(Environment(), old(View()), frames)
      {
        Receive(frames[i]);
      }
    }

    /** `_read_frame`: the frame at the front of the bytes that have arrived. */
    method ReadFrame(stream: bytes) returns (r: Reading)
      requires Valid()
      ensures r == Frames.ReadFrame(stream, ReadLimit(View()))
    {
      hide Wired, LocalsBelow, StreamViews, UnpackUint32;
      if |stream| < 9 {
        return Incomplete;
      }
      var length := UnpackUint32([0] + stream[..3]).value;
      var id := UnpackUint32(stream[5..9]).value;
      var limit := if MAX_FRAME_SIZE in settings then settings[MAX_FRAME_SIZE] else DEFAULT_MAX_FRAME_SIZE;
      if length > limit {
        return TooLarge;
      }
      if |stream| < 9 + length {
        return Incomplete;
      }
      r := Complete(Frame(TypeOf(stream[3]), stream[4], id % 0x8000_0000, stream[9..9 + length]), stream[9 + length..]);
    }

    /** One turn of the loop from bytes, if a whole frame or one that is too large has arrived. */
    method ServeFrame(stream: bytes) returns (served: bool, rest: bytes)
      requires Valid() && alive
      modifies Touched()
      ensures Valid() && fresh(Touched() - old(Touched()))
      ensures ReceiveBytes(Environment(), View(), rest) == ReceiveBytes(Environment(), old(View()), stream)
      ensures if served then |rest| < |stream|
              else rest == stream && ReceiveBytes(Environment(), View(), rest) == (View(), rest)
    {
      hide Wired, LocalsBelow, StreamViews, Dispatch.Receive;
      TouchedObjects(0);
      LooksAt(0);
      var r := ReadFrame(stream);
      match r {
        case Incomplete =>
          served, rest := false, stream;
        case TooLarge =>
          Conclude(ConnectionError(FRAME_SIZE_ERROR));
          served, rest := true, stream[9..];
        case Complete(f, more) =>
          Receive(f);
          served, rest := true, more;
      }
    }

    /** The loop from bytes; what is left is not read yet. */
    method ServeBytes(stream: bytes) returns (rest: bytes)
      requires Valid()
      modifies Touched()
      ensures Valid() && fresh(Touched() - old(Touched()))
      ensures (View(), rest) == ReceiveBytes(Environment(), old(View()), stream)
    {
      hide Wired, LocalsBelow, StreamViews, ReceiveBytes;
      LooksAt(0);
      rest := stream;
      var served := true;
      while served && alive
        invariant Valid() && View().table.Valid() && fresh(Touched() - old(Touched()))
        invariant ReceiveBytes(Environment(), View(), rest) == ReceiveBytes(Environment(), old(View()), stream)
        invariant !served ==> ReceiveBytes(Environment(), View(), rest) == (View(), rest)
        decreases |rest|, served
      {
        served, rest := ServeFrame(rest);
        LooksAt(0);
      }
      EndedLoop(Environment(), View(), rest);
    }
  }

  lemma EndedLoop(env: Env, c: Conn, stream: bytes)
    requires c.table.Valid()
    ensures !c.alive ==> ReceiveBytes(env, c, stream) == (c, stream)
  {
  }
}
