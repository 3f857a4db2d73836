/** A server's first frames, byte by byte. */
module ConnectionExamples {
  import opened Bits
  import opened Protocol
  import opened FlowControl
  import opened Frames
  import opened DynamicTable
  import opened StaticTable
  import opened Hpack
  import opened HpackFormat
  import opened HpackExamples
  import opened Receiving
  import opened Dispatch
  import opened ByteLoop
  import opened ContentLength

  /** SETTINGS with INITIAL_WINDOW_SIZE 6291456. */
  const SETTINGS_BYTES: bytes := [0, 0, 6, 4, 0, 0, 0, 0, 0, 0, 4, 0, 96, 0, 0]

  /** HEADERS on stream 1 with END_STREAM and END_HEADERS, and the block of GET http / without an authority. */
  const REQUEST_BYTES: bytes := [0, 0, 3, 1, 5, 0, 0, 0, 1, 130, 134, 132]

  const REQUEST_FRAME := Frame(HEADERS, 5, 1, [130, 134, 132])

  const REQUEST_FIELDS := [AsDecoded(":method", "GET"), AsDecoded(":scheme", "http"), AsDecoded(":path", "/")]

  lemma BytesRead(rest: bytes, limit: nat)
    requires limit >= 6
    ensures ReadFrame(SETTINGS_BYTES + rest, limit) == Complete(Frame(SETTINGS, 0, 0, [0, 4, 0, 96, 0, 0]), rest)
    ensures ReadFrame(REQUEST_BYTES + rest, limit) == Complete(REQUEST_FRAME, rest)
  {
    assert (SETTINGS_BYTES + rest)[9..15] == [0, 4, 0, 96, 0, 0] && (SETTINGS_BYTES + rest)[15..] == rest;
    assert (REQUEST_BYTES + rest)[9..12] == [130, 134, 132] && (REQUEST_BYTES + rest)[12..] == rest;
  }

  lemma RequestBlock(cx: Codec)
    requires ValidCodec(cx) && cx.st.rows == STATIC_ROWS
    ensures DecodeBlock(cx, Table([], 0, 4096), BytesBits([130, 134, 132]), true) ==
            (Some(REQUEST_FIELDS), Table([], 0, 4096))
  {
    hide BytesBits, DecodeBlock, PairAt, ValidCodec, Ascii, Prepend, STATIC_ROWS;
    var t := Table([], 0, 4096);
    FirstLines();
    PairStep(cx, t, 2, [134] + ([132] + []), true);
    PairStep(cx, t, 6, [132] + [], false);
    PairStep(cx, t, 4, [], false);
    NothingLeft(cx, t, false);
    assert [130] + ([134] + ([132] + [])) == [130, 134, 132];
    ThreeTogether(AsDecoded(":method", "GET"), AsDecoded(":scheme", "http"), AsDecoded(":path", "/"), t);
  }

  lemma ThreeTogether(a: Decoded, b: Decoded, c: Decoded, t: Table)
    ensures Prepend(a, Prepend(b, Prepend(c, (Some([]), t)))) == (Some([a, b, c]), t)
  {
    assert [c] + [] == [c] && [b] + [c] == [b, c] && [a] + [b, c] == [a, b, c];
  }

  /** The server's connection once the settings have been read. */
  lemma SettingsRead(env: Env)
    ensures var c := Receive(env, Opened(false, 4096), Frame(SETTINGS, 0, 0, [0, 4, 0, 96, 0, 0]));
            c == Opened(false, 4096).(settings := map[4 := 6291456], replies := [SettingsAck])
  {
    assert [0, 4, 0, 96, 0, 0][6..] == [];
    assert FirstSetting([0, 4, 0, 96, 0, 0]) == (4, 6291456);
  }

  /** The request on a stream that has just been created. */
  lemma RequestHandled(env: Env, status: int)
    requires ValidCodec(env.cx) && env.cx.st.rows == STATIC_ROWS && !env.isClient
    requires env.interpret(false, REQUEST_FIELDS) == Accept(status, Absent)
    ensures var s := NewStream(1, 6291456);
            HandleFrame(env, s, Table([], 0, 4096), REQUEST_FRAME) ==
            Handled(s.(phase := BodyPhase, finished := true, calls := [HeadersReceived(status, None), Finish]),
                    Table([], 0, 4096), Ok)
  {
    hide BytesBits, DecodeBlock, ValidCodec, STATIC_ROWS, HandleFrame, REQUEST_FIELDS;
    RequestBlock(env.cx);
    BlockIsInterpreted(env, NewStream(1, 6291456), Table([], 0, 4096), REQUEST_FRAME, REQUEST_FIELDS);
    var h := HeadersReceived(status, None);
    assert [] + [h] == [h] && [h] + [Finish] == [h, Finish];
  }

  /**
   * If the application accepts it, the request is complete: its delegate is told of the headers and of the end, the
   * settings are acknowledged, and the stream may be sent 6291456 bytes.
   */
  lemma FirstRequestServed(env: Env, status: int)
    requires ValidCodec(env.cx) && env.cx.st.rows == STATIC_ROWS && !env.isClient
    requires env.interpret(false, REQUEST_FIELDS) == Accept(status, Absent)
    ensures var (c, rest) := ReceiveBytes(env, Opened(false, 4096), SETTINGS_BYTES + REQUEST_BYTES);
            && rest == [] && c.alive && c.replies == [SettingsAck] && c.streams.Keys == {1}
            && c.streams[1].finished && c.streams[1].window == Win(6291456, false, {})
            && c.streams[1].calls == [HeadersReceived(status, None), Finish]
  {
    hide BytesBits, DecodeBlock, ValidCodec, HandleFrame, ReadFrame, STATIC_ROWS, REQUEST_FIELDS, HandleControl,
      SETTINGS_BYTES, REQUEST_BYTES;
    BytesRead(REQUEST_BYTES, 16384);
    BytesRead([], 16384);
    assert REQUEST_BYTES + [] == REQUEST_BYTES;
    SettingsRead(env);
    RequestHandled(env, status);
    NothingRead(16384);
    var c1 := Opened(false, 4096).(settings := map[4 := 6291456], replies := [SettingsAck]);
    Served(env, c1, status);
    OneFrame(env, Opened(false, 4096), SETTINGS_BYTES + REQUEST_BYTES);
    OneFrame(env, c1, REQUEST_BYTES);
  }

  lemma OneFrame(env: Env, c: Conn, stream: bytes)
    requires c.table.Valid() && c.alive && ReadFrame(stream, ReadLimit(c)).Complete?
    ensures var r := ReadFrame(stream, ReadLimit(c));
            ReceiveBytes(env, c, stream) == ReceiveBytes(env, Receive(env, c, r.frame), r.rest)
  {
    hide Receive, ReadFrame;
  }

  lemma Served(env: Env, c: Conn, status: int)
    requires ValidCodec(env.cx) && env.cx.st.rows == STATIC_ROWS && !env.isClient
    requires env.interpret(false, REQUEST_FIELDS) == Accept(status, Absent)
    requires c == Opened(false, 4096).(settings := map[4 := 6291456], replies := [SettingsAck])
    ensures var c' := Receive(env, c, REQUEST_FRAME);
            && c'.alive && c'.replies == [SettingsAck] && c'.settings == c.settings && c'.streams.Keys == {1}
            && c'.streams[1].finished && c'.streams[1].window == Win(6291456, false, {})
            && c'.streams[1].calls == [HeadersReceived(status, None), Finish]
  {
    hide ValidCodec, HandleFrame, STATIC_ROWS, REQUEST_FIELDS;
    RequestHandled(env, status);
  }
}
