/**
 * Which bodies complete a message: the length its headers declare (section 8.1.2.6 of RFC 7540), from
 * the first frame.
 */
module ContentLength {
  import opened Bits
  import opened Protocol
  import opened Frames
  import opened DynamicTable
  import opened Hpack
  import opened Receiving
  import opened HeaderBlocks

  /** A header list in one HEADERS frame that is neither padded nor prioritised. */
  ghost predicate Whole(env: Env, t: Table, f: Frame, headers: seq<Decoded>)
    requires t.Valid()
  {
    && f.typ == HEADERS && Has(f.flags, FLAG_END_HEADERS)
    && !Has(f.flags, FLAG_PADDED) && !Has(f.flags, FLAG_PRIORITY)
    && DecodeBlock(env.cx, t, BytesBits(f.data), true).0 == Some(headers)
  }

  /** A stream that still waits for its headers; a client has written its request. */
  predicate AwaitsHeaders(env: Env, s: StreamState) {
    && s.phase == HeadersPhase && s.headerFrames == [] && !s.finished
    && (env.isClient ==> s.headRequest.Some?)
  }

  /** The stream as the interpretation of a header block finds it: a second block holds trailers. */
  function Listens(env: Env, s: StreamState, f: Frame): StreamState {
    var tooLarge := env.isClient && |f.data| > env.maxHeaderSize;
    s.(phase := if s.phase == BodyPhase then TrailersPhase else s.phase,
       calls := if tooLarge then s.calls + [ConnectionClose] else s.calls)
  }

  /** The whole block of a HEADERS frame without padding is parsed at once. */
  lemma ParsedAtOnce(env: Env, s: StreamState, t: Table, f: Frame)
    requires t.Valid() && s.headerFrames == [] && !s.finished
    requires f.typ == HEADERS && Has(f.flags, FLAG_END_HEADERS) && !Has(f.flags, FLAG_PADDED)
    ensures var s1 := Listens(env, s, f).(headerFrames := [f]);
            && HandleFrame(env, s, t, f) == ParseHeaders(env, s1, t)
            && s1.(headerFrames := []) == Listens(env, s, f) && Joined(s1.headerFrames) == f.data
  {
    hide ParseHeaders, Has;
    KeptByPadding(f);
    JoinedSingle(f);
    assert [] + [f] == [f];
  }

  lemma BlockIsInterpreted(env: Env, s: StreamState, t: Table, f: Frame, headers: seq<Decoded>)
    requires t.Valid() && Whole(env, t, f, headers) && s.headerFrames == [] && !s.finished
    ensures HandleFrame(env, s, t, f) ==
            AfterDecode(env, Listens(env, s, f), DecodeBlock(env.cx, t, BytesBits(f.data), true).1, f.flags, headers)
  {
    hide HandleFrame, AfterDecode, DecodeBlock, Has, BytesBits;
    ParsedAtOnce(env, s, t, f);
  }

  /** A response to HEAD or with status 304 has no body. */
  predicate NoBody(env: Env, s: StreamState, status: int) {
    env.isClient && (s.headRequest == Some(true) || status == 304)
  }

  /** The stream accepts the header list: the length it declares, if it matters, is a number. */
  ghost predicate Accepted(env: Env, s: StreamState, headers: seq<Decoded>) {
    var v := env.interpret(false, headers);
    v.Accept? && (v.length != Malformed || NoBody(env, s, v.status))
  }

  /** The length that the body must have, if any. */
  function BodyLength(env: Env, s: StreamState, status: int, length: Length): (r: Option<int>)
    ensures NoBody(env, s, status) ==> r == Some(0)
    ensures !NoBody(env, s, status) && length.Declared? ==> r == Some(length.n)
    ensures !NoBody(env, s, status) && length.Absent? ==> r == s.remaining
  {
    if NoBody(env, s, status) then Some(0)
    else if length.Declared? then Some(length.n)
    else s.remaining
  }

  /**
   * Accepted headers are handed over with that length, and only those of an informational response
   * leave room for others.
   */
  lemma HeadersAccepted(env: Env, s: StreamState, t: Table, f: Frame, headers: seq<Decoded>)
    requires t.Valid() && Whole(env, t, f, headers) && AwaitsHeaders(env, s)
    requires Accepted(env, s, headers) && !Has(f.flags, FLAG_END_STREAM)
    ensures var v, h := env.interpret(false, headers), HandleFrame(env, s, t, f);
            var length := BodyLength(env, s, v.status, v.length);
            && h.outcome == Ok && h.t.Valid()
            && h.s == s.(phase := h.s.phase, remaining := length, started := true, calls := h.s.calls)
            && h.s.phase == (if env.isClient && v.status < 200 then HeadersPhase else BodyPhase)
            && h.s.calls == Listens(env, s, f).calls + [HeadersReceived(v.status, length)]
  {
    hide DecodeBlock, HandleFrame, Has, BytesBits;
    BlockIsInterpreted(env, s, t, f, headers);
  }

  // ---------- the body that completes a message ----------

  lemma UnlimitedFrame(env: Env, s: StreamState, t: Table, flags: byte, payload: bytes)
    requires t.Valid() && !Has(flags, FLAG_PADDED)
    requires s.phase != TrailersPhase && s.headerFrames == [] && !s.finished && s.remaining.None?
    ensures var r := HandleFrame(env, s, t, Frame(DATA, flags, s.id, payload));
            && r.t == t && r.s.id == s.id && r.s.phase == BodyPhase && r.s.headerFrames == []
            && r.s.remaining.None? && (r.s.finished <==> Has(flags, FLAG_END_STREAM))
  {
  }

  lemma {:induction false} UnlimitedBody(env: Env, s: StreamState, t: Table, payloads: seq<bytes>)
    requires t.Valid() && payloads != []
    requires s.phase != TrailersPhase && s.headerFrames == [] && !s.finished && s.remaining.None?
    ensures HandleFrames(env, s, t, Body(s.id, payloads)).finished
    decreases |payloads|
  {
    hide HandleFrame;
    var frames := Body(s.id, payloads);
    UnlimitedFrame(env, s, t, frames[0].flags, payloads[0]);
    var h := HandleFrame(env, s, t, frames[0]);
    assert frames[1..] == Body(s.id, payloads[1..]);
    if |payloads| > 1 {
      UnlimitedBody(env, h.s, t, payloads[1..]);
    }
  }

  lemma MessageCompletes(env: Env, s: StreamState, t: Table, f: Frame, headers: seq<Decoded>, payloads: seq<bytes>)
    requires t.Valid() && Whole(env, t, f, headers) && AwaitsHeaders(env, s) && payloads != []
    requires Accepted(env, s, headers) && !Has(f.flags, FLAG_END_STREAM)
    ensures var v := env.interpret(false, headers);
            var length := BodyLength(env, s, v.status, v.length);
            HandleFrames(env, s, t, [f] + Body(s.id, payloads)).finished <==>
            length.None? || TotalLength(payloads) == length.value
  {
    hide HandleFrame, BodyLength, Body, DecodeBlock, Whole;
    HeadersAccepted(env, s, t, f, headers);
    var h := HandleFrame(env, s, t, f);
    assert ([f] + Body(s.id, payloads))[1..] == Body(s.id, payloads);
    if h.s.remaining.Some? {
      BodyCompletes(env, h.s, h.t, payloads);
    } else {
      UnlimitedBody(env, h.s, h.t, payloads);
    }
  }

  /**
   * A request, or a response to anything but HEAD, is complete exactly if its body has the length its
   * headers declare.
   */
  lemma DeclaredLengthCompletes(env: Env, s: StreamState, t: Table, f: Frame, headers: seq<Decoded>, n: int,
      status: int, payloads: seq<bytes>)
    requires t.Valid() && Whole(env, t, f, headers) && AwaitsHeaders(env, s) && payloads != []
             && !Has(f.flags, FLAG_END_STREAM)
    requires env.interpret(false, headers) == Accept(status, Declared(n))
    requires !NoBody(env, s, status)
    ensures HandleFrames(env, s, t, [f] + Body(s.id, payloads)).finished <==> TotalLength(payloads) == n
  {
    hide HandleFrames, Whole;
    MessageCompletes(env, s, t, f, headers, payloads);
  }

  /** A response to HEAD or with status 304 is complete exactly without a body, whatever its headers declare. */
  lemma EmptyBodyCompletes(env: Env, s: StreamState, t: Table, f: Frame, headers: seq<Decoded>, status: int,
      length: Length, payloads: seq<bytes>)
    requires t.Valid() && Whole(env, t, f, headers) && AwaitsHeaders(env, s) && payloads != []
    requires !Has(f.flags, FLAG_END_STREAM) && env.interpret(false, headers) == Accept(status, length)
    requires env.isClient && (s.headRequest == Some(true) || status == 304)
    ensures HandleFrames(env, s, t, [f] + Body(s.id, payloads)).finished <==> TotalLength(payloads) == 0
  {
    hide HandleFrames, Whole;
    MessageCompletes(env, s, t, f, headers, payloads);
  }

  /** A message that declares no length is complete with any body. */
  lemma UndeclaredCompletes(env: Env, s: StreamState, t: Table, f: Frame, headers: seq<Decoded>, status: int,
      payloads: seq<bytes>)
    requires t.Valid() && Whole(env, t, f, headers) && AwaitsHeaders(env, s) && payloads != [] && s.remaining.None?
    requires !Has(f.flags, FLAG_END_STREAM)
    requires env.interpret(false, headers) == Accept(status, Absent)
    requires !NoBody(env, s, status)
    ensures HandleFrames(env, s, t, [f] + Body(s.id, payloads)).finished
  {
    hide HandleFrames, Whole;
    MessageCompletes(env, s, t, f, headers, payloads);
  }

  /**
   * An informational response does not count: the final headers behind it are accepted, and it is the length these
   * declare that completes the message.
   */
  lemma FinalHeadersDecide(env: Env, s: StreamState, t: Table, f: Frame, early: seq<Decoded>, g: Frame,
      headers: seq<Decoded>, n: int, status: int, payloads: seq<bytes>)
    requires t.Valid() && AwaitsHeaders(env, s) && env.isClient && s.headRequest == Some(false) && payloads != []
    requires Whole(env, t, f, early) && Accepted(env, s, early) && env.interpret(false, early).status < 200
    requires Whole(env, HandleFrame(env, s, t, f).t, g, headers)
    requires env.interpret(false, headers) == Accept(status, Declared(n)) && status != 304
    requires !Has(f.flags, FLAG_END_STREAM) && !Has(g.flags, FLAG_END_STREAM)
    ensures HandleFrames(env, s, t, [f, g] + Body(s.id, payloads)).finished <==> TotalLength(payloads) == n
  {
    hide HandleFrame, Body, Whole;
    HeadersAccepted(env, s, t, f, early);
    var h := HandleFrame(env, s, t, f);
    DeclaredLengthCompletes(env, h.s, h.t, g, headers, n, status, payloads);
    assert ([f, g] + Body(s.id, payloads))[1..] == [g] + Body(s.id, payloads);
  }

  /** Headers that end the stream complete the message exactly if they leave no length to wait for. */
  lemma HeadersAlone(env: Env, s: StreamState, t: Table, f: Frame, headers: seq<Decoded>)
    requires t.Valid() && Whole(env, t, f, headers) && AwaitsHeaders(env, s) && Accepted(env, s, headers)
    requires Has(f.flags, FLAG_END_STREAM)
    ensures var v, h := env.interpret(false, headers), HandleFrame(env, s, t, f);
            var left := if NoBody(env, s, v.status) then Some(0)
                        else if v.length.Declared? then Some(v.length.n)
                        else s.remaining;
            && (h.s.finished <==> left.None? || left == Some(0))
            && h.outcome == if h.s.finished then Ok else StreamError(s.id, PROTOCOL_ERROR)
  {
    hide DecodeBlock, HandleFrame, Has, BytesBits;
    BlockIsInterpreted(env, s, t, f, headers);
  }

  /** A second block must end the stream, and completes the message exactly if no length is left to wait for. */
  lemma TrailersEnd(env: Env, s: StreamState, t: Table, f: Frame, headers: seq<Decoded>)
    requires t.Valid() && Whole(env, t, f, headers) && s.phase == BodyPhase && s.headerFrames == [] && !s.finished
    requires env.interpret(true, headers).Accept?
    ensures var h := HandleFrame(env, s, t, f);
            && (h.s.finished <==> Has(f.flags, FLAG_END_STREAM) && (s.remaining.None? || s.remaining == Some(0)))
            && h.outcome == (if h.s.finished then Ok else StreamError(s.id, PROTOCOL_ERROR))
            && h.s.remaining == s.remaining && h.s.phase == TrailersPhase
  {
    hide DecodeBlock, HandleFrame, Has, BytesBits;
    BlockIsInterpreted(env, s, t, f, headers);
  }

  // ---------- blocks that are refused ----------

  /** How a header list is refused; whatever it says, the decoder has decoded it. */
  lemma RefusedHeaders(env: Env, s: StreamState, t: Table, f: Frame, headers: seq<Decoded>)
    requires t.Valid() && Whole(env, t, f, headers) && s.headerFrames == [] && !s.finished
    ensures var h, v := HandleFrame(env, s, t, f), env.interpret(s.phase != HeadersPhase, headers);
            && (v.RefuseStream? ==> h.outcome == StreamError(s.id, PROTOCOL_ERROR))
            && (v.RefuseConnection? ==> h.outcome == ConnectionError(PROTOCOL_ERROR))
            && (v.Raise? ==> h.outcome == Fatal)
            && (!v.Accept? ==> h.s == Listens(env, s, f))
            && (s.phase == HeadersPhase && v.Accept? && !Accepted(env, s, headers) ==> h.outcome == Fatal)
            && (s.phase == HeadersPhase && v.Accept? && env.isClient && s.headRequest.None? ==> h.outcome == Fatal)
            && h.t == DecodeBlock(env.cx, t, BytesBits(f.data), true).1
  {
    hide DecodeBlock, HandleFrame, Has, BytesBits;
    BlockIsInterpreted(env, s, t, f, headers);
  }

  /** A block that does not decode ends the connection, whatever the stream; the table keeps what was decoded of it. */
  lemma UndecodableBlock(env: Env, s: StreamState, t: Table, f: Frame)
    requires t.Valid() && s.headerFrames == [] && !s.finished
    requires f.typ == HEADERS && Has(f.flags, FLAG_END_HEADERS)
    requires !Has(f.flags, FLAG_PADDED) && !Has(f.flags, FLAG_PRIORITY)
    requires DecodeBlock(env.cx, t, BytesBits(f.data), true).0 == None
    ensures HandleFrame(env, s, t, f) ==
            Handled(Listens(env, s, f), DecodeBlock(env.cx, t, BytesBits(f.data), true).1,
                    ConnectionError(COMPRESSION_ERROR))
  {
    hide HandleFrame, AfterDecode, DecodeBlock, Has, BytesBits;
    ParsedAtOnce(env, s, t, f);
  }

  lemma Dependency(f: Frame, data: bytes)
    requires Has(f.flags, FLAG_PRIORITY) && |data| >= 5
    ensures WithoutPriority(f, data) ==
            if BigEndian(data[..4]) % 0x8000_0000 == f.id then (None, ConnectionError(PROTOCOL_ERROR))
            else (Some(data[5..]), Ok)
  {
    hide Has;
  }

  /** A stream that depends on itself ends the connection. */
  lemma DependsOnItself(env: Env, s: StreamState, t: Table, f: Frame)
    requires t.Valid() && s.headerFrames == [] && !s.finished
    requires f.typ == HEADERS && Has(f.flags, FLAG_END_HEADERS) && !Has(f.flags, FLAG_PADDED)
    requires Has(f.flags, FLAG_PRIORITY) && |f.data| >= 5 && BigEndian(f.data[..4]) % 0x8000_0000 == f.id
    ensures HandleFrame(env, s, t, f) == Handled(Listens(env, s, f), t, ConnectionError(PROTOCOL_ERROR))
  {
    hide HandleFrame, AfterDecode, DecodeBlock, BytesBits, Has, BigEndian, WithoutPriority;
    Dependency(f, f.data);
    ParsedAtOnce(env, s, t, f);
  }

  /** A block too short for its priority fields raises, and nothing is decoded. */
  lemma PriorityCutShort(env: Env, s: StreamState, t: Table, f: Frame)
    requires t.Valid() && s.headerFrames == [] && !s.finished
    requires f.typ == HEADERS && Has(f.flags, FLAG_END_HEADERS) && !Has(f.flags, FLAG_PADDED)
    requires Has(f.flags, FLAG_PRIORITY) && |f.data| < 5
    ensures HandleFrame(env, s, t, f) == Handled(Listens(env, s, f), t, Fatal)
  {
    hide HandleFrame, AfterDecode, DecodeBlock, BytesBits, Has;
    ParsedAtOnce(env, s, t, f);
  }

  /**
   * Section 6.2 of RFC 7540: on a server any other dependency, and the weight behind it, change nothing: the frame is
   * handled like one without them.
   */
  lemma PriorityIsIgnored(env: Env, s: StreamState, t: Table, f: Frame, g: Frame)
    requires t.Valid() && s.headerFrames == [] && !s.finished && !env.isClient
    requires f.typ == HEADERS && Has(f.flags, FLAG_END_HEADERS) && !Has(f.flags, FLAG_PADDED)
    requires Has(f.flags, FLAG_PRIORITY) && |f.data| >= 5 && BigEndian(f.data[..4]) % 0x8000_0000 != f.id
    requires g.typ == HEADERS && Has(g.flags, FLAG_END_HEADERS) && !Has(g.flags, FLAG_PADDED)
    requires !Has(g.flags, FLAG_PRIORITY) && g.id == f.id && g.data == f.data[5..]
    requires Has(f.flags, FLAG_END_STREAM) <==> Has(g.flags, FLAG_END_STREAM)
    ensures HandleFrame(env, s, t, f) == HandleFrame(env, s, t, g)
  {
    hide HandleFrame, AfterDecode, DecodeBlock, BytesBits, Has, BigEndian;
    Dependency(f, f.data);
    ParsedAtOnce(env, s, t, f);
    ParsedAtOnce(env, s, t, g);
    SameEnd(env, Listens(env, s, f), t, f, g);
  }

  lemma SameEnd(env: Env, s: StreamState, t: Table, f: Frame, g: Frame)
    requires t.Valid() && (Has(f.flags, FLAG_END_STREAM) <==> Has(g.flags, FLAG_END_STREAM))
    ensures forall t', headers :: AfterDecode(env, s, t', f.flags, headers) == AfterDecode(env, s, t', g.flags, headers)
  {
    hide Has;
  }
}
