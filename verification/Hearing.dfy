/** What a receiving stream makes of the frames that the write path produces. */
module Hearing {
  import opened Bits
  import opened Protocol
  import opened Frames
  import opened DynamicTable
  import opened Hpack
  import opened Receiving
  import opened HeaderBlocks
  import opened PeerBlocks

  /** The length of the `data_received` call that came first between two states, if one did. */
  function NewlyHeard(s: StreamState, s': StreamState): nat {
    var n := |s.calls|;
    if n < |s'.calls| && s'.calls[n].DataReceived? then |s'.calls[n].data| else 0
  }

  // ---------- data ----------

  /** The delegate is given the payload of a DATA frame. */
  predicate Hears(s: StreamState, data: bytes) {
    && s.started && !s.finished && s.phase != TrailersPhase
    && (s.remaining.Some? ==> |data| <= s.remaining.value)
  }

  lemma EndedCalls(s: StreamState, flags: byte)
    ensures var s' := EndStream(s, flags).0;
            && s' == s.(started := s'.started, finished := s'.finished, calls := s'.calls)
            && Bodies(s'.calls) == Bodies(s.calls) && s.calls <= s'.calls
            && (|s.calls| < |s'.calls| ==> s'.calls[|s.calls|] == Finish)
            && (s'.finished ==> s.finished || Has(flags, FLAG_END_STREAM))
            && (s'.finished && !s.finished ==> s.remaining == None || s.remaining == Some(0))
            && (s'.finished == s.finished ==> s' == s || s.finished)
  {
    hide Bodies;
    CallsGrow(s.calls, Finish);
  }

  /** What a DATA frame without padding changes. */
  lemma DataHeard(s: StreamState, f: Frame)
    requires f.typ == DATA && !Has(f.flags, FLAG_PADDED) && s.headerFrames == [] && !s.finished
             && s.phase != TrailersPhase
    ensures var s', heard := HandleData(s, f).0, Hears(s, f.data);
            && s' == s.(phase := BodyPhase, remaining := s'.remaining, started := s'.started, finished := s'.finished,
                        calls := s'.calls)
            && s'.remaining == (if s.remaining.None? then None else Some(s.remaining.value - |f.data|))
            && Bodies(s'.calls) == (if heard then Bodies(s.calls) + f.data else Bodies(s.calls))
            && NewlyHeard(s, s') == (if heard then |f.data| else 0)
            && (s'.finished ==> Has(f.flags, FLAG_END_STREAM) && (s'.remaining == None || s'.remaining == Some(0)))
            && (if s.started then s'.started == !s'.finished else !s'.started && s'.calls == s.calls)
            && !HandleData(s, f).1.ConnectionError? && HandleData(s, f).1 != Fatal
  {
    hide Bodies;
    var s1 := Counted(s, |f.data|);
    var s2 := DataCall(s1, f.data);
    CallsGrow(s.calls, DataReceived(f.data));
    EndedCalls(s2, f.flags);
    assert f.data == [] ==> Bodies(s.calls) + f.data == Bodies(s.calls);
  }

  // ---------- headers ----------

  /** The stream as the interpretation of a header block finds it. */
  function Listening(env: Env, s: StreamState, f: Frame): StreamState {
    var tooLarge := env.isClient && |f.data| > env.maxHeaderSize;
    s.(phase := if s.phase == BodyPhase then TrailersPhase else s.phase,
       calls := if tooLarge then s.calls + [ConnectionClose] else s.calls)
  }

  /**
   * A whole block on a stream that is not finished is decoded to the very headers that were encoded,
   * these are interpreted, and the decoder's table becomes the encoder's.
   */
  lemma BlockHeard(env: Env, s: StreamState, t: Table, f: Frame, hs: seq<Header>)
    requires ValidCodec(env.cx) && t.Valid() && Carries(env.cx, t, f, hs) && s.headerFrames == [] && !s.finished
    ensures HandleFrame(env, s, t, f) ==
            AfterDecode(env, Listening(env, s, f), EncodeBlock(env.cx, t, hs).1, f.flags, SeenBlock(env.cx, t, hs))
  {
    hide AfterDecode, EncodeBlock, ParseHeaders, SeenBlock, ValidCodec, WithoutPriority, Has;
    KeptByPadding(f);
    JoinedSingle(f);
    assert [] + [f] == [f];
    var s1 := Listening(env, s, f).(headerFrames := [f]);
    BlockIsUnderstood(env, s1, t, f, hs);
    assert s1.(headerFrames := []) == Listening(env, s, f);
  }

  /** Whatever a header block without END_STREAM holds, no data is handed over and nothing is finished. */
  lemma BlockChanges(env: Env, s: StreamState, t: Table, f: Frame)
    requires t.Valid() && f.typ == HEADERS && Has(f.flags, FLAG_END_HEADERS) && !Has(f.flags, FLAG_PADDED)
    requires !Has(f.flags, FLAG_END_STREAM) && s.headerFrames == []
    ensures var s' := HandleFrame(env, s, t, f).s;
            && s'.headerFrames == [] && s'.finished == s.finished && s'.id == s.id
            && Bodies(s'.calls) == Bodies(s.calls) && NewlyHeard(s, s') == 0
            && (s.finished ==> s' == s && HandleFrame(env, s, t, f).t == t)
            && (!s.finished && s.phase != HeadersPhase ==>
                  s'.phase == TrailersPhase && s'.remaining == s.remaining && s'.started == s.started)
            && (s.phase == HeadersPhase ==> s'.phase != TrailersPhase && (s.started ==> s'.started)
                                            && (s'.phase == BodyPhase ==> s'.started))
  {
    hide Bodies, ParseHeaders, Joined;
    KeptByPadding(f);
    if !s.finished {
      var s1 := s.(phase := if s.phase == BodyPhase then TrailersPhase else s.phase, headerFrames := [f]);
      var s2 := if env.isClient && |f.data| > env.maxHeaderSize then s1.(calls := s1.calls + [ConnectionClose]) else s1;
      assert [] + [f] == [f];
      JoinedSingle(f);
      assert HandleFrame(env, s, t, f) == ParseHeaders(env, s2, t);
      CallsGrow(s.calls, ConnectionClose);
      ParsedChanges(env, s2, t);
    }
  }

  /** What interpreting a header block without END_STREAM may change. */
  ghost predicate OnlyStarts(s: StreamState, s': StreamState) {
    && s' == s.(headerFrames := [], phase := s'.phase, remaining := s'.remaining, started := s'.started, calls :=
       s'.calls)
    && Bodies(s'.calls) == Bodies(s.calls) && s.calls <= s'.calls
    && (|s.calls| < |s'.calls| ==> s'.calls[|s.calls|].HeadersReceived?)
    && (s.phase != HeadersPhase ==> s' == s.(headerFrames := []))
    && (s.phase == HeadersPhase ==>
          s'.phase != TrailersPhase && (s.started ==> s'.started) && (s'.phase == BodyPhase ==> s'.started))
  }

  lemma StartChanges(isClient: bool, s: StreamState, status: int, length: Length)
    requires s.phase == HeadersPhase && s.headerFrames == []
    ensures OnlyStarts(s, StartRequest(isClient, s, status, length).0)
  {
    hide Bodies, StartRequest;
    StartIsBegin(isClient, s, status, length);
    CallsGrow(s.calls, HeadersReceived(status, StartRequest(isClient, s, status, length).0.remaining));
  }

  lemma StartIsBegin(isClient: bool, s: StreamState, status: int, length: Length)
    ensures var s' := StartRequest(isClient, s, status, length).0;
            s' == s || s' == Begin(isClient, s, status, s'.remaining)
  {
  }

  lemma InterpretChanges(env: Env, s: StreamState, t: Table, flags: byte, headers: seq<Decoded>)
    requires s.headerFrames == [] && !Has(flags, FLAG_END_STREAM)
    ensures OnlyStarts(s, AfterDecode(env, s, t, flags, headers).s)
  {
    hide StartRequest, Has;
    var v := env.interpret(s.phase == TrailersPhase, headers);
    if v.Accept? && s.phase == HeadersPhase {
      StartChanges(env.isClient, s, v.status, v.length);
    }
  }

  lemma ParsedChanges(env: Env, s: StreamState, t: Table)
    requires t.Valid() && s.headerFrames != [] && !Has(s.headerFrames[0].flags, FLAG_END_STREAM)
    ensures OnlyStarts(s, ParseHeaders(env, s, t).s)
  {
    hide DecodeBlock, Joined, AfterDecode, Has;
    var s0 := s.(headerFrames := []);
    var block := WithoutPriority(s.headerFrames[0], Joined(s.headerFrames)).0;
    if block.Some? {
      var (headers, t') := DecodeBlock(env.cx, t, BytesBits(block.value), true);
      if headers.Some? {
        InterpretChanges(env, s0, t', s.headerFrames[0].flags, headers.value);
      }
    }
  }

  /** RST_STREAM may tell the delegate, and changes nothing else. */
  lemma ResetChanges(env: Env, s: StreamState, t: Table, f: Frame)
    requires t.Valid() && f.typ == RST_STREAM && |f.data| == 4
    ensures var h := HandleFrame(env, s, t, f);
            && h.t == t && h.outcome == Ok && h.s == s.(calls := h.s.calls)
            && Bodies(h.s.calls) == Bodies(s.calls) && NewlyHeard(s, h.s) == 0
  {
    CallsGrow(s.calls, ConnectionClose);
  }
}
