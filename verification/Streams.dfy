/** The receiving half of a stream, as the object the code updates (tornado_http2/stream.py). */
module Streams {
  import opened Bits
  import opened Protocol
  import opened FlowControl
  import opened Frames
  import opened Hpack
  import opened HpackCodec
  import opened Receiving

  lemma JoinedNext(frames: seq<Frame>, i: nat)
    requires i < |frames|
    ensures Joined(frames[..i + 1]) == Joined(frames[..i]) + frames[i].data
  {
    assert frames[..i + 1][..i] == frames[..i];
  }

  /** The data of all fragments in order. */
  method JoinData(frames: seq<Frame>) returns (data: bytes)
    ensures data == Joined(frames)
  {
    data := [];
    for i := 0 to |frames|
      invariant data == Joined(frames[..i])
    {
      JoinedNext(frames, i);
      data := data + frames[i].data;
    }
    assert frames[..|frames|] == frames;
  }

  /** The length of all fragments together. */
  method SumLengths(frames: seq<Frame>) returns (total: nat)
    ensures total == |Joined(frames)|
  {
    total := 0;
    for i := 0 to |frames|
      invariant total == |Joined(frames[..i])|
    {
      JoinedNext(frames, i);
      total := total + |frames[i].data|;
    }
    assert frames[..|frames|] == frames;
  }

  class Stream {
    const id: nat
    const isClient: bool
    const maxHeaderSize: nat
    const interpret: (bool, seq<Decoded>) -> Verdict
    const decoder: HpackDecoder
    const window: Window
    var headRequest: Option<bool>
    var phase: Phase
    var headerFrames: seq<Frame>
    var remaining: Option<int>
    var started: bool
    var finished: bool
    var calls: seq<Call>

    ghost predicate Valid()
      reads window, decoder, decoder.table, decoder.tree
    {
      window.parent != null && window.streamId == id && decoder.Valid()
    }

    ghost function Environment(): Env {
      Env(decoder.cx, isClient, maxHeaderSize, interpret)
    }

    function View(): StreamState
      reads this, window
    {
      StreamState(id, headRequest, phase, headerFrames, remaining, started, finished, window.View(), calls)
    }

    twostate predicate WindowKept()
      reads window
    {
      window.View() == old(window.View())
    }

    constructor (id: nat, isClient: bool, maxHeaderSize: nat, interpret: (bool, seq<Decoded>) -> Verdict,
                 decoder: HpackDecoder, parent: Window, initialWindowSize: int)
      requires decoder.Valid()
      ensures Valid() && fresh(window) && window.parent == parent && this.decoder == decoder
      ensures Environment() == Env(decoder.cx, isClient, maxHeaderSize, interpret)
      ensures View() == NewStream(id, initialWindowSize) && this.id == id
    {
      this.id, this.isClient, this.maxHeaderSize, this.interpret := id, isClient, maxHeaderSize, interpret;
      this.decoder := decoder;
      window := new Window(parent, id, initialWindowSize);
      headRequest, phase, headerFrames, remaining := None, HeadersPhase, [], None;
      started, finished, calls := false, false, [];
    }

    /** The part of `write_headers` that receiving depends on: a client keeps its request line. */
    method KeepRequest(head: bool)
      modifies this`headRequest
      ensures View() == old(View()).(headRequest := Some(head))
    {
      headRequest := Some(head);
    }

    method MaybeEndStream(flags: byte) returns (ended: bool, r: Outcome)
      modifies this`started, this`finished, this`calls
      ensures (View(), r) == EndStream(old(View()), flags)
      ensures ended == (r == Ok && Has(flags, FLAG_END_STREAM))
    {
      if !Has(flags, FLAG_END_STREAM) {
        return false, Ok;
      }
      if remaining.Some? && remaining.value != 0 {
        return false, StreamError(id, PROTOCOL_ERROR);
      }
      if started {
        started := false;
        calls := calls + [Finish];
      }
      finished := true;
      return true, Ok;
    }

    method StartRequest(status: int, length: Length) returns (r: Outcome)
      modifies this`phase, this`remaining, this`started, this`calls
      ensures (View(), r) == Receiving.StartRequest(isClient, old(View()), status, length)
    {
      if isClient && headRequest.None? {
        return Fatal;
      }
      if isClient && (headRequest.value || status == 304) {
        remaining := Some(0);
      } else if length.Malformed? {
        return Fatal;
      } else if length.Declared? {
        remaining := Some(length.n);
      }
      if !isClient || status >= 200 {
        phase := BodyPhase;
      }
      started := true;
      calls := calls + [HeadersReceived(status, remaining)];
      return Ok;
    }

    /** The part of `_parse_headers` after the decoder has returned. */
    method UseHeaders(flags: byte, headers: seq<Decoded>) returns (r: Outcome)
      requires Valid()
      modifies this`phase, this`remaining, this`started, this`finished, this`calls
      ensures Valid()
      ensures Handled(View(), decoder.table.View(), r) ==
              AfterDecode(Environment(), old(View()), decoder.table.View(), flags, headers)
    {
      match interpret(phase == TrailersPhase, headers) {
        case RefuseStream => return StreamError(id, PROTOCOL_ERROR);
        case RefuseConnection => return ConnectionError(PROTOCOL_ERROR);
        case Raise => return Fatal;
        case Accept(status, length) =>
          if phase == HeadersPhase {
            r := StartRequest(status, length);
            if r != Ok {
              return;
            }
          }
          var ended;
          ended, r := MaybeEndStream(flags);
          if r == Ok && !ended && phase == TrailersPhase {
            return StreamError(id, PROTOCOL_ERROR);
          }
      }
    }

    method ParseHeaders() returns (r: Outcome)
      requires Valid() && headerFrames != []
      modifies this, decoder.table, decoder.tree
      ensures Valid() && WindowKept()
      ensures Handled(View(), decoder.table.View(), r) ==
              Receiving.ParseHeaders(Environment(), old(View()), old(decoder.table.View()))
    {
      hide AfterDecode, DecodeBlock, ValidCodec;
      var frame := headerFrames[0];
      var data := JoinData(headerFrames);
      headerFrames := [];
      if Has(frame.flags, FLAG_PRIORITY) {
        if |data| < 5 {
          return Fatal;
        }
        var streamDep := UnpackUint32(data[..4]).value % 0x8000_0000;
        data := data[5..];
        if streamDep == frame.id {
          return ConnectionError(PROTOCOL_ERROR);
        }
      }
      var headers := decoder.Decode(data);
      if headers.None? {
        return ConnectionError(COMPRESSION_ERROR);
      }
      r := UseHeaders(frame.flags, headers.value);
    }

    method CheckHeaderLength()
      modifies this`calls
      ensures calls == if isClient && |Joined(headerFrames)| > maxHeaderSize then old(calls) + [ConnectionClose]
              else old(calls)
    {
      var total := SumLengths(headerFrames);
      if total > maxHeaderSize && isClient {
        calls := calls + [ConnectionClose];
      }
    }

    method AddFragment(f: Frame) returns (r: Outcome)
      requires Valid()
      modifies this, decoder.table, decoder.tree
      ensures Valid() && WindowKept()
      ensures Handled(View(), decoder.table.View(), r) ==
              Receiving.AddFragment(Environment(), old(View()), old(decoder.table.View()), f)
    {
      hide Receiving.ParseHeaders, ValidCodec;
      headerFrames := headerFrames + [f];
      CheckHeaderLength();
      if Has(f.flags, FLAG_END_HEADERS) {
        r := ParseHeaders();
        return;
      }
      return Ok;
    }

    method HandleHeadersFrame(f: Frame) returns (r: Outcome)
      requires Valid()
      modifies this, decoder.table, decoder.tree
      ensures Valid() && WindowKept()
      ensures Handled(View(), decoder.table.View(), r) ==
              HandleHeaders(Environment(), old(View()), old(decoder.table.View()), f)
    {
      hide Receiving.AddFragment, ValidCodec;
      if phase == BodyPhase {
        phase := TrailersPhase;
      }
      match WithoutPadding(f) {
        case BadPadding(outcome) => return outcome;
        case Unpadded(f') => r := AddFragment(f');
      }
    }

    method HandleContinuationFrame(f: Frame) returns (r: Outcome)
      requires Valid() && !finished && f.typ == CONTINUATION
      modifies this, decoder.table, decoder.tree
      ensures Valid() && WindowKept()
      ensures Handled(View(), decoder.table.View(), r) ==
              Receiving.HandleFrame(Environment(), old(View()), old(decoder.table.View()), f)
    {
      hide Receiving.AddFragment, ValidCodec;
      if headerFrames == [] {
        return ConnectionError(PROTOCOL_ERROR);
      }
      r := AddFragment(f);
    }

    method HandleDataFrame(f: Frame) returns (r: Outcome)
      modifies this
      ensures (View(), r) == HandleData(old(View()), f)
    {
      if headerFrames != [] || phase == TrailersPhase {
        return ConnectionError(PROTOCOL_ERROR);
      }
      phase := BodyPhase;
      match WithoutPadding(f) {
        case BadPadding(outcome) => return outcome;
        case Unpadded(f') =>
          if remaining.Some? {
            remaining := Some(remaining.value - |f'.data|);
            if remaining.value < 0 {
              return StreamError(id, PROTOCOL_ERROR);
            }
          }
          if f'.data != [] && started {
            calls := calls + [DataReceived(f'.data)];
          }
          var _, outcome := MaybeEndStream(f'.flags);
          return outcome;
      }
    }

    method HandleRstStreamFrame(f: Frame) returns (r: Outcome)
      modifies this`calls
      ensures r == if |f.data| != 4 then ConnectionError(FRAME_SIZE_ERROR) else Ok
      ensures calls == if |f.data| == 4 && started then old(calls) + [ConnectionClose] else old(calls)
    {
      if |f.data| != 4 {
        return ConnectionError(FRAME_SIZE_ERROR);
      }
      if started {
        calls := calls + [ConnectionClose];
      }
      return Ok;
    }

    method HandleFrame(f: Frame) returns (r: Outcome)
      requires Valid()
      modifies this, window, decoder.table, decoder.tree
      ensures Valid()
      ensures Handled(View(), decoder.table.View(), r) ==
              Receiving.HandleFrame(Environment(), old(View()), old(decoder.table.View()), f)
    {
      hide HandleHeaders, HandleData, ValidCodec, Updated;
      match f.typ {
        case PRIORITY => return if |f.data| != 5 then StreamError(id, FRAME_SIZE_ERROR) else Ok;
        case RST_STREAM =>
          r := HandleRstStreamFrame(f);
          return;
        case WINDOW_UPDATE =>
          r := window.ApplyWindowUpdate(f.data);
          return;
        case SETTINGS => return Fatal;
        case GOAWAY => return Fatal;
        case PUSH_PROMISE => return Fatal;
        case _ =>
      }
      if finished {
        return StreamError(id, STREAM_CLOSED);
      }
      if f.typ == HEADERS {
        r := HandleHeadersFrame(f);
      } else if f.typ == CONTINUATION {
        r := HandleContinuationFrame(f);
      } else if f.typ == DATA {
        r := HandleDataFrame(f);
      } else {
        return Ok;
      }
    }
  }
}
