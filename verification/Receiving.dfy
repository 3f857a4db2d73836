/** What a stream does with the frames it receives (tornado_http2/stream.py; sections 5.1, 6.2 and 8.1 of RFC 7540). */
module Receiving {
  import opened Bits
  import opened Protocol
  import opened FlowControl
  import opened Frames
  import opened DynamicTable
  import opened Hpack

  datatype Phase = HeadersPhase | BodyPhase | TrailersPhase

  /** The content-length header: not there, a number, or something `int` refuses. */
  datatype Length = Absent | Declared(n: int) | Malformed

  /** What the checks on a header list come to; every refusal carries PROTOCOL_ERROR. */
  datatype Verdict =
    | RefuseStream
    | RefuseConnection
    | Raise
    | Accept(status: int, length: Length)

  /** `expected` is the body length the stream then holds to, if any; `status` matters on a client only. */
  datatype Call =
    | HeadersReceived(status: int, expected: Option<int>)
    | DataReceived(data: bytes)
    | Finish
    | ConnectionClose

  /** What a stream knows of its connection; `interpret` judges a header list (the flag is for trailers). */
  datatype Env = Env(cx: Codec, isClient: bool, maxHeaderSize: nat, interpret: (bool, seq<Decoded>) -> Verdict)

  /**
   * The receiving half of a stream, and the calls made on its delegate so far. `headRequest` is
   * None until a client has written its request.
   */
  datatype StreamState = StreamState(
    id: nat,
    headRequest: Option<bool>,
    phase: Phase,
    headerFrames: seq<Frame>,
    remaining: Option<int>,
    started: bool,
    finished: bool,
    window: Win,
    calls: seq<Call>)

  function NewStream(id: nat, initialWindowSize: int): StreamState {
    StreamState(id, None, HeadersPhase, [], None, false, false, Win(initialWindowSize, false, {}), [])
  }

  predicate NeedsContinuation(s: StreamState) {
    s.headerFrames != []
  }

  /** The stream and the decoder's table after a handler, and how the handler ended. */
  datatype Handled = Handled(s: StreamState, t: Table, outcome: Outcome)

  // ---------- the end of the stream ----------

  function EndStream(s: StreamState, flags: byte): (StreamState, Outcome) {
    if !Has(flags, FLAG_END_STREAM) then (s, Ok)
    else if s.remaining.Some? && s.remaining.value != 0 then (s, StreamError(s.id, PROTOCOL_ERROR))
    else (s.(started := false, finished := true, calls := if s.started then s.calls + [Finish] else s.calls), Ok)
  }

  // ---------- headers ----------

  function Joined(frames: seq<Frame>): bytes {
    if frames == [] then [] else Joined(frames[..|frames| - 1]) + frames[|frames| - 1].data
  }

  function Begin(isClient: bool, s: StreamState, status: int, remaining: Option<int>): StreamState {
    s.(remaining := remaining,
       phase := if !isClient || status >= 200 then BodyPhase else s.phase,
       started := true,
       calls := s.calls + [HeadersReceived(status, remaining)])
  }

  /** `_start_request` after its checks: a response to HEAD or with status 304 has no body. */
  function StartRequest(isClient: bool, s: StreamState, status: int, length: Length): (StreamState, Outcome) {
    if isClient && s.headRequest.None? then (s, Fatal)
    else if isClient && (s.headRequest.value || status == 304) then (Begin(isClient, s, status, Some(0)), Ok)
    else
      match length
      case Malformed => (s, Fatal)
      case Declared(n) => (Begin(isClient, s, status, Some(n)), Ok)
      case Absent => (Begin(isClient, s, status, s.remaining), Ok)
  }

  /** What follows the decoding of a header block whose first frame has these flags. */
  function AfterDecode(env: Env, s: StreamState, t: Table, flags: byte, headers: seq<Decoded>): (r: Handled)
    ensures r.t == t
  {
    match env.interpret(s.phase == TrailersPhase, headers)
    case RefuseStream => Handled(s, t, StreamError(s.id, PROTOCOL_ERROR))
    case RefuseConnection => Handled(s, t, ConnectionError(PROTOCOL_ERROR))
    case Raise => Handled(s, t, Fatal)
    case Accept(status, length) =>
      var (s1, o1) := if s.phase == HeadersPhase then StartRequest(env.isClient, s, status, length) else (s, Ok);
      if o1 != Ok then Handled(s1, t, o1)
      else
        var (s2, o2) := EndStream(s1, flags);
        if o2 == Ok && !Has(flags, FLAG_END_STREAM) && s2.phase == TrailersPhase then
          Handled(s2, t, StreamError(s.id, PROTOCOL_ERROR))
        else Handled(s2, t, o2)
  }

  /** The five bytes of priority fields at the start of a header block: what is left, or how they are refused. */
  function WithoutPriority(f: Frame, data: bytes): (Option<bytes>, Outcome) {
    if !Has(f.flags, FLAG_PRIORITY) then (Some(data), Ok)
    else if |data| < 5 then (None, Fatal)
    else if UnpackUint32(data[..4]).value % 0x8000_0000 == f.id then (None, ConnectionError(PROTOCOL_ERROR))
    else (Some(data[5..]), Ok)
  }

  /** `_parse_headers`: the fragments are joined and decoded as one block. */
  function ParseHeaders(env: Env, s: StreamState, t: Table): (r: Handled)
    requires t.Valid() && s.headerFrames != []
    ensures r.t.Valid()
  {
    var first := s.headerFrames[0];
    var s' := s.(headerFrames := []);
    var (block, outcome) := WithoutPriority(first, Joined(s.headerFrames));
    if block.None? then Handled(s', t, outcome)
    else
      var (headers, t') := DecodeBlock(env.cx, t, BytesBits(block.value), true);
      if headers.None? then Handled(s', t', ConnectionError(COMPRESSION_ERROR))
      else AfterDecode(env, s', t', first.flags, headers.value)
  }

  /** A block that grows too long is reported to a client's delegate, and then handled all the same. */
  function AddFragment(env: Env, s: StreamState, t: Table, f: Frame): (r: Handled)
    requires t.Valid()
    ensures r.t.Valid()
  {
    var frames := s.headerFrames + [f];
    var tooLarge := env.isClient && |Joined(frames)| > env.maxHeaderSize;
    var s' := s.(headerFrames := frames, calls := if tooLarge then s.calls + [ConnectionClose] else s.calls);
    if Has(f.flags, FLAG_END_HEADERS) then ParseHeaders(env, s', t) else Handled(s', t, Ok)
  }

  function HandleHeaders(env: Env, s: StreamState, t: Table, f: Frame): (r: Handled)
    requires t.Valid()
    ensures r.t.Valid()
  {
    var s' := s.(phase := if s.phase == BodyPhase then TrailersPhase else s.phase);
    match WithoutPadding(f)
    case BadPadding(outcome) => Handled(s', t, outcome)
    case Unpadded(f') => AddFragment(env, s', t, f')
  }

  // ---------- data ----------

  function DataCall(s: StreamState, data: bytes): StreamState {
    if data != [] && s.started then s.(calls := s.calls + [DataReceived(data)]) else s
  }

  function HandleData(s: StreamState, f: Frame): (StreamState, Outcome) {
    if s.headerFrames != [] || s.phase == TrailersPhase then (s, ConnectionError(PROTOCOL_ERROR))
    else
      var s' := s.(phase := BodyPhase);
      match WithoutPadding(f)
      case BadPadding(outcome) => (s', outcome)
      case Unpadded(f') =>
        var remaining := if s.remaining.None? then None else Some(s.remaining.value - |f'.data|);
        var s'' := s'.(remaining := remaining);
        if remaining.Some? && remaining.value < 0 then (s'', StreamError(s.id, PROTOCOL_ERROR))
        else EndStream(DataCall(s'', f'.data), f.flags)
  }

  // ---------- dispatch on the frame type ----------

  function HandleFrame(env: Env, s: StreamState, t: Table, f: Frame): (r: Handled)
    requires t.Valid()
    ensures r.t.Valid()
  {
    match f.typ
    case PRIORITY => Handled(s, t, if |f.data| != 5 then StreamError(s.id, FRAME_SIZE_ERROR) else Ok)
    case RST_STREAM =>
      if |f.data| != 4 then Handled(s, t, ConnectionError(FRAME_SIZE_ERROR))
      else Handled(if s.started then s.(calls := s.calls + [ConnectionClose]) else s, t, Ok)
    case WINDOW_UPDATE =>
      Handled(s.(window := Updated(s.window, f.data)), t,
          UpdateOutcome(s.window, code => StreamError(s.id, code), f.data))
    case SETTINGS => Handled(s, t, Fatal)
    case GOAWAY => Handled(s, t, Fatal)
    case PUSH_PROMISE => Handled(s, t, Fatal)
    case HEADERS => if s.finished then Deaf(s, t) else HandleHeaders(env, s, t, f)
    case CONTINUATION =>
      if s.finished then Deaf(s, t)
      else if s.headerFrames == [] then Handled(s, t, ConnectionError(PROTOCOL_ERROR))
      else AddFragment(env, s, t, f)
    case DATA =>
      if s.finished then Deaf(s, t)
      else
        var (s', outcome) := HandleData(s, f);
        Handled(s', t, outcome)
    case _ => if s.finished then Deaf(s, t) else Handled(s, t, Ok)
  }

  function Deaf(s: StreamState, t: Table): Handled {
    Handled(s, t, StreamError(s.id, STREAM_CLOSED))
  }

  // ---------- the trace of delegate calls ----------

  /** The calls other than `on_connection_close`. */
  function WithoutCloses(calls: seq<Call>): seq<Call> {
    if calls == [] then []
    else
      var last := calls[|calls| - 1];
      WithoutCloses(calls[..|calls| - 1]) + if last.ConnectionClose? then [] else [last]
  }

  /** The body bytes handed over. */
  function Bodies(calls: seq<Call>): bytes {
    if calls == [] then []
    else
      var last := calls[|calls| - 1];
      Bodies(calls[..|calls| - 1]) + if last.DataReceived? then last.data else []
  }

  function Delivered(calls: seq<Call>): nat {
    |Bodies(calls)|
  }

  /** The body length announced by the latest headers. */
  function Expected(calls: seq<Call>): Option<int> {
    if calls == [] then None
    else
      var last := calls[|calls| - 1];
      if last.HeadersReceived? then last.expected else Expected(calls[..|calls| - 1])
  }

  lemma CallsGrow(calls: seq<Call>, c: Call)
    ensures WithoutCloses(calls + [c]) == WithoutCloses(calls) + if c.ConnectionClose? then [] else [c]
    ensures Bodies(calls + [c]) == if c.DataReceived? then Bodies(calls) + c.data else Bodies(calls)
    ensures Delivered(calls + [c]) == Delivered(calls) + if c.DataReceived? then |c.data| else 0
    ensures Expected(calls + [c]) == if c.HeadersReceived? then c.expected else Expected(calls)
  {
    assert (calls + [c])[..|calls|] == calls;
  }

  /** Headers of a response that is not the final one. */
  predicate Informational(isClient: bool, c: Call) {
    c.HeadersReceived? && isClient && c.status < 200
  }

  /**
   * Headers come first, and only an informational response may be followed by other headers; nothing
   * follows the finish. On a server this is a prefix of one `headers_received`, any number of
   * `data_received` and one `finish`.
   */
  ghost predicate InOrder(isClient: bool, calls: seq<Call>) {
    && (calls != [] ==> calls[0].HeadersReceived?)
    && forall i, j :: 0 <= i < j < |calls| ==>
         !calls[i].Finish? && (calls[j].HeadersReceived? ==> Informational(isClient, calls[i]))
  }

  lemma InOrderOnServer(calls: seq<Call>)
    requires InOrder(false, calls)
    ensures forall i :: 0 <= i < |calls| ==>
              (calls[i].HeadersReceived? <==> i == 0) && (calls[i].Finish? ==> i == |calls| - 1)
  {
    forall i | 0 <= i < |calls|
      ensures calls[i].HeadersReceived? <==> i == 0
      ensures calls[i].Finish? ==> i == |calls| - 1
    {
      assert !Informational(false, calls[0]);
      var last := calls[|calls| - 1];
      assert i < |calls| - 1 ==> !calls[i].Finish?;
    }
  }

  // ---------- the invariant of a stream ----------

  ghost predicate CallsInv(isClient: bool, s: StreamState) {
    var calls := WithoutCloses(s.calls);
    && InOrder(isClient, calls)
    && (s.started <==> calls != [] && !s.finished)
    && (calls != [] ==> (s.finished <==> calls[|calls| - 1].Finish?))
    && (s.phase == HeadersPhase && !s.finished ==> forall i :: 0 <= i < |calls| ==> Informational(isClient, calls[i]))
  }

  ghost predicate LengthInv(s: StreamState) {
    && (s.remaining.Some? <==> Expected(s.calls).Some?)
    && (s.remaining.Some? ==> WithoutCloses(s.calls) != [])
    && (s.remaining.Some? && s.remaining.value >= 0 ==>
       s.remaining.value + Delivered(s.calls) == Expected(s.calls).value)
    && (s.phase == HeadersPhase ==> Delivered(s.calls) == 0 && s.remaining == Expected(s.calls))
    && (s.finished ==> s.remaining == None || s.remaining == Some(0))
  }

  ghost predicate FragmentInv(s: StreamState) {
    s.headerFrames != [] ==> s.phase != BodyPhase && !s.finished
  }

  ghost predicate StreamInv(isClient: bool, s: StreamState) {
    CallsInv(isClient, s) && LengthInv(s) && FragmentInv(s)
  }

  function Rank(p: Phase): nat {
    match p
    case HeadersPhase => 0
    case BodyPhase => 1
    case TrailersPhase => 2
  }

  /** What no handler ever undoes. */
  ghost predicate Advances(s: StreamState, s': StreamState) {
    && s'.id == s.id
    && Rank(s.phase) <= Rank(s'.phase)
    && (s.finished ==> s'.finished)
    && s.calls <= s'.calls
    && (s.phase != HeadersPhase ==> Expected(s'.calls) == Expected(s.calls))
    && (s.phase != HeadersPhase && s.remaining.Some? ==> s'.remaining.Some? && s'.remaining.value <= s.remaining.value)
  }

  ghost predicate Keeps(isClient: bool, s: StreamState, s': StreamState) {
    Advances(s, s') && (StreamInv(isClient, s) ==> StreamInv(isClient, s'))
  }

  lemma KeepsTrans(isClient: bool, a: StreamState, b: StreamState, c: StreamState)
    requires Keeps(isClient, a, b) && Keeps(isClient, b, c)
    ensures Keeps(isClient, a, c)
  {
    hide CallsInv, LengthInv, FragmentInv, Expected;
  }

  lemma CloseKeeps(isClient: bool, s: StreamState)
    ensures Keeps(isClient, s, s.(calls := s.calls + [ConnectionClose]))
  {
    CallsGrow(s.calls, ConnectionClose);
    assert WithoutCloses(s.calls) + [] == WithoutCloses(s.calls);
  }

  lemma InOrderGrows(isClient: bool, calls: seq<Call>, c: Call)
    requires InOrder(isClient, calls)
    requires if calls == [] then c.HeadersReceived? else !calls[|calls| - 1].Finish?
    requires c.HeadersReceived? ==> forall i :: 0 <= i < |calls| ==> Informational(isClient, calls[i])
    ensures InOrder(isClient, calls + [c])
  {
  }

  lemma EndStreamKeeps(isClient: bool, s: StreamState, flags: byte)
    requires s.headerFrames == []
    ensures Keeps(isClient, s, EndStream(s, flags).0)
  {
    hide InOrder, WithoutCloses, Delivered, Expected;
    CallsGrow(s.calls, Finish);
    if CallsInv(isClient, s) && s.started {
      InOrderGrows(isClient, WithoutCloses(s.calls), Finish);
    }
  }

  lemma BeginKeeps(isClient: bool, s: StreamState, status: int, remaining: Option<int>)
    requires s.phase == HeadersPhase && s.headerFrames == [] && !s.finished && (s.remaining.Some? ==> remaining.Some?)
    ensures Keeps(isClient, s, Begin(isClient, s, status, remaining))
  {
    hide WithoutCloses, Delivered, Expected;
    CallsGrow(s.calls, HeadersReceived(status, remaining));
  }

  /** The stream with a payload taken off the length it holds to. */
  function Counted(s: StreamState, n: nat): StreamState {
    s.(phase := BodyPhase, remaining := if s.remaining.None? then None else Some(s.remaining.value - n))
  }

  lemma OverrunKeeps(isClient: bool, s: StreamState, n: nat)
    requires s.headerFrames == [] && s.phase != TrailersPhase && !s.finished
    requires n == 0 || (s.remaining.Some? && s.remaining.value < n)
    ensures Keeps(isClient, s, Counted(s, n))
  {
    hide InOrder;
  }

  lemma DeliveryKeepsCalls(isClient: bool, s: StreamState, data: bytes)
    requires s.phase != TrailersPhase && !s.finished && CallsInv(isClient, s)
    ensures CallsInv(isClient, DataCall(Counted(s, |data|), data))
  {
    hide InOrder, WithoutCloses, Bodies, Expected;
    CallsGrow(s.calls, DataReceived(data));
    if s.started {
      InOrderGrows(isClient, WithoutCloses(s.calls), DataReceived(data));
    }
  }

  lemma DeliveryKeepsLength(isClient: bool, s: StreamState, data: bytes)
    requires s.phase != TrailersPhase && !s.finished && CallsInv(isClient, s) && LengthInv(s)
    requires s.remaining.Some? ==> s.remaining.value >= |data|
    ensures LengthInv(DataCall(Counted(s, |data|), data))
  {
    hide InOrder, WithoutCloses, Delivered, Expected;
    CallsGrow(s.calls, DataReceived(data));
  }

  lemma DeliveryAdvances(s: StreamState, data: bytes)
    requires s.phase != TrailersPhase
    ensures Advances(s, DataCall(Counted(s, |data|), data))
  {
    hide Expected;
    CallsGrow(s.calls, DataReceived(data));
  }

  lemma DeliveryKeeps(isClient: bool, s: StreamState, data: bytes)
    requires s.headerFrames == [] && s.phase != TrailersPhase && !s.finished
    requires s.remaining.Some? ==> s.remaining.value >= |data|
    ensures Keeps(isClient, s, DataCall(Counted(s, |data|), data))
  {
    hide CallsInv, LengthInv, Advances;
    DeliveryAdvances(s, data);
    if StreamInv(isClient, s) {
      DeliveryKeepsCalls(isClient, s, data);
      DeliveryKeepsLength(isClient, s, data);
    }
  }

  lemma DataKeeps(isClient: bool, s: StreamState, f: Frame)
    requires !s.finished
    ensures Keeps(isClient, s, HandleData(s, f).0)
  {
    hide StreamInv, Advances, Expected;
    if s.headerFrames != [] || s.phase == TrailersPhase {
      NothingKeeps(isClient, s);
    } else if WithoutPadding(f).BadPadding? {
      OverrunKeeps(isClient, s, 0);
      assert Counted(s, 0) == s.(phase := BodyPhase);
    } else {
      var data := WithoutPadding(f).frame.data;
      if s.remaining.Some? && s.remaining.value < |data| {
        OverrunKeeps(isClient, s, |data|);
      } else {
        var s' := DataCall(Counted(s, |data|), data);
        DeliveryKeeps(isClient, s, data);
        EndStreamKeeps(isClient, s', f.flags);
        KeepsTrans(isClient, s, s', EndStream(s', f.flags).0);
      }
    }
  }

  lemma NothingKeeps(isClient: bool, s: StreamState)
    ensures Keeps(isClient, s, s)
  {
  }

  lemma AfterDecodeKeeps(env: Env, s: StreamState, t: Table, flags: byte, headers: seq<Decoded>)
    requires s.headerFrames == [] && !s.finished
    ensures Keeps(env.isClient, s, AfterDecode(env, s, t, flags, headers).s)
  {
    hide StreamInv, Advances, Expected;
    NothingKeeps(env.isClient, s);
    var v := env.interpret(s.phase == TrailersPhase, headers);
    if v.Accept? {
      var (s1, o1) := if s.phase == HeadersPhase then StartRequest(env.isClient, s, v.status, v.length) else (s, Ok);
      if s.phase == HeadersPhase && o1 == Ok {
        BeginKeeps(env.isClient, s, v.status, s1.remaining);
        assert s1 == Begin(env.isClient, s, v.status, s1.remaining);
      }
      EndStreamKeeps(env.isClient, s1, flags);
      KeepsTrans(env.isClient, s, s1, EndStream(s1, flags).0);
    }
  }

  lemma ParseHeadersKeeps(env: Env, s: StreamState, t: Table)
    requires t.Valid() && s.headerFrames != [] && !s.finished
    ensures Keeps(env.isClient, s, ParseHeaders(env, s, t).s)
  {
    hide CallsInv, LengthInv, AfterDecode, DecodeBlock, Expected;
    var s' := s.(headerFrames := []);
    TakenKeeps(env.isClient, s);
    var block := WithoutPriority(s.headerFrames[0], Joined(s.headerFrames)).0;
    if block.Some? {
      var (headers, t') := DecodeBlock(env.cx, t, BytesBits(block.value), true);
      if headers.Some? {
        var flags := s.headerFrames[0].flags;
        AfterDecodeKeeps(env, s', t', flags, headers.value);
        KeepsTrans(env.isClient, s, s', AfterDecode(env, s', t', flags, headers.value).s);
      }
    }
  }

  lemma TakenKeeps(isClient: bool, s: StreamState)
    ensures Keeps(isClient, s, s.(headerFrames := []))
  {
  }

  lemma FragmentKeeps(env: Env, s: StreamState, t: Table, f: Frame)
    requires t.Valid() && !s.finished && s.phase != BodyPhase
    ensures Keeps(env.isClient, s, AddFragment(env, s, t, f).s)
  {
    hide CallsInv, LengthInv, ParseHeaders, Expected;
    var frames := s.headerFrames + [f];
    var s1 := s.(headerFrames := frames);
    AddedKeeps(env.isClient, s, f);
    var s2 := if env.isClient && |Joined(frames)| > env.maxHeaderSize then s1.(calls := s1.calls + [ConnectionClose])
        else s1;
    CloseKeeps(env.isClient, s1);
    NothingKeeps(env.isClient, s1);
    KeepsTrans(env.isClient, s, s1, s2);
    if Has(f.flags, FLAG_END_HEADERS) {
      ParseHeadersKeeps(env, s2, t);
      KeepsTrans(env.isClient, s, s2, ParseHeaders(env, s2, t).s);
    }
  }

  lemma AddedKeeps(isClient: bool, s: StreamState, f: Frame)
    requires !s.finished && s.phase != BodyPhase
    ensures Keeps(isClient, s, s.(headerFrames := s.headerFrames + [f]))
  {
  }

  lemma HeadersKeeps(env: Env, s: StreamState, t: Table, f: Frame)
    requires t.Valid() && !s.finished
    ensures Keeps(env.isClient, s, HandleHeaders(env, s, t, f).s)
  {
    hide AddFragment, StreamInv, Advances, Expected;
    var s' := s.(phase := if s.phase == BodyPhase then TrailersPhase else s.phase);
    TrailersKeeps(env.isClient, s);
    if WithoutPadding(f).Unpadded? {
      var f' := WithoutPadding(f).frame;
      FragmentKeeps(env, s', t, f');
      KeepsTrans(env.isClient, s, s', AddFragment(env, s', t, f').s);
    }
  }

  lemma TrailersKeeps(isClient: bool, s: StreamState)
    requires !s.finished
    ensures Keeps(isClient, s, s.(phase := if s.phase == BodyPhase then TrailersPhase else s.phase))
  {
  }

  /** Every frame, whatever its type and however its handling ends, keeps the invariant and undoes nothing. */
  lemma FrameKeeps(env: Env, s: StreamState, t: Table, f: Frame)
    requires t.Valid() && StreamInv(env.isClient, s)
    ensures StreamInv(env.isClient, HandleFrame(env, s, t, f).s)
    ensures Advances(s, HandleFrame(env, s, t, f).s)
  {
    hide HandleHeaders, HandleData, AddFragment, CallsInv, LengthInv, Expected, Updated;
    NothingKeeps(env.isClient, s);
    CloseKeeps(env.isClient, s);
    OutsideKeeps(env.isClient, s, s.headRequest, Updated(s.window, f.data));
    if !s.finished {
      HeadersKeeps(env, s, t, f);
      DataKeeps(env.isClient, s, f);
      if s.headerFrames != [] {
        FragmentKeeps(env, s, t, f);
      }
    }
  }

  lemma OutsideKeeps(isClient: bool, s: StreamState, headRequest: Option<bool>, w: Win)
    ensures Keeps(isClient, s, s.(headRequest := headRequest, window := w))
  {
  }

  /** A finished stream is deaf: only its window still moves. */
  lemma FinishedIsFinal(env: Env, s: StreamState, t: Table, f: Frame)
    requires t.Valid() && s.finished && StreamInv(env.isClient, s)
    ensures var r := HandleFrame(env, s, t, f); r.t == t && r.s == s.(window := r.s.window)
    ensures f.typ in {HEADERS, CONTINUATION, DATA} ==>
            HandleFrame(env, s, t, f) == Handled(s, t, StreamError(s.id, STREAM_CLOSED))
  {
    hide InOrder, WithoutCloses, LengthInv;
  }

  // ---------- bodies ----------

  /** DATA frames with these payloads and no padding, the last of which ends the stream. */
  function Body(id: nat, payloads: seq<bytes>): (r: seq<Frame>)
    ensures |r| == |payloads|
  {
    seq(|payloads|, i requires 0 <= i < |payloads| =>
      Frame(DATA, if i == |payloads| - 1 then FLAG_END_STREAM else 0, id, payloads[i]))
  }

  function TotalLength(payloads: seq<bytes>): nat {
    if payloads == [] then 0 else |payloads[0]| + TotalLength(payloads[1..])
  }

  function HandleFrames(env: Env, s: StreamState, t: Table, frames: seq<Frame>): StreamState
    requires t.Valid()
    decreases |frames|
  {
    if frames == [] then s
    else
      var h := HandleFrame(env, s, t, frames[0]);
      HandleFrames(env, h.s, h.t, frames[1..])
  }

  lemma DataFrame(env: Env, s: StreamState, t: Table, flags: byte, payload: bytes)
    requires t.Valid() && !Has(flags, FLAG_PADDED)
    requires s.phase != TrailersPhase && s.headerFrames == [] && !s.finished && s.remaining.Some?
    ensures var r := HandleFrame(env, s, t, Frame(DATA, flags, s.id, payload));
            && r.t == t && r.s.id == s.id && r.s.phase == BodyPhase && r.s.headerFrames == []
            && r.s.remaining == Some(s.remaining.value - |payload|)
            && (r.s.finished <==> Has(flags, FLAG_END_STREAM) && r.s.remaining == Some(0))
  {
  }

  /** However a body is cut into frames, it completes the stream exactly when it has the announced length. */
  lemma {:induction false} BodyCompletes(env: Env, s: StreamState, t: Table, payloads: seq<bytes>)
    requires t.Valid() && payloads != []
    requires s.phase != TrailersPhase && s.headerFrames == [] && !s.finished && s.remaining.Some?
    ensures HandleFrames(env, s, t, Body(s.id, payloads)).finished <==> TotalLength(payloads) == s.remaining.value
    decreases |payloads|
  {
    hide HandleFrame;
    var frames := Body(s.id, payloads);
    DataFrame(env, s, t, frames[0].flags, payloads[0]);
    var h := HandleFrame(env, s, t, frames[0]);
    assert frames[1..] == Body(s.id, payloads[1..]);
    if |payloads| > 1 {
      BodyCompletes(env, h.s, t, payloads[1..]);
    }
  }
}
