/**
 * The connection's loop over the frames it reads (tornado_http2/connection.py; sections 4.3, 5.1 and 6
 * of RFC 7540).
 */
module Dispatch {
  import opened Bits
  import opened Protocol
  import opened FlowControl
  import opened Frames
  import opened DynamicTable
  import opened Receiving

  /** The frames the loop itself writes. */
  datatype Reply =
    | ResetStream(id: nat, code: ErrorCode)
    | GoAway(code: ErrorCode)
    | SettingsAck
    | PingAck(data: bytes)

  /** `last` is the stream that handled a frame last; `alive` is false once the loop has ended. */
  datatype Conn = Conn(
    streams: map<nat, StreamState>,
    table: Table,
    window: Win,
    settings: map<nat, nat>,
    nextId: nat,
    maxRemote: nat,
    last: Option<nat>,
    alive: bool,
    replies: seq<Reply>)

  function Opened(isClient: bool, headerTableSize: nat): Conn {
    Conn(map[], Table([], 0, headerTableSize), Win(DEFAULT_WINDOW_SIZE, false, {}), map[],
         if isClient then 1 else 2, 0, None, true, [])
  }

  // ---------- settings ----------

  const ENABLE_PUSH := 2
  const INITIAL_WINDOW_SIZE := 4
  const MAX_FRAME_SIZE := 5

  /** How a setting is refused, if it is. */
  function Refusal(code: nat, value: nat): Option<ErrorCode> {
    if code == ENABLE_PUSH && value > 1 then Some(PROTOCOL_ERROR)
    else if code == INITIAL_WINDOW_SIZE && value > MAX_WINDOW_SIZE then Some(FLOW_CONTROL_ERROR)
    else if code == MAX_FRAME_SIZE && !(DEFAULT_MAX_FRAME_SIZE <= value <= MAX_MAX_FRAME_SIZE) then Some(PROTOCOL_ERROR)
    else None
  }

  /** A setting: two bytes of code and four of value, most significant first. */
  function FirstSetting(data: bytes): (nat, nat)
    requires |data| >= 6
  {
    var high: int, low: int := data[0], data[1];
    (high * 0x100 + low, UnpackUint32(data[2..6]).value)
  }

  /** Settings are stored one by one, up to the first that is refused. */
  function ApplySettings(settings: map<nat, nat>, data: bytes): (map<nat, nat>, Outcome)
    decreases |data|
  {
    if data == [] then (settings, Ok)
    else if |data| < 6 then (settings, ConnectionError(FRAME_SIZE_ERROR))
    else
      var (code, value) := FirstSetting(data);
      match Refusal(code, value)
      case Some(e) => (settings, ConnectionError(e))
      case None => ApplySettings(settings[code := value], data[6..])
  }

  function Setting(settings: map<nat, nat>, code: nat, default: nat): nat {
    if code in settings then settings[code] else default
  }

  ghost predicate LegalSettings(settings: map<nat, nat>) {
    forall code :: code in settings ==> Refusal(code, settings[code]).None?
  }

  /** Whatever a peer sends, only legal settings are stored, so new windows and the frame size limit stay in bounds. */
  lemma {:induction false} SettingsStayLegal(settings: map<nat, nat>, data: bytes)
    requires LegalSettings(settings)
    ensures var s := ApplySettings(settings, data).0;
            && LegalSettings(s)
            && Setting(s, INITIAL_WINDOW_SIZE, DEFAULT_WINDOW_SIZE) <= MAX_WINDOW_SIZE
            && DEFAULT_MAX_FRAME_SIZE <= Setting(s, MAX_FRAME_SIZE, DEFAULT_MAX_FRAME_SIZE) <= MAX_MAX_FRAME_SIZE
    decreases |data|
  {
    if |data| >= 6 {
      var (code, value) := FirstSetting(data);
      if Refusal(code, value).None? {
        SettingsStayLegal(settings[code := value], data[6..]);
      }
    }
  }

  // ---------- one frame ----------

  datatype Acted = Acted(c: Conn, outcome: Outcome)

  function HandleControl(c: Conn, f: Frame): (r: Acted)
    ensures r.c.table == c.table
  {
    match f.typ
    case SETTINGS =>
      if Has(f.flags, FLAG_ACK) then Acted(c, if f.data != [] then ConnectionError(FRAME_SIZE_ERROR) else Ok)
      else
        var (settings, outcome) := ApplySettings(c.settings, f.data);
        var c' := c.(settings := settings);
        Acted(if outcome == Ok then c'.(replies := c.replies + [SettingsAck]) else c', outcome)
    case WINDOW_UPDATE =>
      Acted(c.(window := Updated(c.window, f.data)), UpdateOutcome(c.window, code => ConnectionError(code), f.data))
    case PING =>
      if Has(f.flags, FLAG_ACK) then Acted(c, Ok)
      else if |f.data| != 8 then Acted(c, ConnectionError(FRAME_SIZE_ERROR))
      else Acted(c.(replies := c.replies + [PingAck(f.data)]), Ok)
    case GOAWAY => Acted(c, Fatal)
    case UNKNOWN(_) => Acted(c, Ok)
    case _ => Acted(c, ConnectionError(PROTOCOL_ERROR))
  }

  predicate IsLocal(c: Conn, id: nat) {
    id % 2 == c.nextId % 2
  }

  /** A frame for a stream that is not there and cannot be created: it is from the past or from the future. */
  function UnknownStream(c: Conn, f: Frame): Outcome {
    if f.id <= (if IsLocal(c, f.id) then c.nextId - 2 else c.maxRemote) then
      if f.typ == WINDOW_UPDATE || f.typ == RST_STREAM then Ok else StreamError(f.id, STREAM_CLOSED)
    else ConnectionError(PROTOCOL_ERROR)
  }

  function Settle(c: Conn, id: nat, h: Handled): Acted {
    Acted(c.(streams := c.streams[id := h.s], table := h.t, last := Some(id)), h.outcome)
  }

  function CreateRemote(c: Conn, id: nat): Conn {
    c.(streams := c.streams[id := NewStream(id, Setting(c.settings, INITIAL_WINDOW_SIZE, DEFAULT_WINDOW_SIZE))],
       maxRemote := if id > c.maxRemote then id else c.maxRemote)
  }

  predicate Pending(c: Conn, id: nat) {
    id in c.streams && NeedsContinuation(c.streams[id])
  }

  function Act(env: Env, c: Conn, f: Frame): (r: Acted)
    requires c.table.Valid()
    ensures r.c.table.Valid()
  {
    if c.last.Some? && Pending(c, c.last.value) && (f.typ != CONTINUATION || f.id != c.last.value) then
      Acted(c, ConnectionError(PROTOCOL_ERROR))
    else if f.id == 0 then HandleControl(c, f)
    else if f.id in c.streams then Settle(c, f.id, HandleFrame(env, c.streams[f.id], c.table, f))
    else if !env.isClient && f.typ == HEADERS then
      if IsLocal(c, f.id) then Acted(c, ConnectionError(PROTOCOL_ERROR))
      else
        var c' := CreateRemote(c, f.id);
        Settle(c', f.id, HandleFrame(env, c'.streams[f.id], c'.table, f))
    else Acted(c, UnknownStream(c, f))
  }

  /** A stream error is answered and the loop goes on; any other error ends it. */
  function Conclude(a: Acted): Conn {
    match a.outcome
    case Ok => a.c
    case StreamError(id, code) => a.c.(replies := a.c.replies + [ResetStream(id, code)])
    case ConnectionError(code) => a.c.(alive := false, replies := a.c.replies + [GoAway(code)])
    case Fatal => a.c.(alive := false)
  }

  function Receive(env: Env, c: Conn, f: Frame): (r: Conn)
    requires c.table.Valid()
    ensures r.table.Valid()
  {
    if c.alive then Conclude(Act(env, c, f)) else c
  }

  // ---------- runs ----------

  /**
   * What can happen to a connection: a frame is read, the application opens a stream, a client writes
   * its request (for HEAD or not), or the write path leaves a window (0 is the connection's) changed.
   */
  datatype Event =
    | Read(f: Frame)
    | Open
    | Request(id: nat, head: bool)
    | Write(id: nat, w: Win)

  function CreateLocal(c: Conn): Conn {
    c.(streams := c.streams[c.nextId :=
        NewStream(c.nextId, Setting(c.settings, INITIAL_WINDOW_SIZE, DEFAULT_WINDOW_SIZE))],
       nextId := c.nextId + 2)
  }

  function Step(env: Env, c: Conn, e: Event): (r: Conn)
    requires c.table.Valid()
    ensures r.table.Valid()
  {
    match e
    case Read(f) => Receive(env, c, f)
    case Open => CreateLocal(c)
    case Request(id, head) => if id in c.streams then
        c.(streams := c.streams[id := c.streams[id].(headRequest := Some(head))]) else c
    case Write(id, w) =>
      if id == 0 then c.(window := w)
      else if id in c.streams then c.(streams := c.streams[id := c.streams[id].(window := w)])
      else c
  }

  function Run(env: Env, c: Conn, events: seq<Event>): (r: Conn)
    requires c.table.Valid()
    ensures r.table.Valid()
    decreases |events|
  {
    if events == [] then c else Run(env, Step(env, c, events[0]), events[1..])
  }

  /** Frames read one after the other. */
  function ReceiveAll(env: Env, c: Conn, frames: seq<Frame>): (r: Conn)
    requires c.table.Valid()
    ensures r.table.Valid()
    decreases |frames|
  {
    if frames == [] then c else ReceiveAll(env, Receive(env, c, frames[0]), frames[1..])
  }

  lemma {:induction false} ReceiveAllIsRun(env: Env, c: Conn, frames: seq<Frame>)
    requires c.table.Valid()
    ensures ReceiveAll(env, c, frames) == Run(env, c, seq(|frames|, i requires 0 <= i < |frames| => Read(frames[i])))
    decreases |frames|
  {
    if frames != [] {
      hide Receive;
      var events := seq(|frames|, i requires 0 <= i < |frames| => Read(frames[i]));
      ReceiveAllIsRun(env, Receive(env, c, frames[0]), frames[1..]);
      assert events[1..] == seq(|frames| - 1, i requires 0 <= i < |frames| - 1 => Read(frames[1..][i]));
    }
  }

  // ---------- from bytes ----------

  /** The limit on the length of a frame follows the peer's settings. */
  function ReadLimit(c: Conn): nat {
    Setting(c.settings, MAX_FRAME_SIZE, DEFAULT_MAX_FRAME_SIZE)
  }

  /** What the loop makes of the bytes that have arrived, and those it has not read. */
  function ReceiveBytes(env: Env, c: Conn, stream: bytes): (r: (Conn, bytes))
    requires c.table.Valid()
    decreases |stream|
  {
    if !c.alive then (c, stream)
    else
      match ReadFrame(stream, ReadLimit(c))
      case Incomplete => (c, stream)
      case TooLarge => (Conclude(Acted(c, ConnectionError(FRAME_SIZE_ERROR))), stream[9..])
      case Complete(f, rest) => ReceiveBytes(env, Receive(env, c, f), rest)
  }
}
