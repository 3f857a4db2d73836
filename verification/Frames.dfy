/** Frames, their padding and their wire form (tornado_http2/frames.py, tornado_http2/connection.py). */
module Frames {
  import opened Bits
  import opened Protocol

  datatype FrameType =
    | DATA
    | HEADERS
    | PRIORITY
    | RST_STREAM
    | SETTINGS
    | PUSH_PROMISE
    | PING
    | GOAWAY
    | WINDOW_UPDATE
    | CONTINUATION
    | UNKNOWN(code: byte)

  const FLAG_END_STREAM := 0x1
  const FLAG_ACK := 0x1
  const FLAG_END_HEADERS := 0x4
  const FLAG_PADDED := 0x8
  const FLAG_PRIORITY := 0x20

  /** Whether a flag, which is a single bit, is set. */
  predicate Has(flags: byte, flag: nat)
    requires flag > 0
  {
    flags / flag % 2 == 1
  }

  datatype Frame = Frame(typ: FrameType, flags: byte, id: nat, data: bytes)

  // ---------- padding ----------

  datatype Unpadding = Unpadded(frame: Frame) | BadPadding(outcome: Outcome)

  /** The data without its first byte and its last n; with n not positive the end is counted from the front. */
  function SliceFromOne(data: bytes, n: int): bytes
    requires data != [] && n <= |data| - 1
  {
    var end := if n > 0 then |data| - n else if -n < |data| then -n else |data|;
    if end <= 1 then [] else data[1..end]
  }

  /** The pad length is read as a signed byte. */
  function WithoutPadding(f: Frame): Unpadding {
    if !Has(f.flags, FLAG_PADDED) then Unpadded(f)
    else if f.data == [] then BadPadding(Fatal)
    else
      var first: int := f.data[0];
      var padLength := if first < 128 then first else first - 256;
      if padLength > |f.data| - 1 then
        BadPadding(if f.typ == HEADERS then ConnectionError(PROTOCOL_ERROR) else StreamError(f.id, PROTOCOL_ERROR))
      else Unpadded(f.(data := SliceFromOne(f.data, padLength)))
  }

  /**
   * The padding of a well-formed frame is removed exactly when its length is in 1..127, or it is
   * zero and the body is empty, or it is at least 128 and the body happens to have 255 minus that
   * many bytes. Section 6.1 of RFC 7540 allows every length in 0..255.
   */
  lemma PaddingRemoved(f: Frame, p: byte, body: bytes, padding: bytes)
    requires Has(f.flags, FLAG_PADDED) && f.data == [p] + body + padding && |padding| == p
    ensures WithoutPadding(f) == Unpadded(f.(data := body)) <==>
            1 <= p <= 127 || (p == 0 && body == []) || (p >= 128 && |body| == 255 - p)
  {
    var n: int := if p < 128 then p else p - 256;
    var s := SliceFromOne(f.data, n);
    if 1 <= p <= 127 {
      assert s == body;
    } else if p == 0 {
      assert s == [];
    } else {
      assert |s| == 255 - p;
      assert s == (body + padding)[..255 - p];
      if |body| == 255 - p {
        assert s == body;
      }
    }
  }

  /** What is left of any padded frame that is not refused: its pad length is taken for a signed number. */
  lemma PaddingExactly(f: Frame, p: byte, tail: bytes)
    requires Has(f.flags, FLAG_PADDED) && f.data == [p] + tail
    ensures 1 <= p <= 127 && p <= |tail| ==> WithoutPadding(f) == Unpadded(f.(data := tail[..|tail| - p]))
    ensures p == 0 ==> WithoutPadding(f) == Unpadded(f.(data := []))
    ensures p >= 128 ==>
              WithoutPadding(f) == Unpadded(f.(data := if |tail| < 255 - p then tail else tail[..255 - p]))
  {
  }

  /** A pad length that does not fit in the frame is refused, unless its sign bit is set. */
  lemma PaddingRefused(f: Frame)
    requires Has(f.flags, FLAG_PADDED) && f.data != []
    ensures WithoutPadding(f).BadPadding? <==> f.data[0] < 128 && f.data[0] as int > |f.data| - 1
  {
  }

  // ---------- the wire form ----------

  function TypeCode(t: FrameType): byte {
    match t
    case DATA => 0
    case HEADERS => 1
    case PRIORITY => 2
    case RST_STREAM => 3
    case SETTINGS => 4
    case PUSH_PROMISE => 5
    case PING => 6
    case GOAWAY => 7
    case WINDOW_UPDATE => 8
    case CONTINUATION => 9
    case UNKNOWN(code) => code
  }

  /** The type with this code, or the bare number if there is none. */
  function TypeOf(code: byte): FrameType {
    if code == 0 then DATA
    else if code == 1 then HEADERS
    else if code == 2 then PRIORITY
    else if code == 3 then RST_STREAM
    else if code == 4 then SETTINGS
    else if code == 5 then PUSH_PROMISE
    else if code == 6 then PING
    else if code == 7 then GOAWAY
    else if code == 8 then WINDOW_UPDATE
    else if code == 9 then CONTINUATION
    else UNKNOWN(code)
  }

  /** What struct accepts and three bytes of length can hold; only the known types can be written. */
  predicate Writable(f: Frame) {
    |f.data| < 0x100_0000 && f.id < 0x8000_0000 && !f.typ.UNKNOWN?
  }

  /** `_write_frame`: the length packed in four bytes without the first, type, flags, stream and data. */
  function WriteFrame(f: Frame): (r: bytes)
    requires Writable(f)
    ensures |r| == 9 + |f.data|
  {
    PackUint32(|f.data|)[1..] + [TypeCode(f.typ), f.flags] + PackUint32(f.id) + f.data
  }

  datatype Reading = Complete(frame: Frame, rest: bytes) | TooLarge | Incomplete

  /** `_read_frame`: nine bytes of header, then as many of data; the reserved bit is stripped. */
  function ReadFrame(stream: bytes, maxFrameSize: nat): (r: Reading)
    ensures r.Complete? ==> |r.rest| < |stream|
  {
    if |stream| < 9 then Incomplete
    else
      var length := UnpackUint32([0] + stream[..3]).value;
      var id := UnpackUint32(stream[5..9]).value;
      if length > maxFrameSize then TooLarge
      else if |stream| < 9 + length then Incomplete
      else Complete(Frame(TypeOf(stream[3]), stream[4], id % 0x8000_0000, stream[9..9 + length]), stream[9 + length..])
  }

  /** The bytes of a frame with the reserved bit of its stream identifier set or not. */
  function WithReservedBit(f: Frame, reserved: bool): (r: bytes)
    requires Writable(f)
    ensures !reserved ==> r == WriteFrame(f)
  {
    PackUint32(|f.data|)[1..] + [TypeCode(f.typ), f.flags] + PackUint32(if reserved then f.id + 0x8000_0000
        else f.id) + f.data
  }

  lemma HeaderFields(f: Frame, reserved: bool, rest: bytes)
    requires Writable(f)
    ensures var s, id := WithReservedBit(f, reserved) + rest, if reserved then f.id + 0x8000_0000 else f.id;
            && |s| == 9 + |f.data| + |rest|
            && [0] + s[..3] == PackUint32(|f.data|) && s[3] == TypeCode(f.typ) && s[4] == f.flags
               && s[5..9] == PackUint32(id)
            && s[9..9 + |f.data|] == f.data && s[9 + |f.data|..] == rest
  {
    assert PackUint32(|f.data|)[0] == 0;
  }

  lemma TypeRoundTrip(t: FrameType)
    requires !t.UNKNOWN?
    ensures TypeOf(TypeCode(t)) == t
  {
  }

  /** A written frame reads back, whatever follows it and whatever its reserved bit. */
  lemma FrameRoundTrip(f: Frame, reserved: bool, rest: bytes, maxFrameSize: nat)
    requires Writable(f) && |f.data| <= maxFrameSize
    ensures ReadFrame(WithReservedBit(f, reserved) + rest, maxFrameSize) == Complete(f, rest)
  {
    hide PackUint32, UnpackUint32, WithReservedBit, TypeOf, TypeCode;
    var id := if reserved then f.id + 0x8000_0000 else f.id;
    HeaderFields(f, reserved, rest);
    PackUnpack(|f.data|);
    PackUnpack(id);
    TypeRoundTrip(f.typ);
  }

  const TYPES := [
    DATA, HEADERS, PRIORITY, RST_STREAM, SETTINGS, PUSH_PROMISE, PING, GOAWAY, WINDOW_UPDATE, CONTINUATION
  ]

  /** Section 4.1 of RFC 7540: three bytes of length, one of type, one of flags, four of stream and the data. */
  lemma FrameBytes(f: Frame)
    requires Writable(f)
    ensures var b := WriteFrame(f);
            && BigEndian([0] + b[..3]) == |f.data|
            && b[3] < |TYPES| && TYPES[b[3]] == f.typ
            && b[4] == f.flags
            && BigEndian(b[5..9]) == f.id
            && b[9..] == f.data
  {
    hide PackUint32, WriteFrame, WithReservedBit, BigEndian;
    HeaderFields(f, false, []);
    assert WithReservedBit(f, false) + [] == WriteFrame(f);
    Packed(|f.data|);
    Packed(f.id);
  }

  function BigEndian(b: bytes): nat
    requires |b| == 4
  {
    var p: int, q: int, r: int, s: int := b[0], b[1], b[2], b[3];
    0x100_0000 * p + 0x1_0000 * q + 0x100 * r + s
  }

  lemma Packed(v: nat)
    requires v < 0x1_0000_0000
    ensures BigEndian(PackUint32(v)) == v
  {
    PackUnpack(v);
  }

  /** A type beyond the ten is kept as its number. */
  lemma UnknownTypes(stream: bytes, limit: nat)
    requires ReadFrame(stream, limit).Complete?
    ensures stream[3] >= 10 <==> ReadFrame(stream, limit).frame.typ == UNKNOWN(stream[3])
  {
  }

  /** Section 4.2 of RFC 7540: a frame is refused exactly if the length in its first three bytes is beyond the limit. */
  lemma RefusedForSize(stream: bytes, limit: nat)
    ensures ReadFrame(stream, limit).TooLarge? <==>
            |stream| >= 9 && (var a: int, b: int, c: int := stream[0], stream[1], stream[2];
                              0x1_0000 * a + 0x100 * b + c > limit)
  {
  }

  // ---------- streams of frames ----------

  function WriteAll(frames: seq<Frame>): bytes
    requires forall k :: 0 <= k < |frames| ==> Writable(frames[k])
  {
    if frames == [] then [] else WriteFrame(frames[0]) + WriteAll(frames[1..])
  }

  /** All frames that can be read, and what is left over. */
  function ReadAll(stream: bytes, maxFrameSize: nat): (seq<Frame>, Reading)
    decreases |stream|
  {
    match ReadFrame(stream, maxFrameSize)
    case Complete(f, rest) =>
      var (fs, end) := ReadAll(rest, maxFrameSize);
      ([f] + fs, end)
    case r => ([], r)
  }

  /** Any list of frames within the reader's limit is read back from the concatenation of what was written. */
  lemma {:induction false} FramesRoundTrip(frames: seq<Frame>, maxFrameSize: nat)
    requires forall k :: 0 <= k < |frames| ==> Writable(frames[k]) && |frames[k].data| <= maxFrameSize
    ensures ReadAll(WriteAll(frames), maxFrameSize) == (frames, Incomplete)
  {
    if frames != [] {
      hide ReadFrame, WriteFrame, WithReservedBit;
      FrameRoundTrip(frames[0], false, WriteAll(frames[1..]), maxFrameSize);
      FramesRoundTrip(frames[1..], maxFrameSize);
      assert frames == [frames[0]] + frames[1..];
    }
  }
}
