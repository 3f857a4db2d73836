/** Constants, frames and errors shared by the protocol modules (constants.py, errors.py, frames.py). */
module Protocol {
  import opened Bits

  const MAX_WINDOW_SIZE := 0x7fff_ffff
  const MAX_MAX_FRAME_SIZE := 0xff_ffff
  const DEFAULT_WINDOW_SIZE := 65535
  const DEFAULT_MAX_FRAME_SIZE := 16384

  datatype ErrorCode =
    | PROTOCOL_ERROR
    | FLOW_CONTROL_ERROR
    | STREAM_CLOSED
    | FRAME_SIZE_ERROR
    | COMPRESSION_ERROR

  /** How a handler ends: normally, or by raising. Fatal stands for any other exception. */
  datatype Outcome =
    | Ok
    | ConnectionError(code: ErrorCode)
    | StreamError(id: nat, code: ErrorCode)
    | Fatal

  /** A big-endian 32-bit number, or None for data of any other size. */
  function UnpackUint32(data: bytes): (r: Option<nat>)
    ensures r.Some? <==> |data| == 4
    ensures r.Some? ==> r.value < 0x1_0000_0000
  {
    if |data| != 4 then None
    else
      var a: int, b: int, c: int, d: int := data[0], data[1], data[2], data[3];
      Some(a * 0x100_0000 + b * 0x1_0000 + c * 0x100 + d)
  }

  /** Four bytes, most significant first. */
  function PackUint32(v: nat): (r: bytes)
    requires v < 0x1_0000_0000
    ensures |r| == 4
  {
    [v / 0x100_0000, v / 0x1_0000 % 0x100, v / 0x100 % 0x100, v % 0x100]
  }

  lemma PackUnpack(v: nat)
    requires v < 0x1_0000_0000
    ensures UnpackUint32(PackUint32(v)) == Some(v)
  {
    assert v / 0x100 == v / 0x1_0000 * 0x100 + v / 0x100 % 0x100;
    assert v / 0x1_0000 == v / 0x100_0000 * 0x100 + v / 0x1_0000 % 0x100;
  }
}
