/** Wire-level vocabulary of the tag's custom command set: bytes, the four
    commands, their three-byte request frames and the outcome of one exchange
    with the tag. The frames follow the custom-command request layout of
    ISO/IEC 15693-3: request flags, custom command code, IC manufacturer code. */
module Frames {

  /** An octet, as the unsigned value `b & 0xFF` of a Java `byte`. */
  type byte = x: int | 0 <= x < 256

  /** Request-flags byte that starts every command frame. */
  const RequestFlags: byte := 0x02
  /** IC manufacturer code that ends every command frame (0x07, Texas Instruments). */
  const ManufacturerCode: byte := 0x07

  /** The four commands the measurement engine sends. */
  datatype Cmd = ConfigRead | PowerOn | Measure | PowerOff

  function Opcode(c: Cmd): byte
  {
    match c
    case ConfigRead => 0xA3
    case PowerOn => 0xA1
    case Measure => 0xA2
    case PowerOff => 0xA4
  }

  /** The request frame `[0x02, opcode, 0x07]` of a command. */
  function Frame(c: Cmd): seq<byte>
  {
    [RequestFlags, Opcode(c), ManufacturerCode]
  }

  /** Distinct commands have distinct frames, so the list of frames handed to
      the transport tells exactly which commands were sent. */
  lemma FrameInjective(c: Cmd, d: Cmd)
    ensures Frame(c) == Frame(d) <==> c == d
  {
    if Frame(c) == Frame(d) {
      assert Frame(c)[1] == Frame(d)[1];
    }
  }

  /** What one `sendCommand` call yields: the tag's response bytes, or the
      IOException raised by connect, transceive or close. */
  datatype Outcome = Ok(response: seq<byte>) | IOError
}
