/** Gain calibration: the measure-button handler reads the tag's
    configuration register with command A3 and sets the gain factor the
    voltage decoder divides by. */
module GainCalibration {
  import opened Frames

  /** The handler accepts a configuration response only when it has at least
      five bytes and echoes the A3 opcode in byte 1. */
  predicate ConfigAccepted(response: seq<byte>)
  {
    |response| >= 5 && response[1] == Opcode(ConfigRead)
  }

  /** Bits 3 and 4 of the configuration register, which the source extracts
      with a right shift by three and a mask of 0b11; on an unsigned byte
      that is the quotient by eight, modulo four. */
  function GainBits(reg: byte): (bits: int)
    ensures 0 <= bits < 4
  {
    (reg / 8) % 4
  }

  /** The `switch` on the gain bits, default branch included: always one
      of the four gains, and two to the power of the bits for bits 0..3. */
  function GainOf(bits: int): (g: real)
    ensures IsGain(g)
    ensures 0 <= bits < 4 ==> g == Pow2(bits) as real
    ensures !(0 <= bits < 4) ==> g == 1.0
  {
    if bits == 0 then 1.0
    else if bits == 1 then 2.0
    else if bits == 2 then 4.0
    else if bits == 3 then 8.0
    else 1.0
  }

  function Pow2(n: nat): nat
  {
    if n == 0 then 1 else 2 * Pow2(n - 1)
  }

  predicate IsGain(g: real)
  {
    g == 1.0 || g == 2.0 || g == 4.0 || g == 8.0
  }

  /** The result of the configuration handshake. */
  datatype ConfigReply = Accepted(gain: real) | Rejected

  /** The gain an A3 response yields: rejected unless the response is
      accepted, and otherwise two to the power of the register's gain bits. */
  function ReadGain(response: seq<byte>): (reply: ConfigReply)
    ensures reply.Accepted? <==> ConfigAccepted(response)
    ensures reply.Accepted? ==> reply.gain == Pow2((response[3] / 8) % 4) as real
    ensures reply.Accepted? ==> IsGain(reply.gain)
  {
    if |response| >= 5 && response[1] == 0xA3 then
      var bits := GainBits(response[3]);
      assert Pow2(bits) == [1, 2, 4, 8][bits];
      Accepted(GainOf(bits))
    else
      Rejected
  }
}
