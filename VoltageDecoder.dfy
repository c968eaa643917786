/** `calculateVoltageFromResponse`: the raw ADC field of a measurement
    response scaled to volts by the reference voltage, the 14-bit full scale
    and the current gain. Exact `real` arithmetic stands for Java's doubles. */
module VoltageDecoder {
  import opened Frames

  /** `(1 << 14) - 1`, the ADC's full-scale code. */
  const AdcMax: int := 16383
  /** Reference voltage of the ADC, in volts. */
  const Vref: real := 0.9

  /** Responses the decoder turns into a voltage: at least five bytes, with
      the A2 (measure) or A3 (configuration) opcode echoed in byte 1. */
  predicate Recognised(response: seq<byte>)
  {
    |response| >= 5 && (response[1] == Opcode(Measure) || response[1] == Opcode(ConfigRead))
  }

  /** The 16-bit ADC value with the high byte at offset 4 and the low byte
      at offset 3. The source masks both bytes to their unsigned values and
      joins them with a shift by eight and a bitwise or, which on two values
      below 256 is the sum written here; nothing clamps it to the 14-bit
      scale. */
  function AdcValue(response: seq<byte>): (v: int)
    requires |response| >= 5
    ensures 0 <= v < 65536
  {
    response[4] as int * 256 + response[3] as int
  }

  /** The voltage of a response at the given gain, or the sentinel -1 for a
      response that is not recognised. */
  function Voltage(response: seq<byte>, gain: real): (v: real)
    requires gain > 0.0
    ensures v >= 0.0 <==> Recognised(response)
    ensures !Recognised(response) ==> v == -1.0
    ensures Recognised(response) ==> v * (AdcMax as real) * gain == AdcValue(response) as real * Vref
  {
    if |response| < 5 || (response[1] != 0xA2 && response[1] != 0xA3) then
      -1.0
    else
      var adc := AdcValue(response) as real;
      var v := ((adc / AdcMax as real) * Vref) / gain;
      assert v * gain == (adc / AdcMax as real) * Vref;
      assert (adc / AdcMax as real) * (AdcMax as real) == adc;
      assert v * (AdcMax as real) * gain == (v * gain) * (AdcMax as real);
      v
  }

  /** A recognised response gives a voltage between 0 and 65535/16383 of
      Vref / gain, and it stays within Vref / gain exactly when the ADC value
      is within the 14-bit full scale. */
  lemma VoltageRange(response: seq<byte>, gain: real)
    requires gain > 0.0 && Recognised(response)
    ensures 0.0 <= Voltage(response, gain) <= 65535.0 * Vref / (AdcMax as real * gain)
    ensures Voltage(response, gain) <= Vref / gain <==> AdcValue(response) <= AdcMax
  {
    var v := Voltage(response, gain);
    var a := AdcValue(response) as real;
    var m := AdcMax as real;
    assert v == a * Vref / (m * gain);
    assert Vref / gain == m * Vref / (m * gain);
    assert 65535.0 * Vref / (m * gain) - v == (65535.0 - a) * Vref / (m * gain);
    assert Vref / gain - v == (m - a) * Vref / (m * gain);
  }

  /** The full-scale code 0x3FFF at unit gain reads as exactly Vref. */
  lemma FullScale(response: seq<byte>)
    requires Recognised(response) && response[3] == 0xFF && response[4] == 0x3F
    ensures Voltage(response, 1.0) == Vref
  {
  }

  /** The ADC field is not clamped: the code 0xFFFF reads above Vref / gain. */
  lemma Unclamped(gain: real)
    requires gain > 0.0
    ensures Voltage([0x00, 0xA2, 0x00, 0xFF, 0xFF], gain) > Vref / gain
  {
    VoltageRange([0x00, 0xA2, 0x00, 0xFF, 0xFF], gain);
  }
}
