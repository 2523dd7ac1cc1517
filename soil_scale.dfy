/** The soil-moisture reading of the T-HiGrow firmware (readSoil in
    src/main.cpp): one ADC count, rescaled by the Arduino `map` routine from
    [0, 4095] onto the inverted range [100, 0] and returned as a uint16_t. */
module SoilScale {
  import opened CInt
  import opened SampleWindow

  /** Arduino's `map`: (x - inMin) * (outMax - outMin) / (inMax - inMin) + outMin,
      with C's truncating division. The formula is over unbounded integers;
      where the source's 32-bit `long` matters, a lemma requires the
      operands to fit it (ArduinoMapEnds) or proves that they do
      (ReadSoilClosedForm). */
  function ArduinoMap(x: int, inMin: int, inMax: int, outMin: int, outMax: int): int
    requires inMax != inMin
  {
    TruncDiv((x - inMin) * (outMax - outMin), inMax - inMin) + outMin
  }

  /** The ends of the input range go exactly to the ends of the output range,
      whichever way round either range runs. */
  lemma ArduinoMapEnds(inMin: int, inMax: int, outMin: int, outMax: int)
    requires inMax != inMin
    requires FitsLong(inMin) && FitsLong(inMax) && FitsLong(outMin) && FitsLong(outMax)
    requires FitsLong(inMax - inMin) && FitsLong(outMax - outMin)
    requires FitsLong((inMax - inMin) * (outMax - outMin))
    ensures ArduinoMap(inMin, inMin, inMax, outMin, outMax) == outMin
    ensures ArduinoMap(inMax, inMin, inMax, outMin, outMax) == outMax
  {
    assert (inMin - inMin) * (outMax - outMin) == (inMax - inMin) * 0;
    TruncDivExact(inMax - inMin, 0);
    TruncDivExact(inMax - inMin, outMax - outMin);
  }

  /** readSoil: `map(soil, 0, 4095, 100, 0)` stored into a uint16_t. The
      percentage is 100 minus the truncated quotient raw * 100 / 4095, and the
      uint16_t return keeps it as it is. */
  function ReadSoil(raw: Adc): (r: U16)
    ensures r == 100 - (raw * 100) / AdcMax
    ensures 0 <= r <= 100
  {
    ReadSoilClosedForm(raw);
    ToU16(ArduinoMap(raw, 0, AdcMax, 100, 0))
  }

  /** The mapped value in closed form: 100 minus the truncated quotient
      raw * 100 / 4095; it always lies in [0, 100]. The intermediate product
      is at most 409500 in magnitude, well inside a 32-bit `long`. */
  lemma ReadSoilClosedForm(raw: Adc)
    ensures ArduinoMap(raw, 0, AdcMax, 100, 0) == 100 - (raw * 100) / AdcMax
    ensures 0 <= ArduinoMap(raw, 0, AdcMax, 100, 0) <= 100
    ensures FitsLong((raw - 0) * (0 - 100))
    ensures FitsLong(AdcMax - 0) && FitsLong(0 - 100) && FitsLong((AdcMax - 0) * (0 - 100))
  {
    var p := raw * 100;
    var q := TruncDiv(-p, AdcMax);
    assert Abs(-p) == p;
    FloorDiv(p, AdcMax);
    assert q == -(p / AdcMax);
    DivBetween(p, AdcMax, 0, 100);
  }

  /** The range is inverted: raw 0 maps to 100 % and full scale (raw 4095) to 0 %. */
  lemma ReadSoilEnds()
    ensures ReadSoil(0) == 100
    ensures ReadSoil(AdcMax) == 0
  {
    ReadSoilClosedForm(0);
    ReadSoilClosedForm(AdcMax);
  }

  /** A larger count never gives a larger percentage. */
  lemma ReadSoilMonotone(r1: Adc, r2: Adc)
    requires r1 <= r2
    ensures ReadSoil(r1) >= ReadSoil(r2)
  {
    ReadSoilClosedForm(r1);
    ReadSoilClosedForm(r2);
    DivMonotone(r1 * 100, r2 * 100, AdcMax);
  }

  /** Truncation makes 0 % reachable only at full scale, and 100 % for every
      count up to 40. */
  lemma ReadSoilExtremes(raw: Adc)
    ensures ReadSoil(raw) == 0 <==> raw == AdcMax
    ensures ReadSoil(raw) == 100 <==> raw <= 40
  {
    ReadSoilClosedForm(raw);
    var p := raw * 100;
    FloorDiv(p, AdcMax);
  }
}
