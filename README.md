# T-HiGrow telemetry core, modelled in Dafny

This project models the part of the LilyGO T-HiGrow soil-monitor firmware
(`src/main.cpp`) that turns raw sensor samples into the values reported to the
Cayenne dashboard, and that decides whether a channel reports at all. It has
three parts:

- **Salinity filter** (`readSalt`). 120 ADC samples go into a `uint16_t`
  buffer, which is sorted in place. Every slot except the first and the last
  is added into a `uint32_t` accumulator. The sum is divided by 118, truncating.
  The model is an imperative method on a Dafny array. Its sort is a verified
  in-place insertion sort that stands in for `std::sort`: the result is
  ascending and a permutation of the buffer. The accumulator is added modulo
  2^32, as in C, and the method proves the addition never wraps. It also
  proves the result equals a functional specification: sort, trim one slot at
  each end, average.
- **Soil scaling** (`readSoil`). Arduino's `map(soil, 0, 4095, 100, 0)` is
  computed with C's division, which truncates toward zero, and its 32-bit `long` product is proved not to overflow. The result
  is stored in a `uint16_t`. Both the truncating division and the `uint16_t`
  conversion are written out.
- **Report gating**. Two global flags, `bmeSensorDetected` and
  `lightSensorDetected`, start `true`. `setup()` clears each one when its
  driver's `begin()` fails. The `CAYENNE_OUT` callbacks for channels 1 to 9
  each make at most one write: channels 1-3 only while the BME280 flag is set,
  channel 7 only while the BH1750 flag is set, channels 4 and 5 only when the
  DHT12 reading is not NaN, and channels 6, 8 and 9 always. The flags live in a
  `Device` class. The writes are abstract `Write(channel, payload)` events.
  Floating-point driver values are an opaque type parameter. A NaN reading is
  `None`.

Files: `c_int.dfy` (C integer widths and truncating division),
`sample_window.dfy` (sums, sortedness, minimum and maximum, a reference
insertion sort), `salt_filter.dfy`, `soil_scale.dfy`, `reporting.dfy`.

Inputs from hardware and drivers are parameters. The 120 `analogRead(SALT_PIN)`
results are a sequence of 12-bit counts, and `analogRead(SOIL_PIN)` is one
count. The BME280, BH1750, DHT12 and battery values are opaque values of the
float type, collected in one `Inputs` record per callback.

## Model

| member | source | states |
|---|---|---|
| `CInt.ToU16` | src/main.cpp:219 | storing a value in a `uint16_t` keeps it modulo 2^16, and leaves a value below 2^16 as it is |
| `CInt.TruncDiv` | src/main.cpp:127 | C division: the quotient's magnitude is the largest q with q·\|b\| ≤ \|a\|, and its sign is negative only for operands of opposite sign |
| `SampleWindow.SortSeq` | src/main.cpp:115 | the reference sort returns an ascending permutation of its input |
| `SampleWindow.SortedUnique` | src/main.cpp:115 | two ascending sequences with the same multiset are equal, so any correct sort of the buffer gives the same result |
| `SampleWindow.SortSeqEnds` | src/main.cpp:115 | after sorting, slot 0 holds the minimum and the last slot holds the maximum of the samples |
| `SaltFilter.SortInPlace` | src/main.cpp:115 | `std::sort(array, array + samples)`: the buffer ends up ascending and a permutation of what it held |
| `SaltFilter.SinkInto` | src/main.cpp:115 | one insertion step extends the sorted prefix by one slot and keeps the buffer's multiset |
| `SaltFilter.FillBuffer` | src/main.cpp:109-114 | the sampling loop leaves slot i holding the i-th `analogRead` result, for every slot |
| `SaltFilter.SumInterior` | src/main.cpp:108-119 | the skip-and-add loop ends with the sum of slots 1..118 of the buffer, at most 118 · 4095, with the `uint32_t` addition never wrapping |
| `SaltFilter.ReadSalt` | src/main.cpp:105-122 | fill, sort, sum slots 1..118 in a `uint32_t`, divide by 118: the result is below 2^32, equals sum(sorted[1..118]) / 118, and lies between the smallest and largest sample |
| `SaltFilter.TrimmedMeanBounds` | src/main.cpp:116-120 | for a sorted window the trimmed mean lies between sorted[1] and sorted[n-2] |
| `SaltFilter.SaltReadingBounds` | src/main.cpp:115-121 | the reading lies between the minimum and the maximum of the samples |
| `SaltFilter.SaltReadingFitsU16` | src/main.cpp:219 | with 12-bit samples the reading is at most 4095, so `uint16_t salt = readSalt()` loses nothing |
| `SaltFilter.AccumulatorFitsU32` | src/main.cpp:108-120 | the accumulator `humi` never exceeds 118 · 4095 = 483210 < 2^32 |
| `SaltFilter.SaltOrderIndependent` | src/main.cpp:111-115 | any permutation of the 120 samples gives the same reading |
| `SaltFilter.TrimDropsOneMinAndOneMax` | src/main.cpp:116-119 | the summed slots are exactly the samples less one copy of the minimum and one copy of the maximum |
| `SaltFilter.TrimmedSumValue` | src/main.cpp:116-119 | the accumulated sum equals the total of all samples minus the minimum minus the maximum |
| `SaltFilter.DuplicateMinimumKept` | src/main.cpp:117 | the skip is by index: a minimum that occurs twice still contributes to the sum |
| `SaltFilter.SaltReadingConstant` | src/main.cpp:116-120 | if every sample is v, the reading is v |
| `SaltFilter.SaltReadingCounting` | src/main.cpp:105-122 | the samples 0, 1, ..., 119 give 7021 / 118 = 59 |
| `CInt.TruncDivExact` | src/main.cpp:127 | an exact multiple b·c divided by b in C gives back c, for every sign of b and c |
| `SoilScale.ArduinoMapEnds` | src/main.cpp:127 | Arduino `map` sends the input range's ends exactly to the output range's ends, even when a range is inverted, as in `map(soil, 0, 4095, 100, 0)`, whenever the bounds, their differences and the product of the differences fit a 32-bit `long` |
| `SoilScale.ReadSoilClosedForm` | src/main.cpp:124-128 | `map(raw, 0, 4095, 100, 0)` equals 100 − ⌊raw·100/4095⌋ and lies in [0, 100]; the operands and the `long` product fit 32 bits, so no step of `map` overflows |
| `SoilScale.ReadSoil` | src/main.cpp:124-128 | `readSoil` returns 100 − ⌊raw·100/4095⌋, a value in [0, 100] that the `uint16_t` return keeps unchanged |
| `SoilScale.ReadSoilEnds` | src/main.cpp:127 | raw 0 maps to 100 and raw 4095 maps to 0 |
| `SoilScale.ReadSoilMonotone` | src/main.cpp:127 | r1 ≤ r2 implies readSoil(r1) ≥ readSoil(r2) |
| `SoilScale.ReadSoilExtremes` | src/main.cpp:127 | the reading is 0 exactly at raw 4095 and 100 exactly for raw ≤ 40 |
| `Reporting.AfterSetup` | src/main.cpp:78-86 | setup() never sets a flag to true; from the initial state each flag ends equal to its driver's `begin()` result; nothing changes when both succeed |
| `Reporting.Report` | src/main.cpp:154-221 | a callback makes at most one write, always on its own channel, and makes one exactly when `Emits` holds (BME280 channels 1-3 gated by its flag, channel 7 by the light flag, 4 and 5 by a non-NaN reading, 6, 8, 9 always, no other channel) |
| `Reporting.Device.constructor` | src/main.cpp:60-61 | both flags start true |
| `Reporting.Device.Setup` | src/main.cpp:78-86 | the flags after setup() are `AfterSetup` of the flags before it |
| `Reporting.Device.Out` | src/main.cpp:154-221 | the callback of channel ch writes exactly `Report` of the current flags; it has no modifies clause, so no callback changes a flag |
| `Reporting.RunWritesMatchEmits` | src/main.cpp:154-221 | over any sequence of callbacks, each channel gets exactly one write per callback that `Emits` allows |
| `Reporting.AbsentSensorsStaySilent` | src/main.cpp:154-209 | with the BME280 flag false no run writes on channels 1, 2 or 3; with the light flag false none writes on channel 7 |
| `Reporting.UnconditionalChannels` | src/main.cpp:196-221 | channels 6, 8 and 9 write exactly once per callback, whatever the flags |
| `Reporting.PassThroughPayloads` | src/main.cpp:154-209 | when a channel 1-7 callback writes, it sends the value its driver returned in the Cayenne call of the source: Celsius for channels 1 and 4, hectopascal for 2, digital sensor for 3, relative humidity for 5, millivolts for 6, lux for 7 |
| `Reporting.SoilReportValue` | src/main.cpp:211-215 | channel 8 carries 100 − ⌊raw·100/4095⌋, at most 100 |
| `Reporting.SaltReportValue` | src/main.cpp:217-221 | channel 9 carries the filtered reading, at most 4095 and between the smallest and largest sample |
| `Reporting.NaNSuppressesOneCycle` | src/main.cpp:180-186 | a NaN DHT12 temperature suppresses only its own cycle: a NaN cycle then a valid one writes the valid value once |
| `Reporting.SetupDecidesOptionalChannels` | src/main.cpp:78-86 | after setup() from the initial state, channels 1-3 report exactly when `bme.begin()` succeeded and channel 7 exactly when `lightMeter.begin()` did |

## Left out

- Cayenne transport (`Cayenne.begin`, `Cayenne.loop`, WiFi, credentials): network plumbing in a library outside this model. A write is only an abstract `Write` event.
- When the transport fires a callback: the reporting cadence belongs to the Cayenne library. A run is any sequence of callbacks.
- Hardware set-up (`Wire.begin`, the power pin, `delay(200)`, the `delay(2)` between salinity samples): timing is not modelled. `dht12.begin()`'s result is ignored by the source, so it appears nowhere.
- Driver internals (BME280 temperature, pressure and altitude; BH1750 light level; DHT12 readings): foreign code returning floats. They are opaque inputs.
- `readBattery` and the pressure `/ 100.0F`: floating-point arithmetic, not modelled. The battery and pressure values arrive already computed.
- The altitude sent on channel 3: `Cayenne.digitalSensorWrite` takes an `int` in the Cayenne library, so the float altitude is converted on the way; the model forwards the opaque value unchanged, because float-to-int conversion is floating-point behaviour.
- The `Serial.println` messages `setup()` prints when `bme.begin()` or `lightMeter.begin()` fails: console output with no effect on the flags or the writes.
- OneButton long-press handling and the channel-10 writes it triggers: gesture detection lives in the library.
- `CAYENNE_IN_DEFAULT` and `CAYENNE_IN(1)`: they only log and have no state.
- `std::sort` and Arduino `map` internals: the model uses their contracts (a sorted permutation; the linear formula with truncating division). The sort is a verified insertion sort, not introsort.
- SoilScale.ArduinoMap: the formula is evaluated over unbounded integers, not in a 32-bit `long`, so overflow of `map` in general is not modelled; ArduinoMapEnds requires the operands to fit a `long`, and ReadSoilClosedForm proves that they fit at the call on line 127.
- A salinity window of any length other than 120: the source always collects exactly `samples = 120` values, so the salinity method and the channel-9 callback take a window of that length. `analogRead` is taken to return counts in [0, 4095].
