/** The reporting side of the T-HiGrow firmware (src/main.cpp): the two
    sensor-availability flags that setup() clears when an optional driver
    fails to start, and the CAYENNE_OUT callbacks for virtual channels 1 to 9,
    each of which forwards at most one value to the dashboard. A write to the
    dashboard is modelled as a Write event; the floating-point values the
    drivers return are an opaque type parameter F, and a DHT12 reading that is
    NaN is None. */
module Reporting {
  import opened CInt
  import opened SampleWindow
  import opened SaltFilter
  import opened SoilScale

  datatype Option<T> = None | Some(value: T)

  /** Virtual channel numbers. */
  const TemperatureChannel: nat := 1
  const BarometerChannel: nat := 2
  const AltitudeChannel: nat := 3
  const Dht12TemperatureChannel: nat := 4
  const Dht12HumidityChannel: nat := 5
  const BatteryChannel: nat := 6
  const LightSensorChannel: nat := 7
  const SoilChannel: nat := 8
  const SaltChannel: nat := 9

  /** The value of one write, tagged by the Cayenne call that sends it. */
  datatype Payload<F> =
    | Celsius(degrees: F)                 // celsiusWrite
    | HectoPascal(hpa: F)                 // hectoPascalWrite
    | DigitalSensor(level: F)             // digitalSensorWrite (the library takes an int; that conversion is not modelled)
    | RelativeHumidity(percent: F)        // virtualWrite, TYPE_RELATIVE_HUMIDITY / UNIT_PERCENT, float value
    | Millivolts(mv: F)                   // virtualWrite, TYPE_VOLTAGE / UNIT_MILLIVOLTS
    | Lux(lux: F)                         // luxWrite
    | RelativeHumidityCount(count: U16)   // virtualWrite, TYPE_RELATIVE_HUMIDITY / UNIT_PERCENT, uint16_t value

  /** One write to the dashboard on a virtual channel. */
  datatype Write<F> = Write(channel: nat, payload: Payload<F>)

  /** What the drivers and the ADC return while a callback runs. */
  datatype Inputs<F> = Inputs(
    bmeTemperature: F,          // bme.readTemperature()
    bmePressureHpa: F,          // bme.readPressure() / 100.0F
    bmeAltitude: F,             // bme.readAltitude(1013.25)
    dhtTemperature: Option<F>,  // dht12.readTemperature(), None when NaN
    dhtHumidity: Option<F>,     // dht12.readHumidity(), None when NaN
    batteryMv: F,               // readBattery()
    lux: F,                     // lightMeter.readLightLevel()
    soilRaw: Adc,               // analogRead(SOIL_PIN)
    saltRaw: seq<Adc>)          // the analogRead(SALT_PIN) results readSalt collects

  /** Inputs a callback on channel ch can be given: the salinity callback
      always sees the full window of samples. */
  predicate InputsFor<F>(ch: nat, inp: Inputs<F>)
  {
    ch == SaltChannel ==> |inp.saltRaw| == Samples
  }

  /** The two availability flags. */
  datatype Flags = Flags(bmeSensorDetected: bool, lightSensorDetected: bool)

  /** Both flags start out true. */
  const InitialFlags: Flags := Flags(true, true)

  /** The flags after setup(): a flag is cleared when its driver's begin()
      fails and is otherwise left alone. */
  function AfterSetup(f: Flags, bmeBegins: bool, lightBegins: bool): (g: Flags)
    ensures g.bmeSensorDetected ==> f.bmeSensorDetected
    ensures g.lightSensorDetected ==> f.lightSensorDetected
    ensures f == InitialFlags ==> g.bmeSensorDetected == bmeBegins && g.lightSensorDetected == lightBegins
    ensures bmeBegins && lightBegins ==> g == f
  {
    var g := if !bmeBegins then f.(bmeSensorDetected := false) else f;
    if !lightBegins then g.(lightSensorDetected := false) else g
  }

  /** Which callbacks write something: the BME280 channels only while that
      sensor is flagged present, the light channel only while the BH1750 is,
      the DHT12 channels only when the reading is not NaN, and the battery,
      soil and salinity channels always. No other channel has a callback. */
  predicate Emits<F>(f: Flags, ch: nat, inp: Inputs<F>)
  {
    || (ch in {TemperatureChannel, BarometerChannel, AltitudeChannel} && f.bmeSensorDetected)
    || (ch == Dht12TemperatureChannel && inp.dhtTemperature.Some?)
    || (ch == Dht12HumidityChannel && inp.dhtHumidity.Some?)
    || ch in {BatteryChannel, SoilChannel, SaltChannel}
    || (ch == LightSensorChannel && f.lightSensorDetected)
  }

  /** The writes the CAYENNE_OUT callback of channel ch makes under flags f. */
  function Report<F>(f: Flags, ch: nat, inp: Inputs<F>): (w: seq<Write<F>>)
    requires InputsFor(ch, inp)
    ensures |w| <= 1
    ensures w != [] <==> Emits(f, ch, inp)
    ensures forall k :: 0 <= k < |w| ==> w[k].channel == ch
  {
    if ch == TemperatureChannel then
      if f.bmeSensorDetected then [Write(ch, Celsius(inp.bmeTemperature))] else []
    else if ch == BarometerChannel then
      if f.bmeSensorDetected then [Write(ch, HectoPascal(inp.bmePressureHpa))] else []
    else if ch == AltitudeChannel then
      if f.bmeSensorDetected then [Write(ch, DigitalSensor(inp.bmeAltitude))] else []
    else if ch == Dht12TemperatureChannel then
      match inp.dhtTemperature
      case Some(t) => [Write(ch, Celsius(t))]
      case None => []
    else if ch == Dht12HumidityChannel then
      match inp.dhtHumidity
      case Some(h) => [Write(ch, RelativeHumidity(h))]
      case None => []
    else if ch == BatteryChannel then
      [Write(ch, Millivolts(inp.batteryMv))]
    else if ch == LightSensorChannel then
      if f.lightSensorDetected then [Write(ch, Lux(inp.lux))] else []
    else if ch == SoilChannel then
      [Write(ch, RelativeHumidityCount(ReadSoil(inp.soilRaw)))]
    else if ch == SaltChannel then
      [Write(ch, RelativeHumidityCount(ToU16(SaltReading(inp.saltRaw))))]
    else
      []
  }

  /** The device's global state: the availability flags. */
  class Device {
    var bmeSensorDetected: bool
    var lightSensorDetected: bool

    /** The globals' initial values. */
    constructor ()
      ensures CurrentFlags() == InitialFlags
    {
      bmeSensorDetected := true;
      lightSensorDetected := true;
    }

    function CurrentFlags(): Flags
      reads this
    {
      Flags(bmeSensorDetected, lightSensorDetected)
    }

    /** The flag-setting part of setup(); the arguments are the results of
        bme.begin() and lightMeter.begin(CONTINUOUS_HIGH_RES_MODE). */
    method Setup(bmeBegins: bool, lightBegins: bool)
      modifies this
      ensures CurrentFlags() == AfterSetup(old(CurrentFlags()), bmeBegins, lightBegins)
    {
      if !bmeBegins {
        bmeSensorDetected := false;
      }
      if !lightBegins {
        lightSensorDetected := false;
      }
    }

    /** The CAYENNE_OUT callback of channel ch, written as the nine callback
        bodies are: each reads the device's flags and the driver values, and
        the salinity callback runs the imperative ReadSalt filter rather than
        its specification. The postcondition ties this rendering to Report.
        It has no modifies clause: no callback, whether or not its reading is
        present, changes a flag. */
    method Out<F>(ch: nat, inp: Inputs<F>) returns (writes: seq<Write<F>>)
      requires InputsFor(ch, inp)
      ensures writes == Report(CurrentFlags(), ch, inp)
    {
      writes := [];
      if ch == TemperatureChannel {
        if bmeSensorDetected {
          writes := [Write(ch, Celsius(inp.bmeTemperature))];
        }
      } else if ch == BarometerChannel {
        if bmeSensorDetected {
          writes := [Write(ch, HectoPascal(inp.bmePressureHpa))];
        }
      } else if ch == AltitudeChannel {
        if bmeSensorDetected {
          writes := [Write(ch, DigitalSensor(inp.bmeAltitude))];
        }
      } else if ch == Dht12TemperatureChannel {
        if inp.dhtTemperature.Some? {
          writes := [Write(ch, Celsius(inp.dhtTemperature.value))];
        }
      } else if ch == Dht12HumidityChannel {
        if inp.dhtHumidity.Some? {
          writes := [Write(ch, RelativeHumidity(inp.dhtHumidity.value))];
        }
      } else if ch == BatteryChannel {
        writes := [Write(ch, Millivolts(inp.batteryMv))];
      } else if ch == LightSensorChannel {
        if lightSensorDetected {
          writes := [Write(ch, Lux(inp.lux))];
        }
      } else if ch == SoilChannel {
        var soil := ReadSoil(inp.soilRaw);
        writes := [Write(ch, RelativeHumidityCount(soil))];
      } else if ch == SaltChannel {
        var humi := ReadSalt(inp.saltRaw);
        var salt := ToU16(humi);
        writes := [Write(ch, RelativeHumidityCount(salt))];
      }
    }
  }

  /** One firing of a channel's callback with the inputs it sees. */
  datatype Call<F> = Call(channel: nat, inputs: Inputs<F>)

  predicate CallsWellFormed<F>(calls: seq<Call<F>>)
  {
    forall k :: 0 <= k < |calls| ==> InputsFor(calls[k].channel, calls[k].inputs)
  }

  /** The writes a sequence of callbacks produces after setup() left flags f. */
  function Run<F>(f: Flags, calls: seq<Call<F>>): seq<Write<F>>
    requires CallsWellFormed(calls)
  {
    if calls == [] then []
    else
      var last := calls[|calls| - 1];
      Run(f, calls[..|calls| - 1]) + Report(f, last.channel, last.inputs)
  }

  /** Number of writes on channel ch. */
  function WritesOn<F>(ws: seq<Write<F>>, ch: nat): nat
  {
    if ws == [] then 0
    else WritesOn(ws[..|ws| - 1], ch) + (if ws[|ws| - 1].channel == ch then 1 else 0)
  }

  /** Number of callbacks on channel ch whose inputs let it write. */
  function EmittingCalls<F>(f: Flags, calls: seq<Call<F>>, ch: nat): nat
  {
    if calls == [] then 0
    else
      var last := calls[|calls| - 1];
      EmittingCalls(f, calls[..|calls| - 1], ch)
        + (if last.channel == ch && Emits(f, ch, last.inputs) then 1 else 0)
  }

  /** Number of callbacks on channel ch. */
  function CallsOn<F>(calls: seq<Call<F>>, ch: nat): nat
  {
    if calls == [] then 0
    else CallsOn(calls[..|calls| - 1], ch) + (if calls[|calls| - 1].channel == ch then 1 else 0)
  }

  lemma {:induction false} WritesOnAppend<F>(a: seq<Write<F>>, b: seq<Write<F>>, ch: nat)
    ensures WritesOn(a + b, ch) == WritesOn(a, ch) + WritesOn(b, ch)
    decreases |b|
  {
    if b == [] {
      assert a + b == a;
    } else {
      assert (a + b)[..|a + b| - 1] == a + b[..|b| - 1];
      WritesOnAppend(a, b[..|b| - 1], ch);
    }
  }

  /** Over any run, each channel gets exactly one write per callback
      that Emits allows, and none otherwise. */
  lemma {:induction false} RunWritesMatchEmits<F>(f: Flags, calls: seq<Call<F>>, ch: nat)
    requires CallsWellFormed(calls)
    ensures WritesOn(Run(f, calls), ch) == EmittingCalls(f, calls, ch)
    decreases |calls|
  {
    if calls != [] {
      var init, last := calls[..|calls| - 1], calls[|calls| - 1];
      RunWritesMatchEmits(f, init, ch);
      var r := Report(f, last.channel, last.inputs);
      WritesOnAppend(Run(f, init), r, ch);
      if r != [] {
        assert r[..0] == [];
      }
    }
  }

  /** While the BME280 is flagged absent, no run writes on channels 1, 2 or 3;
      while the BH1750 is, none writes on channel 7. */
  lemma {:induction false} AbsentSensorsStaySilent<F>(f: Flags, calls: seq<Call<F>>)
    requires CallsWellFormed(calls)
    ensures !f.bmeSensorDetected ==>
      forall w :: w in Run(f, calls) ==> w.channel !in {TemperatureChannel, BarometerChannel, AltitudeChannel}
    ensures !f.lightSensorDetected ==>
      forall w :: w in Run(f, calls) ==> w.channel != LightSensorChannel
    decreases |calls|
  {
    if calls != [] {
      var init, last := calls[..|calls| - 1], calls[|calls| - 1];
      AbsentSensorsStaySilent(f, init);
      var r := Report(f, last.channel, last.inputs);
      assert Run(f, calls) == Run(f, init) + r;
    }
  }

  /** The battery, soil and salinity channels write once per callback, whatever the flags. */
  lemma UnconditionalChannels<F>(f: Flags, calls: seq<Call<F>>, ch: nat)
    requires CallsWellFormed(calls)
    requires ch in {BatteryChannel, SoilChannel, SaltChannel}
    ensures WritesOn(Run(f, calls), ch) == CallsOn(calls, ch)
  {
    RunWritesMatchEmits(f, calls, ch);
    EmittingCallsUnconditional(f, calls, ch);
  }

  lemma {:induction false} EmittingCallsUnconditional<F>(f: Flags, calls: seq<Call<F>>, ch: nat)
    requires ch in {BatteryChannel, SoilChannel, SaltChannel}
    ensures EmittingCalls(f, calls, ch) == CallsOn(calls, ch)
    decreases |calls|
  {
    if calls != [] {
      EmittingCallsUnconditional(f, calls[..|calls| - 1], ch);
    }
  }

  /** The soil channel carries 100 - raw * 100 / 4095, a value in [0, 100]. */
  lemma SoilReportValue<F>(f: Flags, inp: Inputs<F>)
    ensures Report(f, SoilChannel, inp) ==
      [Write(SoilChannel, RelativeHumidityCount(100 - (inp.soilRaw * 100) / AdcMax))]
    ensures 0 <= 100 - (inp.soilRaw * 100) / AdcMax <= 100
  {
    ReadSoilClosedForm(inp.soilRaw);
  }

  /** The pass-through channels forward the driver value they read, in the
      Cayenne call the source uses for it. */
  lemma PassThroughPayloads<F>(f: Flags, inp: Inputs<F>)
    ensures f.bmeSensorDetected ==>
      Report(f, TemperatureChannel, inp) == [Write(TemperatureChannel, Celsius(inp.bmeTemperature))]
    ensures f.bmeSensorDetected ==>
      Report(f, BarometerChannel, inp) == [Write(BarometerChannel, HectoPascal(inp.bmePressureHpa))]
    ensures f.bmeSensorDetected ==>
      Report(f, AltitudeChannel, inp) == [Write(AltitudeChannel, DigitalSensor(inp.bmeAltitude))]
    ensures inp.dhtTemperature.Some? ==>
      Report(f, Dht12TemperatureChannel, inp) ==
        [Write(Dht12TemperatureChannel, Celsius(inp.dhtTemperature.value))]
    ensures inp.dhtHumidity.Some? ==>
      Report(f, Dht12HumidityChannel, inp) ==
        [Write(Dht12HumidityChannel, RelativeHumidity(inp.dhtHumidity.value))]
    ensures Report(f, BatteryChannel, inp) == [Write(BatteryChannel, Millivolts(inp.batteryMv))]
    ensures f.lightSensorDetected ==>
      Report(f, LightSensorChannel, inp) == [Write(LightSensorChannel, Lux(inp.lux))]
  {
  }

  /** The salinity channel carries the filtered reading untruncated by the
      uint16_t at the call site, and it lies between the smallest and largest sample. */
  lemma SaltReportValue<F>(f: Flags, inp: Inputs<F>)
    requires |inp.saltRaw| == Samples
    ensures SaltReading(inp.saltRaw) <= AdcMax
    ensures Report(f, SaltChannel, inp) ==
      [Write(SaltChannel, RelativeHumidityCount(SaltReading(inp.saltRaw)))]
    ensures MinOf(inp.saltRaw) <= SaltReading(inp.saltRaw) <= MaxOf(inp.saltRaw)
  {
    SaltReadingFitsU16(inp.saltRaw);
    SaltReadingBounds(inp.saltRaw);
  }

  /** A NaN reading suppresses only its own cycle: a NaN cycle followed by a
      valid one writes exactly the valid value, once. */
  lemma NaNSuppressesOneCycle<F>(f: Flags, first: Inputs<F>, second: Inputs<F>, t: F)
    requires first.dhtTemperature == None && second.dhtTemperature == Some(t)
    ensures Run(f, [Call(Dht12TemperatureChannel, first), Call(Dht12TemperatureChannel, second)])
      == [Write(Dht12TemperatureChannel, Celsius(t))]
  {
    var calls := [Call(Dht12TemperatureChannel, first), Call(Dht12TemperatureChannel, second)];
    assert calls[..1][..0] == [];
    assert Run(f, calls[..1]) == [] by {
      assert Report(f, Dht12TemperatureChannel, first) == [];
    }
    assert Report(f, Dht12TemperatureChannel, second) == [Write(Dht12TemperatureChannel, Celsius(t))];
  }

  /** After setup() from the initial state, the BME280 and BH1750 channels
      report on every callback exactly when the matching begin() succeeded. */
  lemma SetupDecidesOptionalChannels<F>(bmeBegins: bool, lightBegins: bool, ch: nat, inp: Inputs<F>)
    requires ch in {TemperatureChannel, BarometerChannel, AltitudeChannel, LightSensorChannel}
    ensures var f := AfterSetup(InitialFlags, bmeBegins, lightBegins);
      (Report(f, ch, inp) != []) == (if ch == LightSensorChannel then lightBegins else bmeBegins)
  {
  }
}
