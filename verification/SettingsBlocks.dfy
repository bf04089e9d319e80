/** The blocks of settings as the UPS stores and reports them, byte by byte. */
module SettingsBlocks {
  import opened Prelude
  import opened Integers
  import opened Codec
  import AdapterLimits

  const ADAPTER: Schema := [U16, U16, U16, U16, U16]
  const STANDBY: Schema := [U16, U16]
  const WAKE_ON_LAN: Schema := [U16, U16, U16]
  const SCREEN_TIMEOUT: Schema := [U32]
  const SCREEN_TIMEOUT_AND_LEVEL: Schema := [U32, U8]

  function Numbers(values: seq<int>): Message {
    seq(|values|, i requires 0 <= i < |values| => Some(Number(values[i])))
  }

  ghost predicate Fits(n: int) {
    0 <= n < 0x1_0000
  }

  /** A value of 16 bits, low byte first. */
  ghost predicate AreBytes(n: int, low: byte, high: byte) {
    n == low as int + 256 * high as int
  }

  /** Every value is in its two bytes. */
  ghost predicate AreShorts(values: seq<int>, data: Bytes) {
    && |data| == 2 * |values|
    && forall i :: 0 <= i < |values| ==> AreBytes(values[i], data[2 * i], data[2 * i + 1])
  }

  lemma ShortsSnoc(values: seq<int>, data: Bytes, value: int, field: Bytes)
    requires AreShorts(values, data) && |field| == 2 && AreBytes(value, field[0], field[1])
    ensures AreShorts(values + [value], data + field)
  {
    var more := data + field;
    forall i | 0 <= i < |values| + 1
      ensures AreBytes((values + [value])[i], more[2 * i], more[2 * i + 1])
    {
      if i < |values| {
        assert more[2 * i] == data[2 * i] && more[2 * i + 1] == data[2 * i + 1];
      }
    }
  }

  lemma ShortEncodes(value: int)
    requires Fits(value)
    ensures Packs(U16, Number(value))
    ensures var field := PackField(U16, Number(value)); |field| == 2 && AreBytes(value, field[0], field[1])
  {
    UnpackPack(U16, Number(value));
    TwoByteFields(PackField(U16, Number(value)));
  }

  lemma {:induction false} ShortsEncode(schema: Schema, values: seq<int>)
    requires |schema| == |values| && forall i :: 0 <= i < |values| ==> schema[i] == U16 && Fits(values[i])
    ensures Encode(schema, Numbers(values)).Some?
    ensures AreShorts(values, Encode(schema, Numbers(values)).value)
  {
    if schema == [] {
    } else {
      var last := |schema| - 1;
      var front, value := values[..last], values[last];
      ShortsEncode(schema[..last], front);
      ShortEncodes(value);
      hide Pack, PackField, Packs, AreBytes, AreShorts;
      assert Numbers(values) == Numbers(front) + [Some(Number(value))];
      assert schema == schema[..last] + [U16] && values == front + [value];
      PackSnoc(schema[..last], U16, Numbers(front), Some(Number(value)));
      ShortsSnoc(front, Pack(schema[..last], Numbers(front)).value, value, PackField(U16, Number(value)));
    }
  }

  lemma ShortsRoundTrip(schema: Schema, values: seq<int>)
    requires |schema| == |values| && forall i :: 0 <= i < |values| ==> schema[i] == U16 && Fits(values[i])
    ensures Encode(schema, Numbers(values)).Some?
    ensures Decode(schema, Encode(schema, Numbers(values)).value) == Numbers(values)
  {
    ShortsEncode(schema, values);
    RoundTrip(schema, Numbers(values));
  }

  /** The block of the adapter settings: current, charge limit, voltage, stop-charge and power-good voltage. */
  function AdapterValues(s: AdapterLimits.AdapterSettings): seq<int> {
    [s.adapterCurrent, s.chargeCurrentLimit, s.adapterVoltage, s.stopChargeVoltage, s.powerGoodVoltage]
  }

  /** Whatever rating is set, its block can be encoded, has its five values in this order, and reads back as it is. */
  lemma AdapterBlock(change: AdapterLimits.Change, millivolts: int, milliamperes: int)
    requires AdapterLimits.Accepted(millivolts, milliamperes)
    ensures var s := AdapterLimits.Written(change, millivolts, milliamperes);
            var data := Encode(ADAPTER, Numbers(AdapterValues(s)));
            && data.Some? && |data.value| == 10
            && AreBytes(s.adapterCurrent, data.value[0], data.value[1])
            && AreBytes(s.chargeCurrentLimit, data.value[2], data.value[3])
            && AreBytes(s.adapterVoltage, data.value[4], data.value[5])
            && AreBytes(s.stopChargeVoltage, data.value[6], data.value[7])
            && AreBytes(s.powerGoodVoltage, data.value[8], data.value[9])
            && Decode(ADAPTER, data.value) == Numbers(AdapterValues(s))
  {
    var s := AdapterLimits.Written(change, millivolts, milliamperes);
    AdapterLimits.WrittenIsConsistent(change, millivolts, milliamperes);
    hide Decode, Encode, Size, AdapterLimits.Written;
    var values := AdapterValues(s);
    ShortsEncode(ADAPTER, values);
    ShortsRoundTrip(ADAPTER, values);
    var data := Encode(ADAPTER, Numbers(values)).value;
    assert AreBytes(values[0], data[2 * 0], data[2 * 0 + 1]) && AreBytes(values[1], data[2 * 1], data[2 * 1 + 1]);
    assert AreBytes(values[2], data[2 * 2], data[2 * 2 + 1]) && AreBytes(values[3], data[2 * 3], data[2 * 3 + 1]);
    assert AreBytes(values[4], data[2 * 4], data[2 * 4 + 1]);
  }

  /** The sleep settings, for all values of the controls: time, then current threshold. */
  lemma StandbyBlock(time: int, threshold: int)
    requires Fits(time) && Fits(threshold)
    ensures var data := Encode(STANDBY, Numbers([time, threshold]));
            && data.Some? && |data.value| == 4
            && AreBytes(time, data.value[0], data.value[1]) && AreBytes(threshold, data.value[2], data.value[3])
            && Decode(STANDBY, data.value) == Numbers([time, threshold])
  {
    var values := [time, threshold];
    hide Decode, Encode, Size;
    ShortsEncode(STANDBY, values);
    ShortsRoundTrip(STANDBY, values);
    var data := Encode(STANDBY, Numbers(values)).value;
    assert AreBytes(values[0], data[2 * 0], data[2 * 0 + 1]) && AreBytes(values[1], data[2 * 1], data[2 * 1 + 1]);
  }

  /** The Wake-on-LAN trigger: minimum outage, delay, minimum battery level. */
  lemma WakeOnLanBlock(minOutage: int, delay: int, minBattery: int)
    requires Fits(minOutage) && Fits(delay) && Fits(minBattery)
    ensures var data := Encode(WAKE_ON_LAN, Numbers([minOutage, delay, minBattery]));
            && data.Some? && |data.value| == 6
            && AreBytes(minOutage, data.value[0], data.value[1]) && AreBytes(delay, data.value[2], data.value[3])
            && AreBytes(minBattery, data.value[4], data.value[5])
            && Decode(WAKE_ON_LAN, data.value) == Numbers([minOutage, delay, minBattery])
  {
    var values := [minOutage, delay, minBattery];
    hide Decode, Encode, Size;
    ShortsEncode(WAKE_ON_LAN, values);
    ShortsRoundTrip(WAKE_ON_LAN, values);
    var data := Encode(WAKE_ON_LAN, Numbers(values)).value;
    assert AreBytes(values[0], data[2 * 0], data[2 * 0 + 1]) && AreBytes(values[1], data[2 * 1], data[2 * 1 + 1]);
    assert AreBytes(values[2], data[2 * 2], data[2 * 2 + 1]);
  }

  /**
   The screen timeout, with or without the idle backlight level: the shorter block is the
   beginning of the longer one, and a reply of either length shows the timeout.
   */
  lemma ScreenBlocks(timeout: int, level: int)
    requires 0 <= timeout < 0x1_0000_0000 && 0 <= level < 256
    ensures var short := Encode(SCREEN_TIMEOUT, Numbers([timeout]));
            var long := Encode(SCREEN_TIMEOUT_AND_LEVEL, Numbers([timeout, level]));
            && short.Some? && long.Some? && |short.value| == 4 && |long.value| == 5
            && long.value == short.value + [level as byte]
            && FromLittleEndian(short.value) == timeout
            && timeout == short.value[0] as int + 256 * short.value[1] as int + 65536 * short.value[2] as int
                          + 16777216 * short.value[3] as int
  {
    var t, l := Number(timeout), Number(level);
    assert Numbers([timeout]) == [] + [Some(t)] && Numbers([timeout, level]) == [Some(t)] + [Some(l)];
    assert SCREEN_TIMEOUT == [] + [U32] && SCREEN_TIMEOUT_AND_LEVEL == [U32] + [U8];
    UnpackPackNone();
    PackSnoc([], U32, [], Some(t));
    PackSnoc([U32], U8, [Some(t)], Some(l));
    UnpackPack(U32, t);
    UnpackPack(U8, l);
    LongFields(PackField(U32, t));
    OneByteFields(PackField(U8, l));
    FourBytes(PackField(U32, t));
    assert PackField(U8, l) == [level as byte];
    assert [] + PackField(U32, t) == PackField(U32, t);
  }
}
