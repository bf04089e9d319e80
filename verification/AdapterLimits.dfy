/**
 The limits derived from the rating of the power adapter, in exact arithmetic. The library
 computes them in floating point like the vendor app; where a product is a whole number
 the rounded float can fall just below it, so a truncated limit can be one lower there.
 */
module AdapterLimits {
  /** `int(x)` for a number that is not negative. */
  function Truncated(x: real): int {
    x.Floor
  }

  /** `round(x)`: to the nearest whole number, and to the even one of two equally near. */
  function Rounded(x: real): (r: int)
    ensures x - 0.5 <= r as real <= x + 0.5
    ensures x == x.Floor as real ==> r as real == x
    ensures x == x.Floor as real + 0.5 ==> r % 2 == 0
  {
    var below := x.Floor;
    var part := x - below as real;
    if part < 0.5 || (part == 0.5 && below % 2 == 0) then below else below + 1
  }

  /** The block of adapter settings, in mA and mV. */
  datatype AdapterSettings = AdapterSettings(
    adapterCurrent: int,
    chargeCurrentLimit: int,
    adapterVoltage: int,
    stopChargeVoltage: int,
    powerGoodVoltage: int)

  /** `AdapterSettings.from_adapter` for a rating in V and A. */
  function FromAdapter(voltage: real, current: real): AdapterSettings {
    AdapterSettings(
      Rounded(current * 1000.0),
      Truncated(current * 1000.0 * 0.7),
      Rounded(voltage * 1000.0),
      Truncated(voltage * 1000.0 * 0.965),
      Truncated(voltage * 0.958 * 1000.0))
  }

  /** The limits of a number control, applied to every call of its setter. */
  function Clamped(value: real, min: real, max: real): (r: real)
    requires min <= max
    ensures min <= r <= max
    ensures min <= value <= max ==> r == value
    ensures value < min ==> r == min
    ensures value > max ==> r == max
  {
    var raised := if value < min then min else value;
    if raised > max then max else raised
  }

  const MIN_VOLTAGE: real := 5.0
  const MAX_VOLTAGE: real := 20.0
  const MIN_CURRENT: real := 2.0
  const MAX_CURRENT: real := 10.0

  const MIN_ADAPTER_MA: int := 1000
  const MIN_ADAPTER_MV: int := 5000

  /** A block that `_read_adapter` accepts: two 16-bit values that the power board can have. */
  predicate Accepted(millivolts: int, milliamperes: int) {
    MIN_ADAPTER_MV <= millivolts < 0x1_0000 && MIN_ADAPTER_MA <= milliamperes < 0x1_0000
  }

  /** `_scaled(value, 1000)`: three decimals hold every whole number of thousandths. */
  function Scaled(value: int): real {
    value as real / 1000.0
  }

  predicate FitsBlock(n: int) {
    0 <= n < 0x1_0000
  }

  ghost predicate IsConsistent(s: AdapterSettings) {
    && FitsBlock(s.adapterCurrent) && FitsBlock(s.chargeCurrentLimit) && FitsBlock(s.adapterVoltage)
    && FitsBlock(s.stopChargeVoltage) && FitsBlock(s.powerGoodVoltage)
    && s.powerGoodVoltage <= s.stopChargeVoltage < s.adapterVoltage
    && s.chargeCurrentLimit < s.adapterCurrent
  }

  /** Which rating a setter changes. */
  datatype Change = Voltage(volts: real) | Current(amperes: real)

  /** The block a setter writes after it read `millivolts` and `milliamperes`. */
  function Written(change: Change, millivolts: int, milliamperes: int): AdapterSettings {
    match change
    case Voltage(volts) => FromAdapter(Clamped(volts, MIN_VOLTAGE, MAX_VOLTAGE), Scaled(milliamperes))
    case Current(amperes) => FromAdapter(Scaled(millivolts), Clamped(amperes, MIN_CURRENT, MAX_CURRENT))
  }

  lemma VoltageLimits(voltage: real)
    requires 5.0 <= voltage <= 65.535
    ensures var s := FromAdapter(voltage, 1.0);
            && 0 <= s.powerGoodVoltage <= s.stopChargeVoltage < s.adapterVoltage < 0x1_0000
  {
    var v := voltage * 1000.0;
    assert voltage * 0.958 * 1000.0 == v * 0.958;
    assert v * 0.958 <= v * 0.965 <= v - 175.0;
  }

  lemma CurrentLimits(current: real)
    requires 1.0 <= current <= 65.535
    ensures var s := FromAdapter(5.0, current);
            && 0 <= s.chargeCurrentLimit < s.adapterCurrent < 0x1_0000
  {
    var c := current * 1000.0;
    assert c * 0.7 <= c - 300.0;
  }

  lemma ScaledBack(value: int)
    ensures Rounded(Scaled(value) * 1000.0) == value
  {
    assert Scaled(value) * 1000.0 == value as real;
  }

  /** The limits of a rating in whole mV and mA, in whole numbers. */
  lemma LimitsOfRating(millivolts: nat, milliamperes: nat)
    ensures FromAdapter(Scaled(millivolts), Scaled(milliamperes))
            == AdapterSettings(milliamperes, milliamperes * 7 / 10, millivolts,
                               millivolts * 965 / 1000, millivolts * 958 / 1000)
  {
    ScaledBack(millivolts);
    ScaledBack(milliamperes);
    var v, c := millivolts as real, milliamperes as real;
    assert Scaled(milliamperes) * 1000.0 * 0.7 == c * 0.7;
    assert Scaled(millivolts) * 1000.0 * 0.965 == v * 0.965;
    assert Scaled(millivolts) * 0.958 * 1000.0 == v * 0.958;
    FloorOfPart(c * 0.7, milliamperes * 7, 10);
    FloorOfPart(v * 0.965, millivolts * 965, 1000);
    FloorOfPart(v * 0.958, millivolts * 958, 1000);
  }

  lemma FloorOfPart(x: real, part: nat, whole: nat)
    requires whole == 10 || whole == 1000
    requires x * whole as real == part as real
    ensures x.Floor == part / whole
  {
    var q := part / whole;
    assert (q * whole) as real <= x * whole as real < ((q + 1) * whole) as real;
    if whole == 10 {
      assert q as real <= x < q as real + 1.0;
    } else {
      assert q as real <= x < q as real + 1.0;
    }
  }

  /**
   For any requested rating, clamped, and any accepted reading of the other one, the block
   is consistent, all its values fit 16 bits, and the other rating is written back as read.
   */
  lemma WrittenIsConsistent(change: Change, millivolts: int, milliamperes: int)
    requires Accepted(millivolts, milliamperes)
    ensures IsConsistent(Written(change, millivolts, milliamperes))
    ensures change.Voltage? ==> Written(change, millivolts, milliamperes).adapterCurrent == milliamperes
    ensures change.Current? ==> Written(change, millivolts, milliamperes).adapterVoltage == millivolts
    ensures change.Voltage? ==> 5000 <= Written(change, millivolts, milliamperes).adapterVoltage <= 20000
    ensures change.Current? ==> 2000 <= Written(change, millivolts, milliamperes).adapterCurrent <= 10000
  {
    ScaledBack(millivolts);
    ScaledBack(milliamperes);
    match change
    case Voltage(volts) =>
      VoltageLimits(Clamped(volts, MIN_VOLTAGE, MAX_VOLTAGE));
      CurrentLimits(Scaled(milliamperes));
    case Current(amperes) =>
      VoltageLimits(Scaled(millivolts));
      CurrentLimits(Clamped(amperes, MIN_CURRENT, MAX_CURRENT));
  }

  /** A rating of whole thousandths in range is written as requested and read back as requested. */
  lemma RatingRoundTrip(millivolts: int, milliamperes: int, requested: int)
    requires Accepted(millivolts, milliamperes)
    ensures 5000 <= requested <= 20000 ==>
              Written(Voltage(Scaled(requested)), millivolts, milliamperes).adapterVoltage == requested
    ensures 2000 <= requested <= 10000 ==>
              Written(Current(Scaled(requested)), millivolts, milliamperes).adapterCurrent == requested
  {
    ScaledBack(requested);
  }
}
