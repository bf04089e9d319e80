/**
 The time until the UPS turns its output off on battery, in exact arithmetic. The power
 board estimates the time until the battery is empty, but turns the output off at a
 reserve; which part of the whole charge the level counts depends on the firmware.
 */
module RuntimeEstimate {
  import opened Prelude

  const RESERVE_CAPACITY: int := 180
  const LEVEL_ABOVE_RESERVE_FIRMWARE: int := 29
  const CUTOFF_LEVEL_ABOVE_RESERVE: int := 10
  const RUNTIME_UNKNOWN: set<int> := {0xFFFF, 0}

  predicate CountsAboveReserve(firmware: int) {
    firmware >= LEVEL_ABOVE_RESERVE_FIRMWARE
  }

  /** The whole charge at a battery level, both in 0.1 %. */
  function Charge(level: int, firmware: int): real {
    if CountsAboveReserve(firmware)
    then RESERVE_CAPACITY as real + level as real * ((1000 - RESERVE_CAPACITY) as real / 1000.0)
    else level as real
  }

  /** The charge at which the output turns off. */
  function Cutoff(firmware: int): (r: real)
    ensures r > 0.0
  {
    if CountsAboveReserve(firmware) then Charge(CUTOFF_LEVEL_ABOVE_RESERVE, firmware) else RESERVE_CAPACITY as real
  }

  /** The part of `seconds` that is left before the cut-off. */
  function SecondsLeft(seconds: int, charge: real, cutoff: real): real
    requires 0.0 < cutoff < charge
  {
    seconds as real * (charge - cutoff) / charge
  }

  /** `_minutes_until_output_off` */
  function MinutesUntilOutputOff(
    onBattery: bool, seconds: Option<int>, level: Option<int>, firmware: Option<int>): Option<int>
  {
    if !onBattery || seconds.None? || seconds.value in RUNTIME_UNKNOWN || level.None? || firmware.None? then None
    else
      var charge, cutoff := Charge(level.value, firmware.value), Cutoff(firmware.value);
      if charge <= cutoff then Some(0)
      else Some((SecondsLeft(seconds.value, charge, cutoff) / 60.0).Floor)
  }

  /** The estimate of a UPS on battery that reports `seconds` and `level`. */
  function Minutes(seconds: int, level: int, firmware: int): int
    requires seconds !in RUNTIME_UNKNOWN
  {
    MinutesUntilOutputOff(true, Some(seconds), Some(level), Some(firmware)).value
  }

  /** Of two products with the same positive factor, the smaller one has the smaller other factor. */
  lemma SmallerFactor(a: real, b: real, factor: real)
    requires factor > 0.0 && a * factor < b * factor
    ensures a < b
  {
    assert (b - a) * factor > 0.0;
  }

  /** Of two equal products, the one with the larger factor has the smaller other factor. */
  lemma LargerFactor(a: real, small: real, b: real, large: real)
    requires 0.0 < small <= large && a * small == b * large && a > 0.0
    ensures b <= a
  {
    assert a * large >= a * small;
    assert (a - b) * large >= 0.0;
  }

  lemma FractionBounds(charge: real, cutoff: real)
    requires 0.0 < cutoff < charge
    ensures 0.0 < (charge - cutoff) / charge < 1.0
  {
    var fraction := (charge - cutoff) / charge;
    assert fraction * charge == charge - cutoff;
    SmallerFactor(0.0, fraction, charge);
    SmallerFactor(fraction, 1.0, charge);
  }

  lemma FractionMonotone(charge: real, higher: real, cutoff: real)
    requires 0.0 < cutoff < charge <= higher
    ensures (charge - cutoff) / charge <= (higher - cutoff) / higher
  {
    FractionBounds(charge, cutoff);
    var a, b := (charge - cutoff) / charge, (higher - cutoff) / higher;
    assert a * charge == charge - cutoff && b * higher == higher - cutoff;
    assert (1.0 - a) * charge == cutoff == (1.0 - b) * higher;
    LargerFactor(1.0 - a, charge, 1.0 - b, higher);
  }

  lemma SecondsLeftAsFraction(seconds: int, charge: real, cutoff: real)
    requires 0.0 < cutoff < charge
    ensures SecondsLeft(seconds, charge, cutoff) == seconds as real * ((charge - cutoff) / charge)
  {
  }

  /** The estimate is at least 0, at most the reported time, and 0 at or below the cut-off charge. */
  lemma EstimateBounds(seconds: nat, level: nat, firmware: int)
    requires seconds !in RUNTIME_UNKNOWN
    ensures 0 <= Minutes(seconds, level, firmware) <= seconds / 60
    ensures level <= (if firmware >= 29 then 10 else 180) ==> Minutes(seconds, level, firmware) == 0
  {
    var charge, cutoff := Charge(level, firmware), Cutoff(firmware);
    CutoffLevel(level, firmware);
    if charge > cutoff {
      FractionBounds(charge, cutoff);
      SecondsLeftAsFraction(seconds, charge, cutoff);
      var fraction := (charge - cutoff) / charge;
      var left := SecondsLeft(seconds, charge, cutoff);
      hide SecondsLeft, Charge, Cutoff;
      Shrinks(seconds as real, fraction);
      assert left == seconds as real * fraction;
      FloorOfMinutes(left, seconds);
    }
  }

  lemma CutoffLevel(level: int, firmware: int)
    ensures Charge(level, firmware) <= Cutoff(firmware) <==> level <= if firmware >= 29 then 10 else 180
  {
    if CountsAboveReserve(firmware) {
      assert Charge(level, firmware) - Cutoff(firmware) == (level - 10) as real * 0.82;
    }
  }

  lemma Shrinks(x: real, fraction: real)
    requires x >= 0.0 && 0.0 <= fraction <= 1.0
    ensures 0.0 <= x * fraction <= x
  {
  }

  lemma FloorOfMinutes(left: real, seconds: nat)
    requires 0.0 <= left <= seconds as real
    ensures 0 <= (left / 60.0).Floor <= seconds / 60
  {
    var minutes := (left / 60.0).Floor;
    assert minutes as real * 60.0 <= seconds as real;
    assert minutes * 60 <= seconds;
  }

  /** A longer reported time and a higher level never shorten the estimate. */
  lemma EstimateIsMonotone(seconds: nat, longer: nat, level: nat, higher: nat, firmware: int)
    requires seconds !in RUNTIME_UNKNOWN && longer !in RUNTIME_UNKNOWN
    requires seconds <= longer && level <= higher
    ensures Minutes(seconds, level, firmware) <= Minutes(longer, higher, firmware)
  {
    hide Charge, Cutoff, SecondsLeft;
    var cutoff := Cutoff(firmware);
    var charge, more := Charge(level, firmware), Charge(higher, firmware);
    ChargeIsMonotone(level, higher, firmware);
    EstimateBounds(longer, higher, firmware);
    if charge > cutoff {
      FractionMonotone(charge, more, cutoff);
      FractionBounds(charge, cutoff);
      SecondsLeftAsFraction(seconds, charge, cutoff);
      SecondsLeftAsFraction(longer, more, cutoff);
      MoreLeft(seconds as real, longer as real, (charge - cutoff) / charge, (more - cutoff) / more);
    }
  }

  lemma ChargeIsMonotone(level: int, higher: int, firmware: int)
    requires level <= higher
    ensures Charge(level, firmware) <= Charge(higher, firmware)
  {
  }

  lemma MoreLeft(x: real, y: real, a: real, b: real)
    requires 0.0 <= x <= y && 0.0 <= a <= b
    ensures x * a <= y * b
    ensures (x * a / 60.0).Floor <= (y * b / 60.0).Floor
  {
    assert x * a <= y * a <= y * b;
  }

  // ----- the estimate in whole numbers

  /** The charge and the cut-off in 0.001 %. */
  function WholeCharge(level: int, firmware: int): int {
    if firmware >= 29 then 18000 + 82 * level else 100 * level
  }

  function WholeCutoff(firmware: int): int {
    if firmware >= 29 then 18820 else 18000
  }

  /**
   Above the cut-off the estimate is the number of whole minutes in the part of the reported
   time in which the charge falls to the cut-off, if it falls evenly.
   */
  lemma EstimateIsExact(seconds: nat, level: nat, firmware: int)
    requires seconds !in RUNTIME_UNKNOWN
    requires level > if firmware >= 29 then 10 else 180
    ensures var minutes := Minutes(seconds, level, firmware);
            var charge, cutoff := WholeCharge(level, firmware), WholeCutoff(firmware);
            minutes * 60 * charge <= seconds * (charge - cutoff) < (minutes + 1) * 60 * charge
  {
    CutoffLevel(level, firmware);
    var charge, cutoff := Charge(level, firmware), Cutoff(firmware);
    var left := SecondsLeft(seconds, charge, cutoff);
    assert left * charge == seconds as real * (charge - cutoff);
    var whole := WholeCharge(level, firmware);
    var product := seconds as real * (charge - cutoff);
    ScaledFloor(left, charge, whole, product, seconds * (whole - WholeCutoff(firmware)));
  }

  /**
   The whole estimate, in whole numbers: there is one exactly on battery with a known time, level
   and firmware. It is 0 at or below the cut-off, and above it the minutes until the charge falls
   to the cut-off, if it falls evenly.
   */
  lemma EstimateIs(onBattery: bool, seconds: Option<nat>, level: Option<nat>, firmware: Option<int>, minutes: int)
    ensures MinutesUntilOutputOff(onBattery, Ints(seconds), Ints(level), firmware) == Some(minutes) <==>
            && onBattery && seconds.Some? && level.Some? && firmware.Some?
            && seconds.value != 0 && seconds.value != 65535
            && if level.value <= (if firmware.value >= 29 then 10 else 180) then minutes == 0
               else
                 var charge := if firmware.value >= 29 then 18000 + 82 * level.value else 100 * level.value;
                 var left := seconds.value * (charge - if firmware.value >= 29 then 18820 else 18000);
                 minutes * 60 * charge <= left < (minutes + 1) * 60 * charge
  {
    if onBattery && seconds.Some? && level.Some? && firmware.Some? && seconds.value != 0 && seconds.value != 65535 {
      var exact := Minutes(seconds.value, level.value, firmware.value);
      if level.value <= (if firmware.value >= 29 then 10 else 180) {
        EstimateBounds(seconds.value, level.value, firmware.value);
      } else {
        EstimateIsExact(seconds.value, level.value, firmware.value);
        var charge := WholeCharge(level.value, firmware.value);
        OnlyQuotient(seconds.value * (charge - WholeCutoff(firmware.value)), charge, exact, minutes);
      }
    }
  }

  function Ints(n: Option<nat>): Option<int> {
    if n.None? then None else Some(n.value)
  }

  lemma OnlyQuotient(left: int, charge: int, exact: int, minutes: int)
    requires charge > 0 && exact * 60 * charge <= left < (exact + 1) * 60 * charge
    ensures minutes == exact <==> minutes * 60 * charge <= left < (minutes + 1) * 60 * charge
  {
    if minutes < exact {
      LargerWhole(minutes + 1, exact, charge);
    } else if exact < minutes {
      LargerWhole(exact + 1, minutes, charge);
    }
  }

  lemma LargerWhole(a: int, b: int, charge: int)
    requires a <= b && charge > 0
    ensures a * 60 * charge <= b * 60 * charge
  {
    assert (b - a) * 60 * charge >= 0;
  }

  lemma LargerProduct(a: real, b: real, factor: real)
    requires factor > 0.0 && a <= b
    ensures a * factor <= b * factor
    ensures a < b ==> a * factor < b * factor
  {
    assert (b - a) * factor >= 0.0;
    assert a < b ==> (b - a) * factor > 0.0;
  }

  lemma ScaledFloor(left: real, charge: real, whole: int, product: real, wholeProduct: int)
    requires charge > 0.0 && left * charge == product
    requires whole as real == 100.0 * charge && wholeProduct as real == 100.0 * product
    ensures var minutes := (left / 60.0).Floor;
            minutes * 60 * whole <= wholeProduct < (minutes + 1) * 60 * whole
  {
    var minutes := (left / 60.0).Floor;
    ScaledBounds(minutes * 60, left, (minutes + 1) * 60, charge, whole, wholeProduct);
  }

  lemma ScaledBounds(low: int, left: real, high: int, charge: real, whole: int, wholeProduct: int)
    requires low as real <= left < high as real
    requires charge > 0.0 && whole as real == 100.0 * charge && wholeProduct as real == 100.0 * (left * charge)
    ensures low * whole <= wholeProduct < high * whole
  {
    LargerProduct(low as real, left, charge);
    LargerProduct(left, high as real, charge);
    WholeProduct(low, charge, whole);
    WholeProduct(high, charge, whole);
    assert (low * whole) as real <= wholeProduct as real < (high * whole) as real;
  }

  lemma WholeProduct(n: int, charge: real, whole: int)
    requires whole as real == 100.0 * charge
    ensures (n * whole) as real == 100.0 * (n as real * charge)
  {
    assert (n * whole) as real == n as real * whole as real;
  }
}
