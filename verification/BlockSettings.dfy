/**
 The settings of the UPS that share a block, and what concurrent calls of their setters leave
 in it.
 */
module BlockSettings {
  import opened Prelude
  import opened SharedBlock
  import opened SharedBlockOrigins
  import opened SharedBlockResults

  const MIN_STANDBY_VALUE: int := 20

  /** Sleep time and current threshold; zeros until the power board reported them. */
  function Standby(time: int, threshold: int): Register {
    Register([time, threshold], [MIN_STANDBY_VALUE, MIN_STANDBY_VALUE])
  }

  function SetStandbyTime(task: nat, seconds: int): Event {
    StartSetter(task, Direct, [Some(seconds), None])
  }

  function SetStandbyCurrentThreshold(task: nat, milliamperes: int): Event {
    StartSetter(task, Direct, [None, Some(milliamperes)])
  }

  /** Minimum outage, delay and minimum battery level. */
  function WakeOnLanTrigger(minOutage: int, delay: int, minBattery: int): Register {
    Register([minOutage, delay, minBattery], [])
  }

  function SetWakeOnLanMinOutage(task: nat, seconds: int): Event {
    StartSetter(task, Queried, [Some(seconds), None, None])
  }

  function SetWakeOnLanDelay(task: nat, seconds: int): Event {
    StartSetter(task, Queried, [None, Some(seconds), None])
  }

  function SetWakeOnLanMinBattery(task: nat, percent: int): Event {
    StartSetter(task, Queried, [None, None, Some(percent)])
  }

  /** Screen timeout and idle backlight level. */
  function Screen(timeout: int, level: int): Register {
    Register([timeout, level], [])
  }

  function SetScreenTimeout(task: nat, seconds: int): Event {
    StartSetter(task, Blind, [Some(seconds), None])
  }

  function SetIdleBacklight(task: nat, level: int): Event {
    StartSetter(task, Queried, [None, Some(level)])
  }

  const MIN_ADAPTER_MV: int := 5000
  const MIN_ADAPTER_MA: int := 1000

  /** The rating of the power adapter; the other limits in its block follow from these two. */
  function Adapter(millivolts: int, milliamperes: int): Register {
    Register([millivolts, milliamperes], [MIN_ADAPTER_MV, MIN_ADAPTER_MA])
  }

  function SetAdapterVoltage(task: nat, millivolts: int): Event {
    StartSetter(task, Direct, [Some(millivolts), None])
  }

  function SetAdapterCurrent(task: nat, milliamperes: int): Event {
    StartSetter(task, Direct, [None, Some(milliamperes)])
  }

  // ----- concurrent setters

  /** Event `n` calls a setter that returned, and nothing else in the run writes component `c`. */
  ghost predicate AloneSets(register: Register, events: seq<Event>, n: nat, c: nat) {
    && n < |events| && events[n].StartSetter?
    && Starts(register, events, n, events[n].task, events[n].kind, events[n].change)
    && (var tasks := Run(register, events).tasks;
        events[n].task in tasks && tasks[events[n].task].Done?)
    && Sets(events[n].change, c)
    && forall m :: 0 <= m < |events| && m != n ==> !Targets(events[m], c)
  }

  lemma AloneDecides(register: Register, events: seq<Event>, n: nat, c: nat)
    requires AloneSets(register, events, n, c) && c < |register.initial|
    ensures |Run(register, events).device.block| == |register.initial|
    ensures Run(register, events).device.block[c] == events[n].change[c].value
  {
    OnlySetterDecides(register, events, n, events[n].task, events[n].kind, events[n].change, c);
  }

  /** Sleep time and threshold set at the same time are both kept. */
  lemma StandbyKeepsBoth(
    time: int, threshold: int, events: seq<Event>, m: nat, n: nat, t: nat, u: nat, seconds: int, milliamperes: int)
    requires AloneSets(Standby(time, threshold), events, m, 0) && events[m] == SetStandbyTime(t, seconds)
    requires AloneSets(Standby(time, threshold), events, n, 1) &&
        events[n] == SetStandbyCurrentThreshold(u, milliamperes)
    ensures Run(Standby(time, threshold), events).device.block == [seconds, milliamperes]
  {
    AloneDecides(Standby(time, threshold), events, m, 0);
    AloneDecides(Standby(time, threshold), events, n, 1);
  }

  /** Screen timeout, written without a query, and idle backlight, written with one, are both kept. */
  lemma ScreenKeepsBoth(
    timeout: int, level: int, events: seq<Event>, m: nat, n: nat, t: nat, u: nat, seconds: int, idle: int)
    requires AloneSets(Screen(timeout, level), events, m, 0) && events[m] == SetScreenTimeout(t, seconds)
    requires AloneSets(Screen(timeout, level), events, n, 1) && events[n] == SetIdleBacklight(u, idle)
    ensures Run(Screen(timeout, level), events).device.block == [seconds, idle]
  {
    AloneDecides(Screen(timeout, level), events, m, 0);
    AloneDecides(Screen(timeout, level), events, n, 1);
  }

  /** All three values of the Wake-on-LAN trigger set at the same time are kept. */
  lemma WakeOnLanKeepsAll(
    was: (int, int, int), events: seq<Event>, k: nat, m: nat, n: nat, t: nat, u: nat, v: nat,
    outage: int, delay: int, battery: int)
    requires AloneSets(WakeOnLanTrigger(was.0, was.1, was.2), events, k, 0) &&
        events[k] == SetWakeOnLanMinOutage(t, outage)
    requires AloneSets(WakeOnLanTrigger(was.0, was.1, was.2), events, m, 1) && events[m] == SetWakeOnLanDelay(u, delay)
    requires AloneSets(WakeOnLanTrigger(was.0, was.1, was.2), events, n, 2) &&
        events[n] == SetWakeOnLanMinBattery(v, battery)
    ensures Run(WakeOnLanTrigger(was.0, was.1, was.2), events).device.block == [outage, delay, battery]
  {
    AloneDecides(WakeOnLanTrigger(was.0, was.1, was.2), events, k, 0);
    AloneDecides(WakeOnLanTrigger(was.0, was.1, was.2), events, m, 1);
    AloneDecides(WakeOnLanTrigger(was.0, was.1, was.2), events, n, 2);
  }

  /** Adapter voltage and current set at the same time are both kept. */
  lemma AdapterKeepsBoth(
    voltage: int, current: int, events: seq<Event>, m: nat, n: nat, t: nat, u: nat, millivolts: int, milliamperes: int)
    requires AloneSets(Adapter(voltage, current), events, m, 0) && events[m] == SetAdapterVoltage(t, millivolts)
    requires AloneSets(Adapter(voltage, current), events, n, 1) && events[n] == SetAdapterCurrent(u, milliamperes)
    ensures Run(Adapter(voltage, current), events).device.block == [millivolts, milliamperes]
  {
    AloneDecides(Adapter(voltage, current), events, m, 0);
    AloneDecides(Adapter(voltage, current), events, n, 1);
  }
}
