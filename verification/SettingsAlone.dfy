/** The setters of the single settings when nobody disturbs them, in the units of the UPS. */
module SettingsAlone {
  import opened Prelude
  import opened SharedBlock
  import opened SharedBlockAlone
  import opened BlockSettings

  /** A setter of one of two values. */
  lemma PairFacts(register: Register, block: Block, change: Change)
    requires |register.initial| == |register.minima| == |block| == |change| == 2
    ensures Known(register, block) <==> block[0] >= register.minima[0] && block[1] >= register.minima[1]
    ensures IsFull(change, 2) <==> change[0].Some? && change[1].Some?
    ensures Merge(change, block)
            == [if change[0].Some? then change[0].value else block[0],
                if change[1].Some? then change[1].value else block[1]]
  {
  }

  /** The setter of the sleep time works from 20 s and 20 mA on, and fails for a block below. */
  lemma SleepTimeAlone(time: int, threshold: int, s: State, task: nat, value: int)
    requires Quiet(s) && task !in s.tasks && s.device.block == [time, threshold]
    ensures var called := [SetStandbyTime(task, value), Acquire(task), Process(AckOnly), Deliver];
            var read := Steps(Standby(0, 0), s, called);
            var end := Steps(Standby(0, 0), read, [Process(AckOnly), Deliver, Process(AckOnly), Deliver]);
            if time >= 20 && threshold >= 20
            then task in end.tasks && end.tasks[task].Done? && end.device.block == [value, threshold]
            else task in read.tasks && read.tasks[task].Unavailable? && read.device == s.device && read.requests == []
  {
    hide Steps, Merge, Known, IsFull;
    var change: Change := [Some(value), None];
    PairFacts(Standby(0, 0), s.device.block, change);
    DirectSetterAlone(Standby(0, 0), s, task, change);
  }

  /** The setter of the current threshold works for the same blocks. */
  lemma ThresholdAlone(time: int, threshold: int, s: State, task: nat, value: int)
    requires Quiet(s) && task !in s.tasks && s.device.block == [time, threshold]
    ensures var called := [SetStandbyCurrentThreshold(task, value), Acquire(task), Process(AckOnly), Deliver];
            var read := Steps(Standby(0, 0), s, called);
            var end := Steps(Standby(0, 0), read, [Process(AckOnly), Deliver, Process(AckOnly), Deliver]);
            if time >= 20 && threshold >= 20
            then task in end.tasks && end.tasks[task].Done? && end.device.block == [time, value]
            else task in read.tasks && read.tasks[task].Unavailable? && read.device == s.device && read.requests == []
  {
    hide Steps, Merge, Known, IsFull;
    var change: Change := [None, Some(value)];
    PairFacts(Standby(0, 0), s.device.block, change);
    DirectSetterAlone(Standby(0, 0), s, task, change);
  }

  /** The setter of the adapter voltage works from 5000 mV and 1000 mA on, and fails for a block below. */
  lemma AdapterVoltageAlone(voltage: int, current: int, s: State, task: nat, value: int)
    requires Quiet(s) && task !in s.tasks && s.device.block == [voltage, current]
    ensures var called := [SetAdapterVoltage(task, value), Acquire(task), Process(AckOnly), Deliver];
            var read := Steps(Adapter(0, 0), s, called);
            var end := Steps(Adapter(0, 0), read, [Process(AckOnly), Deliver, Process(AckOnly), Deliver]);
            if voltage >= 5000 && current >= 1000
            then task in end.tasks && end.tasks[task].Done? && end.device.block == [value, current]
            else task in read.tasks && read.tasks[task].Unavailable? && read.device == s.device && read.requests == []
  {
    hide Steps, Merge, Known, IsFull;
    var change: Change := [Some(value), None];
    PairFacts(Adapter(0, 0), s.device.block, change);
    DirectSetterAlone(Adapter(0, 0), s, task, change);
  }

  /** The setter of the adapter current works for the same blocks. */
  lemma AdapterCurrentAlone(voltage: int, current: int, s: State, task: nat, value: int)
    requires Quiet(s) && task !in s.tasks && s.device.block == [voltage, current]
    ensures var called := [SetAdapterCurrent(task, value), Acquire(task), Process(AckOnly), Deliver];
            var read := Steps(Adapter(0, 0), s, called);
            var end := Steps(Adapter(0, 0), read, [Process(AckOnly), Deliver, Process(AckOnly), Deliver]);
            if voltage >= 5000 && current >= 1000
            then task in end.tasks && end.tasks[task].Done? && end.device.block == [voltage, value]
            else task in read.tasks && read.tasks[task].Unavailable? && read.device == s.device && read.requests == []
  {
    hide Steps, Merge, Known, IsFull;
    var change: Change := [None, Some(value)];
    PairFacts(Adapter(0, 0), s.device.block, change);
    DirectSetterAlone(Adapter(0, 0), s, task, change);
  }

  /** The setter of the screen timeout keeps the idle backlight level without asking for it. */
  lemma ScreenTimeoutAlone(timeout: int, level: int, s: State, task: nat, seconds: int)
    requires Quiet(s) && task !in s.tasks && s.device.block == [timeout, level]
    ensures var called := Step(Screen(0, 0), s, SetScreenTimeout(task, seconds));
            var written := Step(Screen(0, 0), Step(Screen(0, 0), called, Acquire(task)), Process(AckOnly));
            var acked := Step(Screen(0, 0), written, Deliver);
            var answered := Step(Screen(0, 0), acked, Process(NotifyThenAck));
            var end := Step(Screen(0, 0), Step(Screen(0, 0), answered, Deliver), Deliver);
            task in end.tasks && end.tasks[task].Done? && end.device.block == [seconds, level]
  {
    hide Step;
    BlindSetterAlone(Screen(0, 0), s, task, [Some(seconds), None]);
    assert Merge([Some(seconds), None], [timeout, level]) == [seconds, level];
  }
}
