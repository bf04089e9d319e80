/**
 The throttle between changed fields and throttled listeners: once it is steady, pending
 names are flushed at most once per update period.
 */
module Throttle {
  /** Seconds after the first throttled publish in which everything still passes. */
  const UNTHROTTLED_SECONDS: real := 5.0

  /** `_wait_until_throttle`: 0, a deadline, and `None`. */
  datatype Phase = Fresh | Until(deadline: real) | Steady

  datatype Throttle = Throttle(period: real, lastUpdated: real, phase: Phase, pending: set<string>)

  /** The period has not passed since the last flush. */
  predicate TooSoon(t: Throttle, now: real) {
    t.period != 0.0 && now - t.lastUpdated < t.period
  }

  predicate Flushes(t: Throttle, now: real) {
    !TooSoon(t, now) || !t.phase.Steady?
  }

  function NextPhase(t: Throttle, now: real): Phase {
    if !TooSoon(t, now) then t.phase
    else match t.phase
      case Fresh => Until(now + UNTHROTTLED_SECONDS)
      case Until(deadline) => if deadline < now then Steady else t.phase
      case Steady => Steady
  }

  /** `_publish_throttled` on the throttle; a flush delivers all pending names, `name` among them. */
  function Publish(t: Throttle, name: string, now: real): Throttle {
    if !Flushes(t, now) then t.(pending := t.pending + {name})
    else Throttle(t.period, if t.period != 0.0 then now else t.lastUpdated, NextPhase(t, now), {})
  }

  /** A throttled publish: the name and the time the clock showed. */
  datatype ThrottleCall = ThrottleCall(name: string, now: real)

  function After(t: Throttle, calls: seq<ThrottleCall>): Throttle {
    if calls == [] then t else
    var last := calls[|calls| - 1];
    Publish(After(t, calls[..|calls| - 1]), last.name, last.now)
  }

  /** The times of the flushes of a run. */
  function FlushTimes(t: Throttle, calls: seq<ThrottleCall>): seq<real> {
    if calls == [] then [] else
    var front := calls[..|calls| - 1];
    var last := calls[|calls| - 1];
    FlushTimes(t, front) + if Flushes(After(t, front), last.now) then [last.now] else []
  }

  // ----- the phases

  function Rank(phase: Phase): nat {
    match phase case Fresh => 0 case Until(_) => 1 case Steady => 2
  }

  /** The phases only move forward; a steady throttle stays steady and keeps its period. */
  lemma {:induction false} PhasesMoveForward(t: Throttle, calls: seq<ThrottleCall>)
    ensures Rank(After(t, calls).phase) >= Rank(t.phase)
    ensures t.phase.Until? && After(t, calls).phase.Until? ==> After(t, calls).phase == t.phase
    ensures After(t, calls).period == t.period
  {
    if calls == [] {
    } else {
      PhasesMoveForward(t, calls[..|calls| - 1]);
    }
  }

  /** All calls come within five seconds of each of their predecessors. */
  ghost predicate WithinFiveSeconds(calls: seq<ThrottleCall>) {
    forall i, j :: 0 <= i <= j < |calls| ==> calls[j].now <= calls[i].now + 5.0
  }

  /**
   A fresh throttle holds nothing back for five seconds: every call delivers at once, and a
   deadline, once there is one, is five seconds after one of the calls.
   */
  lemma {:induction false} NothingWaitsAtFirst(t: Throttle, calls: seq<ThrottleCall>)
    requires t.phase.Fresh? && WithinFiveSeconds(calls)
    ensures !After(t, calls).phase.Steady?
    ensures After(t, calls).phase.Until? ==>
              exists i :: 0 <= i < |calls| && After(t, calls).phase.deadline == calls[i].now + 5.0
    ensures |FlushTimes(t, calls)| == |calls|
    ensures calls != [] ==> After(t, calls).pending == {}
  {
    if calls == [] {
    } else {
      var front, last := calls[..|calls| - 1], calls[|calls| - 1];
      NothingWaitsAtFirst(t, front);
      var before := After(t, front).phase;
      if before.Until? {
        var i :| 0 <= i < |front| && before.deadline == front[i].now + UNTHROTTLED_SECONDS;
        assert calls[i] == front[i];
      }
      assert calls[|calls| - 1] == last;
    }
  }

  // ----- the rate

  /** Times that follow `origin` and each other at distances of at least `period`. */
  ghost predicate Spaced(origin: real, times: seq<real>, period: real) {
    && (times != [] ==> times[0] - origin >= period)
    && (forall i :: 0 < i < |times| ==> times[i] - times[i - 1] >= period)
  }

  function LastOf(origin: real, times: seq<real>): real {
    if times == [] then origin else times[|times| - 1]
  }

  lemma SpacedSnoc(origin: real, times: seq<real>, period: real, next: real)
    requires Spaced(origin, times, period) && next - LastOf(origin, times) >= period
    ensures Spaced(origin, times + [next], period)
  {
  }

  /** Flushes of a steady throttle are at least a period apart, whatever the clock does. */
  lemma {:induction false} FlushesAreSpaced(t: Throttle, calls: seq<ThrottleCall>)
    requires t.phase.Steady? && t.period > 0.0
    ensures Spaced(t.lastUpdated, FlushTimes(t, calls), t.period)
    ensures After(t, calls).lastUpdated == LastOf(t.lastUpdated, FlushTimes(t, calls))
  {
    if calls == [] {
    } else {
      var front, now := calls[..|calls| - 1], calls[|calls| - 1].now;
      FlushesAreSpaced(t, front);
      PhasesMoveForward(t, front);
      if Flushes(After(t, front), now) {
        SpacedSnoc(t.lastUpdated, FlushTimes(t, front), t.period, now);
      }
    }
  }

  lemma {:induction false} SpacedApart(origin: real, times: seq<real>, period: real, i: nat, j: nat)
    requires Spaced(origin, times, period) && i <= j < |times|
    ensures times[j] - times[i] >= (j - i) as real * period
  {
    if i < j {
      SpacedApart(origin, times, period, i, j - 1);
      assert (j - i) as real * period == (j - 1 - i) as real * period + period;
    }
  }

  /** The whole periods in a window, `window div period`. */
  function PeriodsIn(window: real, period: real): int
    requires period > 0.0
  {
    (window / period).Floor
  }

  lemma PeriodsInWindow(count: nat, period: real, window: real)
    requires period > 0.0 && count as real * period <= window
    ensures count <= PeriodsIn(window, period)
  {
    var quotient := window / period;
    assert quotient * period == window;
    assert (quotient - count as real) * period >= 0.0;
    assert quotient >= count as real;
  }

  /** In any window of length `window` a steady throttle flushes at most `window div period + 1` times. */
  lemma FlushRate(t: Throttle, calls: seq<ThrottleCall>, start: real, window: real, i: nat, j: nat)
    requires t.phase.Steady? && t.period > 0.0
    requires i <= j < |FlushTimes(t, calls)|
    requires start <= FlushTimes(t, calls)[i] && FlushTimes(t, calls)[j] <= start + window
    ensures j - i + 1 <= PeriodsIn(window, t.period) + 1
  {
    hide FlushTimes, PeriodsIn;
    FlushesAreSpaced(t, calls);
    SpacedApart(t.lastUpdated, FlushTimes(t, calls), t.period, i, j);
    PeriodsInWindow(j - i, t.period, window);
  }

  lemma {:induction false} FlushesWithin(t: Throttle, calls: seq<ThrottleCall>, start: real, window: real)
    requires forall i :: 0 <= i < |calls| ==> start <= calls[i].now <= start + window
    ensures forall k :: 0 <= k < |FlushTimes(t, calls)| ==> start <= FlushTimes(t, calls)[k] <= start + window
  {
    if calls == [] {
    } else {
      FlushesWithin(t, calls[..|calls| - 1], start, window);
    }
  }

  /** Calls that all come within a window flush a steady throttle at most `window div period + 1` times. */
  lemma FlushCount(t: Throttle, calls: seq<ThrottleCall>, start: real, window: real)
    requires t.phase.Steady? && t.period > 0.0 && window >= 0.0
    requires forall i :: 0 <= i < |calls| ==> start <= calls[i].now <= start + window
    ensures |FlushTimes(t, calls)| <= PeriodsIn(window, t.period) + 1
  {
    hide FlushTimes, PeriodsIn;
    FlushesWithin(t, calls, start, window);
    var count := |FlushTimes(t, calls)|;
    if count == 0 {
      PeriodsInWindow(0, t.period, window);
    } else {
      FlushRate(t, calls, start, window, 0, count - 1);
    }
  }

  // ----- the way to the steady throttle

  /** Which calls are flushed although they come too soon after the last flush. */
  function Early(t: Throttle, calls: seq<ThrottleCall>): (flags: seq<bool>)
    ensures |flags| == |calls|
  {
    if calls == [] then [] else
    var front, last := calls[..|calls| - 1], calls[|calls| - 1];
    var before := After(t, front);
    Early(t, front) + [TooSoon(before, last.now) && Flushes(before, last.now)]
  }

  ghost predicate IsFirst(flags: seq<bool>, i: nat) {
    i < |flags| && flags[i] && forall j :: 0 <= j < i ==> !flags[j]
  }

  /** Some early call came more than five seconds after the first of them. */
  ghost predicate PassedDeadline(flags: seq<bool>, calls: seq<ThrottleCall>)
    requires |flags| == |calls|
  {
    exists i: nat, j: nat :: i < j < |flags| && IsFirst(flags, i) && flags[j] && calls[j].now > calls[i].now + 5.0
  }

  /** The deadline is that of the first early call, and no early call has passed it. */
  ghost predicate BeforeDeadline(deadline: real, flags: seq<bool>, calls: seq<ThrottleCall>)
    requires |flags| == |calls|
  {
    && (exists i: nat :: IsFirst(flags, i) && deadline == calls[i].now + 5.0)
    && forall j :: 0 <= j < |flags| && flags[j] ==> calls[j].now <= deadline
  }

  /** What the phase of a throttle that started fresh says about its early calls so far. */
  ghost predicate PhaseTells(phase: Phase, flags: seq<bool>, calls: seq<ThrottleCall>)
    requires |flags| == |calls|
  {
    match phase
    case Fresh => forall i :: 0 <= i < |flags| ==> !flags[i]
    case Until(deadline) => BeforeDeadline(deadline, flags, calls)
    case Steady => PassedDeadline(flags, calls)
  }

  lemma FirstStays(flags: seq<bool>, i: nat, flag: bool)
    requires IsFirst(flags, i)
    ensures IsFirst(flags + [flag], i)
  {
  }

  lemma FreshStep(s: Throttle, flags: seq<bool>, calls: seq<ThrottleCall>, call: ThrottleCall)
    requires |flags| == |calls| && s.phase.Fresh? && PhaseTells(s.phase, flags, calls)
    ensures PhaseTells(NextPhase(s, call.now), flags + [TooSoon(s, call.now)], calls + [call])
  {
    if TooSoon(s, call.now) {
      assert IsFirst(flags + [true], |flags|);
      assert (calls + [call])[|flags|] == call;
    }
  }

  lemma UntilStep(s: Throttle, flags: seq<bool>, calls: seq<ThrottleCall>, call: ThrottleCall)
    requires |flags| == |calls| && s.phase.Until? && PhaseTells(s.phase, flags, calls)
    ensures PhaseTells(NextPhase(s, call.now), flags + [TooSoon(s, call.now)], calls + [call])
  {
    var i: nat :| IsFirst(flags, i) && s.phase.deadline == calls[i].now + 5.0;
    FirstStays(flags, i, TooSoon(s, call.now));
    assert (calls + [call])[i] == calls[i] && (calls + [call])[|calls|] == call;
  }

  lemma SteadyStep(s: Throttle, flags: seq<bool>, calls: seq<ThrottleCall>, call: ThrottleCall)
    requires |flags| == |calls| && PassedDeadline(flags, calls)
    ensures PassedDeadline(flags + [false], calls + [call])
  {
    var i: nat, j: nat :| i < j < |flags| && IsFirst(flags, i) && flags[j] && calls[j].now > calls[i].now + 5.0;
    FirstStays(flags, i, false);
    assert (flags + [false])[j] && (calls + [call])[i] == calls[i] && (calls + [call])[j] == calls[j];
  }

  lemma {:induction false} PhaseIsTold(t: Throttle, calls: seq<ThrottleCall>)
    requires t.phase.Fresh?
    ensures PhaseTells(After(t, calls).phase, Early(t, calls), calls)
  {
    if calls == [] {
    } else {
      var front, last := calls[..|calls| - 1], calls[|calls| - 1];
      PhaseIsTold(t, front);
      hide PhaseTells;
      var before, flags := After(t, front), Early(t, front);
      assert front + [last] == calls;
      match before.phase
      case Fresh => FreshStep(before, flags, front, last);
      case Until(_) => UntilStep(before, flags, front, last);
      case Steady =>
        SteadyTold(flags, front);
        SteadyStep(before, flags, front, last);
        SteadyTold(flags + [false], calls);
    }
  }

  lemma SteadyTold(flags: seq<bool>, calls: seq<ThrottleCall>)
    requires |flags| == |calls|
    ensures PhaseTells(Steady, flags, calls) <==> PassedDeadline(flags, calls)
  {
  }

  /**
   A throttle that started fresh is steady exactly if some calls came too soon after a flush, one
   of them more than five seconds after the first.
   */
  lemma SteadyIff(t: Throttle, calls: seq<ThrottleCall>)
    requires t.phase.Fresh?
    ensures After(t, calls).phase.Steady? <==> PassedDeadline(Early(t, calls), calls)
  {
    hide After, Early;
    PhaseIsTold(t, calls);
    var flags := Early(t, calls);
    if After(t, calls).phase.Until? {
      var k: nat :| IsFirst(flags, k) && After(t, calls).phase.deadline == calls[k].now + 5.0;
      forall i: nat, j: nat | i < j < |flags| && IsFirst(flags, i) && flags[j]
        ensures calls[j].now <= calls[i].now + 5.0
      {
        assert i == k;
      }
    }
  }

  /** Once the deadline passed, the next call that comes too soon is the last one that gets through. */
  lemma BecomesSteadyIff(t: Throttle, name: string, now: real, next: string, later: real)
    requires t.phase.Until? && t.period > 0.0
    ensures Publish(t, name, now).phase.Steady? <==> t.phase.deadline < now < t.lastUpdated + t.period
    ensures t.phase.deadline < now < t.lastUpdated + t.period ==>
              && Delivered(t, name, now) == t.pending + {name}
              && Delivered(Publish(t, name, now), next, later)
                 == if later < now + t.period then {} else {next}
  {
  }

  /** Without an update period nothing is ever held back. */
  lemma {:induction false} NoPeriodNoWait(t: Throttle, calls: seq<ThrottleCall>)
    requires t.period == 0.0
    ensures |FlushTimes(t, calls)| == |calls|
    ensures calls != [] ==> After(t, calls).pending == {}
    ensures After(t, calls).phase == t.phase && After(t, calls).period == 0.0
  {
    if calls == [] {
    } else {
      NoPeriodNoWait(t, calls[..|calls| - 1]);
    }
  }

  ghost predicate Ordered(calls: seq<ThrottleCall>) {
    forall i, j :: 0 <= i <= j < |calls| ==> calls[i].now <= calls[j].now
  }

  function EarlyCount(t: Throttle, calls: seq<ThrottleCall>): nat {
    if calls == [] then 0 else
    var front, last := calls[..|calls| - 1], calls[|calls| - 1];
    var before := After(t, front);
    EarlyCount(t, front) + if TooSoon(before, last.now) && Flushes(before, last.now) then 1 else 0
  }

  /** The flushes of `times`, of which `early` were early, take at least the periods between the others. */
  ghost predicate Spans(times: seq<real>, early: nat, period: real) {
    times != [] ==> (|times| - early - 1) as real * period <= times[|times| - 1] - times[0]
  }

  lemma SpansMore(times: seq<real>, early: nat, period: real, now: real, isEarly: bool)
    requires period > 0.0 && Spans(times, early, period)
    requires times != [] ==> now >= times[|times| - 1] + (if isEarly then 0.0 else period)
    ensures Spans(times + [now], if isEarly then early + 1 else early, period)
  {
    var more := times + [now];
    if times == [] {
      var n := |more| - (if isEarly then early + 1 else early) - 1;
      assert n <= 0;
      assert n as real * period <= 0.0;
    } else {
      var n := |times| - early - 1;
      assert (n + 1) as real * period == n as real * period + period;
    }
  }

  lemma {:induction false} LastFlush(t: Throttle, calls: seq<ThrottleCall>)
    requires t.period != 0.0 && Ordered(calls)
    ensures After(t, calls).lastUpdated == LastOf(t.lastUpdated, FlushTimes(t, calls))
    ensures FlushTimes(t, calls) != [] ==> LastOf(t.lastUpdated, FlushTimes(t, calls)) <= calls[|calls| - 1].now
  {
    if calls == [] {
    } else {
      LastFlush(t, calls[..|calls| - 1]);
      PhasesMoveForward(t, calls[..|calls| - 1]);
    }
  }

  lemma SpanStep(before: Throttle, origin: real, times: seq<real>, early: nat, now: real)
    requires before.period > 0.0 && Spans(times, early, before.period)
    requires before.lastUpdated == LastOf(origin, times) && (times != [] ==> LastOf(origin, times) <= now)
    ensures Spans(times + (if Flushes(before, now) then [now] else []),
                  early + (if TooSoon(before, now) && Flushes(before, now) then 1 else 0), before.period)
  {
    hide Spans;
    if Flushes(before, now) {
      SpansMore(times, early, before.period, now, TooSoon(before, now));
    } else {
      assert times + [] == times;
    }
  }

  /** From one flush to the next at least a period passes, unless the next one is early. */
  lemma {:induction false} FlushesSpan(t: Throttle, calls: seq<ThrottleCall>)
    requires t.period > 0.0 && Ordered(calls)
    ensures Spans(FlushTimes(t, calls), EarlyCount(t, calls), t.period)
  {
    if calls == [] {
    } else {
      hide Spans, Publish, Flushes, TooSoon, NextPhase, LastOf, After;
      var front, last := calls[..|calls| - 1], calls[|calls| - 1];
      FlushesSpan(t, front);
      LastFlush(t, front);
      PhasesMoveForward(t, front);
      assert FlushTimes(t, front) != [] ==> front != [] && front[|front| - 1].now <= last.now;
      SpanStep(After(t, front), t.lastUpdated, FlushTimes(t, front), EarlyCount(t, front), last.now);
    }
  }

  /** After the deadline at most one more flush is early. */
  lemma {:induction false} EarlyOnceAfterDeadline(t: Throttle, calls: seq<ThrottleCall>)
    requires !t.phase.Fresh?
    requires t.phase.Until? ==> forall i :: 0 <= i < |calls| ==> calls[i].now > t.phase.deadline
    ensures EarlyCount(t, calls) <= 1
    ensures !After(t, calls).phase.Fresh?
    ensures After(t, calls).phase.Until? ==> After(t, calls).phase == t.phase && EarlyCount(t, calls) == 0
  {
    if calls == [] {
    } else {
      EarlyOnceAfterDeadline(t, calls[..|calls| - 1]);
    }
  }

  lemma SpanBounds(times: seq<real>, early: nat, period: real, start: real, window: real)
    requires Spans(times, early, period) && period > 0.0 && window >= 0.0
    requires forall k :: 0 <= k < |times| ==> start <= times[k] <= start + window
    ensures |times| <= PeriodsIn(window, period) + 1 + early
  {
    hide PeriodsIn;
    var count := |times| - early - 1;
    PeriodsInWindow(if times != [] && count >= 0 then count else 0, period, window);
  }

  /**
   A bound from the start: more than five seconds after some call came too soon, any window of
   length `window` has at most `window div period + 2` flushes.
   */
  lemma FlushRateFromStart(
    t: Throttle, early: seq<ThrottleCall>, late: seq<ThrottleCall>, i: nat, start: real, window: real)
    requires t.phase.Fresh? && t.period > 0.0 && window >= 0.0
    requires Ordered(early) && Ordered(late) && i < |early| && Early(t, early)[i]
    requires forall k :: 0 <= k < |late| ==> late[k].now > early[i].now + 5.0 && start <= late[k].now <= start + window
    ensures |FlushTimes(After(t, early), late)| <= PeriodsIn(window, t.period) + 2
  {
    hide FlushTimes, PeriodsIn, EarlyCount, After, Early, Spans;
    var s := After(t, early);
    PhasesMoveForward(t, early);
    DeadlineAfterEarly(t, early, i);
    EarlyOnceAfterDeadline(s, late);
    FlushesSpan(s, late);
    FlushesWithin(s, late, start, window);
    SpanBounds(FlushTimes(s, late), EarlyCount(s, late), t.period, start, window);
  }

  lemma DeadlineAfterEarly(t: Throttle, calls: seq<ThrottleCall>, i: nat)
    requires t.phase.Fresh? && Ordered(calls) && i < |calls| && Early(t, calls)[i]
    ensures !After(t, calls).phase.Fresh?
    ensures After(t, calls).phase.Until? ==> After(t, calls).phase.deadline <= calls[i].now + 5.0
  {
    hide After, Early;
    PhaseIsTold(t, calls);
    if After(t, calls).phase.Until? {
      var k: nat :| IsFirst(Early(t, calls), k) && After(t, calls).phase.deadline == calls[k].now + 5.0;
      assert k <= i;
    }
  }

  // ----- nothing is dropped

  /** The names a call delivers to the throttled listeners. */
  function Delivered(t: Throttle, name: string, now: real): set<string> {
    if Flushes(t, now) then t.pending + {name} else {}
  }

  /** Nothing was flushed by the calls from number `i` on. */
  ghost predicate NoFlushFrom(t: Throttle, calls: seq<ThrottleCall>, i: nat) {
    forall j :: i <= j < |calls| ==> !Flushes(After(t, calls[..j]), calls[j].now)
  }

  /**
   Nothing is dropped, and nothing is delivered late by mistake: a name is pending exactly if it
   was published, or pending at the start, and nothing was flushed then or since.
   */
  lemma {:induction false} PendingIff(t: Throttle, calls: seq<ThrottleCall>, name: string)
    ensures name in After(t, calls).pending <==>
            || (name in t.pending && NoFlushFrom(t, calls, 0))
            || (exists i :: 0 <= i < |calls| && calls[i].name == name && NoFlushFrom(t, calls, i))
  {
    if calls == [] {
    } else {
      var front := calls[..|calls| - 1];
      PendingIff(t, front, name);
      forall i: nat | i <= |front|
        ensures NoFlushFrom(t, calls, i) <==>
                NoFlushFrom(t, front, i) && !Flushes(After(t, front), calls[|front|].now)
      {
        NoFlushSnoc(t, calls, i);
      }
      assert forall i :: 0 <= i < |front| ==> calls[i] == front[i];
    }
  }

  lemma NoFlushSnoc(t: Throttle, calls: seq<ThrottleCall>, i: nat)
    requires i < |calls|
    ensures var last := |calls| - 1;
            NoFlushFrom(t, calls, i) <==>
            (NoFlushFrom(t, calls[..last], i) && !Flushes(After(t, calls[..last]), calls[last].now))
  {
    var front := calls[..|calls| - 1];
    assert forall j :: 0 <= j < |front| ==> front[..j] == calls[..j] && front[j] == calls[j];
  }

  /**
   A pending name waits for the period to pass and no longer: as long as no call comes a
   period after the last flush nothing is delivered, and the first one that does delivers
   every name that waited.
   */
  lemma {:induction false} FirstCallAfterPeriodDelivers(t: Throttle, calls: seq<ThrottleCall>, name: string, now: real)
    requires t.phase.Steady? && t.period > 0.0
    requires forall i :: 0 <= i < |calls| ==> calls[i].now < t.lastUpdated + t.period
    ensures FlushTimes(t, calls) == []
    ensures After(t, calls).pending == t.pending + set i | 0 <= i < |calls| :: calls[i].name
    ensures Delivered(After(t, calls), name, now) ==
            if now >= t.lastUpdated + t.period then t.pending + (set i | 0 <= i < |calls| :: calls[i].name) + {name}
                else {}
  {
    if calls == [] {
    } else {
      var front, last := calls[..|calls| - 1], calls[|calls| - 1];
      FirstCallAfterPeriodDelivers(t, front, last.name, last.now);
      assert (set i | 0 <= i < |calls| :: calls[i].name) ==
          (set i | 0 <= i < |front| :: front[i].name) + {last.name} by {
        assert forall i :: 0 <= i < |front| ==> front[i] == calls[i];
        assert calls[|front|].name == last.name;
      }
      FlushesAreSpaced(t, calls);
      PhasesMoveForward(t, calls);
    }
  }
}
