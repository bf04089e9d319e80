/**
 The way of a changed field to its listeners: assigning a field records its name, the
 next publish calls the listeners of the recorded names, the throttled ones at once or
 when their period allows, and the watchdog publishes all data fields past the throttle.

 A listener is modelled by the picture it has of its field: being called, it reads the
 field. A new listener starts with the present value, as an entity does.
 */
module DeviceBase {
  import opened Prelude
  import opened Throttle
  import DataWatch
  import ListenerLists = Listeners

  datatype Subscription = Subscription(name: string, id: nat)

  /** One listener group was called. */
  datatype GroupCall = Immediate(name: string) | Throttled(name: string)

  type Listeners = map<string, seq<Subscription>>

  function GroupOf(listeners: Listeners, name: string): seq<Subscription> {
    if name in listeners then listeners[name] else []
  }

  predicate Listens(listeners: Listeners, sub: Subscription) {
    sub in GroupOf(listeners, sub.name)
  }

  /** What a listener knows of its field, after it was called. */
  type Pictures = map<Subscription, Option<int>>

  /** Only listeners of the group looked at their fields. */
  ghost predicate SameBeside(group: seq<Subscription>, before: Pictures, after: Pictures) {
    forall sub :: sub !in group ==>
                    && (sub in after <==> sub in before)
                    && (sub in after ==> after[sub] == before[sub])
  }

  /** The groups of one kind, with the call that stands for each. */
  datatype Groups = Groups(listeners: Listeners, throttled: bool) {
    function CallOf(name: string): GroupCall {
      if throttled then Throttled(name) else Immediate(name)
    }
  }

  /** Between two moments every non-empty group of `names` was called once, and no other group. */
  ghost predicate CalledOnce(groups: Groups, before: seq<GroupCall>, after: seq<GroupCall>, names: set<string>) {
    forall name ::
      multiset(after)[groups.CallOf(name)] ==
      multiset(before)[groups.CallOf(name)] + if name in names && GroupOf(groups.listeners, name) != [] then 1 else 0
  }

  lemma CalledNone(groups: Groups, calls: seq<GroupCall>)
    ensures CalledOnce(groups, calls, calls, {})
  {
  }

  lemma CalledNoneMore(groups: Groups, first: seq<GroupCall>, second: seq<GroupCall>, third: seq<GroupCall>)
    requires CalledOnce(groups, first, second, {}) && CalledOnce(groups, second, third, {})
    ensures CalledOnce(groups, first, third, {})
  {
  }

  lemma CalledOnceMore(
    groups: Groups, first: seq<GroupCall>, second: seq<GroupCall>, third: seq<GroupCall>,
    names: set<string>, name: string)
    requires CalledOnce(groups, first, second, names) && name !in names
    requires CalledOnce(groups, second, third, {name})
    ensures CalledOnce(groups, first, third, names + {name})
  {
  }

  /** How often the throttle delivers `name` during the calls it gets. */
  function Deliveries(t: Throttle, made: seq<ThrottleCall>, name: string): nat {
    if made == [] then 0 else
    var front, last := made[..|made| - 1], made[|made| - 1];
    Deliveries(t, front, name) + if name in Delivered(After(t, front), last.name, last.now) then 1 else 0
  }

  /** Between two moments every non-empty group was called as often as the throttle delivered its name. */
  ghost predicate CalledAsDelivered(
    groups: Groups, before: seq<GroupCall>, after: seq<GroupCall>, t: Throttle, made: seq<ThrottleCall>)
  {
    forall name ::
      multiset(after)[groups.CallOf(name)] ==
      multiset(before)[groups.CallOf(name)]
      + if GroupOf(groups.listeners, name) != [] then Deliveries(t, made, name) else 0
  }

  lemma DeliveredNone(groups: Groups, calls: seq<GroupCall>, t: Throttle)
    ensures CalledAsDelivered(groups, calls, calls, t, [])
  {
  }

  lemma DeliveredMore(
    groups: Groups, first: seq<GroupCall>, second: seq<GroupCall>, third: seq<GroupCall>,
    t: Throttle, made: seq<ThrottleCall>, call: ThrottleCall)
    requires CalledAsDelivered(groups, first, second, t, made)
    requires CalledOnce(groups, second, third, Delivered(After(t, made), call.name, call.now))
    ensures CalledAsDelivered(groups, first, third, t, made + [call])
  {
    assert (made + [call])[..|made|] == made;
  }

  lemma {:induction false} AfterConcat(t: Throttle, first: seq<ThrottleCall>, second: seq<ThrottleCall>)
    ensures After(t, first + second) == After(After(t, first), second)
  {
    if second == [] {
      assert first + second == first;
    } else {
      var front, last := second[..|second| - 1], second[|second| - 1];
      AfterConcat(t, first, front);
      AfterSnoc(t, first + front, last);
      assert first + front + [last] == first + second;
    }
  }

  lemma DeliveriesSnoc(t: Throttle, made: seq<ThrottleCall>, call: ThrottleCall, name: string)
    ensures Deliveries(t, made + [call], name)
            == Deliveries(t, made, name) + if name in Delivered(After(t, made), call.name, call.now) then 1 else 0
  {
    assert (made + [call])[..|made|] == made;
  }

  lemma {:induction false} DeliveriesConcat(
    t: Throttle, first: seq<ThrottleCall>, second: seq<ThrottleCall>, name: string)
    ensures Deliveries(t, first + second, name)
            == Deliveries(t, first, name) + Deliveries(After(t, first), second, name)
  {
    if second == [] {
      assert first + second == first;
    } else {
      var front, last := second[..|second| - 1], second[|second| - 1];
      DeliveriesConcat(t, first, front, name);
      DeliveriesSnoc(t, first + front, last, name);
      AfterConcat(t, first, front);
      assert first + front + [last] == first + second;
    }
  }

  /** The throttle delivers a name at most once with each flush. */
  lemma {:induction false} DeliveredWithFlushes(t: Throttle, made: seq<ThrottleCall>, name: string)
    ensures Deliveries(t, made, name) <= |FlushTimes(t, made)|
  {
    if made == [] {
    } else {
      DeliveredWithFlushes(t, made[..|made| - 1], name);
    }
  }

  lemma CalledInTwoParts(
    groups: Groups, first: seq<GroupCall>, second: seq<GroupCall>, third: seq<GroupCall>,
    t: Throttle, made: seq<ThrottleCall>, more: seq<ThrottleCall>)
    requires CalledAsDelivered(groups, first, second, t, made)
    requires CalledAsDelivered(groups, second, third, After(t, made), more)
    ensures CalledAsDelivered(groups, first, third, t, made + more)
  {
    hide After, Deliveries;
    forall name
      ensures Deliveries(t, made + more, name) == Deliveries(t, made, name) + Deliveries(After(t, made), more, name)
    {
      DeliveriesConcat(t, made, more, name);
    }
  }

  /** No throttled group was called more than `limit` times. */
  ghost predicate CalledAtMost(before: seq<GroupCall>, after: seq<GroupCall>, limit: int) {
    forall name :: multiset(after)[Throttled(name)] <= multiset(before)[Throttled(name)] + limit
  }

  lemma CallsAreBounded(
    groups: Groups, before: seq<GroupCall>, after: seq<GroupCall>, t: Throttle, made: seq<ThrottleCall>,
    start: real, window: real)
    requires groups.throttled && CalledAsDelivered(groups, before, after, t, made)
    requires t.phase.Steady? && t.period > 0.0 && window >= 0.0
    requires forall i :: 0 <= i < |made| ==> start <= made[i].now <= start + window
    ensures CalledAtMost(before, after, PeriodsIn(window, t.period) + 1)
  {
    hide FlushTimes, Deliveries, PeriodsIn;
    FlushCount(t, made, start, window);
    forall name
      ensures Deliveries(t, made, name) <= |FlushTimes(t, made)|
      ensures multiset(after)[Throttled(name)] <= multiset(before)[Throttled(name)] + PeriodsIn(window, t.period) + 1
    {
      DeliveredWithFlushes(t, made, name);
      assert groups.CallOf(name) == Throttled(name);
    }
  }

  /** Every non-empty group of `names` was called `times` times, and no other group. */
  ghost predicate CalledTimes(
    groups: Groups, before: seq<GroupCall>, after: seq<GroupCall>, names: set<string>, times: nat)
  {
    forall name ::
      multiset(after)[groups.CallOf(name)] ==
      multiset(before)[groups.CallOf(name)]
      + if name in names && GroupOf(groups.listeners, name) != [] then times else 0
  }

  lemma CalledTimesNone(groups: Groups, calls: seq<GroupCall>, names: set<string>)
    ensures CalledTimes(groups, calls, calls, names, 0)
  {
  }

  lemma CalledTimesMore(
    groups: Groups, first: seq<GroupCall>, second: seq<GroupCall>, third: seq<GroupCall>,
    names: set<string>, times: nat, now: nat)
    requires CalledTimes(groups, first, second, names, times) && times <= now <= times + 1
    requires CalledOnce(groups, second, third, if now > times then names else {})
    ensures CalledTimes(groups, first, third, names, now)
  {
  }

  /** Field assignments of one stretch, in order; `None` is an unknown value. */
  datatype Assignment = Assignment(name: string, value: Option<int>)

  function Lookup(values: map<string, Option<int>>, name: string): Option<int> {
    if name in values then values[name] else None
  }

  /** What a field shows after the assignments. */
  function Assigned(values: map<string, Option<int>>, assignments: seq<Assignment>, name: string): Option<int> {
    if assignments == [] then Lookup(values, name)
    else if assignments[|assignments| - 1].name == name then assignments[|assignments| - 1].value
    else Assigned(values, assignments[..|assignments| - 1], name)
  }

  /** The last assignment of a field wins, and a field that is not assigned keeps its value. */
  lemma {:induction false} LastAssignmentWins(
    values: map<string, Option<int>>, assignments: seq<Assignment>, i: int, name: string)
    requires -1 <= i < |assignments| && (i >= 0 ==> assignments[i].name == name)
    requires forall j :: i < j < |assignments| ==> assignments[j].name != name
    ensures Assigned(values, assignments, name) == if i < 0 then Lookup(values, name) else assignments[i].value
  {
    if i == |assignments| - 1 {
    } else {
      LastAssignmentWins(values, assignments[..|assignments| - 1], i, name);
    }
  }

  ghost predicate EachOnce(assignments: seq<Assignment>) {
    forall i, j :: 0 <= i < j < |assignments| ==> assignments[i].name != assignments[j].name
  }

  class Device {
    const dataFields: set<string>

    var values: map<string, Option<int>>
    var updated: set<string>

    var immediate: Listeners
    var throttled: Listeners

    var updatePeriod: real
    var lastUpdated: real
    var waitUntilThrottle: Phase
    var propsToUpdate: set<string>

    var lastData: real
    var dataCurrent: bool

    // what the listeners have seen, and the calls of their groups so far
    var pictures: Pictures
    var calls: seq<GroupCall>

    function Read(name: string): Option<int>
      reads this`values
    {
      Lookup(values, name)
    }

    function ThrottleState(): Throttle
      reads this`updatePeriod, this`lastUpdated, this`waitUntilThrottle, this`propsToUpdate
    {
      Throttle(updatePeriod, lastUpdated, waitUntilThrottle, propsToUpdate)
    }

    function Watch(): DataWatch.Watch
      reads this`lastData, this`dataCurrent
    {
      DataWatch.Watch(lastData, dataCurrent)
    }

    function ImmediateGroups(): Groups
      reads this`immediate
    {
      Groups(immediate, false)
    }

    function ThrottledGroups(): Groups
      reads this`throttled
    {
      Groups(throttled, true)
    }

    ghost predicate Seen(sub: Subscription)
      reads this`pictures, this`values
    {
      sub in pictures && pictures[sub] == Read(sub.name)
    }

    /** Every unthrottled listener has seen its field, except for fields in `dirty`. */
    ghost predicate ImmediateAgree(dirty: set<string>)
      reads this`pictures, this`values, this`immediate
    {
      forall sub :: Listens(immediate, sub) ==> sub.name in dirty || Seen(sub)
    }

    /** Every throttled listener has seen its field, except for fields in `dirty` and pending ones. */
    ghost predicate ThrottledAgree(dirty: set<string>)
      reads this`pictures, this`values, this`throttled, this`propsToUpdate
    {
      forall sub :: Listens(throttled, sub) ==> sub.name in dirty || sub.name in propsToUpdate || Seen(sub)
    }

    /** What holds at every await: nothing is recorded, and every picture is right or pending. */
    ghost predicate AtRest()
      reads this
    {
      updated == {} && ImmediateAgree({}) && ThrottledAgree({})
    }

    constructor (dataFields: set<string>)
      ensures AtRest() && values == map[] && this.dataFields == dataFields
    {
      this.dataFields := dataFields;
      values, updated := map[], {};
      immediate, throttled := map[], map[];
      updatePeriod, lastUpdated, waitUntilThrottle, propsToUpdate := 0.0, 0.0, Fresh, {};
      lastData, dataCurrent := 0.0, true;
      pictures, calls := map[], [];
    }

    /** `Field.__set__` */
    method Assign(name: string, value: Option<int>)
      modifies this`values, this`updated
      ensures forall n :: Read(n) == if n == name then value else old(Read(n))
      ensures updated == if value == old(Read(name)) then old(updated) else old(updated) + {name}
    {
      if value == Read(name) {
        return;
      }
      values := values[name := value];
      updated := updated + {name};
    }

    method ResetUpdated()
      modifies this`updated
      ensures updated == {}
    {
      updated := {};
    }

    /** Calls the listeners of a group in order, over a copy of the group. */
    method CallGroup(group: seq<Subscription>)
      modifies this`pictures
      ensures forall sub :: sub in group ==> Seen(sub)
      ensures SameBeside(group, old(pictures), pictures)
    {
      for i := 0 to |group|
        invariant forall j :: 0 <= j < i ==> Seen(group[j])
        invariant SameBeside(group, old(pictures), pictures)
      {
        pictures := pictures[group[i] := Read(group[i].name)];
      }
    }

    /** `listeners()` for one field of one kind, if there are any. */
    method CallListeners(name: string, throttledOnes: bool)
      modifies this`pictures, this`calls
      ensures var group := GroupOf(if throttledOnes then throttled else immediate, name);
              var call := if throttledOnes then Throttled(name) else Immediate(name);
              && (forall sub :: sub in group ==> Seen(sub))
              && SameBeside(group, old(pictures), pictures)
              && calls == if group == [] then old(calls) else old(calls) + [call]
      ensures forall sub :: old(Seen(sub)) ==> Seen(sub)
    {
      var group := GroupOf(if throttledOnes then throttled else immediate, name);
      if group != [] {
        calls := calls + [if throttledOnes then Throttled(name) else Immediate(name)];
        CallGroup(group);
      }
    }

    /**
     `_publish_throttled`: the throttle decides; what it delivers is exactly what is
     called, and what it keeps back stays pending.
     */
    method PublishThrottled(name: string, now: real, ghost dirty: set<string>)
      requires ThrottledAgree(dirty)
      modifies this`pictures, this`calls, this`lastUpdated, this`waitUntilThrottle, this`propsToUpdate
      ensures ThrottleState() == Publish(old(ThrottleState()), name, now)
      ensures ThrottledAgree(dirty - {name})
      ensures forall sub :: old(Seen(sub)) ==> Seen(sub)
      ensures CalledOnce(ThrottledGroups(), old(calls), calls, Delivered(old(ThrottleState()), name, now))
      ensures CalledOnce(ImmediateGroups(), old(calls), calls, {})
    {
      propsToUpdate := propsToUpdate + {name};
      assert ThrottledAgree(dirty - {name});
      hide Seen, ThrottledAgree;
      if updatePeriod != 0.0 {
        if now - lastUpdated < updatePeriod {
          if waitUntilThrottle.Steady? {
            return;
          }
          if waitUntilThrottle.Fresh? {
            waitUntilThrottle := Until(now + UNTHROTTLED_SECONDS);
          } else if waitUntilThrottle.deadline < now {
            waitUntilThrottle := Steady;
          }
        }
        lastUpdated := now;
      }
      FlushPending(dirty - {name});
    }

    /** Delivers all pending names. */
    method FlushPending(ghost dirty: set<string>)
      requires ThrottledAgree(dirty)
      modifies this`pictures, this`calls, this`propsToUpdate
      ensures propsToUpdate == {} && ThrottledAgree(dirty)
      ensures forall sub :: old(Seen(sub)) ==> Seen(sub)
      ensures CalledOnce(ThrottledGroups(), old(calls), calls, old(propsToUpdate))
      ensures CalledOnce(ImmediateGroups(), old(calls), calls, {})
    {
      CallPending(dirty);
      propsToUpdate := {};
    }

    /** Calls the throttled listeners of every pending name, in any order. */
    method CallPending(ghost dirty: set<string>)
      requires ThrottledAgree(dirty)
      modifies this`pictures, this`calls
      ensures forall sub :: Listens(throttled, sub) ==> sub.name in dirty || Seen(sub)
      ensures forall sub :: old(Seen(sub)) ==> Seen(sub)
      ensures CalledOnce(ThrottledGroups(), old(calls), calls, propsToUpdate)
      ensures CalledOnce(ImmediateGroups(), old(calls), calls, {})
    {
      hide CalledOnce;
      CalledNone(ThrottledGroups(), calls);
      CalledNone(ImmediateGroups(), calls);
      var todo := propsToUpdate;
      assert propsToUpdate - todo == {};
      while todo != {}
        invariant todo <= propsToUpdate
        invariant forall sub :: Listens(throttled, sub) ==> sub.name in dirty || sub.name in todo || Seen(sub)
        invariant forall sub :: old(Seen(sub)) ==> Seen(sub)
        invariant CalledOnce(ThrottledGroups(), old(calls), calls, propsToUpdate - todo)
        invariant CalledOnce(ImmediateGroups(), old(calls), calls, {})
      {
        var name :| name in todo;
        ghost var before := calls;
        CallThrottled(name);
        CalledOnceMore(ThrottledGroups(), old(calls), before, calls, propsToUpdate - todo, name);
        CalledNoneMore(ImmediateGroups(), old(calls), before, calls);
        assert propsToUpdate - todo + {name} == propsToUpdate - (todo - {name});
        todo := todo - {name};
      }
      assert propsToUpdate - todo == propsToUpdate;
    }

    method CallThrottled(name: string)
      modifies this`pictures, this`calls
      ensures forall sub :: old(Seen(sub)) ==> Seen(sub)
      ensures forall sub :: Listens(throttled, sub) && sub.name == name ==> Seen(sub)
      ensures CalledOnce(ThrottledGroups(), old(calls), calls, {name})
      ensures CalledOnce(ImmediateGroups(), old(calls), calls, {})
    {
      CallListeners(name, true);
    }

    /** One name of `_publish` with the throttle. */
    method PublishName(name: string, now: real, ghost dirty: set<string>)
      requires ImmediateAgree(dirty) && ThrottledAgree(dirty)
      modifies this`pictures, this`calls, this`lastUpdated, this`waitUntilThrottle, this`propsToUpdate
      ensures ImmediateAgree(dirty - {name}) && ThrottledAgree(dirty - {name})
      ensures CalledOnce(ImmediateGroups(), old(calls), calls, {name})
      ensures CalledOnce(ThrottledGroups(), old(calls), calls, Delivered(old(ThrottleState()), name, now))
      ensures ThrottleState() == Publish(old(ThrottleState()), name, now)
    {
      PublishThrottled(name, now, dirty);
      CallListeners(name, false);
    }

    /**
     How far a publish with the throttle has come: `done` are the names it published since
     the calls were `before` and the throttle was `t`, `made` its calls to the throttle.
     */
    ghost predicate Published(
      dirty: set<string>, before: seq<GroupCall>, t: Throttle, done: set<string>, made: seq<ThrottleCall>,
      clock: nat -> real)
      reads this
    {
      && ImmediateAgree(dirty - done) && ThrottledAgree(dirty - done)
      && CalledOnce(ImmediateGroups(), before, calls, done)
      && CalledAsDelivered(ThrottledGroups(), before, calls, t, made)
      && ThrottleState() == After(t, made)
      && OnePerName(made, done, clock)
    }

    method PublishNext(
      name: string, now: real, ghost dirty: set<string>, ghost before: seq<GroupCall>, ghost t: Throttle,
      ghost done: set<string>, ghost made: seq<ThrottleCall>, ghost clock: nat -> real)
      requires Published(dirty, before, t, done, made, clock) && name !in done && now == clock(|made|)
      modifies this`pictures, this`calls, this`lastUpdated, this`waitUntilThrottle, this`propsToUpdate
      ensures Published(dirty, before, t, done + {name}, made + [ThrottleCall(name, now)], clock)
    {
      hide Publish, After, Seen, ImmediateAgree, ThrottledAgree, CalledOnce, CalledAsDelivered, OnePerName;
      ghost var middle := calls;
      ghost var call := ThrottleCall(name, now);
      PublishName(name, now, dirty - done);
      CalledOnceMore(ImmediateGroups(), before, middle, calls, done, name);
      DeliveredMore(ThrottledGroups(), before, middle, calls, t, made, call);
      AfterSnoc(t, made, call);
      OnePerNameMore(made, done, clock, name);
      assert dirty - done - {name} == dirty - (done + {name});
    }

    /**
     `_publish` with the throttle. `made` are the calls it made to the throttle, one for
     each name, in the order in which the set was iterated.
     */
    method PublishWithThrottle(names: set<string>, clock: nat -> real, ghost dirty: set<string>)
        returns (ghost made: seq<ThrottleCall>)
      requires ImmediateAgree(dirty) && ThrottledAgree(dirty)
      modifies this`pictures, this`calls, this`lastUpdated, this`waitUntilThrottle, this`propsToUpdate
      ensures ImmediateAgree(dirty - names) && ThrottledAgree(dirty - names)
      ensures CalledOnce(ImmediateGroups(), old(calls), calls, names)
      ensures CalledAsDelivered(ThrottledGroups(), old(calls), calls, old(ThrottleState()), made)
      ensures ThrottleState() == After(old(ThrottleState()), made)
      ensures OnePerName(made, names, clock)
    {
      hide Publish, After, Seen, ImmediateAgree, ThrottledAgree, CalledOnce, CalledAsDelivered, OnePerName;
      OnePerNone(clock);
      CalledNone(ImmediateGroups(), calls);
      AfterNone(ThrottleState());
      DeliveredNone(ThrottledGroups(), calls, ThrottleState());
      var todo, ticks := names, 0;
      made := [];
      assert names - todo == {} && dirty - {} == dirty;
      hide Published;
      while todo != {}
        invariant todo <= names && |made| == ticks
        invariant Published(dirty, old(calls), old(ThrottleState()), names - todo, made, clock)
      {
        var name :| name in todo;
        PublishNext(name, clock(ticks), dirty, old(calls), old(ThrottleState()), names - todo, made, clock);
        made := made + [ThrottleCall(name, clock(ticks))];
        assert names - todo + {name} == names - (todo - {name});
        todo := todo - {name};
        ticks := ticks + 1;
      }
      assert names - todo == names;
      PublishedAll(dirty, old(calls), old(ThrottleState()), names, made, clock);
    }

    lemma PublishedAll(
      dirty: set<string>, before: seq<GroupCall>, t: Throttle, done: set<string>, made: seq<ThrottleCall>,
      clock: nat -> real)
      requires Published(dirty, before, t, done, made, clock)
      ensures ImmediateAgree(dirty - done) && ThrottledAgree(dirty - done)
      ensures CalledOnce(ImmediateGroups(), before, calls, done)
      ensures CalledAsDelivered(ThrottledGroups(), before, calls, t, made)
      ensures ThrottleState() == After(t, made)
      ensures OnePerName(made, done, clock)
    {
    }

    /** One name of `_publish` past the throttle. */
    method PublishNameNow(name: string)
      requires ImmediateAgree({}) && ThrottledAgree({})
      modifies this`pictures, this`calls
      ensures ImmediateAgree({}) && ThrottledAgree({})
      ensures CalledOnce(ThrottledGroups(), old(calls), calls, {name})
      ensures CalledOnce(ImmediateGroups(), old(calls), calls, {name})
    {
      CallListeners(name, true);
      CallListeners(name, false);
    }

    /** `_publish` past the throttle: every listener of every name is called once. */
    method PublishUnthrottled(names: set<string>)
      requires ImmediateAgree({}) && ThrottledAgree({})
      modifies this`pictures, this`calls
      ensures ImmediateAgree({}) && ThrottledAgree({})
      ensures CalledOnce(ThrottledGroups(), old(calls), calls, names)
      ensures CalledOnce(ImmediateGroups(), old(calls), calls, names)
    {
      hide CalledOnce;
      CalledNone(ImmediateGroups(), calls);
      CalledNone(ThrottledGroups(), calls);
      var todo := names;
      assert names - todo == {};
      while todo != {}
        invariant todo <= names
        invariant ImmediateAgree({}) && ThrottledAgree({})
        invariant CalledOnce(ThrottledGroups(), old(calls), calls, names - todo)
        invariant CalledOnce(ImmediateGroups(), old(calls), calls, names - todo)
      {
        var name :| name in todo;
        ghost var before := calls;
        PublishNameNow(name);
        CalledOnceMore(ImmediateGroups(), old(calls), before, calls, names - todo, name);
        CalledOnceMore(ThrottledGroups(), old(calls), before, calls, names - todo, name);
        assert names - todo + {name} == names - (todo - {name});
        todo := todo - {name};
      }
      assert names - todo == names;
    }

    /** `_publish_updates` */
    method PublishUpdates(clock: nat -> real) returns (ghost made: seq<ThrottleCall>)
      requires ImmediateAgree(updated) && ThrottledAgree(updated)
      modifies this`updated, this`pictures, this`calls, this`lastUpdated, this`waitUntilThrottle, this`propsToUpdate
      ensures AtRest()
      ensures CalledOnce(ImmediateGroups(), old(calls), calls, old(updated))
      ensures CalledAsDelivered(ThrottledGroups(), old(calls), calls, old(ThrottleState()), made)
      ensures ThrottleState() == After(old(ThrottleState()), made)
      ensures OnePerName(made, old(updated), clock)
    {
      made := PublishWithThrottle(updated, clock, updated);
      assert updated - updated == {};
      ResetUpdated();
    }

    /** Assigns fields one after the other, as `update_from_bytes` and the parsers do. */
    method AssignAll(assignments: seq<Assignment>)
      requires ImmediateAgree(updated) && ThrottledAgree(updated)
      modifies this`values, this`updated
      ensures forall n :: Read(n) == Assigned(old(values), assignments, n)
      ensures ImmediateAgree(updated) && ThrottledAgree(updated)
      ensures forall n :: n in old(updated) || Read(n) != old(Read(n)) ==> n in updated
      ensures EachOnce(assignments) ==> forall n :: n in updated ==> n in old(updated) || Read(n) != old(Read(n))
    {
      for i := 0 to |assignments|
        invariant forall n :: Read(n) == Assigned(old(values), assignments[..i], n)
        invariant ImmediateAgree(updated) && ThrottledAgree(updated)
        invariant forall n :: n in old(updated) || Read(n) != old(Read(n)) ==> n in updated
        invariant forall n :: Read(n) == old(Read(n)) || exists j :: 0 <= j < i && assignments[j].name == n
        invariant EachOnce(assignments) ==> forall n :: n in updated ==> n in old(updated) || Read(n) != old(Read(n))
      {
        assert assignments[..i + 1][..i] == assignments[..i];
        Assign(assignments[i].name, assignments[i].value);
      }
      assert assignments[..|assignments|] == assignments;
    }

    /**
     One stretch that parses a telemetry frame: it first forgets the recorded names, which
     loses nothing, because none are recorded at rest.
     */
    method DataParse(assignments: seq<Assignment>, clock: nat -> real)
        returns (ghost made: seq<ThrottleCall>, ghost changed: set<string>)
      requires AtRest()
      modifies this`values, this`updated, this`pictures, this`calls,
               this`lastUpdated, this`waitUntilThrottle, this`propsToUpdate
      ensures AtRest()
      ensures forall n :: Read(n) == Assigned(old(values), assignments, n)
      ensures ThrottleState() == After(old(ThrottleState()), made)
      ensures CalledOnce(ImmediateGroups(), old(calls), calls, changed)
      ensures CalledAsDelivered(ThrottledGroups(), old(calls), calls, old(ThrottleState()), made)
      ensures OnePerName(made, changed, clock)
      ensures forall n :: Read(n) != old(Read(n)) ==> n in changed
      ensures EachOnce(assignments) ==> forall n :: n in changed ==> Read(n) != old(Read(n))
    {
      hide CalledOnce, CalledAsDelivered, OnePerName, After, Seen, Assigned;
      ResetUpdated();
      AssignAll(assignments);
      changed := updated;
      made := PublishUpdates(clock);
    }

    /** A frame that cannot be parsed: the recorded names are forgotten before the exception. */
    method RejectFrame()
      requires AtRest()
      modifies this`updated
      ensures AtRest()
    {
      ResetUpdated();
    }

    /** One stretch of a settings read or of a configuration message: it assigns and publishes. */
    method ApplySettings(assignments: seq<Assignment>, clock: nat -> real)
        returns (ghost made: seq<ThrottleCall>, ghost changed: set<string>)
      requires AtRest()
      modifies this`values, this`updated, this`pictures, this`calls,
               this`lastUpdated, this`waitUntilThrottle, this`propsToUpdate
      ensures AtRest()
      ensures forall n :: Read(n) == Assigned(old(values), assignments, n)
      ensures ThrottleState() == After(old(ThrottleState()), made)
      ensures CalledOnce(ImmediateGroups(), old(calls), calls, changed)
      ensures CalledAsDelivered(ThrottledGroups(), old(calls), calls, old(ThrottleState()), made)
      ensures OnePerName(made, changed, clock)
      ensures forall n :: Read(n) != old(Read(n)) ==> n in changed
      ensures EachOnce(assignments) ==> forall n :: n in changed ==> Read(n) != old(Read(n))
    {
      hide CalledOnce, CalledAsDelivered, OnePerName, After, Seen, Assigned;
      AssignAll(assignments);
      changed := updated;
      made := PublishUpdates(clock);
    }

    method Apply(update: Update) returns (ghost made: seq<ThrottleCall>, ghost changed: set<string>)
      requires AtRest()
      modifies this`values, this`updated, this`pictures, this`calls,
               this`lastUpdated, this`waitUntilThrottle, this`propsToUpdate
      ensures AtRest()
      ensures ThrottleState() == After(old(ThrottleState()), made)
      ensures CalledAsDelivered(ThrottledGroups(), old(calls), calls, old(ThrottleState()), made)
      ensures OnePerName(made, changed, update.clock)
    {
      match update
      case Telemetry(assignments, clock) => made, changed := DataParse(assignments, clock);
      case Settings(assignments, clock) => made, changed := ApplySettings(assignments, clock);
    }

    /**
     Any sequence of telemetry frames and settings within `window` seconds: a steady throttle
     calls the throttled listeners of each field at most `window div period + 1` times.
     */
    method ApplyAll(updates: seq<Update>, ghost start: real, ghost window: real) returns (ghost made: seq<ThrottleCall>)
      requires AtRest()
      requires window >= 0.0
      requires forall u, i: nat :: u in updates ==> start <= u.clock(i) <= start + window
      modifies this`values, this`updated, this`pictures, this`calls,
               this`lastUpdated, this`waitUntilThrottle, this`propsToUpdate
      ensures AtRest()
      ensures ThrottleState() == After(old(ThrottleState()), made)
      ensures CalledAsDelivered(ThrottledGroups(), old(calls), calls, old(ThrottleState()), made)
      ensures old(waitUntilThrottle).Steady? && old(updatePeriod) > 0.0 ==>
                CalledAtMost(old(calls), calls, PeriodsIn(window, old(updatePeriod)) + 1)
    {
      made := [];
      AfterNone(ThrottleState());
      DeliveredNone(ThrottledGroups(), calls, ThrottleState());
      ghost var t := ThrottleState();
      hide After, CalledAsDelivered, Seen, ImmediateAgree, ThrottledAgree, PeriodsIn;
      for i := 0 to |updates|
        invariant AtRest()
        invariant ThrottleState() == After(t, made)
        invariant CalledAsDelivered(ThrottledGroups(), old(calls), calls, t, made)
        invariant forall j :: 0 <= j < |made| ==> start <= made[j].now <= start + window
      {
        ghost var before := calls;
        ghost var more, _ := Apply(updates[i]);
        CalledInTwoParts(ThrottledGroups(), old(calls), before, calls, t, made, more);
        AfterConcat(t, made, more);
        assert updates[i] in updates;
        made := made + more;
      }
      if t.phase.Steady? && t.period > 0.0 {
        CallsAreBounded(ThrottledGroups(), old(calls), calls, t, made, start, window);
      }
    }

    /** A new listener of the field, which starts from the present value. */
    method Subscribe(sub: Subscription, throttledOnes: bool)
      requires AtRest()
      modifies this`immediate, this`throttled, this`pictures
      ensures AtRest()
      ensures immediate ==
              if throttledOnes then old(immediate)
              else old(immediate)[sub.name := GroupOf(old(immediate), sub.name) + [sub]]
      ensures throttled ==
              if throttledOnes then old(throttled)[sub.name := GroupOf(old(throttled), sub.name) + [sub]]
              else old(throttled)
    {
      if throttledOnes {
        throttled := throttled[sub.name := GroupOf(throttled, sub.name) + [sub]];
      } else {
        immediate := immediate[sub.name := GroupOf(immediate, sub.name) + [sub]];
      }
      pictures := pictures[sub := Read(sub.name)];
    }

    /** What the function returned by `subscribe` does; it leaves the other listeners of the field. */
    method Unsubscribe(sub: Subscription, throttledOnes: bool)
      requires AtRest()
      modifies this`immediate, this`throttled
      ensures AtRest()
      ensures immediate ==
              if throttledOnes then old(immediate)
              else old(immediate)[sub.name := ListenerLists.Removed(GroupOf(old(immediate), sub.name), sub)]
      ensures throttled ==
              if !throttledOnes then old(throttled)
              else old(throttled)[sub.name := ListenerLists.Removed(GroupOf(old(throttled), sub.name), sub)]
    {
      var group := GroupOf(if throttledOnes then throttled else immediate, sub.name);
      ListenerLists.RemovedIsPart(group, sub);
      if throttledOnes {
        throttled := throttled[sub.name := ListenerLists.Removed(group, sub)];
      } else {
        immediate := immediate[sub.name := ListenerLists.Removed(group, sub)];
      }
    }

    method WithUpdatePeriod(period: real)
      modifies this`updatePeriod
      ensures ThrottleState() == old(ThrottleState()).(period := period)
    {
      updatePeriod := period;
    }

    // ----- the watchdog

    /** Publishes every data field, also unchanged ones. */
    method WriteDataFields()
      requires ImmediateAgree({}) && ThrottledAgree({})
      modifies this`pictures, this`calls
      ensures ImmediateAgree({}) && ThrottledAgree({})
      ensures CalledOnce(ThrottledGroups(), old(calls), calls, dataFields)
      ensures CalledOnce(ImmediateGroups(), old(calls), calls, dataFields)
    {
      PublishUnthrottled(dataFields);
    }

    /** `_check_data`: going stale calls every listener of every data field once, the throttle stays out of it. */
    method CheckData(now: real) returns (wait: real)
      requires AtRest()
      modifies this`dataCurrent, this`pictures, this`calls
      ensures AtRest()
      ensures (Watch(), wait) == DataWatch.Check(old(Watch()), now)
      ensures var written := if Watch().current != old(Watch()).current then dataFields else {};
              && CalledOnce(ThrottledGroups(), old(calls), calls, written)
              && CalledOnce(ImmediateGroups(), old(calls), calls, written)
    {
      var overdue := now - lastData - DataWatch.DATA_TIMEOUT;
      if overdue < 0.0 {
        return -overdue;
      }
      if dataCurrent {
        dataCurrent := false;
        WriteDataFields();
      }
      return DataWatch.DATA_TIMEOUT;
    }

    /** `_on_data` after `data_parse` processed the frame. */
    method FrameProcessed(now: real)
      requires AtRest()
      modifies this`lastData, this`dataCurrent, this`pictures, this`calls
      ensures AtRest()
      ensures Watch() == DataWatch.Receive(old(Watch()), now)
      ensures var written := if Watch().current != old(Watch()).current then dataFields else {};
              && CalledOnce(ThrottledGroups(), old(calls), calls, written)
              && CalledOnce(ImmediateGroups(), old(calls), calls, written)
    {
      lastData := now;
      if !dataCurrent {
        dataCurrent := true;
        WriteDataFields();
      }
    }

    /** AUTHENTICATED: the session counts as a frame, so the data does not go stale at once. */
    method BeginSession(now: real)
      modifies this`lastData
      ensures Watch() == old(Watch()).(lastData := now)
    {
      lastData := now;
    }

    /**
     The watchdog of a session, with frames and checks as they happen: it goes through the
     states of `DataWatch`, and the listeners of every data field, throttled or not, are called
     exactly as often as the data went stale or became current.
     */
    method WatchSession(now: real, events: seq<DataWatch.Event>)
      requires AtRest()
      modifies this`lastData, this`dataCurrent, this`pictures, this`calls
      ensures AtRest()
      ensures var s := DataWatch.Run(DataWatch.Begin(now, old(dataCurrent)), events);
              && Watch() == s.watch
              && CalledTimes(ThrottledGroups(), old(calls), calls, dataFields, s.published)
              && CalledTimes(ImmediateGroups(), old(calls), calls, dataFields, s.published)
    {
      BeginSession(now);
      var s := DataWatch.Begin(now, dataCurrent);
      ghost var start := s;
      hide CalledOnce, CalledTimes, Seen, ImmediateAgree, ThrottledAgree, DataWatch.Step;
      CalledTimesNone(ThrottledGroups(), calls, dataFields);
      CalledTimesNone(ImmediateGroups(), calls, dataFields);
      for i := 0 to |events|
        invariant AtRest()
        invariant s == DataWatch.Run(start, events[..i]) && Watch() == s.watch
        invariant CalledTimes(ThrottledGroups(), old(calls), calls, dataFields, s.published)
        invariant CalledTimes(ImmediateGroups(), old(calls), calls, dataFields, s.published)
      {
        ghost var before := calls;
        assert events[..i + 1][..i] == events[..i];
        var next := DataWatch.Step(s, events[i]);
        WatchStep(s, events[i]);
        CalledTimesMore(ThrottledGroups(), old(calls), before, calls, dataFields, s.published, next.published);
        CalledTimesMore(ImmediateGroups(), old(calls), before, calls, dataFields, s.published, next.published);
        s := next;
      }
      assert events[..|events|] == events;
    }

    /** One frame or check of the session. */
    method WatchStep(s: DataWatch.Session, event: DataWatch.Event)
      requires AtRest() && Watch() == s.watch
      modifies this`lastData, this`dataCurrent, this`pictures, this`calls
      ensures AtRest() && Watch() == DataWatch.Step(s, event).watch
      ensures s.published <= DataWatch.Step(s, event).published <= s.published + 1
      ensures var written := if DataWatch.Step(s, event).published > s.published then dataFields else {};
              && CalledOnce(ThrottledGroups(), old(calls), calls, written)
              && CalledOnce(ImmediateGroups(), old(calls), calls, written)
    {
      hide CalledOnce, Seen, ImmediateAgree, ThrottledAgree;
      if DataWatch.Possible(s, event) {
        match event
        case Frame(at) => FrameProcessed(at);
        case Tick =>
          var _ := CheckData(s.nextCheck);
      } else {
        CalledNone(ThrottledGroups(), calls);
        CalledNone(ImmediateGroups(), calls);
      }
    }

    /** Any run of stretches keeps every picture right or pending at every await. */
    method Replay(stretches: seq<Stretch>)
      requires AtRest()
      modifies this
      ensures AtRest()
    {
      for i := 0 to |stretches|
        invariant AtRest()
      {
        match stretches[i]
        case ParsesFrame(assignments, clock, now) =>
          ghost var _, _ := DataParse(assignments, clock);
          FrameProcessed(now);
        case RejectsFrame => RejectFrame();
        case AppliesSettings(assignments, clock) =>
          ghost var _, _ := ApplySettings(assignments, clock);
        case ChecksData(now) =>
          var _ := CheckData(now);
        case Subscribes(sub, throttledOnes) =>
          Subscribe(sub, throttledOnes);
        case Unsubscribes(sub, throttledOnes) =>
          Unsubscribe(sub, throttledOnes);
        case SetsPeriod(period) =>
          WithUpdatePeriod(period);
        case Authenticates(now) =>
          BeginSession(now);
      }
    }
  }

  /** A telemetry frame, or a settings read or configuration message, with the clock of its publishes. */
  datatype Update =
    | Telemetry(assignments: seq<Assignment>, clock: nat -> real)
    | Settings(assignments: seq<Assignment>, clock: nat -> real)

  /** What one stretch between two awaits does to a device. */
  datatype Stretch =
    | ParsesFrame(assignments: seq<Assignment>, clock: nat -> real, now: real)
    | RejectsFrame
    | AppliesSettings(assignments: seq<Assignment>, clock: nat -> real)
    | ChecksData(now: real)
    | Subscribes(sub: Subscription, throttledOnes: bool)
    | Unsubscribes(sub: Subscription, throttledOnes: bool)
    | SetsPeriod(period: real)
    | Authenticates(now: real)

  /** The calls are one for each name, in some order, each with the time of its turn. */
  ghost predicate OnePerName(calls: seq<ThrottleCall>, names: set<string>, clock: nat -> real) {
    && |calls| == |names|
    && (forall name :: name in names <==> exists i :: 0 <= i < |calls| && calls[i].name == name)
    && forall i :: 0 <= i < |calls| ==> calls[i].now == clock(i)
  }

  lemma OnePerNone(clock: nat -> real)
    ensures OnePerName([], {}, clock)
  {
  }

  lemma OnePerNameMore(calls: seq<ThrottleCall>, names: set<string>, clock: nat -> real, name: string)
    requires OnePerName(calls, names, clock) && name !in names
    ensures OnePerName(calls + [ThrottleCall(name, clock(|calls|))], names + {name}, clock)
  {
    var more := calls + [ThrottleCall(name, clock(|calls|))];
    assert more[|calls|].name == name;
    forall n | n in names
      ensures exists i :: 0 <= i < |more| && more[i].name == n
    {
      var i :| 0 <= i < |calls| && calls[i].name == n;
      assert more[i].name == n;
    }
  }

  lemma AfterNone(t: Throttle)
    ensures After(t, []) == t
  {
  }

  lemma AfterSnoc(t: Throttle, calls: seq<ThrottleCall>, call: ThrottleCall)
    ensures After(t, calls + [call]) == Publish(After(t, calls), call.name, call.now)
  {
    assert (calls + [call])[..|calls|] == calls;
  }
}
