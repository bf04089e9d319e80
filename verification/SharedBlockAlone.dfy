/** Setters of a shared block that nobody disturbs: what one call does to the block of the UPS. */
module SharedBlockAlone {
  import opened Prelude
  import opened SharedBlock
  import opened SharedBlockProofs

  function Steps(register: Register, s: State, events: seq<Event>): State
    decreases |events|
  {
    if events == [] then s else Steps(register, Step(register, s, events[0]), events[1..])
  }

  ghost predicate Quiet(s: State) {
    s.requests == [] && s.answers == [] && s.lock.None?
  }

  /** A setter is called, takes the lock and gets the answer to its read. */
  function Reads(task: nat, change: Change): seq<Event> {
    [StartSetter(task, Direct, change), Acquire(task), Process(AckOnly), Deliver]
  }

  /** A setter is called, takes the lock and gets the notification that answers its query. */
  function Queries(task: nat, change: Change): seq<Event> {
    [StartSetter(task, Queried, change), Acquire(task), Process(NotifyThenAck), Deliver]
  }

  const WRITES_AND_READS: seq<Event> := [Process(AckOnly), Deliver, Process(AckOnly), Deliver]
  const WRITES_AND_QUERIES: seq<Event> := [Process(AckOnly), Deliver, Process(NotifyThenAck), Deliver]

  lemma UnfoldFour(register: Register, s: State, a: Event, b: Event, c: Event, d: Event)
    ensures Steps(register, s, [a, b, c, d]) ==
        Step(register, Step(register, Step(register, Step(register, s, a), b), c), d)
  {
    assert [a, b, c, d][1..] == [b, c, d] && [b, c, d][1..] == [c, d] && [c, d][1..] == [d] && [d][1..] == [];
    var s1 := Step(register, s, a);
    var s2 := Step(register, s1, b);
    assert Steps(register, s, [a, b, c, d]) == Steps(register, s1, [b, c, d]);
    assert Steps(register, s1, [b, c, d]) == Steps(register, s2, [c, d]);
    assert Steps(register, s2, [c, d]) == Steps(register, Step(register, s2, c), [d]);
  }

  /** The setter holds the lock, has read the present block and continues from it. */
  function HavingRead(register: Register, s: State, task: nat, change: Change): State {
    s.(lock := Some(task), tasks := s.tasks[task := Reading(change)],
       shown := if Known(register, s.device.block) then Some(s.device) else None)
  }

  lemma DirectReads(register: Register, s: State, task: nat, change: Change)
    requires Quiet(s) && task !in s.tasks && |change| == |register.initial|
    ensures Steps(register, s, Reads(task, change))
            == Continue(register, HavingRead(register, s, task, change), task, Direct, change)
  {
    UnfoldFour(register, s, StartSetter(task, Direct, change), Acquire(task), Process(AckOnly), Deliver);
    var s3 := s.(lock := Some(task), tasks := s.tasks[task := Waiting(Direct, change)][task := Reading(change)],
                 answers := [Value(task, s.device)]);
    assert s.tasks[task := Waiting(Direct, change)][task := Reading(change)] == s.tasks[task := Reading(change)];
    assert Step(register, Step(register, Step(register, s, StartSetter(task, Direct, change)), Acquire(task)),
        Process(AckOnly)) == s3;
  }

  /** A write that the setter computed from the present block, up to the answer of its last read. */
  lemma DirectWrites(register: Register, s: State, task: nat, change: Change, basis: Option<Version>)
    requires s.requests == [] && s.answers == [] && s.lock == Some(task)
    requires basis == Some(s.device) || basis == None
    ensures var entry := Own(|s.issued|, task, change);
            var end := Steps(register, Issue(s, task, Direct, change, basis), WRITES_AND_READS);
            && task in end.tasks && end.tasks[task] == Done(entry) && end.lock.None?
            && end.device == Version(Merge(change, s.device.block), s.device.history + [entry], s.device.revision + 1)
            && end.shown == if Known(register, end.device.block) then Some(end.device) else None
  {
    var entry := Own(|s.issued|, task, change);
    var issued := Issue(s, task, Direct, change, basis);
    UnfoldFour(register, issued, Process(AckOnly), Deliver, Process(AckOnly), Deliver);
    MergeFull(Merge(change, s.device.block), s.device.block);
    var device := Version(Merge(change, s.device.block), s.device.history + [entry], s.device.revision + 1);
    var written := Step(register, issued, Process(AckOnly));
    assert written == issued.(requests := [], device := device, answers := [Written(entry)]);
    var acked := Step(register, written, Deliver);
    assert acked.requests == [Read(task)] && acked.answers == [] && acked.device == device;
    assert acked.tasks[task] == Refreshing(entry);
    var last := Step(register, acked, Process(AckOnly));
    assert last == acked.(requests := [], answers := [Value(task, device)]);
  }

  /**
   Alone, a setter of the standby block fails exactly when the read shows no known values and
   it does not set all of them; otherwise it leaves its change merged into the block it read,
   and shows the result.
   */
  lemma DirectSetterAlone(register: Register, s: State, task: nat, change: Change)
    requires Quiet(s) && task !in s.tasks && |change| == |register.initial|
    ensures var read := Steps(register, s, Reads(task, change));
            var end := Steps(register, read, WRITES_AND_READS);
            if Known(register, s.device.block) || IsFull(change, |change|) then
              && task in end.tasks && end.tasks[task].Done? && end.lock.None?
              && end.device.block == Merge(change, s.device.block)
              && end.shown == if Known(register, end.device.block) then Some(end.device) else None
            else
              task in read.tasks && read.tasks[task].Unavailable? && read.device == s.device && read.lock.None? &&
                  read.requests == []
  {
    DirectReads(register, s, task, change);
    var having := HavingRead(register, s, task, change);
    DirectWrites(register, having, task, change, having.shown);
  }

  lemma BlindWrites(register: Register, s: State, task: nat, change: Change)
    requires Quiet(s) && task !in s.tasks && |change| == |register.initial|
    ensures var entry := Own(|s.issued|, task, change);
            var locked := Step(register, Step(register, s, StartSetter(task, Blind, change)), Acquire(task));
            var written := Step(register, locked, Process(AckOnly));
            && written.requests == [] && written.answers == [Written(entry)] && written.issued == s.issued + [entry]
            && task in written.tasks && written.tasks[task] == Writing(Blind, entry)
            && written.lock == Some(task) && written.acknowledged == s.acknowledged
            && written.device
               == Version(Merge(change, s.device.block), s.device.history + [entry], s.device.revision + 1)
  {
    var locked := Step(register, Step(register, s, StartSetter(task, Blind, change)), Acquire(task));
    assert locked.requests == [Write(change, Own(|s.issued|, task, change), None)];
  }

  /** After its write was confirmed a setter asks once more, and returns with the answer. */
  lemma BlindReturns(register: Register, s: State, task: nat, entry: Entry)
    requires s.requests == [] && s.answers == [Written(entry)] && entry.Own? && entry.task == task
    requires task in s.tasks && s.tasks[task] == Writing(Blind, entry) && s.lock == Some(task)
    ensures var acked := Step(register, s, Deliver);
            var end := Step(register, Step(register, Step(register, acked, Process(NotifyThenAck)), Deliver), Deliver);
            && task in end.tasks && end.tasks[task] == Done(entry) && end.lock.None?
            && end.device == s.device && end.shown == Some(s.device)
  {
    var acked := Step(register, s, Deliver);
    assert acked.requests == [Get(task)] && acked.answers == [] && acked.tasks[task] == Refreshing(entry);
    var last := Step(register, acked, Process(NotifyThenAck));
    assert last == acked.(requests := [], answers := [Notified(s.device), Acked(task)]);
    var notified := Step(register, last, Deliver);
    assert notified.answers == [Acked(task)] && notified.tasks[task] == Refreshing(entry);
  }

  /**
   Alone, a setter that writes without asking leaves its change merged into the block of the
   UPS, whatever was shown before, returns, and shows the result.
   */
  lemma BlindSetterAlone(register: Register, s: State, task: nat, change: Change)
    requires Quiet(s) && task !in s.tasks && |change| == |register.initial|
    ensures var locked := Step(register, Step(register, s, StartSetter(task, Blind, change)), Acquire(task));
            var acked := Step(register, Step(register, locked, Process(AckOnly)), Deliver);
            var end := Step(register, Step(register, Step(register, acked, Process(NotifyThenAck)), Deliver), Deliver);
            && task in end.tasks && end.tasks[task].Done? && end.lock.None?
            && end.device.block == Merge(change, s.device.block) && end.shown == Some(end.device)
  {
    BlindWrites(register, s, task, change);
    hide Step, Merge;
    var locked := Step(register, Step(register, s, StartSetter(task, Blind, change)), Acquire(task));
    BlindReturns(register, Step(register, locked, Process(AckOnly)), task, Own(|s.issued|, task, change));
  }

  /** Alone, a read outside the lock shows the block if its values are known, and nothing otherwise. */
  lemma ReaderAlone(register: Register, s: State, task: nat)
    requires Quiet(s) && task !in s.tasks
    ensures var asked := Step(register, s, StartObserver(task, Read(task)));
            var end := Step(register, Step(register, asked, Process(AckOnly)), Deliver);
            && task in end.tasks && end.tasks[task] == Observed && end.device == s.device
            && end.shown == if Known(register, s.device.block) then Some(s.device) else None
  {
    var asked := Step(register, s, StartObserver(task, Read(task)));
    assert asked.requests == [Read(task)];
    var answered := Step(register, asked, Process(AckOnly));
    assert answered.answers == [Value(task, s.device)];
  }

  /** Alone, a request outside the lock shows the block with its notification. */
  lemma RequesterAlone(register: Register, s: State, task: nat)
    requires Quiet(s) && task !in s.tasks
    ensures var asked := Step(register, s, StartObserver(task, Get(task)));
            var end := Step(register, Step(register, Step(register, asked, Process(NotifyThenAck)), Deliver), Deliver);
            && task in end.tasks && end.tasks[task] == Observed
            && end.device == s.device && end.shown == Some(s.device)
  {
    var asked := Step(register, s, StartObserver(task, Get(task)));
    assert asked.requests == [Get(task)];
    var answered := Step(register, asked, Process(NotifyThenAck));
    assert answered.answers == [Notified(s.device), Acked(task)];
    assert Step(register, answered, Deliver).answers == [Acked(task)];
  }

  /** A change that another client makes before the setter is called stays in what it writes. */
  lemma ForeignChangeIsKept(register: Register, s: State, task: nat, change: Change, foreign: Change)
    requires Quiet(s) && task !in s.tasks && |change| == |register.initial|
    requires Known(register, Merge(foreign, s.device.block))
    ensures var disturbed := Step(register, s, ForeignWrite(foreign));
            var read := Steps(register, disturbed, Reads(task, change));
            var end := Steps(register, read, WRITES_AND_READS);
            && task in end.tasks && end.tasks[task].Done?
            && end.device.block == Merge(change, Merge(foreign, s.device.block))
  {
    DirectSetterAlone(register, Step(register, s, ForeignWrite(foreign)), task, change);
  }

  /** A change that another client makes between the read and the write of a setter is overwritten, whatever it is. */
  lemma ForeignChangeIsOverwritten(register: Register, s: State, task: nat, change: Change, foreign: Change)
    requires Quiet(s) && task !in s.tasks && |change| == |register.initial| && Known(register, s.device.block)
    ensures var read := Steps(register, s, Reads(task, change));
            var disturbed := Step(register, read, ForeignWrite(foreign));
            && disturbed.device.block == Merge(foreign, s.device.block)
            && Step(register, disturbed, Process(AckOnly)).device.block == Merge(change, s.device.block)
  {
    DirectReads(register, s, task, change);
    var read := Issue(HavingRead(register, s, task, change), task, Direct, change, Some(s.device));
    assert read.requests == [Write(Full(Merge(change, s.device.block)), Own(|s.issued|, task, change), Some(s.device))];
    MergeFull(Merge(change, s.device.block), Merge(foreign, s.device.block));
  }

  lemma QueriedReads(register: Register, s: State, task: nat, change: Change)
    requires Quiet(s) && task !in s.tasks && |change| == |register.initial|
    ensures var asked := Steps(register, s, Queries(task, change));
            var answered := Step(register, asked, Deliver);
            && answered.device == s.device && answered.shown == Some(s.device) && answered.issued == s.issued
            && answered.requests == [] && answered.answers == [] && answered.lock == Some(task)
            && task in answered.tasks && answered.tasks[task] == Querying(change, true, true)
  {
    UnfoldFour(register, s, StartSetter(task, Queried, change), Acquire(task), Process(NotifyThenAck), Deliver);
    var s2 := Step(register, Step(register, s, StartSetter(task, Queried, change)), Acquire(task));
    assert s2.requests == [Get(task)] && s2.answers == [] && s2.tasks[task] == Querying(change, false, false);
    var s3 := Step(register, s2, Process(NotifyThenAck));
    assert s3.answers == [Notified(s.device), Acked(task)] && s3.requests == [];
    var s4 := Step(register, s3, Deliver);
    assert s4.answers == [Acked(task)] && s4.shown == Some(s.device) && s4.tasks[task] == Querying(change, false, true);
  }

  /** After its write was confirmed the setter asks once more, and returns with the answer. */
  lemma QueriedRefreshes(register: Register, s: State, task: nat, entry: Entry)
    requires s.requests == [Get(task)] && s.answers == [] && task in s.tasks && s.tasks[task] == Refreshing(entry)
    ensures var end := Step(register, Step(register, Step(register, s, Process(NotifyThenAck)), Deliver), Deliver);
            && task in end.tasks && end.tasks[task] == Done(entry)
            && end.device == s.device && end.shown == Some(s.device)
  {
    var last := Step(register, s, Process(NotifyThenAck));
    assert last == s.(requests := [], answers := [Notified(s.device), Acked(task)]);
    var notified := Step(register, last, Deliver);
    assert notified.answers == [Acked(task)] && notified.tasks[task] == Refreshing(entry);
  }

  lemma QueriedIsConfirmed(register: Register, s: State, task: nat, change: Change)
    requires s.requests == [] && s.answers == []
    ensures var entry := Own(|s.issued|, task, change);
            var issued := Issue(s, task, Queried, change, Some(s.device));
            var acked := Step(register, Step(register, issued, Process(AckOnly)), Deliver);
            && acked.requests == [Get(task)] && acked.answers == []
            && task in acked.tasks && acked.tasks[task] == Refreshing(entry)
            && acked.device
               == Version(Merge(change, s.device.block), s.device.history + [entry], s.device.revision + 1)
  {
    MergeFull(Merge(change, s.device.block), s.device.block);
    hide Merge, Full;
    var entry := Own(|s.issued|, task, change);
    var issued := Issue(s, task, Queried, change, Some(s.device));
    var device := Version(Merge(change, s.device.block), s.device.history + [entry], s.device.revision + 1);
    var written := Step(register, issued, Process(AckOnly));
    assert written == issued.(requests := [], device := device, answers := [Written(entry)]);
  }

  /** A write that the setter computed from the present block, up to the answers to its last request. */
  lemma QueriedWrites(register: Register, s: State, task: nat, change: Change)
    requires s.requests == [] && s.answers == []
    ensures var entry := Own(|s.issued|, task, change);
            var issued := Issue(s, task, Queried, change, Some(s.device));
            var end := Step(register, Steps(register, issued, WRITES_AND_QUERIES), Deliver);
            && task in end.tasks && end.tasks[task] == Done(entry)
            && end.device == Version(Merge(change, s.device.block), s.device.history + [entry], s.device.revision + 1)
            && end.shown == Some(end.device)
  {
    var issued := Issue(s, task, Queried, change, Some(s.device));
    UnfoldFour(register, issued, Process(AckOnly), Deliver, Process(NotifyThenAck), Deliver);
    QueriedIsConfirmed(register, s, task, change);
    hide Steps, Step, Issue;
    var acked := Step(register, Step(register, issued, Process(AckOnly)), Deliver);
    QueriedRefreshes(register, acked, task, Own(|s.issued|, task, change));
  }

  /**
   Alone, a setter that queries the block leaves its change merged into the block of the UPS,
   whatever was shown before, and shows the result.
   */
  lemma QueriedSetterAlone(register: Register, s: State, task: nat, change: Change)
    requires Quiet(s) && task !in s.tasks && |change| == |register.initial|
    ensures var asked := Steps(register, s, Queries(task, change));
            var resumed := Step(register, Step(register, asked, Deliver), Resume(task));
            var notified := Steps(register, resumed, WRITES_AND_QUERIES);
            var end := Step(register, notified, Deliver);
            && task in end.tasks && end.tasks[task].Done?
            && end.device.block == Merge(change, s.device.block) && end.shown == Some(end.device)
  {
    hide Steps;
    QueriedReads(register, s, task, change);
    var asked := Steps(register, s, Queries(task, change));
    var answered := Step(register, asked, Deliver);
    QueriedWrites(register, answered, task, change);
    assert Step(register, answered, Resume(task)) == Issue(answered, task, Queried, change, Some(s.device));
  }
}
