/**
 What every run of the settings protocol means for the callers of the setters: no
 acknowledged value is lost, and the setters are serialisable in the order of the lock.
 */
module SharedBlockResults {
  import opened Prelude
  import opened SharedBlock
  import opened SharedBlockProofs
  import opened SharedBlockOrigins

  /** A component has the value its last change in the history gave it. */
  lemma {:induction false} LastChangeDecides(initial: Block, history: History, i: nat, c: nat)
    requires c < |initial| && i < |history| && Sets(history[i].change, c)
    requires forall j :: i < j < |history| ==> !Sets(history[j].change, c)
    ensures Eval(initial, history)[c] == history[i].change[c].value
  {
    var last := |history| - 1;
    if i < last {
      LastChangeDecides(initial, history[..last], i, c);
    }
  }

  /** `later` comes after the setter's change `e`: a later setter in lock order, or another client. */
  ghost predicate Supersedes(later: Entry, e: Entry, c: nat)
    requires e.Own?
  {
    Sets(later.change, c) && (later.Own? ==> later.ticket > e.ticket)
  }

  /** A change in the history is in the block, unless a later one in the history sets the same component. */
  lemma ChangeIsInBlock(register: Register, events: seq<Event>, e: Entry, c: nat)
    requires e in Run(register, events).device.history
    requires c < |register.initial| && Sets(e.change, c)
    ensures |Run(register, events).device.block| == |register.initial|
    ensures var device := Run(register, events).device;
            || device.block[c] == e.change[c].value
            || exists i, j :: 0 <= i < j < |device.history| && device.history[i] == e &&
                Sets(device.history[j].change, c)
  {
    RunKeeps(register, events);
    var h := Run(register, events).device.history;
    var i :| 0 <= i < |h| && h[i] == e;
    if forall j :: i < j < |h| ==> !Sets(h[j].change, c) {
      LastChangeDecides(register.initial, h, i, c);
    }
  }

  /**
   No lost update. In every run, once the UPS acknowledged a setter's write, its value
   stays in the block of the UPS unless a later setter or another client wrote the same
   component afterwards. This holds although a setter may compute its block from the
   reply to somebody else's earlier request.
   */
  lemma NoLostUpdate(register: Register, events: seq<Event>, e: Entry, c: nat)
    requires e in Run(register, events).acknowledged
    requires c < |register.initial| && Sets(e.change, c)
    ensures e.Own? && |Run(register, events).device.block| == |register.initial|
    ensures var device := Run(register, events).device;
            || device.block[c] == e.change[c].value
            || exists i, j :: 0 <= i < j < |device.history| && device.history[i] == e
                              && Supersedes(device.history[j], e, c)
  {
    RunKeeps(register, events);
    var device := Run(register, events).device;
    ChangeIsInBlock(register, events, e, c);
    if device.block[c] != e.change[c].value {
      var i, j :| 0 <= i < j < |device.history| && device.history[i] == e && Sets(device.history[j].change, c);
      assert Supersedes(device.history[j], e, c);
    }
  }

  // ----- the changes of the setters are those they were called with

  /** A setter writes the change it was called with and no other, and returns only with that change confirmed. */
  lemma SettersWriteTheirChange(
    register: Register, events: seq<Event>, n: nat, t: nat, kind: Kind, change: Change)
    requires Starts(register, events, n, t, kind, change)
    ensures var s := Run(register, events);
            && t in s.tasks
            && (forall e :: e in s.issued ==> e.Own? && (e.task == t ==> e.change == change))
            && (forall e :: e in s.device.history && e.Own? && e.task == t ==> e.change == change)
            && (s.tasks[t].Done? ==>
                  var e := s.tasks[t].entry;
                  e.Own? && e.task == t && e.change == change && e in s.acknowledged)
  {
    var s := Run(register, events);
    RunKeeps(register, events);
    AtEnd(register, events);
    StartedStays(register, events, n, t, kind, change);
    forall e | e in s.issued
      ensures e.Own? && (e.task == t ==> e.change == change)
    {
      IssuedWasStarted(register, events, |events|, e);
      var m: nat, k :| m < |events| && Starts(register, events, m, e.task, k, e.change);
      if e.task == t {
        StartsOnce(register, events, t, n, kind, change, m, k, e.change);
      }
    }
    assert t in s.tasks ==> TaskOk(register, s, t);
  }

  lemma StartedStays(register: Register, events: seq<Event>, n: nat, t: nat, kind: Kind, change: Change)
    requires Starts(register, events, n, t, kind, change)
    ensures t in Run(register, events).tasks
  {
    AtNext(register, events, n);
    AtEnd(register, events);
    TasksStay(register, events, n + 1, |events|, t);
  }

  /**
   A setter that was called with `change` and returned: every component it set has its value,
   unless a later setter or another client wrote that component afterwards.
   */
  lemma ReturnedValueIsKept(
    register: Register, events: seq<Event>, n: nat, t: nat, kind: Kind, change: Change, c: nat)
    requires Starts(register, events, n, t, kind, change)
    requires t in Run(register, events).tasks && Run(register, events).tasks[t].Done?
    requires c < |register.initial| && Sets(change, c)
    ensures var s := Run(register, events); var device := s.device; var e := s.tasks[t].entry;
            && |device.block| == |register.initial|
            && e.Own? && e.task == t && e.change == change && e in device.history
            && (|| device.block[c] == change[c].value
                || exists i, j :: 0 <= i < j < |device.history| && device.history[i] == e
                                  && Supersedes(device.history[j], e, c))
  {
    SettersWriteTheirChange(register, events, n, t, kind, change);
    NoLostUpdate(register, events, Run(register, events).tasks[t].entry, c);
    RunKeeps(register, events);
  }

  /** The event changes component `c`, if it is carried out: a call of a setter or a write of another client. */
  predicate Targets(event: Event, c: nat) {
    (event.StartSetter? || event.ForeignWrite?) && Sets(event.change, c)
  }

  /** Every change in the block comes from the call of a setter or from another client. */
  lemma ChangeWasRequested(register: Register, events: seq<Event>, e: Entry)
    requires e in Run(register, events).device.history
    ensures exists n: nat :: n < |events| && (events[n].StartSetter? || events[n].ForeignWrite?)
                             && events[n].change == e.change
                             && (e.Own? <==> events[n].StartSetter?)
                             && (e.Own? ==> events[n].task == e.task)
  {
    AtEnd(register, events);
    if e.Own? {
      RunKeeps(register, events);
      assert Genuine(Run(register, events), e);
      IssuedWasStarted(register, events, |events|, e);
    } else {
      ForeignWasMade(register, events, |events|, e);
    }
  }

  /** A component that one setter alone set, and no other client, has its value once the setter returned. */
  lemma OnlySetterDecides(
    register: Register, events: seq<Event>, n: nat, t: nat, kind: Kind, change: Change, c: nat)
    requires Starts(register, events, n, t, kind, change)
    requires t in Run(register, events).tasks && Run(register, events).tasks[t].Done?
    requires c < |register.initial| && Sets(change, c)
    requires forall m :: 0 <= m < |events| && m != n ==> !Targets(events[m], c)
    ensures |Run(register, events).device.block| == |register.initial|
    ensures Run(register, events).device.block[c] == change[c].value
  {
    ReturnedValueIsKept(register, events, n, t, kind, change, c);
    var device := Run(register, events).device;
    if device.block[c] != change[c].value {
      var e := Run(register, events).tasks[t].entry;
      var i, j :| 0 <= i < j < |device.history| && device.history[i] == e && Supersedes(device.history[j], e, c);
      var later := device.history[j];
      ChangeWasRequested(register, events, later);
      assert later.Own? && later.task == t;
      ReturnedOnce(register, events, t, later);
      assert false;
    }
  }

  /** A setter that returned made one change. */
  lemma ReturnedOnce(register: Register, events: seq<Event>, t: nat, e: Entry)
    requires t in Run(register, events).tasks && Run(register, events).tasks[t].Done?
    requires e in Run(register, events).device.history && e.Own? && e.task == t
    ensures e == Run(register, events).tasks[t].entry
  {
    RunKeeps(register, events);
    assert Genuine(Run(register, events), e);
  }

  /**
   Two setters of different components of one block, whatever their interleaving: once both
   are acknowledged, and nobody else wrote these components, the block has both values.
   */
  lemma BothValuesAreKept(register: Register, events: seq<Event>, e: Entry, f: Entry, c: nat, d: nat)
    requires var s := Run(register, events); e in s.acknowledged && f in s.acknowledged
    requires c < |register.initial| && d < |register.initial|
    requires Sets(e.change, c) && Sets(f.change, d)
    requires forall other :: other in Run(register, events).device.history && other != e ==> !Sets(other.change, c)
    requires forall other :: other in Run(register, events).device.history && other != f ==> !Sets(other.change, d)
    ensures |Run(register, events).device.block| == |register.initial|
    ensures Run(register, events).device.block[c] == e.change[c].value
    ensures Run(register, events).device.block[d] == f.change[d].value
  {
    hide Run;
    NoLostUpdate(register, events, e, c);
    NoLostUpdate(register, events, f, d);
  }

  /** The block of the UPS is a serial execution that contains every acknowledged change, in lock order. */
  lemma BlockIsSerial(register: Register, events: seq<Event>)
    ensures var s := Run(register, events);
            && s.device.block == Eval(register.initial, s.device.history)
            && Sorted(s.device.history)
            && Covers(s.device.history, s.acknowledged)
            && (forall e :: e in s.device.history ==> Genuine(s, e))
            && forall e :: e in s.device.history && e.Own? ==>
                 exists n, kind :: Starts(register, events, n, e.task, kind, e.change)
  {
    RunKeeps(register, events);
    AtEnd(register, events);
    var s := Run(register, events);
    forall e | e in s.device.history && e.Own?
      ensures exists n, kind :: Starts(register, events, n, e.task, kind, e.change)
    {
      assert Genuine(s, e);
      IssuedWasStarted(register, events, |events|, e);
    }
  }

  /**
   A setter never continues from a block that misses an acknowledged change, whether the
   answer to its own read is next or it was woken by a notification, of whatever request.
   */
  lemma SettersContinueUpToDate(register: Register, events: seq<Event>, t: nat, v: Version)
    requires var s := Run(register, events);
             && t in s.tasks
             && (|| (s.tasks[t].Reading? && s.answers != [] && s.answers[0] == Value(t, v))
                 || (s.tasks[t].Querying? && s.tasks[t].woken && s.shown == Some(v)))
    ensures v.block == Eval(register.initial, v.history)
    ensures Covers(v.history, Run(register, events).acknowledged)
  {
    RunKeeps(register, events);
    assert TaskOk(register, Run(register, events), t);
  }

  /** In a sorted history of exactly the issued entries, the last one comes last. */
  lemma LastIssuedIsLast(history: History, issued: seq<Entry>)
    requires Sorted(history) && issued != []
    requires forall k :: 0 <= k < |issued| ==> issued[k].Own? && issued[k].ticket == k
    requires issued[|issued| - 1] in history
    requires forall e :: e in history ==> e.Own? && e.ticket < |issued| && issued[e.ticket] == e
    ensures history != [] && history[|history| - 1] == issued[|issued| - 1]
    ensures forall e :: e in history[..|history| - 1] ==> e.ticket < |issued| - 1
  {
    var last := |history| - 1;
    assert forall i :: 0 <= i < |history| ==> history[i] in history;
    var i :| 0 <= i < |history| && history[i] == issued[|issued| - 1];
    assert history[last] in history;
    assert !(i < last);
  }

  lemma FrontHoldsTheRest(history: History, issued: seq<Entry>)
    requires issued != [] && history != [] && history[|history| - 1] == issued[|issued| - 1]
    requires forall k :: 0 <= k < |issued| ==> issued[k].Own? && issued[k].ticket == k && issued[k] in history
    ensures forall k :: 0 <= k < |issued| - 1 ==> issued[k] in history[..|history| - 1]
  {
    var front := history[..|history| - 1];
    forall k | 0 <= k < |issued| - 1
      ensures issued[k] in front
    {
      var j :| 0 <= j < |history| && history[j] == issued[k];
      assert front[j] == issued[k];
    }
  }

  lemma FrontIsIssued(history: History, issued: seq<Entry>)
    requires Sorted(history) && history != [] && issued != []
    requires forall e :: e in history ==> e.Own? && e.ticket < |issued| && issued[e.ticket] == e
    requires forall e :: e in history[..|history| - 1] ==> e.ticket < |issued| - 1
    ensures var front, rest := history[..|history| - 1], issued[..|issued| - 1];
            Sorted(front) && forall e :: e in front ==> e.Own? && e.ticket < |rest| && rest[e.ticket] == e
  {
    assert forall e :: e in history[..|history| - 1] ==> e in history;
  }

  /** A sorted history of exactly the issued entries is the list of the issued entries. */
  lemma {:induction false} SortedIsIssueOrder(history: History, issued: seq<Entry>)
    requires Sorted(history)
    requires forall k :: 0 <= k < |issued| ==> issued[k].Own? && issued[k].ticket == k && issued[k] in history
    requires forall e :: e in history ==> e.Own? && e.ticket < |issued| && issued[e.ticket] == e
    ensures history == issued
  {
    if issued == [] {
      assert forall i :: 0 <= i < |history| ==> history[i] in history;
    } else {
      var count, last := |issued| - 1, |history| - 1;
      LastIssuedIsLast(history, issued);
      var front, rest := history[..last], issued[..count];
      FrontHoldsTheRest(history, issued);
      FrontIsIssued(history, issued);
      SortedIsIssueOrder(front, rest);
      assert history == front + [history[last]] && issued == rest + [issued[count]];
    }
  }

  lemma AllIssuedInOrder(register: Register, s: State)
    requires Inv(register, s)
    requires forall e :: e in s.issued ==> e in s.acknowledged
    requires forall e :: e in s.device.history ==> e.Own?
    ensures s.device.history == s.issued
  {
    forall k | 0 <= k < |s.issued|
      ensures s.issued[k] in s.device.history
    {
      var e := s.issued[k];
      assert e in s.issued;
    }
    SortedIsIssueOrder(s.device.history, s.issued);
  }

  /**
   Serialisability. When every setter that computed a block was acknowledged and no other
   client wrote, the block of the UPS is exactly the initial block with the setters'
   changes made one after the other, in the order in which they held the lock.
   */
  lemma Serialisable(register: Register, events: seq<Event>)
    requires forall e :: e in Run(register, events).issued ==> e in Run(register, events).acknowledged
    requires forall e :: e in Run(register, events).device.history ==> e.Own?
    ensures var s := Run(register, events);
            && s.device.history == s.issued
            && s.device.block == Eval(register.initial, s.issued)
  {
    RunKeeps(register, events);
    AllIssuedInOrder(register, Run(register, events));
  }

  /** A setter that returned without an error wrote its change, and the UPS confirmed it. */
  lemma ReturnedSettersAreAcknowledged(register: Register, events: seq<Event>, task: nat)
    requires task in Run(register, events).tasks && Run(register, events).tasks[task].Done?
    ensures var s := Run(register, events);
            && s.tasks[task].entry in s.acknowledged && s.tasks[task].entry in s.device.history
            && s.tasks[task].entry.Own? && s.tasks[task].entry.task == task
  {
    RunKeeps(register, events);
    assert TaskOk(register, Run(register, events), task);
  }

  /** A setter that raised `SettingUnavailable` wrote nothing, now or later. */
  lemma UnavailableWritesNothing(register: Register, events: seq<Event>, task: nat)
    requires task in Run(register, events).tasks && Run(register, events).tasks[task].Unavailable?
    ensures var s := Run(register, events);
            && (forall e :: e in s.device.history && e.Own? ==> e.task != task)
            && (forall e :: e in s.issued ==> e.Own? && e.task != task)
            && (forall i :: 0 <= i < |s.requests| && s.requests[i].Write? ==>
                  s.requests[i].entry.Own? && s.requests[i].entry.task != task)
  {
    RunKeeps(register, events);
    var s := Run(register, events);
    forall i | 0 <= i < |s.requests| && s.requests[i].Write?
      ensures s.requests[i].entry.Own? && s.requests[i].entry.task != task
    {
      assert WriteOk(register, s, s.requests[i]);
    }
  }

  ghost predicate LockIsHeld(s: State) {
    s.lock.Some? ==> s.lock.value in s.tasks && Holds(s.tasks[s.lock.value])
  }

  lemma LockStep(register: Register, s: State, event: Event)
    requires LockIsHeld(s)
    ensures LockIsHeld(Step(register, s, event))
  {
    hide Merge, Full, Known;
  }

  /**
   The lock is never lost: whoever has it is inside, so it is free again once its setter returned,
   raised an exception, timed out or was cancelled, and another one can take it.
   */
  lemma {:induction false} LockIsNeverLost(register: Register, events: seq<Event>)
    ensures LockIsHeld(Run(register, events))
  {
    if events == [] {
    } else {
      LockIsNeverLost(register, events[..|events| - 1]);
      LockStep(register, Run(register, events[..|events| - 1]), events[|events| - 1]);
    }
  }

  /**
   A setter that times out or is cancelled anywhere leaves the lock it has, and changes nothing
   else: what it sent stays under way.
   */
  lemma AbandonFreesLock(register: Register, events: seq<Event>, t: nat)
    requires t in Run(register, events).tasks && Live(Run(register, events).tasks[t])
    ensures var s := Run(register, events); var s' := Step(register, s, Abandon(t));
            && s'.lock == (if Holds(s.tasks[t]) then None else s.lock)
            && s' == s.(lock := s'.lock, tasks := s.tasks[t := Failed])
  {
    RunKeeps(register, events);
    LockIsNeverLost(register, events);
    assert TaskOk(register, Run(register, events), t);
  }

  /** At most one task is inside the lock. */
  lemma MutualExclusion(register: Register, events: seq<Event>, t: nat, u: nat)
    requires var s := Run(register, events);
             t in s.tasks && u in s.tasks && Holds(s.tasks[t]) && Holds(s.tasks[u])
    ensures t == u
  {
    RunKeeps(register, events);
    var s := Run(register, events);
    assert TaskOk(register, s, t) && TaskOk(register, s, u);
  }
}
