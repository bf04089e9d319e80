/**
 When a change that another client makes survives the setters, which write whole blocks.

 A change stays in the block until the first whole block is written that its setter computed
 from an answer the UPS gave before the change. A setter that reads the block itself so keeps
 all changes made before it was called; one that queries the block does not, because the
 answer to an earlier request can wake it.
 */
module ForeignChanges {
  import opened Prelude
  import opened SharedBlock
  import opened SharedBlockOrigins
  import opened BlockSettings
  import SharedBlockResults

  /** The change made at event `p` was in the block of the UPS ever since, up to event `k`. */
  ghost predicate Stands(register: Register, events: seq<Event>, p: nat, k: nat)
    requires p < |events| && events[p].ForeignWrite? && k <= |events|
  {
    forall n :: p < n <= k ==> Made(register, events, p) in At(register, events, n).device.history
  }

  /** At event `n` the UPS carries out the write of `e`, a whole block computed from `v`. */
  ghost predicate WritesBlock(register: Register, events: seq<Event>, n: nat, e: Entry, v: Version) {
    && n < |events| && events[n].Process?
    && var s := At(register, events, n);
       s.requests != [] && s.requests[0].Write? && s.requests[0].entry == e && s.requests[0].basis == Some(v)
  }

  lemma MadeIsNew(register: Register, events: seq<Event>, p: nat, a: nat)
    requires a <= p < |events| && events[p].ForeignWrite?
    ensures Made(register, events, p) !in At(register, events, a).device.history
  {
    var f := Made(register, events, p);
    if f in At(register, events, a).device.history {
      hide Run;
      ForeignWasMade(register, events, a, f);
      var earlier: nat :| earlier < a && events[earlier].ForeignWrite? && f == Made(register, events, earlier);
      RevisionTellsOrder(register, events, earlier, p);
      assert false;
    }
  }

  lemma MadeIsIn(register: Register, events: seq<Event>, p: nat)
    requires p < |events| && events[p].ForeignWrite?
    ensures Made(register, events, p) in At(register, events, p + 1).device.history
  {
    AtNext(register, events, p);
  }

  lemma HistoryStep(register: Register, s: State, event: Event, f: Entry)
    requires f in s.device.history && f.Foreign?
    requires forall i :: 0 <= i < |s.requests| && s.requests[i].Write? ==> s.requests[i].entry.Own?
    ensures f in Step(register, s, event).device.history <==>
            (event.Process? && s.requests != [] && s.requests[0].Write? && s.requests[0].basis.Some? ==>
               f in s.requests[0].basis.value.history)
  {
  }

  /** A version has the change exactly if the UPS answered with it after the change. */
  lemma AnswerHasChange(register: Register, events: seq<Event>, p: nat, k: nat, a: nat)
    requires p < |events| && events[p].ForeignWrite? && a <= k <= |events| && Stands(register, events, p, k)
    ensures var v := At(register, events, a).device; var f := Made(register, events, p);
            && (f in v.history <==> p < a)
            && (f.revision <= v.revision <==> p < a)
  {
    RevisionTellsOrder(register, events, p, a);
    if a <= p {
      MadeIsNew(register, events, p, a);
    }
  }

  /**
   A whole block written contains of the changes of other clients exactly those that were in
   the block when the UPS gave the answer the setter continued from.
   */
  lemma WrittenBlockHasAnsweredChanges(
    register: Register, events: seq<Event>, n: nat, e: Entry, v: Version)
    requires WritesBlock(register, events, n, e, v)
    ensures e.Own? && exists a: nat ::
              && ComputedFrom(register, events, n, a, e, v)
              && forall f: Entry :: f.Foreign? ==>
                   (f in At(register, events, n + 1).device.history <==> f in At(register, events, a).device.history)
  {
    hide Run;
    var before := At(register, events, n);
    assert BasisUnderWay(before, e, v);
    BasisWasAnswered(register, events, n, e, v);
    var a: nat :| ComputedFrom(register, events, n, a, e, v);
    ComputedFromAnswer(register, events, n, a, e, v);
    AtNext(register, events, n);
    assert At(register, events, n + 1).device.history == v.history + [e];
  }

  /**
   A change that stood until a whole block is written survives if and only if the UPS made it
   before it gave the answer that the setter continued from.
   */
  lemma SurvivesIff(register: Register, events: seq<Event>, p: nat, n: nat, e: Entry, v: Version)
    requires p < n < |events| && events[p].ForeignWrite? && Stands(register, events, p, n)
    requires WritesBlock(register, events, n, e, v)
    ensures e.Own? && exists a: nat ::
              && ComputedFrom(register, events, n, a, e, v)
              && (Made(register, events, p) in At(register, events, n + 1).device.history <==> p < a)
    ensures Made(register, events, p) in At(register, events, n + 1).device.history <==>
            Made(register, events, p).revision <= v.revision
  {
    hide Step, Run;
    WrittenBlockHasAnsweredChanges(register, events, n, e, v);
    var f := Made(register, events, p);
    var a: nat :|
      && ComputedFrom(register, events, n, a, e, v)
      && forall f: Entry :: f.Foreign? ==>
           (f in At(register, events, n + 1).device.history <==> f in At(register, events, a).device.history);
    ComputedFromAnswer(register, events, n, a, e, v);
    AnswerHasChange(register, events, p, n, a);
  }

  lemma ComputedFromAnswer(register: Register, events: seq<Event>, k: nat, a: nat, e: Entry, v: Version)
    requires e.Own? && k <= |events| && ComputedFrom(register, events, k, a, e, v)
    ensures a < k && At(register, events, a).device == v
  {
  }

  /** The block that was written was computed from an answer the UPS gave after event `p`. */
  ghost predicate ComputedAfter(register: Register, events: seq<Event>, p: nat, n: nat, e: Entry, v: Version) {
    e.Own? && exists a: nat :: p < a && ComputedFrom(register, events, n, a, e, v)
  }

  lemma ComputedAfterIff(register: Register, events: seq<Event>, p: nat, n: nat, e: Entry, v: Version)
    requires p < |events| && events[p].ForeignWrite? && WritesBlock(register, events, n, e, v)
    ensures ComputedAfter(register, events, p, n, e, v) <==> Made(register, events, p).revision <= v.revision
  {
    hide Step, Run, ComputedFrom;
    BasisWasAnswered(register, events, n, e, v);
    forall a: nat | ComputedFrom(register, events, n, a, e, v)
      ensures p < a <==> Made(register, events, p).revision <= v.revision
    {
      ComputedFromAnswer(register, events, n, a, e, v);
      RevisionTellsOrder(register, events, p, a);
    }
  }

  /**
   A change of another client is in the block at every moment since it was made if and only
   if every whole block written since was computed from an answer given after the change.
   */
  lemma {:induction false} StandsIff(register: Register, events: seq<Event>, p: nat, k: nat)
    requires p < k <= |events| && events[p].ForeignWrite?
    ensures Stands(register, events, p, k) <==>
            forall n: nat, e, v :: p < n < k && WritesBlock(register, events, n, e, v) ==>
              ComputedAfter(register, events, p, n, e, v)
    decreases k
  {
    hide Step, Run, WritesBlock, ComputedAfter;
    if k == p + 1 {
      MadeIsIn(register, events, p);
    } else {
      StandsIff(register, events, p, k - 1);
      if Stands(register, events, p, k - 1) {
        StandsStep(register, events, p, k - 1);
      }
    }
  }

  lemma StandsStep(register: Register, events: seq<Event>, p: nat, n: nat)
    requires p < n < |events| && events[p].ForeignWrite? && Stands(register, events, p, n)
    ensures Stands(register, events, p, n + 1) <==>
            forall e, v :: WritesBlock(register, events, n, e, v) ==> ComputedAfter(register, events, p, n, e, v)
  {
    hide Step, Run, ComputedAfter;
    var before := At(register, events, n);
    AtNext(register, events, n);
    WritesAreOwn(register, events, n);
    HistoryStep(register, before, events[n], Made(register, events, p));
    if events[n].Process? && before.requests != [] && before.requests[0].Write? && before.requests[0].basis.Some? {
      var e, v := before.requests[0].entry, before.requests[0].basis.value;
      assert WritesBlock(register, events, n, e, v);
      SurvivesIff(register, events, p, n, e, v);
      ComputedAfterIff(register, events, p, n, e, v);
    }
  }

  /** While a change stands, each of its components is in the block unless a later change sets it. */
  lemma StandingChangeShows(register: Register, events: seq<Event>, p: nat, c: nat)
    requires p < |events| && events[p].ForeignWrite? && Stands(register, events, p, |events|)
    requires c < |register.initial| && Sets(events[p].change, c)
    ensures var device := Run(register, events).device; var f := Made(register, events, p);
            && |device.block| == |register.initial|
            && (|| device.block[c] == events[p].change[c].value
                || exists i, j :: 0 <= i < j < |device.history| && device.history[i] == f
                                  && Sets(device.history[j].change, c))
  {
    AtEnd(register, events);
    SharedBlockResults.ChangeIsInBlock(register, events, Made(register, events, p), c);
  }

  // ----- setters that read the block themselves

  lemma ReadStep(register: Register, s: State, event: Event, t: nat)
    requires Read(t) in Step(register, s, event).requests
    requires Read(t) in s.requests ==> t in s.tasks
    ensures t in Step(register, s, event).tasks
  {
  }

  lemma {:induction false} ReadHasTask(register: Register, events: seq<Event>, k: nat, t: nat)
    requires k <= |events| && Read(t) in At(register, events, k).requests
    ensures t in At(register, events, k).tasks
  {
    if k == 0 {
      assert false;
    } else {
      AtNext(register, events, k - 1);
      if Read(t) in At(register, events, k - 1).requests {
        ReadHasTask(register, events, k - 1, t);
      }
      ReadStep(register, At(register, events, k - 1), events[k - 1], t);
    }
  }

  /**
   Reading first keeps what other clients changed before: a change that stands when the setter
   is called is never overwritten by this setter, however long it waits for the lock and
   whatever happens meanwhile.
   */
  lemma ReadingKeepsEarlierChanges(
    register: Register, events: seq<Event>, p: nat, m: nat, n: nat, change: Change, e: Entry, v: Version)
    requires p < m && p < n < |events| && events[p].ForeignWrite? && Stands(register, events, p, n)
    requires WritesBlock(register, events, n, e, v) && e.Own?
    requires Starts(register, events, m, e.task, Direct, change)
    ensures Made(register, events, p) in At(register, events, n + 1).device.history
  {
    hide Step, Run;
    SurvivesIff(register, events, p, n, e, v);
    var a: nat :| ComputedFrom(register, events, n, a, e, v)
                  && (Made(register, events, p) in At(register, events, n + 1).device.history <==> p < a);
    OnlyDirect(register, events, n, a, e, v, m, change);
    ReadHasTask(register, events, a, e.task);
    if a <= m {
      TasksStay(register, events, a, m, e.task);
    }
  }

  lemma OnlyDirect(
    register: Register, events: seq<Event>, k: nat, a: nat, e: Entry, v: Version, m: nat, change: Change)
    requires e.Own? && k <= |events| && ComputedFrom(register, events, k, a, e, v)
    requires Starts(register, events, m, e.task, Direct, change)
    ensures AnswersAt(register, events, a, Read(e.task), v)
  {
    if CalledAs(register, events, e, Queried) {
      var n :| Starts(register, events, n, e.task, Queried, e.change);
      StartsOnce(register, events, e.task, n, Queried, e.change, m, Direct, change);
      assert false;
    }
  }

  // ----- setters that query the block

  /** Event `d` delivers a notification. */
  ghost predicate NotifiesAt(register: Register, events: seq<Event>, d: nat) {
    && d < |events| && events[d].Deliver?
    && At(register, events, d).answers != [] && At(register, events, d).answers[0].Notified?
  }

  lemma WokenStep(register: Register, s: State, event: Event, t: nat)
    requires Woken(Step(register, s, event), t)
    ensures Woken(s, t) || (t in s.tasks && event.Deliver? && s.answers != [] && s.answers[0].Notified?)
  {
  }

  /** A setter that was woken was woken by a notification delivered after it was called. */
  lemma {:induction false} WokenWasNotified(
    register: Register, events: seq<Event>, m: nat, k: nat, t: nat, kind: Kind, change: Change)
    requires Starts(register, events, m, t, kind, change) && k <= |events| && Woken(At(register, events, k), t)
    ensures exists d: nat :: m < d < k && NotifiesAt(register, events, d)
  {
    if k == 0 {
      assert false;
    } else {
      hide Step, Run;
      AtNext(register, events, k - 1);
      WokenStep(register, At(register, events, k - 1), events[k - 1], t);
      if Woken(At(register, events, k - 1), t) {
        WokenWasNotified(register, events, m, k - 1, t, kind, change);
      } else {
        if k - 1 <= m {
          TasksStay(register, events, k - 1, m, t);
        }
        assert NotifiesAt(register, events, k - 1);
      }
    }
  }

  /** What is shown when a setter resumes was brought after it was called. */
  lemma ResumesWithRecent(
    register: Register, events: seq<Event>, m: nat, d: nat, c: nat, t: nat, kind: Kind, change: Change, v: Version)
    requires Starts(register, events, m, t, kind, change)
    requires c < |events| && Woken(At(register, events, c), t) && BroughtAt(register, events, d, c, v)
    ensures exists b: nat :: m < b < c && Brings(At(register, events, b), events[b], v)
  {
    hide Run;
    WokenWasNotified(register, events, m, c, t, kind, change);
    var w: nat :| m < w < c && NotifiesAt(register, events, w);
    if d < w {
      AtNext(register, events, w);
      var woke := At(register, events, w).answers[0].version;
      assert At(register, events, w + 1).shown == Some(woke);
      assert Brings(At(register, events, w), events[w], v);
    } else {
      assert m < d < c;
    }
  }

  /** An answer was under way before event `m`, or the UPS gave it since. */
  lemma {:induction false} AnswerSince(register: Register, events: seq<Event>, m: nat, k: nat, v: Version)
    requires m <= k <= |events| && AnswerUnderWay(At(register, events, k), v)
    ensures AnswerUnderWay(At(register, events, m), v)
            || exists a: nat :: m <= a < k && At(register, events, a).device == v
    decreases k
  {
    if k == m {
    } else {
      hide Step, Run;
      AtNext(register, events, k - 1);
      AnswerStep(register, At(register, events, k - 1), events[k - 1], v);
      if AnswerUnderWay(At(register, events, k - 1), v) {
        AnswerSince(register, events, m, k - 1, v);
      }
    }
  }

  /** No answer under way before event `m` was given before the change of event `p`. */
  ghost predicate AnswersHaveChange(register: Register, events: seq<Event>, p: nat, m: nat)
    requires p < |events| && events[p].ForeignWrite? && m <= |events|
  {
    forall v :: AnswerUnderWay(At(register, events, m), v) ==> Made(register, events, p) in v.history
  }

  /**
   What a setter that queries the block needs to keep earlier changes: if no answer from before
   a standing change is under way when the setter is called, it never overwrites this change,
   whatever other tasks ask meanwhile.
   */
  lemma QueryingKeepsEarlierChanges(
    register: Register, events: seq<Event>, p: nat, m: nat, n: nat, change: Change, e: Entry, v: Version)
    requires p < m && p < n < |events| && events[p].ForeignWrite? && Stands(register, events, p, n)
    requires WritesBlock(register, events, n, e, v) && e.Own?
    requires Starts(register, events, m, e.task, Queried, change)
    requires AnswersHaveChange(register, events, p, m)
    ensures Made(register, events, p) in At(register, events, n + 1).device.history
  {
    hide Step, Run;
    SurvivesIff(register, events, p, n, e, v);
    var a: nat :| ComputedFrom(register, events, n, a, e, v)
                  && (Made(register, events, p) in At(register, events, n + 1).device.history <==> p < a);
    ComputedFromAnswer(register, events, n, a, e, v);
    AnswerHasChange(register, events, p, n, a);
    QueriedHasRecent(register, events, n, a, e, v, m, change);
    var b: nat :| m < b < n && Brings(At(register, events, b), events[b], v);
    assert AnswerUnderWay(At(register, events, b), v);
    AnswerSince(register, events, m, b, v);
    if !AnswerUnderWay(At(register, events, m), v) {
      var given: nat :| m <= given < b && At(register, events, given).device == v;
      AnswerHasChange(register, events, p, n, given);
    }
  }

  lemma QueriedHasRecent(
    register: Register, events: seq<Event>, n: nat, a: nat, e: Entry, v: Version, m: nat, change: Change)
    requires e.Own? && n <= |events| && ComputedFrom(register, events, n, a, e, v)
    requires Starts(register, events, m, e.task, Queried, change)
    ensures exists b: nat :: m < b < n && Brings(At(register, events, b), events[b], v)
  {
    hide Run;
    if CalledAs(register, events, e, Direct) {
      var k :| Starts(register, events, k, e.task, Direct, e.change);
      StartsOnce(register, events, e.task, k, Direct, e.change, m, Queried, change);
      assert false;
    } else {
      var d: nat, c: nat :| c < n && FromLastBrought(register, events, a, d, c, e.task, v);
      ResumesWithRecent(register, events, m, d, c, e.task, Queried, change, v);
    }
  }

  /** Another task asks, another client writes, a setter is called, and the old answer wakes it. */
  const OLD_ANSWER: seq<Event> := [
    StartObserver(0, Get(0)), Process(NotifyThenAck),
    ForeignWrite([None, Some(77), None]),
    SetWakeOnLanMinOutage(1, 30), Acquire(1),
    Deliver, Process(AckThenNotify), Deliver, Deliver, Resume(1), Process(AckOnly)]

  const TRIGGER: Register := WakeOnLanTrigger(10, 10, 20)
  const OLD_BLOCK: Version := Version([10, 10, 20], [], 0)
  const OUTAGE: Change := [Some(30), None, None]
  const OTHER_DELAY: Change := [None, Some(77), None]

  const NEW_BLOCK: Version := Version([10, 77, 20], [Foreign(1, OTHER_DELAY)], 1)

  /** The old answer is under way when the setter is called. */
  const CALLED: State :=
    State(NEW_BLOCK, [], [Notified(OLD_BLOCK), Acked(0)], None, None, map[0 := Observing], [], {})

  const ASKED: State :=
    CALLED.(lock := Some(1), requests := [Get(1)], tasks := map[0 := Observing, 1 := Querying(OUTAGE, false, false)])

  /** The old answer has woken it; its own is under way. */
  const WOKEN: State :=
    ASKED.(requests := [], answers := [Acked(0), Acked(1), Notified(NEW_BLOCK)], shown := Some(OLD_BLOCK),
           tasks := map[0 := Observing, 1 := Querying(OUTAGE, false, true)])

  const RESUMES: State :=
    WOKEN.(answers := [Notified(NEW_BLOCK)], tasks := map[0 := Observed, 1 := Querying(OUTAGE, true, true)])

  lemma ReachesCalled()
    ensures At(TRIGGER, OLD_ANSWER, 3) == CALLED
    ensures Made(TRIGGER, OLD_ANSWER, 2) == Foreign(1, OTHER_DELAY)
  {
    AtNext(TRIGGER, OLD_ANSWER, 0);
    AtNext(TRIGGER, OLD_ANSWER, 1);
    AtNext(TRIGGER, OLD_ANSWER, 2);
    var s2 := At(TRIGGER, OLD_ANSWER, 2);
    assert s2 == Start(TRIGGER).(answers := [Notified(s2.device), Acked(0)], tasks := map[0 := Observing]);
    assert Merge(OTHER_DELAY, [10, 10, 20]) == [10, 77, 20];
  }

  lemma CalledAsks()
    ensures Step(TRIGGER, CALLED, OLD_ANSWER[3]).device == NEW_BLOCK
    ensures Step(TRIGGER, Step(TRIGGER, CALLED, OLD_ANSWER[3]), OLD_ANSWER[4]) == ASKED
  {
  }

  lemma AskedWakes()
    ensures Step(TRIGGER, ASKED, OLD_ANSWER[5]).device == NEW_BLOCK
    ensures Step(TRIGGER, Step(TRIGGER, ASKED, OLD_ANSWER[5]), OLD_ANSWER[6]) == WOKEN
  {
    var s := Step(TRIGGER, ASKED, OLD_ANSWER[5]);
    assert s == ASKED.(answers := [Acked(0)], shown := Some(OLD_BLOCK),
                       tasks := map[0 := Observing, 1 := Querying(OUTAGE, false, true)]);
  }

  lemma WokenResumes()
    ensures Step(TRIGGER, WOKEN, OLD_ANSWER[7]).device == NEW_BLOCK
    ensures Step(TRIGGER, Step(TRIGGER, WOKEN, OLD_ANSWER[7]), OLD_ANSWER[8]) == RESUMES
  {
    var s := Step(TRIGGER, WOKEN, OLD_ANSWER[7]);
    assert s == WOKEN.(answers := [Acked(1), Notified(NEW_BLOCK)],
                       tasks := map[0 := Observed, 1 := Querying(OUTAGE, false, true)]);
  }

  lemma ResumedWrites()
    ensures Step(TRIGGER, RESUMES, OLD_ANSWER[9]).device == NEW_BLOCK
    ensures Step(TRIGGER, Step(TRIGGER, RESUMES, OLD_ANSWER[9]), OLD_ANSWER[10]).device
            == Version([30, 10, 20], [Own(0, 1, OUTAGE)], 2)
  {
    var s := Step(TRIGGER, RESUMES, OLD_ANSWER[9]);
    assert Merge(OUTAGE, [10, 10, 20]) == [30, 10, 20];
    assert s.requests == [Write(Full([30, 10, 20]), Own(0, 1, OUTAGE), Some(OLD_BLOCK))];
    assert Merge(Full([30, 10, 20]), [10, 77, 20]) == [30, 10, 20];
  }

  lemma OldAnswerRuns()
    ensures At(TRIGGER, OLD_ANSWER, 3) == CALLED
    ensures Made(TRIGGER, OLD_ANSWER, 2) == Foreign(1, OTHER_DELAY)
    ensures forall k :: 3 <= k <= 10 ==> At(TRIGGER, OLD_ANSWER, k).device == NEW_BLOCK
    ensures At(TRIGGER, OLD_ANSWER, 11).device == Version([30, 10, 20], [Own(0, 1, OUTAGE)], 2)
  {
    ReachesCalled();
    CalledAsks();
    AskedWakes();
    WokenResumes();
    ResumedWrites();
    forall k: nat | 3 <= k <= 10
      ensures At(TRIGGER, OLD_ANSWER, k + 1) == Step(TRIGGER, At(TRIGGER, OLD_ANSWER, k), OLD_ANSWER[k])
    {
      AtNext(TRIGGER, OLD_ANSWER, k);
    }
    hide At, Step;
    assert At(TRIGGER, OLD_ANSWER, 3 + 1).device == NEW_BLOCK && At(TRIGGER, OLD_ANSWER, 4 + 1) == ASKED;
    assert At(TRIGGER, OLD_ANSWER, 5 + 1).device == NEW_BLOCK && At(TRIGGER, OLD_ANSWER, 6 + 1) == WOKEN;
    assert At(TRIGGER, OLD_ANSWER, 7 + 1).device == NEW_BLOCK && At(TRIGGER, OLD_ANSWER, 8 + 1) == RESUMES;
    assert At(TRIGGER, OLD_ANSWER, 9 + 1).device == NEW_BLOCK;
  }

  /**
   A setter that queries the block can overwrite a change made before it was called: the run
   ends with the minimum outage of the setter and without the delay the other client set.
   */
  lemma QueryingLosesEarlierChange()
    ensures Starts(TRIGGER, OLD_ANSWER, 3, 1, Queried, OUTAGE)
    ensures At(TRIGGER, OLD_ANSWER, 3).device.block == [10, 77, 20]
    ensures Stands(TRIGGER, OLD_ANSWER, 2, 10)
    ensures At(TRIGGER, OLD_ANSWER, 11).device.block == [30, 10, 20]
    ensures Made(TRIGGER, OLD_ANSWER, 2) !in At(TRIGGER, OLD_ANSWER, 11).device.history
  {
    hide Step, At, Run;
    OldAnswerRuns();
  }
}
