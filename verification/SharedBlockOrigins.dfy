/**
 Where the parts of a run come from: every change is the one its setter was called with,
 and every block that a setter continues from is the one the UPS had when it answered a
 request that came before.

 Positions count the events of a run: `At(register, events, k)` is the state before event `k`.
 */
module SharedBlockOrigins {
  import opened Prelude
  import opened SharedBlock
  import SharedBlockProofs

  function At(register: Register, events: seq<Event>, k: nat): State
    requires k <= |events|
  {
    Run(register, events[..k])
  }

  lemma AtNext(register: Register, events: seq<Event>, k: nat)
    requires k < |events|
    ensures At(register, events, k + 1) == Step(register, At(register, events, k), events[k])
  {
    assert events[..k + 1][..k] == events[..k];
  }

  lemma AtEnd(register: Register, events: seq<Event>)
    ensures At(register, events, |events|) == Run(register, events)
  {
    assert events[..|events|] == events;
  }

  // ----- calls of the setters

  /** Event `n` calls a setter, which becomes task `t`. */
  ghost predicate Starts(register: Register, events: seq<Event>, n: nat, t: nat, kind: Kind, change: Change) {
    && n < |events| && events[n] == StartSetter(t, kind, change)
    && |change| == |register.initial| && t !in At(register, events, n).tasks
  }

  lemma StepKeepsTasks(register: Register, s: State, event: Event, t: nat)
    requires t in s.tasks
    ensures t in Step(register, s, event).tasks
  {
  }

  lemma {:induction false} TasksStay(register: Register, events: seq<Event>, k: nat, m: nat, t: nat)
    requires k <= m <= |events| && t in At(register, events, k).tasks
    ensures t in At(register, events, m).tasks
    decreases m
  {
    if k == m {
    } else {
      TasksStay(register, events, k, m - 1, t);
      AtNext(register, events, m - 1);
      StepKeepsTasks(register, At(register, events, m - 1), events[m - 1], t);
    }
  }

  /** A task is started once. */
  lemma StartsOnce(
    register: Register, events: seq<Event>, t: nat, n: nat, kind: Kind, change: Change, m: nat, kind': Kind,
        change': Change)
    requires Starts(register, events, n, t, kind, change) && Starts(register, events, m, t, kind', change')
    ensures n == m
  {
    if n != m {
      var first, second := if n < m then n else m, if n < m then m else n;
      AtNext(register, events, first);
      assert t in At(register, events, first + 1).tasks;
      TasksStay(register, events, first + 1, second, t);
      assert false;
    }
  }

  /** The setter `t` was called with this change and has not computed its block yet. */
  predicate PendingWith(s: State, t: nat, kind: Kind, change: Change) {
    t in s.tasks && match s.tasks[t]
    case Waiting(k, c) => k == kind && c == change
    case Reading(c) => kind.Direct? && c == change
    case Querying(c, _, _) => kind.Queried? && c == change
    case _ => false
  }

  lemma PendingStep(register: Register, s: State, event: Event, t: nat, kind: Kind, change: Change)
    requires PendingWith(Step(register, s, event), t, kind, change)
    ensures || PendingWith(s, t, kind, change)
            || (event == StartSetter(t, kind, change) && |change| == |register.initial| && t !in s.tasks)
  {
    hide Merge, Full, Known;
    if event.Deliver? {
      DeliverKeepsPending(register, s, t, kind, change);
    }
  }

  lemma DeliverKeepsPending(register: Register, s: State, t: nat, kind: Kind, change: Change)
    requires PendingWith(DeliverAnswer(register, s), t, kind, change)
    ensures PendingWith(s, t, kind, change)
  {
    hide Merge, Full, Known;
  }

  lemma {:induction false} PendingWasStarted(
    register: Register, events: seq<Event>, k: nat, t: nat, kind: Kind, change: Change)
    requires k <= |events| && PendingWith(At(register, events, k), t, kind, change)
    ensures exists n: nat :: n < k && Starts(register, events, n, t, kind, change)
  {
    if k == 0 {
      assert false;
    } else {
      AtNext(register, events, k - 1);
      PendingStep(register, At(register, events, k - 1), events[k - 1], t, kind, change);
      if PendingWith(At(register, events, k - 1), t, kind, change) {
        PendingWasStarted(register, events, k - 1, t, kind, change);
      } else {
        assert Starts(register, events, k - 1, t, kind, change);
      }
    }
  }

  lemma IssuedStep(register: Register, s: State, event: Event, e: Entry)
    requires e in Step(register, s, event).issued && e !in s.issued
    ensures e.Own? && exists kind :: PendingWith(s, e.task, kind, e.change)
  {
    match event
    case Acquire(t) => assert e.Own? && e.task == t && PendingWith(s, t, Blind, e.change);
    case Deliver => assert e.Own? && PendingWith(s, e.task, Direct, e.change);
    case Resume(t) => assert e.Own? && e.task == t && PendingWith(s, t, Queried, e.change);
    case _ =>
  }

  lemma {:induction false} IssuedWasStarted(register: Register, events: seq<Event>, k: nat, e: Entry)
    requires k <= |events| && e in At(register, events, k).issued
    ensures e.Own? && exists n: nat, kind :: n < k && Starts(register, events, n, e.task, kind, e.change)
  {
    if k == 0 {
      assert false;
    } else {
      AtNext(register, events, k - 1);
      var before := At(register, events, k - 1);
      if e in before.issued {
        IssuedWasStarted(register, events, k - 1, e);
      } else {
        IssuedStep(register, before, events[k - 1], e);
        var kind :| PendingWith(before, e.task, kind, e.change);
        PendingWasStarted(register, events, k - 1, e.task, kind, e.change);
      }
    }
  }

  // ----- answers of the UPS

  ghost predicate AnswerUnderWay(s: State, v: Version) {
    exists i :: 0 <= i < |s.answers| && (s.answers[i].Notified? || s.answers[i].Value?) && s.answers[i].version == v
  }

  ghost predicate ValueUnderWay(s: State, t: nat, v: Version) {
    exists i :: 0 <= i < |s.answers| && s.answers[i] == Value(t, v)
  }

  ghost predicate BasisUnderWay(s: State, e: Entry, v: Version) {
    exists i :: 0 <= i < |s.requests| && s.requests[i].Write? && s.requests[i].entry == e &&
        s.requests[i].basis == Some(v)
  }

  /** The version is in an answer under way, is shown, or is the basis of a write under way. */
  ghost predicate UnderWay(s: State, v: Version) {
    AnswerUnderWay(s, v) || s.shown == Some(v) || exists e :: BasisUnderWay(s, e, v)
  }

  /** The UPS answers the first request of the queue with its block. */
  ghost predicate Answers(s: State, event: Event, request: Request) {
    event.Process? && s.requests != [] && s.requests[0] == request && !request.Write?
  }

  /** The first answer reaches the host and brings this version. */
  ghost predicate Brings(s: State, event: Event, v: Version) {
    event.Deliver? && s.answers != [] && (s.answers[0].Notified? || s.answers[0].Value?) && s.answers[0].version == v
  }

  lemma AnswerStep(register: Register, s: State, event: Event, v: Version)
    requires AnswerUnderWay(Step(register, s, event), v)
    ensures AnswerUnderWay(s, v) || (v == s.device && s.requests != [] && Answers(s, event, s.requests[0]))
  {
    var s' := Step(register, s, event);
    var i :| 0 <= i < |s'.answers| && (s'.answers[i].Notified? || s'.answers[i].Value?) && s'.answers[i].version == v;
    AnswerIsOld(register, s, event, s'.answers[i]);
  }

  lemma AnswerIsOld(register: Register, s: State, event: Event, answer: Answer)
    requires answer in Step(register, s, event).answers
    ensures answer in s.answers || (event.Process? && s.requests != [])
    ensures answer !in s.answers && (answer.Notified? || answer.Value?) ==>
              !s.requests[0].Write? && answer.version == s.device
  {
  }

  lemma ValueStep(register: Register, s: State, event: Event, t: nat, v: Version)
    requires ValueUnderWay(Step(register, s, event), t, v)
    ensures ValueUnderWay(s, t, v) || (v == s.device && Answers(s, event, Read(t)))
  {
  }

  lemma ShownStep(register: Register, s: State, event: Event, v: Version)
    requires Step(register, s, event).shown == Some(v)
    ensures s.shown == Some(v) || Brings(s, event, v)
  {
  }

  /** A setter that queries the block was notified since it asked. */
  predicate Woken(s: State, t: nat) {
    t in s.tasks && s.tasks[t].Querying? && s.tasks[t].woken
  }

  /** The setter continues from the answer to its own read, or from what is shown. */
  lemma BasisStep(register: Register, s: State, event: Event, e: Entry, v: Version)
    requires BasisUnderWay(Step(register, s, event), e, v)
    ensures || BasisUnderWay(s, e, v)
            || (e.Own? && PendingWith(s, e.task, Direct, e.change) && ValueUnderWay(s, e.task, v))
            || (&& e.Own? && PendingWith(s, e.task, Queried, e.change)
                && event == Resume(e.task) && Woken(s, e.task) && s.shown == Some(v))
  {
  }

  /** Only an answer of the UPS brings a version on its way. */
  lemma UnderWayStep(register: Register, s: State, event: Event, v: Version)
    requires UnderWay(Step(register, s, event), v)
    ensures UnderWay(s, v) || (v == s.device && s.requests != [] && Answers(s, event, s.requests[0]))
  {
    hide Step;
    var s' := Step(register, s, event);
    if AnswerUnderWay(s', v) {
      AnswerStep(register, s, event, v);
    } else if s'.shown == Some(v) {
      ShownStep(register, s, event, v);
    } else {
      var e :| BasisUnderWay(s', e, v);
      BasisStep(register, s, event, e, v);
    }
  }

  /** At event `a` the UPS answers `request` with `version`, the block it has then. */
  ghost predicate AnswersAt(register: Register, events: seq<Event>, a: nat, request: Request, version: Version) {
    && a < |events|
    && Answers(At(register, events, a), events[a], request) && At(register, events, a).device == version
  }

  /** Every version under way is the block the UPS had when it answered some request. */
  lemma {:induction false} VersionWasAnswered(register: Register, events: seq<Event>, k: nat, v: Version)
    requires k <= |events| && UnderWay(At(register, events, k), v)
    ensures exists a: nat, request :: a < k && AnswersAt(register, events, a, request, v)
  {
    if k == 0 {
      assert false;
    } else {
      AtNext(register, events, k - 1);
      var before := At(register, events, k - 1);
      UnderWayStep(register, before, events[k - 1], v);
      if UnderWay(before, v) {
        VersionWasAnswered(register, events, k - 1, v);
      } else {
        assert AnswersAt(register, events, k - 1, before.requests[0], v);
      }
    }
  }

  /** The answer to the read of task `t` has the block the UPS had when it answered that read. */
  lemma {:induction false} ReadWasAnswered(register: Register, events: seq<Event>, k: nat, t: nat, v: Version)
    requires k <= |events| && ValueUnderWay(At(register, events, k), t, v)
    ensures exists a: nat :: a < k && AnswersAt(register, events, a, Read(t), v)
  {
    if k == 0 {
      assert false;
    } else {
      AtNext(register, events, k - 1);
      var before := At(register, events, k - 1);
      ValueStep(register, before, events[k - 1], t, v);
      if ValueUnderWay(before, t, v) {
        ReadWasAnswered(register, events, k - 1, t, v);
      } else {
        assert AnswersAt(register, events, k - 1, Read(t), v);
      }
    }
  }

  /** What is shown before event `k` was brought by event `d`, and stayed. */
  ghost predicate BroughtAt(register: Register, events: seq<Event>, d: nat, k: nat, v: Version)
    requires k <= |events|
  {
    && d < k && Brings(At(register, events, d), events[d], v)
    && forall m :: d < m <= k ==> At(register, events, m).shown == Some(v)
  }

  lemma {:induction false} ShownWasBrought(register: Register, events: seq<Event>, k: nat, v: Version)
    requires k <= |events| && At(register, events, k).shown == Some(v)
    ensures exists d: nat :: BroughtAt(register, events, d, k, v)
  {
    if k == 0 {
      assert false;
    } else {
      AtNext(register, events, k - 1);
      var before := At(register, events, k - 1);
      ShownStep(register, before, events[k - 1], v);
      if before.shown == Some(v) {
        ShownWasBrought(register, events, k - 1, v);
        var d: nat :| BroughtAt(register, events, d, k - 1, v);
        assert BroughtAt(register, events, d, k, v);
      } else {
        assert BroughtAt(register, events, k - 1, k, v);
      }
    }
  }

  // ----- the message a setter continues from

  /**
   Setter `t` was woken, resumes at event `c` and computes its block from what was brought last before,
   by event `d`: the answer that the UPS gave at event `a`, to whatever request.
   */
  ghost predicate FromLastBrought(
    register: Register, events: seq<Event>, a: nat, d: nat, c: nat, t: nat, v: Version)
  {
    && c < |events| && events[c] == Resume(t) && Woken(At(register, events, c), t)
    && BroughtAt(register, events, d, c, v)
    && a < c && exists request :: AnswersAt(register, events, a, request, v)
  }

  /** The entry belongs to a setter of this kind, which was called with its change. */
  ghost predicate CalledAs(register: Register, events: seq<Event>, e: Entry, kind: Kind)
    requires e.Own?
  {
    exists n :: Starts(register, events, n, e.task, kind, e.change)
  }

  /**
   The write of `e` has the block that its setter computed before event `k` from an answer the
   UPS gave at event `a`: the answer to its own read if it reads the block, the one brought
   last before it resumed if it queries the block.
   */
  ghost predicate ComputedFrom(register: Register, events: seq<Event>, k: nat, a: nat, e: Entry, v: Version)
    requires e.Own?
  {
    a < k &&
    (|| (CalledAs(register, events, e, Direct) && AnswersAt(register, events, a, Read(e.task), v))
     || (&& CalledAs(register, events, e, Queried)
         && exists d: nat, c: nat :: c < k && FromLastBrought(register, events, a, d, c, e.task, v)))
  }

  lemma ReadIsComputed(register: Register, events: seq<Event>, k: nat, e: Entry, v: Version)
    requires k < |events| && e.Own?
    requires PendingWith(At(register, events, k), e.task, Direct, e.change)
    requires ValueUnderWay(At(register, events, k), e.task, v)
    ensures exists a: nat :: ComputedFrom(register, events, k, a, e, v)
  {
    PendingWasStarted(register, events, k, e.task, Direct, e.change);
    ReadWasAnswered(register, events, k, e.task, v);
    var a: nat :| a < k && AnswersAt(register, events, a, Read(e.task), v);
    assert ComputedFrom(register, events, k, a, e, v);
  }

  lemma ResumedIsComputed(register: Register, events: seq<Event>, c: nat, k: nat, e: Entry, v: Version)
    requires c < k <= |events| && e.Own? && events[c] == Resume(e.task)
    requires PendingWith(At(register, events, c), e.task, Queried, e.change) && Woken(At(register, events, c), e.task)
    requires At(register, events, c).shown == Some(v)
    ensures exists a: nat :: ComputedFrom(register, events, k, a, e, v)
  {
    PendingWasStarted(register, events, c, e.task, Queried, e.change);
    ShownWasBrought(register, events, c, v);
    var d: nat :| BroughtAt(register, events, d, c, v);
    VersionWasAnswered(register, events, c, v);
    var a: nat, request :| a < c && AnswersAt(register, events, a, request, v);
    assert FromLastBrought(register, events, a, d, c, e.task, v);
    assert ComputedFrom(register, events, k, a, e, v);
  }

  lemma ComputedFromStays(register: Register, events: seq<Event>, k: nat, m: nat, e: Entry, v: Version)
    requires e.Own? && k <= m && exists a: nat :: ComputedFrom(register, events, k, a, e, v)
    ensures exists a: nat :: ComputedFrom(register, events, m, a, e, v)
  {
    hide CalledAs, AnswersAt, FromLastBrought;
    var a: nat :| ComputedFrom(register, events, k, a, e, v);
    assert ComputedFrom(register, events, m, a, e, v);
  }

  /** Every block under way to the UPS was computed from such an answer. */
  lemma {:induction false} BasisWasAnswered(register: Register, events: seq<Event>, k: nat, e: Entry, v: Version)
    requires k <= |events| && BasisUnderWay(At(register, events, k), e, v)
    ensures e.Own? && exists a: nat :: ComputedFrom(register, events, k, a, e, v)
  {
    if k == 0 {
      assert false;
    } else {
      hide Step, ComputedFrom;
      AtNext(register, events, k - 1);
      var before := At(register, events, k - 1);
      BasisStep(register, before, events[k - 1], e, v);
      if BasisUnderWay(before, e, v) {
        BasisWasAnswered(register, events, k - 1, e, v);
        ComputedFromStays(register, events, k - 1, k, e, v);
      } else if ValueUnderWay(before, e.task, v) && PendingWith(before, e.task, Direct, e.change) {
        ReadIsComputed(register, events, k - 1, e, v);
        ComputedFromStays(register, events, k - 1, k, e, v);
      } else {
        ResumedIsComputed(register, events, k - 1, k, e, v);
      }
    }
  }

  // ----- changes of other clients

  /** The change that another client makes at event `p`. */
  function Made(register: Register, events: seq<Event>, p: nat): Entry
    requires p < |events| && events[p].ForeignWrite?
  {
    Foreign(At(register, events, p).device.revision + 1, events[p].change)
  }

  lemma RevisionStep(register: Register, s: State, event: Event)
    ensures Step(register, s, event).device.revision >= s.device.revision
    ensures event.ForeignWrite? ==> Step(register, s, event).device.revision == s.device.revision + 1
  {
  }

  lemma {:induction false} RevisionsGrow(register: Register, events: seq<Event>, k: nat, m: nat)
    requires k <= m <= |events|
    ensures At(register, events, k).device.revision <= At(register, events, m).device.revision
    decreases m
  {
    hide Step, Run, At;
    if k == m {
    } else {
      RevisionsGrow(register, events, k, m - 1);
      AtNext(register, events, m - 1);
      RevisionStep(register, At(register, events, m - 1), events[m - 1]);
    }
  }

  /** The revision tells whether a change of another client was made before an answer. */
  lemma RevisionTellsOrder(register: Register, events: seq<Event>, p: nat, a: nat)
    requires p < |events| && a <= |events| && events[p].ForeignWrite?
    ensures Made(register, events, p).revision <= At(register, events, a).device.revision <==> p < a
  {
    AtNext(register, events, p);
    RevisionStep(register, At(register, events, p), events[p]);
    if p < a {
      RevisionsGrow(register, events, p + 1, a);
    } else {
      RevisionsGrow(register, events, a, p);
    }
  }

  lemma AnswerOf(register: Register, events: seq<Event>, k: nat, v: Version)
    requires k <= |events| && UnderWay(At(register, events, k), v)
    ensures exists a: nat :: a < k && At(register, events, a).device == v
  {
    VersionWasAnswered(register, events, k, v);
  }

  lemma DeviceStep(register: Register, s: State, event: Event, e: Entry)
    requires e in Step(register, s, event).device.history
    ensures || e in s.device.history
            || (event == ForeignWrite(e.change) && e == Foreign(s.device.revision + 1, e.change))
            || (exists i :: 0 <= i < |s.requests| && s.requests[i].Write? && s.requests[i].entry == e)
            || (exists v :: UnderWay(s, v) && e in v.history)
  {
    if event.Process? && s.requests != [] && s.requests[0].Write? && s.requests[0].basis.Some? {
      var v := s.requests[0].basis.value;
      assert BasisUnderWay(s, s.requests[0].entry, v);
      assert e in v.history + [s.requests[0].entry];
    }
  }

  lemma WritesAreOwn(register: Register, events: seq<Event>, k: nat)
    requires k <= |events|
    ensures forall i :: 0 <= i < |At(register, events, k).requests| && At(register, events, k).requests[i].Write? ==>
              At(register, events, k).requests[i].entry.Own?
  {
    var s := At(register, events, k);
    SharedBlockProofs.RunKeeps(register, events[..k]);
    forall i | 0 <= i < |s.requests| && s.requests[i].Write?
      ensures s.requests[i].entry.Own?
    {
      assert SharedBlockProofs.WriteOk(register, s, s.requests[i]);
    }
  }

  /** Every change of another client in the block was made by an earlier event. */
  lemma {:induction false} ForeignWasMade(register: Register, events: seq<Event>, k: nat, e: Entry)
    requires k <= |events| && e in At(register, events, k).device.history && e.Foreign?
    ensures exists p: nat :: p < k && events[p].ForeignWrite? && e == Made(register, events, p)
    decreases k
  {
    if k == 0 {
      assert false;
    } else {
      hide Step, Run, UnderWay, Answers, AnswersAt;
      AtNext(register, events, k - 1);
      var before := At(register, events, k - 1);
      DeviceStep(register, before, events[k - 1], e);
      WritesAreOwn(register, events, k - 1);
      if e in before.device.history {
        ForeignWasMade(register, events, k - 1, e);
      } else if v :| UnderWay(before, v) && e in v.history {
        AnswerOf(register, events, k - 1, v);
        var a: nat :| a < k - 1 && At(register, events, a).device == v;
        ForeignWasMade(register, events, a, e);
      } else {
        assert e == Made(register, events, k - 1);
      }
    }
  }
}
