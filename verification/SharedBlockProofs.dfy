/**
 Every interleaving keeps every acknowledged change: the block of the UPS is always the
 initial block with the acknowledged changes applied in lock order, with changes of
 other clients, and possibly of setters that failed after their write was sent, between
 them.
 */
module SharedBlockProofs {
  import opened Prelude
  import opened SharedBlock

  // ----- what a run keeps

  ghost predicate Sorted(history: History) {
    forall i, j :: 0 <= i < j < |history| && history[i].Own? && history[j].Own? ==>
                     history[i].ticket < history[j].ticket
  }

  /** The entry is one that a setter of this run computed. */
  ghost predicate Genuine(s: State, e: Entry) {
    e.Own? ==> e.ticket < |s.issued| && s.issued[e.ticket] == e
  }

  ghost predicate Covers(history: History, entries: set<Entry>) {
    forall e :: e in entries ==> e in history
  }

  ghost predicate Before(history: History, ticket: nat) {
    forall e :: e in history && e.Own? ==> e.ticket < ticket
  }

  ghost predicate Derived(s: State, history: History) {
    Sorted(history) && forall e :: e in history ==> Genuine(s, e)
  }

  ghost predicate Accurate(register: Register, s: State, v: Version) {
    v.block == Eval(register.initial, v.history) && Derived(s, v.history)
  }

  ghost predicate Fresh(register: Register, s: State, v: Version) {
    Accurate(register, s, v) && Covers(v.history, s.acknowledged)
  }

  ghost predicate IsLast(s: State, e: Entry) {
    e.Own? && e.ticket == |s.issued| - 1
  }

  /** The task that computed `e` is still carrying it out, has done so, or failed on the way. */
  ghost predicate CarriesOut(task: Task, e: Entry) {
    ((task.Writing? || task.Refreshing? || task.Done?) && task.entry == e) || task.Failed?
  }

  ghost predicate IssuedOk(register: Register, s: State) {
    forall k :: 0 <= k < |s.issued| ==>
      && s.issued[k].Own? && s.issued[k].ticket == k
      && s.issued[k].task in s.tasks && CarriesOut(s.tasks[s.issued[k].task], s.issued[k])
  }

  ghost predicate AcknowledgedOk(s: State) {
    forall e :: e in s.acknowledged ==> e.Own? && Genuine(s, e)
  }

  ghost predicate TaskOk(register: Register, s: State, t: nat)
    requires t in s.tasks
  {
    var task := s.tasks[t];
    && (Holds(task) ==> s.lock == Some(t))
    && (task.Writing? ==> IsLast(s, task.entry) && Genuine(s, task.entry) && task.entry.task == t)
    && (task.Refreshing? ==> task.entry in s.acknowledged && task.entry.Own? && task.entry.task == t)
    && (task.Done? ==> task.entry in s.acknowledged && task.entry.Own? && task.entry.task == t)
    && (task.Querying? && task.woken && s.shown.Some? ==> Covers(s.shown.value.history, s.acknowledged))
  }

  ghost predicate TasksOk(register: Register, s: State) {
    forall t :: t in s.tasks ==> TaskOk(register, s, t)
  }

  ghost predicate WriteOk(register: Register, s: State, r: Request)
    requires r.Write?
  {
    && r.entry.Own? && Genuine(s, r.entry)
    && Before(s.device.history, r.entry.ticket)
    && (r.basis.None? ==> r.payload == r.entry.change)
    && (r.basis.Some? ==>
          && Accurate(register, s, r.basis.value) && Before(r.basis.value.history, r.entry.ticket)
          && Covers(r.basis.value.history, s.acknowledged)
          && r.payload == Full(Merge(r.entry.change, r.basis.value.block)))
  }

  ghost predicate RequestsOk(register: Register, s: State) {
    && (forall i :: 0 <= i < |s.requests| && s.requests[i].Write? ==> WriteOk(register, s, s.requests[i]))
    && (forall i, j :: 0 <= i < j < |s.requests| && s.requests[i].Write? && s.requests[j].Write? ==>
          s.requests[i].entry.Own? && s.requests[j].entry.Own? &&
              s.requests[i].entry.ticket < s.requests[j].entry.ticket)
  }

  ghost predicate Carries(a: Answer) {
    a.Notified? || a.Value?
  }

  ghost predicate AnswersOk(register: Register, s: State) {
    && (forall i :: 0 <= i < |s.answers| && Carries(s.answers[i]) ==> Fresh(register, s, s.answers[i].version))
    && (forall i :: 0 <= i < |s.answers| && s.answers[i].Written? ==> Genuine(s, s.answers[i].entry))
    && (forall i :: 0 <= i < |s.answers| && s.answers[i].Written? && IsLast(s, s.answers[i].entry) ==>
          && s.answers[i].entry in s.device.history
          && forall j :: i < j < |s.answers| && Carries(s.answers[j]) ==>
              s.answers[i].entry in s.answers[j].version.history)
  }

  ghost predicate Inv(register: Register, s: State) {
    && IssuedOk(register, s)
    && AcknowledgedOk(s)
    && Fresh(register, s, s.device)
    && (s.shown.Some? ==> Accurate(register, s, s.shown.value))
    && TasksOk(register, s)
    && RequestsOk(register, s)
    && AnswersOk(register, s)
  }

  // ----- every event keeps it

  lemma MergeFull(block: Block, other: Block)
    requires |block| == |other|
    ensures Merge(Full(block), other) == block
  {
  }

  lemma EvalSnoc(initial: Block, history: History, e: Entry)
    ensures Eval(initial, history + [e]) == Merge(e.change, Eval(initial, history))
  {
    assert (history + [e])[..|history|] == history;
  }

  /** A setter that holds the lock takes the next ticket. */
  lemma KeepsTicket(register: Register, s: State, task: nat, kind: Kind, change: Change)
    requires Inv(register, s)
    requires task in s.tasks && s.lock == Some(task)
    requires s.tasks[task].Waiting? || s.tasks[task].Reading? || s.tasks[task].Querying?
    ensures var entry := Own(|s.issued|, task, change);
            Inv(register, s.(issued := s.issued + [entry], tasks := s.tasks[task := Writing(kind, entry)]))
  {
  }

  lemma KeepsSend(register: Register, s: State, write: Request)
    requires Inv(register, s)
    requires write.Write? && WriteOk(register, s, write)
    requires forall i :: 0 <= i < |s.requests| && s.requests[i].Write? ==>
               s.requests[i].entry.Own? && s.requests[i].entry.ticket < write.entry.ticket
    ensures Inv(register, s.(requests := s.requests + [write]))
  {
  }

  lemma KeepsIssue(register: Register, s: State, task: nat, kind: Kind, change: Change, basis: Option<Version>)
    requires Inv(register, s)
    requires task in s.tasks && s.lock == Some(task)
    requires s.tasks[task].Waiting? || s.tasks[task].Reading? || s.tasks[task].Querying?
    requires basis.Some? ==> Fresh(register, s, basis.value)
    ensures Inv(register, Issue(s, task, kind, change, basis))
  {
    KeepsTicket(register, s, task, kind, change);
    var entry := Own(|s.issued|, task, change);
    var ticketed := s.(issued := s.issued + [entry], tasks := s.tasks[task := Writing(kind, entry)]);
    var write := match basis
      case None => Write(change, entry, None)
      case Some(v) => Write(Full(Merge(change, v.block)), entry, Some(v));
    assert WriteOk(register, ticketed, write);
    KeepsSend(register, ticketed, write);
  }

  lemma KeepsEnd(register: Register, s: State, task: nat, outcome: Task)
    requires Inv(register, s)
    requires task in s.tasks && Live(s.tasks[task])
    requires outcome.Failed? || outcome == Observed
             || (outcome.Unavailable? && !s.tasks[task].Writing? && !s.tasks[task].Refreshing?)
             || (s.tasks[task].Refreshing? && outcome == Done(s.tasks[task].entry))
    requires outcome == Observed ==> s.tasks[task].Observing?
    ensures Inv(register, End(s, task, outcome))
  {
  }

  lemma KeepsContinue(register: Register, s: State, task: nat, kind: Kind, change: Change)
    requires Inv(register, s)
    requires task in s.tasks && s.lock == Some(task)
    requires s.tasks[task].Reading? || s.tasks[task].Querying?
    requires s.shown.Some? ==> Fresh(register, s, s.shown.value)
    ensures Inv(register, Continue(register, s, task, kind, change))
  {
    if s.shown.Some? {
      KeepsIssue(register, s, task, kind, change, s.shown);
    } else if IsFull(change, |register.initial|) {
      KeepsIssue(register, s, task, kind, change, None);
    } else {
      KeepsEnd(register, s, task, Unavailable);
    }
  }

  /** A request that writes nothing joins the queue. */
  lemma KeepsAsk(register: Register, s: State, request: Request)
    requires Inv(register, s)
    requires !request.Write?
    ensures Inv(register, s.(requests := s.requests + [request]))
  {
    var s' := s.(requests := s.requests + [request]);
    assert RequestsOk(register, s') by {
      forall i | 0 <= i < |s'.requests| && s'.requests[i].Write?
        ensures WriteOk(register, s', s'.requests[i])
      {
        assert WriteOk(register, s, s.requests[i]);
      }
    }
  }

  lemma KeepsTakeRequest(register: Register, s: State)
    requires Inv(register, s)
    requires s.requests != []
    ensures Inv(register, s.(requests := s.requests[1..]))
  {
    var s' := s.(requests := s.requests[1..]);
    assert RequestsOk(register, s') by {
      forall i | 0 <= i < |s'.requests| && s'.requests[i].Write?
        ensures WriteOk(register, s', s'.requests[i])
      {
        assert WriteOk(register, s, s.requests[i + 1]);
      }
    }
  }

  lemma KeepsTakeAnswer(register: Register, s: State)
    requires Inv(register, s)
    requires s.answers != []
    ensures Inv(register, s.(answers := s.answers[1..]))
  {
  }

  /** The UPS answers with its present block, or without one. */
  lemma KeepsAnswer(register: Register, s: State, answer: Answer)
    requires Inv(register, s)
    requires answer.Acked? || (Carries(answer) && answer.version == s.device)
    ensures Inv(register, s.(answers := s.answers + [answer]))
  {
  }

  /** The setter took the lock; `task` is what it does next. */
  lemma KeepsLocking(register: Register, s: State, t: nat, task: Task)
    requires Inv(register, s)
    requires s.lock.None? && t in s.tasks && s.tasks[t].Waiting?
    requires task == s.tasks[t] || task.Reading? || (task.Querying? && !task.woken)
    ensures Inv(register, s.(lock := Some(t), tasks := s.tasks[t := task]))
  {
  }

  lemma KeepsAcquire(register: Register, s: State, task: nat)
    requires Inv(register, s)
    ensures Inv(register, AcquireLock(register, s, task))
  {
    hide Inv;
    if s.lock.None? && task in s.tasks && s.tasks[task].Waiting? {
      var Waiting(kind, change) := s.tasks[task];
      match kind
      case Blind =>
        KeepsLocking(register, s, task, s.tasks[task]);
        assert s.tasks[task := s.tasks[task]] == s.tasks;
        KeepsIssue(register, s.(lock := Some(task)), task, kind, change, None);
      case Direct =>
        var next := Reading(change);
        KeepsLocking(register, s, task, next);
        KeepsAsk(register, s.(lock := Some(task), tasks := s.tasks[task := next]), Read(task));
      case Queried =>
        var next := Querying(change, false, false);
        KeepsLocking(register, s, task, next);
        KeepsAsk(register, s.(lock := Some(task), tasks := s.tasks[task := next]), Get(task));
    }
  }

  /** The block and history the UPS has after it carried out a write. */
  function Applied(s: State, write: Request): Version
    requires write.Write?
  {
    Version(Merge(write.payload, s.device.block),
            (if write.basis.Some? then write.basis.value.history else s.device.history) + [write.entry],
            s.device.revision + 1)
  }

  lemma AppliedIsFresh(register: Register, s: State, write: Request)
    requires Fresh(register, s, s.device)
    requires write.Write? && WriteOk(register, s, write)
    ensures Fresh(register, s, Applied(s, write))
    ensures forall e :: e in Applied(s, write).history && e.Own? ==> e.ticket <= write.entry.ticket
  {
    var before := if write.basis.Some? then write.basis.value.history else s.device.history;
    EvalSnoc(register.initial, before, write.entry);
    if write.basis.Some? {
      MergeFull(Merge(write.entry.change, write.basis.value.block), s.device.block);
    }
  }

  /** No write is waiting once the last one computed was carried out. */
  lemma LastWriteIsAlone(register: Register, s: State, e: Entry)
    requires RequestsOk(register, s)
    requires IsLast(s, e) && e in s.device.history
    ensures forall i :: 0 <= i < |s.requests| ==> !s.requests[i].Write?
  {
    forall i | 0 <= i < |s.requests|
      ensures !s.requests[i].Write?
    {
      assert s.requests[i].Write? ==> WriteOk(register, s, s.requests[i]);
    }
  }

  lemma KeepsReplaceBlock(register: Register, s: State, write: Request)
    requires Inv(register, s)
    requires write.Write? && WriteOk(register, s, write)
    requires forall i :: 0 <= i < |s.requests| && s.requests[i].Write? ==>
               s.requests[i].entry.Own? && write.entry.ticket < s.requests[i].entry.ticket
    requires forall i :: 0 <= i < |s.answers| && s.answers[i].Written? ==> !IsLast(s, s.answers[i].entry)
    ensures Inv(register, s.(device := Applied(s, write)))
  {
    AppliedIsFresh(register, s, write);
    var s' := s.(device := Applied(s, write));
    forall i | 0 <= i < |s'.requests| && s'.requests[i].Write?
      ensures WriteOk(register, s', s'.requests[i])
    {
      assert WriteOk(register, s, s.requests[i]);
    }
  }

  lemma KeepsReport(register: Register, s: State, entry: Entry)
    requires Inv(register, s)
    requires entry in s.device.history
    ensures Inv(register, s.(answers := s.answers + [Written(entry)]))
  {
  }

  lemma LastWriteIsUnanswered(register: Register, s: State)
    requires Inv(register, s)
    requires s.requests != [] && s.requests[0].Write?
    ensures forall i :: 0 <= i < |s.answers| && s.answers[i].Written? ==> !IsLast(s, s.answers[i].entry)
  {
    assert WriteOk(register, s, s.requests[0]);
  }

  /** The first write of the queue may be carried out: what it needs holds without it too. */
  lemma FirstWriteIsDue(register: Register, s: State)
    requires Inv(register, s)
    requires s.requests != [] && s.requests[0].Write?
    ensures var rest := s.(requests := s.requests[1..]);
            && WriteOk(register, rest, s.requests[0])
            && forall i :: 0 <= i < |rest.requests| && rest.requests[i].Write? ==>
                 rest.requests[i].entry.Own? && s.requests[0].entry.ticket < rest.requests[i].entry.ticket
  {
    assert WriteOk(register, s, s.requests[0]);
  }

  lemma KeepsWrite(register: Register, s: State, write: Request)
    requires Inv(register, s)
    requires write.Write? && WriteOk(register, s, write)
    requires forall i :: 0 <= i < |s.requests| && s.requests[i].Write? ==>
               s.requests[i].entry.Own? && write.entry.ticket < s.requests[i].entry.ticket
    requires forall i :: 0 <= i < |s.answers| && s.answers[i].Written? ==> !IsLast(s, s.answers[i].entry)
    ensures Inv(register, s.(device := Applied(s, write), answers := s.answers + [Written(write.entry)]))
  {
    var s' := s.(device := Applied(s, write));
    assert Inv(register, s') by { KeepsReplaceBlock(register, s, write); }
    assert s'.device.history[|s'.device.history| - 1] == write.entry;
    KeepsReport(register, s', write.entry);
  }

  lemma KeepsProcess(register: Register, s: State, reply: Reply)
    requires Inv(register, s)
    ensures Inv(register, ProcessRequest(s, reply))
  {
    hide Inv;
    if s.requests != [] {
      var rest := s.(requests := s.requests[1..]);
      KeepsTakeRequest(register, s);
      match s.requests[0]
      case Read(task) => KeepsAnswer(register, rest, Value(task, s.device));
      case Write(_, _, _) =>
        FirstWriteIsDue(register, s);
        LastWriteIsUnanswered(register, s);
        KeepsWrite(register, rest, s.requests[0]);
      case Get(task) =>
        var notified, acked := Notified(s.device), Acked(task);
        match reply
        case NotifyThenAck =>
          KeepsAnswer(register, rest, notified);
          KeepsAnswer(register, rest.(answers := s.answers + [notified]), acked);
          assert s.answers + [notified] + [acked] == s.answers + [notified, acked];
        case AckThenNotify =>
          KeepsAnswer(register, rest, acked);
          KeepsAnswer(register, rest.(answers := s.answers + [acked]), notified);
          assert s.answers + [acked] + [notified] == s.answers + [acked, notified];
        case AckOnly => KeepsAnswer(register, rest, acked);
    }
  }

  lemma KeepsValue(register: Register, s: State, task: nat, version: Version)
    requires Inv(register, s)
    requires Fresh(register, s, version)
    ensures Inv(register, DeliverAnswer(register, s.(answers := [Value(task, version)] + s.answers)))
  {
    assert ([Value(task, version)] + s.answers)[1..] == s.answers;
    var seen := s.(shown := if Known(register, version.block) then Some(version) else None);
    assert Inv(register, seen);
    if task in s.tasks {
      match s.tasks[task]
      case Reading(change) => KeepsContinue(register, seen, task, Direct, change);
      case Refreshing(entry) => KeepsEnd(register, seen, task, Done(entry));
      case Observing => KeepsEnd(register, seen, task, Observed);
      case _ =>
    }
  }

  lemma KeepsAcked(register: Register, s: State, task: nat)
    requires Inv(register, s)
    ensures Inv(register, DeliverAnswer(register, s.(answers := [Acked(task)] + s.answers)))
  {
    assert ([Acked(task)] + s.answers)[1..] == s.answers;
    if task in s.tasks {
      match s.tasks[task]
      case Querying(change, _, woken) =>
        assert Inv(register, s.(tasks := s.tasks[task := Querying(change, true, woken)]));
      case Refreshing(entry) => KeepsEnd(register, s, task, Done(entry));
      case Observing => KeepsEnd(register, s, task, Observed);
      case _ =>
    }
  }

  lemma KeepsAcknowledge(register: Register, s: State, entry: Entry)
    requires Inv(register, s)
    requires entry.Own? && entry.task in s.tasks && s.tasks[entry.task].Writing? && s.tasks[entry.task].entry == entry
    requires entry in s.device.history
    requires forall j :: 0 <= j < |s.answers| && Carries(s.answers[j]) ==> entry in s.answers[j].version.history
    ensures Inv(register, s.(acknowledged := s.acknowledged + {entry},
        tasks := s.tasks[entry.task := Refreshing(entry)]))
  {
    assert TaskOk(register, s, entry.task);
    LastWriteIsAlone(register, s, entry);
  }

  lemma KeepsNotified(register: Register, s: State, version: Version)
    requires Inv(register, s)
    requires Fresh(register, s, version)
    ensures Inv(register, s.(shown := Some(version), tasks := WakeAll(s.tasks)))
  {
  }

  lemma KeepsWritten(register: Register, s: State, entry: Entry)
    requires Inv(register, s)
    requires s.answers != [] && s.answers[0] == Written(entry)
    ensures Inv(register, DeliverAnswer(register, s))
  {
    var rest := s.(answers := s.answers[1..]);
    KeepsTakeAnswer(register, s);
    if entry.Own? && entry.task in s.tasks && s.tasks[entry.task].Writing? && s.tasks[entry.task].entry == entry {
      WrittenIsRecorded(register, s, entry);
      hide Inv;
      KeepsAcknowledge(register, rest, entry);
      var acked := rest.(acknowledged := s.acknowledged + {entry}, tasks := s.tasks[entry.task := Refreshing(entry)]);
      KeepsAsk(register, acked, if s.tasks[entry.task].kind == Direct then Read(entry.task) else Get(entry.task));
    }
  }

  /** The block and all answers after the confirmation of the last write contain its change. */
  lemma WrittenIsRecorded(register: Register, s: State, entry: Entry)
    requires Inv(register, s)
    requires s.answers != [] && s.answers[0] == Written(entry)
    requires entry.Own? && entry.task in s.tasks && s.tasks[entry.task].Writing? && s.tasks[entry.task].entry == entry
    ensures entry in s.device.history
    ensures forall j :: 0 < j < |s.answers| && Carries(s.answers[j]) ==> entry in s.answers[j].version.history
  {
    assert TaskOk(register, s, entry.task);
  }

  lemma HeadIsFresh(register: Register, s: State)
    requires Inv(register, s)
    requires s.answers != [] && Carries(s.answers[0])
    ensures Fresh(register, s, s.answers[0].version)
  {
  }

  lemma KeepsDeliver(register: Register, s: State)
    requires Inv(register, s)
    ensures Inv(register, DeliverAnswer(register, s))
  {
    hide Inv;
    if s.answers != [] {
      var rest := s.(answers := s.answers[1..]);
      KeepsTakeAnswer(register, s);
      assert [s.answers[0]] + rest.answers == s.answers;
      match s.answers[0]
      case Notified(version) =>
        HeadIsFresh(register, s);
        KeepsNotified(register, rest, version);
      case Value(task, version) =>
        HeadIsFresh(register, s);
        KeepsValue(register, rest, task, version);
      case Acked(task) => KeepsAcked(register, rest, task);
      case Written(entry) => KeepsWritten(register, s, entry);
    }
  }

  lemma KeepsForeign(register: Register, s: State, change: Change)
    requires Inv(register, s)
    ensures Inv(register, Step(register, s, ForeignWrite(change)))
  {
    hide Fresh, RequestsOk, AnswersOk;
    ForeignKeepsDevice(register, s, change);
    ForeignKeepsRequests(register, s, change);
    ForeignKeepsAnswers(register, s, change);
  }

  lemma ForeignKeepsDevice(register: Register, s: State, change: Change)
    requires Fresh(register, s, s.device)
    ensures var s' := Step(register, s, ForeignWrite(change)); Fresh(register, s', s'.device)
  {
    hide Eval, Merge;
    var entry := Foreign(s.device.revision + 1, change);
    EvalSnoc(register.initial, s.device.history, entry);
    ForeignKeepsOrder(s.device.history, entry);
    assert s.device.block == Eval(register.initial, s.device.history);
    assert forall e :: e in s.device.history + [entry] <==> e in s.device.history || e == entry;
  }

  lemma ForeignKeepsOrder(history: History, entry: Entry)
    requires Sorted(history) && entry.Foreign?
    ensures Sorted(history + [entry])
  {
  }

  lemma ForeignKeepsAnswers(register: Register, s: State, change: Change)
    requires AnswersOk(register, s)
    ensures AnswersOk(register, Step(register, s, ForeignWrite(change)))
  {
  }

  lemma ForeignKeepsRequests(register: Register, s: State, change: Change)
    requires RequestsOk(register, s)
    ensures RequestsOk(register, Step(register, s, ForeignWrite(change)))
  {
    var s' := Step(register, s, ForeignWrite(change));
    forall i | 0 <= i < |s'.requests| && s'.requests[i].Write?
      ensures WriteOk(register, s', s'.requests[i])
    {
      assert WriteOk(register, s, s.requests[i]);
    }
  }

  lemma KeepsLoseRequest(register: Register, s: State, index: nat)
    requires Inv(register, s)
    requires index < |s.requests|
    ensures Inv(register, s.(requests := s.requests[..index] + s.requests[index + 1..]))
  {
    var s' := s.(requests := s.requests[..index] + s.requests[index + 1..]);
    forall i | 0 <= i < |s'.requests| && s'.requests[i].Write?
      ensures WriteOk(register, s', s'.requests[i])
    {
      assert WriteOk(register, s, s.requests[if i < index then i else i + 1]);
    }
  }

  lemma KeepsLoseAnswer(register: Register, s: State, index: nat)
    requires Inv(register, s)
    requires index < |s.answers|
    ensures Inv(register, s.(answers := s.answers[..index] + s.answers[index + 1..]))
  {
    var s' := s.(answers := s.answers[..index] + s.answers[index + 1..]);
    forall i, j | && 0 <= i < j < |s'.answers| && s'.answers[i].Written?
                  && IsLast(s', s'.answers[i].entry) && Carries(s'.answers[j])
      ensures s'.answers[i].entry in s'.answers[j].version.history
    {
      var i', j' := if i < index then i else i + 1, if j < index then j else j + 1;
      assert s.answers[i'] == s'.answers[i] && s.answers[j'] == s'.answers[j];
    }
  }

  lemma KeepsStartSetter(register: Register, s: State, task: nat, kind: Kind, change: Change)
    requires Inv(register, s)
    ensures Inv(register, Step(register, s, StartSetter(task, kind, change)))
  {
  }

  lemma KeepsObserving(register: Register, s: State, task: nat)
    requires Inv(register, s)
    requires task !in s.tasks
    ensures Inv(register, s.(tasks := s.tasks[task := Observing]))
  {
  }

  lemma KeepsResume(register: Register, s: State, task: nat)
    requires Inv(register, s)
    requires task in s.tasks && s.tasks[task].Querying? && s.tasks[task].asked && s.tasks[task].woken
    ensures Inv(register, Continue(register, s, task, Queried, s.tasks[task].change))
  {
    assert TaskOk(register, s, task);
    KeepsContinue(register, s, task, Queried, s.tasks[task].change);
  }

  lemma KeepsStep(register: Register, s: State, event: Event)
    requires Inv(register, s)
    ensures Inv(register, Step(register, s, event))
  {
    hide Inv;
    match event
    case StartSetter(task, kind, change) => KeepsStartSetter(register, s, task, kind, change);
    case StartObserver(task, request) =>
      if task !in s.tasks && (request == Get(task) || request == Read(task)) {
        KeepsObserving(register, s, task);
        KeepsAsk(register, s.(tasks := s.tasks[task := Observing]), request);
      }
    case Acquire(task) => KeepsAcquire(register, s, task);
    case Process(reply) => KeepsProcess(register, s, reply);
    case Deliver => KeepsDeliver(register, s);
    case Resume(task) =>
      if task in s.tasks && s.tasks[task].Querying? && s.tasks[task].asked && s.tasks[task].woken {
        KeepsResume(register, s, task);
      }
    case Abandon(task) =>
      if task in s.tasks && Live(s.tasks[task]) {
        KeepsEnd(register, s, task, Failed);
      }
    case ForeignWrite(change) => KeepsForeign(register, s, change);
    case LoseRequest(index) =>
      if index < |s.requests| { KeepsLoseRequest(register, s, index); }
    case LoseAnswer(index) =>
      if index < |s.answers| { KeepsLoseAnswer(register, s, index); }
  }

  lemma {:induction false} RunKeeps(register: Register, events: seq<Event>)
    ensures Inv(register, Run(register, events))
  {
    if events == [] {
    } else {
      RunKeeps(register, events[..|events| - 1]);
      KeepsStep(register, Run(register, events[..|events| - 1]), events[|events| - 1]);
    }
  }
}
