/**
 The results of confirmed commands. The device notifies a result that does not say which
 command it belongs to; the connection takes the first one that arrives while a command
 waits. The result of a command that timed out can so complete a later one.
 */
module CommandResults {
  import opened Prelude

  /** The result of command number `command`; only its status is on the wire. */
  datatype Result = Result(command: nat, status: byte)

  /**
   `begun` counts the commands. The command that waits has subscribed to the results; `sent`
   tells that the device has it, `got` is what it takes. `todo` are the commands the device
   has not answered, `results` its answers under way.
   */
  datatype State = State(
    begun: nat,
    waiting: Option<nat>,
    sent: bool,
    got: Option<Result>,
    todo: seq<nat>,
    results: seq<Result>,
    taken: map<nat, Result>,
    timedOut: bool)

  datatype Event =
    | Begin
    | Send
    | Answer(status: byte)
    | NoAnswer
    | Notify
    | Finish
    | Timeout

  const START := State(0, None, false, None, [], [], map[], false)

  function Step(s: State, event: Event): State {
    match event
    case Begin =>
      if s.waiting.Some? then s
      else s.(begun := s.begun + 1, waiting := Some(s.begun), sent := false, got := None)
    case Send =>
      if s.waiting.None? || s.sent then s else s.(sent := true, todo := s.todo + [s.waiting.value])
    case Answer(status) =>
      if s.todo == [] then s
      else s.(todo := s.todo[1..], results := s.results + [Result(s.todo[0], status)])
    case NoAnswer =>
      if s.todo == [] then s else s.(todo := s.todo[1..])
    case Notify =>
      if s.results == [] then s
      else s.(results := s.results[1..],
              got := if s.waiting.Some? && s.got.None? then Some(s.results[0]) else s.got)
    case Finish =>
      if s.waiting.None? || !s.sent || s.got.None? then s
      else s.(waiting := None, taken := s.taken[s.waiting.value := s.got.value])
    case Timeout =>
      if s.waiting.None? then s else s.(waiting := None, timedOut := true)
  }

  function Run(s: State, events: seq<Event>): State {
    if events == [] then s else Step(Run(s, events[..|events| - 1]), events[|events| - 1])
  }

  // ----- what every run keeps

  /** Everything under way belongs to commands that `p` holds of. */
  ghost predicate AllOf(s: State, p: nat -> bool) {
    && (forall i :: 0 <= i < |s.todo| ==> p(s.todo[i]))
    && (forall i :: 0 <= i < |s.results| ==> p(s.results[i].command))
    && (s.waiting.Some? && s.got.Some? ==> p(s.got.value.command))
  }

  ghost predicate Inv(s: State) {
    && (s.waiting.Some? ==> s.waiting.value == s.begun - 1)
    && (forall c :: c in s.taken ==> c < s.begun && s.waiting != Some(c) && s.taken[c].command <= c)
    && AllOf(s, c => c < s.begun)
  }

  lemma {:induction false} RunKeeps(events: seq<Event>)
    ensures Inv(Run(START, events))
  {
    if events == [] {
    } else {
      RunKeeps(events[..|events| - 1]);
      KeepsStep(Run(START, events[..|events| - 1]), events[|events| - 1]);
    }
  }

  lemma KeepsStep(s: State, event: Event)
    requires Inv(s)
    ensures Inv(Step(s, event))
  {
  }

  /** While command `c` waits everything under way is its own, and so is what it takes. */
  ghost predicate IsOwn(s: State, c: nat) {
    && c < s.begun
    && (s.waiting.Some? ==> s.waiting.value == s.begun - 1)
    && (s.waiting == Some(c) ==> AllOf(s, d => d == c))
    && (c in s.taken ==> s.taken[c].command == c)
  }

  lemma {:induction false} OwnStays(s: State, c: nat, events: seq<Event>)
    requires IsOwn(s, c)
    ensures IsOwn(Run(s, events), c)
  {
    if events == [] {
    } else {
      OwnStays(s, c, events[..|events| - 1]);
      OwnStep(Run(s, events[..|events| - 1]), c, events[|events| - 1]);
    }
  }

  lemma OwnStep(s: State, c: nat, event: Event)
    requires IsOwn(s, c)
    ensures IsOwn(Step(s, event), c)
  {
  }

  // ----- whose result a command takes

  /** However the run goes on, the next command takes no result but its own. */
  ghost predicate NextTakesOwn(s: State) {
    forall after: seq<Event> ::
      s.begun in Run(Step(s, Begin), after).taken ==> Run(Step(s, Begin), after).taken[s.begun].command == s.begun
  }

  /** A wrong result arrives before the right one. */
  function WrongResult(s: State): seq<Event> {
    (if s.results == [] then [Send, Answer(0)] else [Send]) + [Notify, Finish]
  }

  lemma WrongResultIsTaken(s: State)
    requires Inv(s) && s.waiting.None? && (s.todo != [] || s.results != [])
    ensures var end := Run(Step(s, Begin), WrongResult(s));
            s.begun in end.taken && end.taken[s.begun].command < s.begun
  {
    var s1 := Step(Step(s, Begin), Send);
    var s2 := if s.results == [] then Step(s1, Answer(0)) else s1;
    var s4 := Step(Step(s2, Notify), Finish);
    assert s.begun in s4.taken && s4.taken[s.begun].command < s.begun;
    if s.results == [] {
      UnfoldFour(Step(s, Begin), Send, Answer(0), Notify, Finish);
      assert WrongResult(s) == [Send, Answer(0), Notify, Finish];
    } else {
      UnfoldThree(Step(s, Begin), Send, Notify, Finish);
      assert WrongResult(s) == [Send, Notify, Finish];
    }
  }

  lemma RunSnoc(s: State, events: seq<Event>, event: Event)
    ensures Run(s, events + [event]) == Step(Run(s, events), event)
  {
    assert (events + [event])[..|events|] == events;
  }

  lemma RunNone(s: State)
    ensures Run(s, []) == s
  {
  }

  lemma UnfoldThree(s: State, a: Event, b: Event, c: Event)
    ensures Run(s, [a, b, c]) == Step(Step(Step(s, a), b), c)
  {
    RunNone(s);
    hide Step, Run;
    RunSnoc(s, [], a);
    RunSnoc(s, [a], b);
    RunSnoc(s, [a, b], c);
    assert [] + [a] == [a] && [a] + [b] == [a, b] && [a, b] + [c] == [a, b, c];
  }

  lemma UnfoldFour(s: State, a: Event, b: Event, c: Event, d: Event)
    ensures Run(s, [a, b, c, d]) == Step(Step(Step(Step(s, a), b), c), d)
  {
    hide Step, Run;
    UnfoldThree(s, a, b, c);
    RunSnoc(s, [a, b, c], d);
    assert [a, b, c] + [d] == [a, b, c, d];
  }

  /**
   In every run: the next command is certain to take its own result if and only if the device
   has answered all earlier commands and none of their results is under way.
   */
  lemma OwnResultIff(events: seq<Event>)
    requires Run(START, events).waiting.None?
    ensures var s := Run(START, events);
            NextTakesOwn(s) <==> s.todo == [] && s.results == []
  {
    RunKeeps(events);
    var s := Run(START, events);
    if s.todo == [] && s.results == [] {
      forall after: seq<Event>
        ensures s.begun in Run(Step(s, Begin), after).taken ==>
            Run(Step(s, Begin), after).taken[s.begun].command == s.begun
      {
        OwnStays(Step(s, Begin), s.begun, after);
      }
    } else {
      WrongResultIsTaken(s);
    }
  }

  /** Every answer that is still to come belongs to the command that waits for it. */
  ghost predicate InStep(s: State) {
    && |s.todo| + |s.results| + (if s.waiting.Some? && s.got.Some? then 1 else 0)
       <= (if s.waiting.Some? && s.sent then 1 else 0)
    && (s.waiting.Some? ==> AllOf(s, c => c == s.waiting.value))
    && forall c :: c in s.taken ==> s.taken[c].command == c
  }

  lemma {:induction false} InStepUntilTimeout(events: seq<Event>)
    requires !Run(START, events).timedOut
    ensures InStep(Run(START, events))
  {
    if events == [] {
    } else {
      InStepUntilTimeout(events[..|events| - 1]);
      StaysInStep(Run(START, events[..|events| - 1]), events[|events| - 1]);
    }
  }

  lemma StaysInStep(s: State, event: Event)
    requires InStep(s) && !Step(s, event).timedOut
    ensures InStep(Step(s, event))
  {
  }

  /** Until the first timeout every command takes its own result. */
  lemma OwnUntilTimeout(events: seq<Event>, c: nat)
    requires !Run(START, events).timedOut && c in Run(START, events).taken
    ensures Run(START, events).taken[c].command == c
  {
    InStepUntilTimeout(events);
  }
}
