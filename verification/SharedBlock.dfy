/**
 The read-modify-write protocol of the settings that the UPS stores as one block:
 standby values, Wake-on-LAN trigger, and screen timeout with idle backlight.

 Any number of setters and unlocked readers run as asyncio tasks. One event is one
 stretch of execution between two suspension points, of a task, of the UPS or of the
 link, so a run is a sequence of events and every interleaving is a run. An event that
 is not possible in a state leaves it unchanged.

 The link delivers requests in order and answers in order, but it may lose any of them,
 and a task may be cancelled or time out at any await while its request is still under
 way. Other clients may write the block at any time.

 Every block that travels carries the list of changes it was made of. The lists are
 history for the proofs: no event looks into them.
 */
module SharedBlock {
  import opened Prelude

  type Block = seq<int>

  /** New values of some components of a block; `None` keeps the component. */
  type Change = seq<Option<int>>

  predicate Sets(change: Change, c: nat) {
    c < |change| && change[c].Some?
  }

  function Merge(change: Change, block: Block): (r: Block)
    ensures |r| == |block|
    ensures forall c :: 0 <= c < |block| ==> r[c] == if Sets(change, c) then change[c].value else block[c]
  {
    seq(|block|, c requires 0 <= c < |block| => if Sets(change, c) then change[c].value else block[c])
  }

  /** The change that writes every component. */
  function Full(block: Block): Change {
    seq(|block|, c requires 0 <= c < |block| => Some(block[c]))
  }

  predicate IsFull(change: Change, size: nat) {
    |change| >= size && forall c :: 0 <= c < size ==> change[c].Some?
  }

  /**
   A change of the block: by setter task `task`, the `ticket`-th to compute one, or by another
   client, which led to this revision of the block.
   */
  datatype Entry = Own(ticket: nat, task: nat, change: Change) | Foreign(revision: nat, change: Change)

  type History = seq<Entry>

  /** The block after the changes of `history` were made to `initial` one after the other. */
  function Eval(initial: Block, history: History): (r: Block)
    ensures |r| == |initial|
  {
    if history == [] then initial
    else Merge(history[|history| - 1].change, Eval(initial, history[..|history| - 1]))
  }

  /** `revision` counts how often the UPS changed its block. */
  datatype Version = Version(block: Block, history: History, revision: nat)

  /** The register: its block when the run starts, and the smallest value that counts as known. */
  datatype Register = Register(initial: Block, minima: seq<int>)

  predicate Known(register: Register, block: Block) {
    forall c :: 0 <= c < |block| && c < |register.minima| ==> block[c] >= register.minima[c]
  }

  datatype Request =
    | Get(task: nat)   // configuration request, answered with a notification
    | Read(task: nat)  // read of the characteristic, answered to the task itself
    | Write(payload: Change, entry: Entry, basis: Option<Version>)

  datatype Answer =
    | Acked(task: nat)                     // write response to a `Get`
    | Notified(version: Version)           // notification that answers a `Get`
    | Value(task: nat, version: Version)   // read response
    | Written(entry: Entry)                // write response to a `Write`

  /** How a setter learns the components it keeps. */
  datatype Kind =
    | Blind    // it does not: the payload leaves them out, `_write_screen_timeout`
    | Direct   // it reads the characteristic, `_write_standby`
    | Queried  // it waits for a notification, `_write_wake_on_lan_trigger`, `_write_idle_backlight`

  datatype Task =
    | Waiting(kind: Kind, change: Change)
    | Reading(change: Change)
    | Querying(change: Change, asked: bool, woken: bool)
    | Writing(kind: Kind, entry: Entry)
    | Refreshing(entry: Entry)
    | Done(entry: Entry)
    | Unavailable
    | Failed
    | Observing
    | Observed

  predicate Live(task: Task) {
    task.Waiting? || Holds(task) || task.Observing?
  }

  /** The task is inside `async with lock`. */
  predicate Holds(task: Task) {
    task.Reading? || task.Querying? || task.Writing? || task.Refreshing?
  }

  datatype State = State(
    device: Version,
    requests: seq<Request>,
    answers: seq<Answer>,
    shown: Option<Version>,
    lock: Option<nat>,
    tasks: map<nat, Task>,
    issued: seq<Entry>,
    acknowledged: set<Entry>)

  /** What the UPS sends for a `Get`, in which order. */
  datatype Reply = NotifyThenAck | AckThenNotify | AckOnly

  datatype Event =
    | StartSetter(task: nat, kind: Kind, change: Change)
    | StartObserver(task: nat, request: Request)
    | Acquire(task: nat)
    | Process(reply: Reply)
    | Deliver
    | Resume(task: nat)
    | Abandon(task: nat)
    | ForeignWrite(change: Change)
    | LoseRequest(index: nat)
    | LoseAnswer(index: nat)

  function Start(register: Register): State {
    State(Version(register.initial, [], 0), [], [], None, None, map[], [], {})
  }

  /** The setter computes its block, takes the next ticket and sends the write. */
  function Issue(s: State, task: nat, kind: Kind, change: Change, basis: Option<Version>): State {
    var entry := Own(|s.issued|, task, change);
    var write := match basis
      case None => Write(change, entry, None)
      case Some(v) => Write(Full(Merge(change, v.block)), entry, Some(v));
    s.(requests := s.requests + [write],
       issued := s.issued + [entry],
       tasks := s.tasks[task := Writing(kind, entry)])
  }

  /** The task ends and leaves the lock if it holds it. */
  function End(s: State, task: nat, outcome: Task): State {
    s.(tasks := s.tasks[task := outcome],
       lock := if s.lock == Some(task) then None else s.lock)
  }

  /** The setter continues with the values shown now: it fills in the components it keeps. */
  function Continue(register: Register, s: State, task: nat, kind: Kind, change: Change): State {
    if s.shown.Some? then Issue(s, task, kind, change, s.shown)
    else if IsFull(change, |register.initial|) then Issue(s, task, kind, change, None)
    else End(s, task, Unavailable)
  }

  function AcquireLock(register: Register, s: State, task: nat): State {
    if s.lock.Some? || task !in s.tasks || !s.tasks[task].Waiting? then s else
    var Waiting(kind, change) := s.tasks[task];
    var locked := s.(lock := Some(task));
    match kind
    case Blind => Issue(locked, task, kind, change, None)
    case Direct => locked.(requests := s.requests + [Read(task)], tasks := s.tasks[task := Reading(change)])
    case Queried => locked.(requests := s.requests + [Get(task)],
        tasks := s.tasks[task := Querying(change, false, false)])
  }

  /** The UPS takes the next request. */
  function ProcessRequest(s: State, reply: Reply): State {
    if s.requests == [] then s else
    var rest := s.(requests := s.requests[1..]);
    match s.requests[0]
    case Read(task) => rest.(answers := s.answers + [Value(task, s.device)])
    case Get(task) =>
      rest.(answers := s.answers + match reply
        case NotifyThenAck => [Notified(s.device), Acked(task)]
        case AckThenNotify => [Acked(task), Notified(s.device)]
        case AckOnly => [Acked(task)])
    case Write(payload, entry, basis) =>
      var before := if basis.Some? then basis.value.history else s.device.history;
      rest.(device := Version(Merge(payload, s.device.block), before + [entry], s.device.revision + 1),
            answers := s.answers + [Written(entry)])
  }

  function WakeAll(tasks: map<nat, Task>): map<nat, Task> {
    map t | t in tasks :: if tasks[t].Querying? then tasks[t].(woken := true) else tasks[t]
  }

  /** The next answer reaches the host. */
  function DeliverAnswer(register: Register, s: State): State {
    if s.answers == [] then s else
    var rest := s.(answers := s.answers[1..]);
    match s.answers[0]
    case Notified(version) =>
      rest.(shown := Some(version), tasks := WakeAll(s.tasks))
    case Value(task, version) =>
      var seen := rest.(shown := if Known(register, version.block) then Some(version) else None);
      if task !in s.tasks then rest
      else (match s.tasks[task]
        case Reading(change) => Continue(register, seen, task, Direct, change)
        case Refreshing(entry) => End(seen, task, Done(entry))
        case Observing => End(seen, task, Observed)
        case _ => rest)  // the task that asked is gone
    case Acked(task) =>
      if task !in s.tasks then rest
      else (match s.tasks[task]
        case Querying(change, _, woken) => rest.(tasks := s.tasks[task := Querying(change, true, woken)])
        case Refreshing(entry) => End(rest, task, Done(entry))
        case Observing => End(rest, task, Observed)
        case _ => rest)
    case Written(entry) =>
      if entry.Own? && entry.task in s.tasks && s.tasks[entry.task].Writing? && s.tasks[entry.task].entry == entry then
        var again := if s.tasks[entry.task].kind == Direct then Read(entry.task) else Get(entry.task);
        rest.(acknowledged := s.acknowledged + {entry},
              tasks := s.tasks[entry.task := Refreshing(entry)],
              requests := s.requests + [again])
      else rest
  }

  function Step(register: Register, s: State, event: Event): State {
    match event
    case StartSetter(task, kind, change) =>
      if task in s.tasks || |change| != |register.initial| then s
      else s.(tasks := s.tasks[task := Waiting(kind, change)])
    case StartObserver(task, request) =>
      if task in s.tasks || (request != Get(task) && request != Read(task)) then s
      else s.(tasks := s.tasks[task := Observing], requests := s.requests + [request])
    case Acquire(task) => AcquireLock(register, s, task)
    case Process(reply) => ProcessRequest(s, reply)
    case Deliver => DeliverAnswer(register, s)
    case Resume(task) =>
      if task in s.tasks && s.tasks[task].Querying? && s.tasks[task].asked && s.tasks[task].woken
      then Continue(register, s, task, Queried, s.tasks[task].change)
      else s
    case Abandon(task) =>
      if task in s.tasks && Live(s.tasks[task]) then End(s, task, Failed) else s
    case ForeignWrite(change) =>
      var revision := s.device.revision + 1;
      s.(device := Version(Merge(change, s.device.block), s.device.history + [Foreign(revision, change)], revision))
    case LoseRequest(index) =>
      if index >= |s.requests| then s
      else s.(requests := s.requests[..index] + s.requests[index + 1..])
    case LoseAnswer(index) =>
      if index >= |s.answers| then s
      else s.(answers := s.answers[..index] + s.answers[index + 1..])
  }

  function Run(register: Register, events: seq<Event>): State {
    if events == [] then Start(register)
    else Step(register, Run(register, events[..|events| - 1]), events[|events| - 1])
  }
}
