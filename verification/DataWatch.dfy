/**
 The watchdog for overdue telemetry, with an ideal timer: the watch task checks exactly
 when its sleep ends, and frames arrive at any time in between.
 */
module DataWatch {
  /** `DATA_TIMEOUT` of the UPS in seconds. */
  const DATA_TIMEOUT: real := 60.0

  datatype Watch = Watch(lastData: real, current: bool)

  /** `_check_data`: the state after it and the time to wait. */
  function Check(w: Watch, now: real): (Watch, real) {
    var overdue := now - w.lastData - DATA_TIMEOUT;
    if overdue < 0.0 then (w, -overdue) else (w.(current := false), DATA_TIMEOUT)
  }

  /** A frame was processed. */
  function Receive(w: Watch, now: real): Watch {
    Watch(now, true)
  }

  /** The watch task of a session: its next check, and how often the data fields were published. */
  datatype Session = Session(watch: Watch, clock: real, nextCheck: real, published: nat)

  datatype Event = Frame(at: real) | Tick

  /** AUTHENTICATED: the task starts with a check; the data can be stale from the session before. */
  function Begin(now: real, current: bool): Session {
    Session(Watch(now, current), now, now, 0)
  }

  /** A frame is not processed while an earlier check is due, nor before an earlier event. */
  predicate Possible(s: Session, event: Event) {
    event.Frame? ==> s.clock <= event.at <= s.nextCheck
  }

  function Moved(s: Session, watch: Watch, clock: real, nextCheck: real): Session {
    Session(watch, clock, nextCheck, s.published + if watch.current != s.watch.current then 1 else 0)
  }

  function Step(s: Session, event: Event): Session {
    if !Possible(s, event) then s
    else match event
      case Frame(at) => Moved(s, Receive(s.watch, at), at, s.nextCheck)
      case Tick =>
        var (watch, wait) := Check(s.watch, s.nextCheck);
        Moved(s, watch, s.nextCheck, s.nextCheck + wait)
  }

  function Run(s: Session, events: seq<Event>): Session {
    if events == [] then s else Step(Run(s, events[..|events| - 1]), events[|events| - 1])
  }

  ghost predicate Inv(s: Session) {
    && s.watch.lastData <= s.clock <= s.nextCheck <= s.clock + DATA_TIMEOUT
    && (s.watch.current ==> s.nextCheck <= s.watch.lastData + DATA_TIMEOUT)
  }

  lemma {:induction false} RunKeeps(now: real, current: bool, events: seq<Event>)
    ensures Inv(Run(Begin(now, current), events))
  {
    if events == [] {
    } else {
      RunKeeps(now, current, events[..|events| - 1]);
    }
  }

  /** While the data counts as current, the last frame, or the start of the session, is at most 60 s ago. */
  lemma CurrentIsRecent(now: real, current: bool, events: seq<Event>)
    ensures var s := Run(Begin(now, current), events);
            s.watch.current ==> s.clock <= s.nextCheck <= s.watch.lastData + 60.0
  {
    RunKeeps(now, current, events);
  }

  /** While it counts as stale, no frame came in this session, or the last one is at least 60 s ago. */
  lemma {:induction false} StaleIsOverdue(now: real, current: bool, events: seq<Event>)
    ensures var s := Run(Begin(now, current), events);
            !s.watch.current ==> s.clock >= s.watch.lastData + 60.0 || (!current && s.watch.lastData == now)
  {
    RunKeeps(now, current, events);
    if events == [] {
    } else {
      StaleIsOverdue(now, current, events[..|events| - 1]);
      RunKeeps(now, current, events[..|events| - 1]);
    }
  }

  /**
   Data goes stale only at a check exactly 60 s after the last processed frame or the start
   of the session, becomes current only with a frame, and exactly these changes publish the
   data fields.
   */
  lemma ChangesAreExact(now: real, current: bool, events: seq<Event>, event: Event)
    ensures var s := Run(Begin(now, current), events);
            var s' := Step(s, event);
            && (s.watch.current && !s'.watch.current ==> event.Tick? && s'.clock == s.watch.lastData + 60.0)
            && (!s.watch.current && s'.watch.current ==> event.Frame?)
            && (event.Frame? && Possible(s, event) ==> s'.watch == Watch(event.at, true))
            && (s'.published == s.published + 1 <==> s'.watch.current != s.watch.current)
            && (s'.published == s.published <==> s'.watch.current == s.watch.current)
  {
    RunKeeps(now, current, events);
  }

  /** Without frames the data is stale after the second next check at the latest, at 60 s sharp. */
  lemma SilenceGoesStale(now: real, current: bool, events: seq<Event>)
    ensures var s := Run(Begin(now, current), events);
            var due := Step(s, Tick);
            var later := Step(due, Tick);
            && !later.watch.current
            && (s.watch.current ==> (if due.watch.current then later else due).clock == s.watch.lastData + 60.0)
  {
    RunKeeps(now, current, events);
  }
}
