/**
 Runs of a connection in an adversarial environment: the link can drop at any await, the
 callback that reports it comes late or repeatedly, and a request can succeed although
 the link is already gone.

 Assumptions: `connect` and `disconnect` do not overlap; a call that fails raises one of
 the exceptions `connect` handles; notifications come only from a link that is up and
 that the client was not told to end; once down, the link of a client stays down.
 */
module ConnectionRuns {
  import opened Prelude
  import opened ConnectionSpec

  /** Where the caller is: the program counter of `connect` or `disconnect`. */
  datatype Phase =
    | Unused
    | Linking
    | ReadingInfo(client: nat)
    | SubscribingTelemetry(client: nat)
    | SubscribingConfig(client: nat)
    | Failing(failure: Failure)
    | Raised(failure: Failure)
    | Session(client: nat)
    | Closing
    | Closed

  /** What the error counter counts. */
  datatype Mark = Restarted | Handled | Mistake

  /**
   `up` are the clients with a link, `told` those that were asked to end it. `base` is
   the number of disconnect reports when `connect` or `disconnect` was called last.
   `ended` tells that the session lost its link, as reported, or had too many errors;
   `early` that the errors were too many before `connect` returned.
   */
  datatype World = World(
    conn: Conn,
    phase: Phase,
    up: set<nat>,
    told: set<nat>,
    clients: nat,
    base: nat,
    ended: bool,
    early: bool,
    marks: seq<Mark>)

  datatype Event =
    | Connect
    | Disconnect
    | LinkResult(failure: Option<Failure>, alive: bool, hasInfo: bool)
    | InfoResult(failure: Option<Failure>, adopted: Option<Bytes>, hasTelemetry: bool)
    | TelemetryResult(failure: Option<Failure>, hasConfig: bool)
    | ConfigResult(failure: Option<Failure>)
    | ClosingResult
    | LinkDrops(client: nat)
    | Callback(client: nat)
    | Notification(handled: bool, telemetry: bool)

  const NEW_WORLD := World(UNCONNECTED, Unused, {}, {}, 0, 0, false, false, [])

  predicate AtRest(phase: Phase) {
    phase.Unused? || phase.Raised? || phase.Session? || phase.Closed?
  }

  predicate InHandshake(phase: Phase) {
    phase.Linking? || phase.ReadingInfo? || phase.SubscribingTelemetry? || phase.SubscribingConfig?
  }

  predicate HasClient(phase: Phase) {
    phase.ReadingInfo? || phase.SubscribingTelemetry? || phase.SubscribingConfig? || phase.Session?
  }

  /** The client may notify: the telemetry subscription was at least requested. */
  predicate Notifies(w: World) {
    && (w.phase.SubscribingTelemetry? || w.phase.SubscribingConfig? || w.phase.Session?)
    && w.phase.client in w.up && w.phase.client !in w.told
  }

  /** A stretch of `connect` for `client` came to its end. */
  function Continued(w: World, result: (Conn, Ending), client: nat, next: Phase): World {
    match result.1
    case Awaits => w.(conn := result.0, phase := next)
    case Returns => w.(conn := result.0, phase := Session(client), ended := false)
    case Raises(failure) => w.(conn := result.0, phase := Failing(failure), told := w.told + {client})
  }

  function FailedAt(w: World, failure: Failure, client: nat): World {
    Continued(w, Raise(w.conn, failure), client, w.phase)
  }

  /** An error notification from the current client. */
  function Noticed(w: World): World
    requires HasClient(w.phase)
  {
    var overflow := w.conn.errors == MAX_ERRORS_BEFORE_RECONNECT;
    w.(conn := ErrorAdded(w.conn),
       marks := w.marks + [Mistake],
       told := if overflow then w.told + {w.phase.client} else w.told,
       ended := w.ended || (overflow && w.phase.Session?),
       early := w.early || (overflow && !w.phase.Session?))
  }

  function Step(w: World, event: Event): World {
    match event
    case Connect =>
      if !AtRest(w.phase) || w.conn.status.BlocksConnect() then w
      else w.(conn := Enter(w.conn, EstablishingConnection), phase := Linking, base := |w.conn.reports|,
              ended := false, early := false)
    case Disconnect =>
      if !AtRest(w.phase) then w
      else
        var up := w.conn.client.Some? && w.conn.client.value in w.up;
        var begun := DisconnectBegun(w.conn, up);
        var called := w.(conn := begun, base := |w.conn.reports|);
        if up then called.(phase := Closing, told := w.told + {w.conn.client.value})
        else called.(conn := DisconnectEnded(begun), phase := Closed)
    case LinkResult(failure, alive, hasInfo) =>
      if !w.phase.Linking? then w
      else if failure.Some? then w.(conn := Fail(w.conn, failure.value), phase := Failing(failure.value))
      else
        var client := w.clients;
        var linked := w.(clients := client + 1, up := if alive then w.up + {client} else w.up,
                         marks := if alive then w.marks + [Restarted] else w.marks);
        Continued(linked, LinkEstablished(w.conn, client, alive, hasInfo), client, ReadingInfo(client))
    case InfoResult(failure, adopted, hasTelemetry) =>
      if !w.phase.ReadingInfo? then w
      else
        var client := w.phase.client;
        if failure.Some? then FailedAt(w, failure.value, client)
        else Continued(w, InfoRead(w.conn, client, client in w.up, adopted, hasTelemetry), client,
            SubscribingTelemetry(client))
    case TelemetryResult(failure, hasConfig) =>
      if !w.phase.SubscribingTelemetry? then w
      else
        var client := w.phase.client;
        if failure.Some? then FailedAt(w, failure.value, client)
        else Continued(w, TelemetrySubscribed(w.conn, client, client in w.up, hasConfig), client,
            SubscribingConfig(client))
    case ConfigResult(failure) =>
      if !w.phase.SubscribingConfig? then w
      else
        var client := w.phase.client;
        Continued(w, ConfigSubscribed(w.conn, client, client in w.up, failure), client, w.phase)
    case ClosingResult =>
      if w.phase.Failing? then w.(phase := Raised(w.phase.failure))
      else if w.phase.Closing? then w.(conn := DisconnectEnded(w.conn), phase := Closed)
      else w
    case LinkDrops(client) => w.(up := w.up - {client})
    case Callback(client) =>
      if client >= w.clients || client in w.up then w
      else w.(conn := LinkEnded(w.conn, client),
              ended := w.ended || (w.phase.Session? && w.phase.client == client))
    case Notification(handled, telemetry) =>
      if !Notifies(w) then w
      else if !handled then Noticed(w)
      else if telemetry then w.(conn := w.conn.(errors := 0), marks := w.marks + [Handled])
      else w  // a configuration message that was handled leaves the counter alone
  }

  function Run(events: seq<Event>): World {
    if events == [] then NEW_WORLD else Step(Run(events[..|events| - 1]), events[|events| - 1])
  }

  // ----- the error counter

  /** Errors since the last one of the events that restart the count. */
  function Streak(marks: seq<Mark>): nat {
    if marks == [] || marks[|marks| - 1] != Mistake then 0 else 1 + Streak(marks[..|marks| - 1])
  }

  // ----- what every run keeps

  ghost predicate ClientsOk(w: World) {
    && (w.conn.client.Some? ==> w.conn.client.value < w.clients)
    && (forall c :: c in w.up ==> c < w.clients)
    && (HasClient(w.phase) ==> w.phase.client < w.clients)
    && (HasClient(w.phase) && w.conn.client.Some? ==> w.conn.client.value == w.phase.client)
    && (HasClient(w.phase) && w.conn.client.None? ==> w.phase.client !in w.up)
    && (w.phase.Unused? || w.phase.Closed? || w.phase.Closing? || w.phase.Failing? || w.phase.Raised? ==>
        w.conn.client.None?)
  }

  /** No disconnect report yet in this call of `connect`. */
  ghost predicate Silent(w: World) {
    |w.conn.reports| == w.base
  }

  /** The reports of too many errors before `connect` ended. */
  function Early(w: World): nat {
    if w.early then 1 else 0
  }

  ghost predicate SessionOk(w: World, client: nat) {
    && w.conn.cipher.Some?
    && |w.conn.reports| == w.base + Early(w) + (if w.ended then 1 else 0)
    && (w.early ==> client in w.told)
    && (!w.ended ==> w.conn.status.Authenticated? && w.conn.client == Some(client) && (client in w.told ==> w.early))
    && (w.ended ==>
          || (w.conn.status.Disconnected? && w.conn.client.None? && LastReport(w) == LinkLost)
          || (&& w.conn.status.ErrorTooManyErrors? && (w.conn.client.None? || client in w.told)
              && LastReport(w) == TooManyErrors))
  }

  function LastReport(w: World): Report
    requires w.conn.reports != []
  {
    w.conn.reports[|w.conn.reports| - 1]
  }

  /** The phases between the telemetry subscription and the end of `connect`. */
  ghost predicate SubscribingOk(w: World, client: nat) {
    && (client in w.told <==> w.early) && w.conn.cipher.Some?
    && |w.conn.reports| == w.base + Early(w)
    && if w.early then w.conn.status.ErrorTooManyErrors? && LastReport(w) == TooManyErrors
       else w.conn.status.Subscribing?
  }

  ghost predicate FailureOk(w: World, failure: Failure) {
    && w.conn.status == failure.Status()
    && |w.conn.reports| == w.base + Early(w) + 1 && LastReport(w) == Report.Failed(failure)
    && (w.early ==> w.conn.reports[w.base] == TooManyErrors)
  }

  ghost predicate PhaseOk(w: World) {
    match w.phase
    case Unused => w.conn.status.Disconnected? && Silent(w)
    case Linking => w.conn.status.EstablishingConnection? && Silent(w) && !w.early
    case ReadingInfo(client) => w.conn.status.EstablishingSession? && client !in w.told && Silent(w) && !w.early
    case SubscribingTelemetry(client) => SubscribingOk(w, client)
    case SubscribingConfig(client) => SubscribingOk(w, client)
    case Failing(failure) => FailureOk(w, failure)
    case Raised(failure) => FailureOk(w, failure)
    case Session(client) => SessionOk(w, client)
    case Closing => w.conn.status.Disconnecting? && Silent(w)
    case Closed => w.conn.status.Disconnected? && Silent(w)
  }

  ghost predicate Inv(w: World) {
    && ClientsOk(w)
    && PhaseOk(w)
    && (forall c :: c in w.told ==> c < w.clients)
    && w.conn.errors == Streak(w.marks) % (MAX_ERRORS_BEFORE_RECONNECT + 1)
  }

  lemma StreakOfMark(marks: seq<Mark>, mark: Mark)
    ensures Streak(marks + [mark]) == if mark == Mistake then 1 + Streak(marks) else 0
  {
    assert (marks + [mark])[..|marks|] == marks;
  }

  lemma KeepsCall(w: World, event: Event)
    requires Inv(w)
    requires event.Connect? || event.Disconnect? || event.ClosingResult?
    ensures Inv(Step(w, event))
  {
  }

  /** Failing keeps it wherever the handshake is: one report, and no client left. */
  lemma KeepsFailure(w: World, conn: Conn, failure: Failure, told: set<nat>)
    requires Inv(w)
    requires InHandshake(w.phase) || w.phase.Linking?
    requires conn.reports == w.conn.reports && conn.errors == w.conn.errors
    requires forall c :: c in told ==> c < w.clients
    ensures Inv(w.(conn := Fail(conn, failure), phase := Failing(failure), told := told))
  {
  }

  lemma KeepsLinkResult(w: World, event: Event)
    requires Inv(w)
    requires event.LinkResult?
    ensures Inv(Step(w, event))
  {
    if w.phase.Linking? {
      if event.failure.Some? {
        KeepsFailure(w, w.conn, event.failure.value, w.told);
      } else {
        KeepsNewClient(w, event.alive, event.hasInfo);
      }
    }
  }

  lemma KeepsNewClient(w: World, alive: bool, hasInfo: bool)
    requires Inv(w)
    requires w.phase.Linking?
    ensures Inv(Step(w, LinkResult(None, alive, hasInfo)))
  {
    StreakOfMark(w.marks, Restarted);
    var client := w.clients;
    var linked := w.(clients := client + 1, up := if alive then w.up + {client} else w.up,
                     marks := if alive then w.marks + [Restarted] else w.marks,
                     conn := w.conn.(client := None, errors := if alive then 0 else w.conn.errors));
    assert Inv(linked);
    if !alive || !hasInfo {
      var conn := LinkEstablished(w.conn, client, alive, hasInfo).0;
      var announced := w.conn.announced + if alive then [Connected, EstablishingSession] else [];
      var failure := if alive then UnsupportedProtocol else BleakError;
      KeepsFailure(linked, linked.conn.(announced := announced), failure, w.told + {client});
      assert w.conn.announced + [Connected] + [EstablishingSession]
             == w.conn.announced + [Connected, EstablishingSession];
      assert w.conn.announced + [] == w.conn.announced;
    }
  }

  lemma KeepsInfoResult(w: World, event: Event)
    requires Inv(w)
    requires event.InfoResult?
    ensures Inv(Step(w, event))
  {
    if w.phase.ReadingInfo? {
      var client := w.phase.client;
      var told := w.told + {client};
      if event.failure.Some? {
        KeepsFailure(w, w.conn, event.failure.value, told);
      } else if !IsCurrent(w.conn, client, client in w.up) {
        KeepsFailure(w, w.conn, BleakError, told);
      } else if event.adopted.None? {
        KeepsFailure(w, w.conn, SessionKeyError, told);
      } else {
        var conn := Enter(Enter(w.conn.(cipher := event.adopted), SessionEstablished), Subscribing);
        if !event.hasTelemetry {
          KeepsFailure(w, conn, UnsupportedProtocol, told);
        }
      }
    }
  }

  lemma KeepsTelemetryResult(w: World, event: Event)
    requires Inv(w)
    requires event.TelemetryResult?
    ensures Inv(Step(w, event))
  {
    if w.phase.SubscribingTelemetry? {
      var client := w.phase.client;
      if event.failure.Some? {
        KeepsFailure(w, w.conn, event.failure.value, w.told + {client});
      } else if !IsCurrent(w.conn, client, client in w.up) {
        KeepsFailure(w, w.conn, BleakError, w.told + {client});
      }
    }
  }

  lemma KeepsConfigResult(w: World, event: Event)
    requires Inv(w)
    requires event.ConfigResult?
    ensures Inv(Step(w, event))
  {
    if w.phase.SubscribingConfig? {
      var client := w.phase.client;
      if event.failure.Some? && !event.failure.value.IsBleakError() {
        KeepsFailure(w, w.conn, event.failure.value, w.told + {client});
      } else if !IsCurrent(w.conn, client, client in w.up) {
        KeepsFailure(w, w.conn, BleakError, w.told + {client});
      }
    }
  }

  lemma KeepsLinkEnd(w: World, event: Event)
    requires Inv(w)
    requires event.LinkDrops? || event.Callback?
    ensures Inv(Step(w, event))
  {
  }

  lemma NextError(streak: nat)
    ensures (streak + 1) % 6 == if streak % 6 == 5 then 0 else streak % 6 + 1
  {
  }

  lemma KeepsError(w: World)
    requires Inv(w) && Notifies(w)
    ensures Inv(Noticed(w))
  {
    StreakOfMark(w.marks, Mistake);
    NextError(Streak(w.marks));
    var w' := Noticed(w);
    if w.conn.errors == MAX_ERRORS_BEFORE_RECONNECT {
      assert w'.conn.reports == w.conn.reports + [TooManyErrors];
    } else {
      assert w'.conn.reports == w.conn.reports && w'.conn.status == w.conn.status;
    }
  }

  lemma KeepsNotification(w: World, event: Event)
    requires Inv(w)
    requires event.Notification?
    ensures Inv(Step(w, event))
  {
    if Notifies(w) {
      if !event.handled {
        KeepsError(w);
      } else if event.telemetry {
        StreakOfMark(w.marks, Handled);
      }
    }
  }

  lemma KeepsStep(w: World, event: Event)
    requires Inv(w)
    ensures Inv(Step(w, event))
  {
    hide Inv, Step;
    match event
    case Connect => KeepsCall(w, event);
    case Disconnect => KeepsCall(w, event);
    case ClosingResult => KeepsCall(w, event);
    case LinkResult(_, _, _) => KeepsLinkResult(w, event);
    case InfoResult(_, _, _) => KeepsInfoResult(w, event);
    case TelemetryResult(_, _) => KeepsTelemetryResult(w, event);
    case ConfigResult(_) => KeepsConfigResult(w, event);
    case LinkDrops(_) => KeepsLinkEnd(w, event);
    case Callback(_) => KeepsLinkEnd(w, event);
    case Notification(_, _) => KeepsNotification(w, event);
  }

  lemma {:induction false} RunKeeps(events: seq<Event>)
    ensures Inv(Run(events))
  {
    if events == [] {
    } else {
      RunKeeps(events[..|events| - 1]);
      KeepsStep(Run(events[..|events| - 1]), events[|events| - 1]);
    }
  }

  // ----- what that means for the callers

  /**
   When `connect` returns, it has a session on the very client it established (the link is
   up, nobody reported its end, the cipher is set and no disconnect was reported) if and
   only if there were not too many errors before.
   */
  lemma ConnectReturns(events: seq<Event>, event: Event)
    requires InHandshake(Run(events).phase) && Step(Run(events), event).phase.Session?
    ensures HasSession(Step(Run(events), event)) <==> !Step(Run(events), event).early
  {
    RunKeeps(events);
    ReturnsWithSession(Run(events), event);
  }

  /** A session on the client that `connect` established, nothing lost and nothing reported. */
  ghost predicate HasSession(w: World) {
    && w.phase.Session? && w.conn.status.Authenticated?
    && w.conn.client == Some(w.phase.client) && w.phase.client in w.up && w.phase.client !in w.told
    && w.conn.cipher.Some?
    && |w.conn.reports| == w.base
  }

  lemma ReturnsWithSession(w: World, event: Event)
    requires Inv(w) && InHandshake(w.phase)
    requires Step(w, event).phase.Session?
    ensures HasSession(Step(w, event)) <==> !Step(w, event).early
  {
    assert w.phase.SubscribingTelemetry? || w.phase.SubscribingConfig?;
    var authenticated := Enter(w.conn, Authenticated);
    assert Step(w, event) == w.(conn := authenticated, phase := Session(w.phase.client), ended := false);
    assert w.early ==> |w.conn.reports| > w.base;
  }

  // ----- when the handshake goes on, and when `connect` and `disconnect` do something

  /** The link of `client` is up, and nobody reported its end. */
  ghost predicate IsLive(w: World, client: nat) {
    client in w.up && w.conn.client == Some(client)
  }

  /** The stretch ended in `_fail`: the failure is the one given, and the client was told to end its link. */
  ghost predicate FailsWith(w: World, failure: Failure, client: nat) {
    w.phase == Failing(failure) && w.conn.client.None? && client in w.told
  }

  /** A new link leads to the read of the info block exactly if it is up and the device has that block. */
  lemma LinkAdvancesIff(events: seq<Event>, failure: Option<Failure>, alive: bool, hasInfo: bool)
    requires Run(events).phase.Linking?
    ensures var w := Run(events); var w' := Step(w, LinkResult(failure, alive, hasInfo));
            if failure.None? && alive && hasInfo
            then w'.phase == ReadingInfo(w.clients) && IsLive(w', w.clients)
            else if failure.Some? then w'.phase == Failing(failure.value) && w'.conn.client.None?
            else FailsWith(w', if alive then UnsupportedProtocol else BleakError, w.clients)
  {
  }

  /**
   The info block leads to the telemetry subscription exactly if the link is still up, a key
   opens the block and the device has telemetry; the session then has that key.
   */
  lemma InfoAdvancesIff(events: seq<Event>, failure: Option<Failure>, adopted: Option<Bytes>, hasTelemetry: bool)
    requires Run(events).phase.ReadingInfo?
    ensures var w := Run(events); var w' := Step(w, InfoResult(failure, adopted, hasTelemetry));
            var client := w.phase.client;
            if failure.None? && IsLive(w, client) && adopted.Some? && hasTelemetry
            then w'.phase == SubscribingTelemetry(client) && IsLive(w', client) && w'.conn.cipher == adopted
            else
              FailsWith(w', if failure.Some? then failure.value
                            else if !IsLive(w, client) then BleakError
                            else if adopted.None? then SessionKeyError
                            else UnsupportedProtocol, client)
  {
  }

  /**
   The telemetry subscription leads on exactly if the link is still up: to the configuration
   channel if there is one, and to the session otherwise.
   */
  lemma TelemetryAdvancesIff(events: seq<Event>, failure: Option<Failure>, hasConfig: bool)
    requires Run(events).phase.SubscribingTelemetry?
    ensures var w := Run(events); var w' := Step(w, TelemetryResult(failure, hasConfig));
            var client := w.phase.client;
            if failure.None? && IsLive(w, client)
            then w'.phase == (if hasConfig then SubscribingConfig(client) else Session(client)) && IsLive(w', client)
            else FailsWith(w', if failure.Some? then failure.value else BleakError, client)
  {
  }

  /**
   The configuration subscription leads to the session exactly if the link is still up and it
   did not fail, or failed with a Bluetooth error.
   */
  lemma ConfigReturnsIff(events: seq<Event>, failure: Option<Failure>)
    requires Run(events).phase.SubscribingConfig?
    ensures var w := Run(events); var w' := Step(w, ConfigResult(failure));
            var client := w.phase.client;
            var tolerated := failure.None? || failure.value == BleakError || failure.value == NotFoundError;
            if tolerated && IsLive(w, client)
            then w'.phase == Session(client) && IsLive(w', client) && w'.conn.status.Authenticated?
            else FailsWith(w', if tolerated then BleakError else failure.value, client)
  {
  }

  /** `connect` goes ahead exactly if no other call runs and there is no session that has not ended. */
  lemma ConnectProceedsIff(events: seq<Event>)
    ensures var w := Run(events); var w' := Step(w, Connect);
            if AtRest(w.phase) && (w.phase.Session? ==> w.ended)
            then w'.phase.Linking? && w'.conn.status.EstablishingConnection? && w'.conn.reports == w.conn.reports
            else w' == w
  {
    RunKeeps(events);
  }

  /** `disconnect` ends the link of the client if it is up, and ends DISCONNECTED in any case. */
  lemma DisconnectEndsLink(events: seq<Event>)
    requires AtRest(Run(events).phase)
    ensures var w := Run(events); var w' := Step(w, Disconnect);
            && w'.conn.client.None?
            && if w.conn.client.Some? && w.conn.client.value in w.up then
                 && w'.phase.Closing? && w'.conn.status.Disconnecting? && w.conn.client.value in w'.told
                 && var end := Step(w', ClosingResult);
                    end.phase.Closed? && end.conn.status.Disconnected?
                    && end.conn.announced == w.conn.announced + [Disconnecting, Disconnected]
               else
                 && w'.phase.Closed? && w'.conn.status.Disconnected?
                 && w'.conn.announced
                    == w.conn.announced + if w.conn.status.Disconnected? then [] else [Disconnected]
  {
  }

  /** The state is the one the listeners were told last, and DISCONNECTED before they were told any. */
  ghost predicate Announced(c: Conn) {
    if c.announced == [] then c.status.Disconnected? else c.announced[|c.announced| - 1] == c.status
  }

  lemma EnterAnnounces(c: Conn, status: Status)
    ensures Announced(Enter(c, status))
  {
  }

  lemma FailAnnounces(c: Conn, failure: Failure)
    ensures Announced(Fail(c, failure))
  {
  }

  lemma LinkResultAnnounces(w: World, event: Event)
    requires Announced(w.conn) && event.LinkResult?
    ensures Announced(Step(w, event).conn)
  {
    if event.failure.Some? {
      FailAnnounces(w.conn, event.failure.value);
    }
  }

  lemma InfoResultAnnounces(w: World, event: Event)
    requires Announced(w.conn) && event.InfoResult?
    ensures Announced(Step(w, event).conn)
  {
    if event.failure.Some? {
      FailAnnounces(w.conn, event.failure.value);
    }
  }

  lemma SubscriptionAnnounces(w: World, event: Event)
    requires Announced(w.conn) && (event.TelemetryResult? || event.ConfigResult?)
    ensures Announced(Step(w, event).conn)
  {
    if event.failure.Some? {
      FailAnnounces(w.conn, event.failure.value);
    }
    FailAnnounces(w.conn, BleakError);
    EnterAnnounces(w.conn, Authenticated);
    hide Announced, Fail, Enter;
  }

  lemma OtherEventAnnounces(w: World, event: Event)
    requires Announced(w.conn)
    requires !event.LinkResult? && !event.InfoResult? && !event.TelemetryResult? && !event.ConfigResult?
    ensures Announced(Step(w, event).conn)
  {
  }

  /** The listeners know the state: it is the one they were told last. */
  lemma {:induction false} StatusIsAnnounced(events: seq<Event>)
    ensures Announced(Run(events).conn)
  {
    if events == [] {
    } else {
      hide Step, Announced;
      var w, event := Run(events[..|events| - 1]), events[|events| - 1];
      StatusIsAnnounced(events[..|events| - 1]);
      match event
      case LinkResult(_, _, _) => LinkResultAnnounces(w, event);
      case InfoResult(_, _, _) => InfoResultAnnounces(w, event);
      case TelemetryResult(_, _) => SubscriptionAnnounces(w, event);
      case ConfigResult(_) => SubscriptionAnnounces(w, event);
      case _ => OtherEventAnnounces(w, event);
    }
  }

  /** What `connect` announces if nothing goes wrong, in order. */
  const HANDSHAKE: seq<Status> :=
    [EstablishingConnection, Connected, EstablishingSession, SessionEstablished, Subscribing, Authenticated]

  /**
   A `connect` that nothing disturbs returns AUTHENTICATED on a new client with the key that was
   found, without errors or reports, and announces every state in order. A device without
   configuration channel, and one whose configuration subscription fails, is no exception.
   */
  lemma ConnectAlone(w: World, mac: Bytes, hasConfig: bool, failure: Option<Failure>)
    requires AtRest(w.phase) && !w.conn.status.BlocksConnect()
    requires failure.None? || failure == Some(BleakError)
    ensures var linked := Step(Step(w, Connect), LinkResult(None, true, true));
            var subscribed := Step(Step(linked, InfoResult(None, Some(mac), true)), TelemetryResult(None, hasConfig));
            var end := if hasConfig then Step(subscribed, ConfigResult(failure)) else subscribed;
            && end.phase == Session(w.clients) && IsLive(end, w.clients) && !end.early && !end.ended
            && end.conn.status.Authenticated? && end.conn.cipher == Some(mac) && end.conn.errors == 0
            && end.conn.reports == w.conn.reports && end.told == w.told
            && end.conn.announced == w.conn.announced + HANDSHAKE
  {
    var linked := Step(Step(w, Connect), LinkResult(None, true, true));
    assert linked.phase == ReadingInfo(w.clients) && IsLive(linked, w.clients);
    assert linked.conn.announced == w.conn.announced + HANDSHAKE[..3];
    var known := Step(linked, InfoResult(None, Some(mac), true));
    assert known.phase == SubscribingTelemetry(w.clients) && IsLive(known, w.clients);
    assert known.conn.announced == w.conn.announced + HANDSHAKE[..5];
  }

  /**
   When `connect` raises, the state is the one of the exception, no client is left and
   the next `connect` goes ahead. The failure is reported exactly once; only if there were
   too many errors before, there is exactly one more report, which says so.
   */
  lemma ConnectRaises(events: seq<Event>)
    requires Run(events).phase.Raised?
    ensures var w := Run(events);
            && w.conn.status == w.phase.failure.Status() && w.conn.status.IsError()
            && (w.phase.failure.SessionKeyError? <==> w.conn.status.ErrorAuthFailed?)
            && (w.phase.failure.UnsupportedProtocol? <==> w.conn.status.ErrorUnsupportedProtocol?)
            && (w.phase.failure.TimeoutError? <==> w.conn.status.ErrorTimeout?)
            && (w.phase.failure.NotFoundError? <==> w.conn.status.ErrorNotFound?)
            && (w.phase.failure.BleakError? <==> w.conn.status.ErrorBleak?)
            && w.conn.client.None?
            && Step(w, Connect).phase.Linking?
            && w.base <= |w.conn.reports|
            && w.conn.reports[w.base..]
               == (if w.early then [TooManyErrors] else []) + [Report.Failed(w.phase.failure)]
  {
    RunKeeps(events);
    var w := Run(events);
    assert w.early ==> w.conn.reports[w.base..] == [w.conn.reports[w.base], LastReport(w)];
  }

  const BAD_FRAME := Notification(false, true)

  /** Six bad frames before the telemetry subscription is confirmed, then the link drops. */
  const EARLY_OVERFLOW: seq<Event> :=
    [Connect, LinkResult(None, true, true), InfoResult(None, Some([]), true),
     BAD_FRAME, BAD_FRAME, BAD_FRAME, BAD_FRAME, BAD_FRAME, BAD_FRAME,
     LinkDrops(0), TelemetryResult(None, false), ClosingResult]

  lemma RunNext(events: seq<Event>, k: nat)
    requires k < |events|
    ensures Run(events[..k + 1]) == Step(Run(events[..k]), events[k])
  {
    RunSnoc(events[..k], events[k]);
    assert events[..k] + [events[k]] == events[..k + 1];
  }

  ghost predicate AwaitsTelemetry(w: World, errors: nat) {
    && w.phase == SubscribingTelemetry(0) && w.up == {0} && w.told == {} && w.base == 0 && !w.early
    && w.conn.client == Some(0) && w.conn.errors == errors && w.conn.reports == []
  }

  lemma HandshakeReachesTelemetry()
    ensures AwaitsTelemetry(Run(EARLY_OVERFLOW[..3]), 0)
  {
    RunNext(EARLY_OVERFLOW, 0);
    RunNext(EARLY_OVERFLOW, 1);
    RunNext(EARLY_OVERFLOW, 2);
  }

  lemma OneBadFrame(w: World, errors: nat)
    requires AwaitsTelemetry(w, errors) && errors < 5
    ensures AwaitsTelemetry(Step(w, BAD_FRAME), errors + 1)
  {
  }

  lemma {:induction false} BadFrames(k: nat)
    requires k <= 5
    ensures AwaitsTelemetry(Run(EARLY_OVERFLOW[..3 + k]), k)
  {
    hide Run, Step, AwaitsTelemetry;
    if k == 0 {
      HandshakeReachesTelemetry();
    } else {
      BadFrames(k - 1);
      RunNext(EARLY_OVERFLOW, 2 + k);
      OneBadFrame(Run(EARLY_OVERFLOW[..2 + k]), k - 1);
    }
  }

  /** Too many errors before `connect` ends are possible: then it reports two disconnects. */
  lemma EarlyOverflowReportsTwice()
    ensures var w := Run(EARLY_OVERFLOW);
            && w.phase == Raised(BleakError) && w.early && w.base == 0
            && w.conn.reports == [TooManyErrors, Report.Failed(BleakError)]
  {
    BadFrames(5);
    RunNext(EARLY_OVERFLOW, 8);
    RunNext(EARLY_OVERFLOW, 9);
    RunNext(EARLY_OVERFLOW, 10);
    RunNext(EARLY_OVERFLOW, 11);
    assert EARLY_OVERFLOW[..12] == EARLY_OVERFLOW;
  }

  /**
   They also let `connect` return: AUTHENTICATED, on a client that was told to end its link,
   after it reported too many errors.
   */
  lemma EarlyOverflowCanReturn()
    ensures var w := Step(Run(EARLY_OVERFLOW[..9]), TelemetryResult(None, false));
            && w.phase.Session? && w.early && w.conn.status.Authenticated? && !HasSession(w)
            && w.conn.client == Some(0) && 0 in w.told
            && w.conn.reports == [TooManyErrors]
  {
    BadFrames(5);
    RunNext(EARLY_OVERFLOW, 8);
  }

  /**
   An exception of another type would leave `connect` blocked, unless there were too many
   errors: otherwise it returns at once in every state of the handshake.
   */
  lemma HandshakeBlocksConnect(events: seq<Event>)
    requires InHandshake(Run(events).phase)
    ensures Run(events).conn.status.BlocksConnect() <==> !Run(events).early
  {
    RunKeeps(events);
  }

  /**
   The event ends the session of `w`: its link went down and that is reported, or it brings the
   sixth error in a row.
   */
  ghost predicate EndsSession(w: World, event: Event)
    requires w.phase.Session?
  {
    || (event == Callback(w.phase.client) && w.phase.client !in w.up)
    || (event.Notification? && !event.handled && Notifies(w) && Streak(w.marks) % 6 == 5)
  }

  /**
   From AUTHENTICATED on, `on_disconnect` is called by the first event that ends the
   session and by no other event until the caller connects again.
   */
  lemma SessionReportsOnce(events: seq<Event>, event: Event)
    requires Run(events).phase.Session? && !event.Connect?
    ensures var w := Run(events); var w' := Step(w, event);
            && |w.conn.reports| == w.base + (if w.early then 1 else 0) + (if w.ended then 1 else 0)
            && |w'.conn.reports| == |w.conn.reports| + (if !w.ended && EndsSession(w, event) then 1 else 0)
            && (w'.phase.Session? ==> w'.ended == (w.ended || EndsSession(w, event)))
  {
    RunKeeps(events);
  }

  predicate WithoutConnect(events: seq<Event>) {
    forall i :: 0 <= i < |events| ==> !events[i].Connect?
  }

  /** A disconnect by the caller is never reported, also not by a callback that comes late. */
  lemma {:induction false} CallerDisconnectIsSilent(before: seq<Event>, after: seq<Event>)
    requires AtRest(Run(before).phase)
    requires WithoutConnect(after)
    ensures var w := Run(before + [Disconnect] + after);
            && (w.phase.Closing? || w.phase.Closed?)
            && w.conn.reports == Run(before).conn.reports
  {
    hide Inv, Step;
    if after == [] {
      RunKeeps(before);
      DisconnectIsSilent(Run(before));
      assert before + [Disconnect] + after == before + [Disconnect];
      RunSnoc(before, Disconnect);
    } else {
      var front, last := after[..|after| - 1], after[|after| - 1];
      CallerDisconnectIsSilent(before, front);
      RunKeeps(before + [Disconnect] + front);
      StaysSilent(Run(before + [Disconnect] + front), last);
      assert before + [Disconnect] + after == before + [Disconnect] + front + [last];
      RunSnoc(before + [Disconnect] + front, last);
    }
  }

  lemma RunSnoc(events: seq<Event>, event: Event)
    ensures Run(events + [event]) == Step(Run(events), event)
  {
    assert (events + [event])[..|events|] == events;
  }

  lemma DisconnectIsSilent(w: World)
    requires Inv(w) && AtRest(w.phase)
    ensures var w' := Step(w, Disconnect); (w'.phase.Closing? || w'.phase.Closed?) && w'.conn.reports == w.conn.reports
  {
  }

  lemma StaysSilent(w: World, event: Event)
    requires Inv(w) && (w.phase.Closing? || w.phase.Closed?) && !event.Connect?
    ensures var w' := Step(w, event); (w'.phase.Closing? || w'.phase.Closed?) && w'.conn.reports == w.conn.reports
  {
  }

  /**
   The callback of any other client than the current one changes nothing. While a new link
   is being established it can only clear the old client.
   */
  lemma OldCallbacksAreIgnored(events: seq<Event>, client: nat)
    requires var w := Run(events); HasClient(w.phase) ==> client != w.phase.client
    ensures var w := Run(events); var conn := Step(w, Callback(client)).conn;
            conn == w.conn || (w.phase.Linking? && conn == w.conn.(client := None))
  {
    RunKeeps(events);
  }

  /**
   The counter is the number of errors in a row, counted from the last connect, handled
   telemetry frame or overflow; the overflow happens exactly at the sixth error.
   */
  lemma ErrorCounter(events: seq<Event>)
    ensures var w := Run(events);
            && w.conn.errors == Streak(w.marks) % 6
            && (Notifies(w) ==>
                  var w' := Step(w, Notification(false, true));
                  && Streak(w'.marks) == Streak(w.marks) + 1
                  && (Overflows(w, w') <==> Streak(w'.marks) % 6 == 0))
  {
    RunKeeps(events);
    if Notifies(Run(events)) {
      ErrorCounted(Run(events));
    }
  }

  /** The errors were too many: that is the state now, and it was reported. */
  predicate Overflows(w: World, w': World) {
    w'.conn.status.ErrorTooManyErrors? && |w'.conn.reports| == |w.conn.reports| + 1
  }

  lemma ErrorCounted(w: World)
    requires w.conn.errors == Streak(w.marks) % 6 && Notifies(w)
    ensures Streak(Noticed(w).marks) == Streak(w.marks) + 1
    ensures Overflows(w, Noticed(w)) <==> Streak(Noticed(w).marks) % 6 == 0
  {
    StreakOfMark(w.marks, Mistake);
    NextError(Streak(w.marks));
  }
}
