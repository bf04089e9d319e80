/**
 The connection as the library runs it: fields updated in place, one method for each
 stretch between two suspension points. `Drive` calls them as the caller and the environment
 do, and proves that the object goes through the same states as the runs of
 `ConnectionRuns`, so what holds for these holds for it.
 */
module ConnectionObject {
  import opened Prelude
  import opened Encryption
  import opened ConnectionSpec
  import Runs = ConnectionRuns

  class Connection {
    var status: Status
    var client: Option<nat>
    var cipher: Option<Bytes>
    var baseMacFromName: bool
    var errors: nat
    // calls of the listeners so far
    var announced: seq<Status>
    var reports: seq<Report>

    function State(): Conn
      reads this
    {
      Conn(status, client, cipher, errors, announced, reports)
    }

    constructor ()
      ensures State() == UNCONNECTED && !baseMacFromName
    {
      status, client, cipher, errors := Disconnected, None, None, 0;
      baseMacFromName := false;
      announced, reports := [], [];
    }

    /** Stores the state and calls the listeners, those for a disconnect only if it is an error. */
    method SetState(newStatus: Status, report: Report)
      modifies this`status, this`announced, this`reports
      ensures status == newStatus && announced == old(announced) + [newStatus]
      ensures reports == if newStatus.IsError() then old(reports) + [report] else old(reports)
    {
      status := newStatus;
      announced := announced + [newStatus];
      if newStatus.IsError() {
        reports := reports + [report];
      }
    }

    method EnsureConnected(expected: nat, up: bool) returns (failure: Option<Failure>)
      ensures failure == if IsCurrent(State(), expected, up) then None else Some(BleakError)
    {
      if client != Some(expected) || !up {
        return Some(BleakError);
      }
      return None;
    }

    /** `_fail`, up to the await that ends a link that is still up; returns whether there is one. */
    method HandleFailure(failure: Failure, up: bool) returns (mustEndLink: bool)
      modifies this
      ensures State() == Fail(old(State()), failure)
      ensures baseMacFromName == old(baseMacFromName)
      ensures mustEndLink <==> old(client).Some? && up
    {
      SetState(failure.Status(), Report.Failed(failure));
      var failed := client;
      client := None;
      mustEndLink := failed.Some? && up;
    }

    /** Returns false if `connect` has nothing to do. */
    method BeginConnect() returns (proceeds: bool)
      modifies this
      ensures proceeds <==> !old(status).BlocksConnect()
      ensures State() == if proceeds then Enter(old(State()), EstablishingConnection) else old(State())
      ensures baseMacFromName == old(baseMacFromName)
    {
      if status.IsConnected() || status == EstablishingConnection || status == Authenticated {
        return false;
      }
      SetState(EstablishingConnection, LinkLost);
      return true;
    }

    method OnLinkEstablished(established: nat, up: bool, hasInfo: bool) returns (ending: Ending)
      modifies this
      ensures (State(), ending) == LinkEstablished(old(State()), established, up, hasInfo)
    {
      client := Some(established);
      var failure := EnsureConnected(established, up);
      if failure.None? {
        SetState(Connected, LinkLost);
        errors := 0;
        SetState(EstablishingSession, LinkLost);
        if !hasInfo {
          failure := Some(UnsupportedProtocol);
        }
      }
      ending := FinishStretch(failure, up, Awaits);
    }

    /** Ends a stretch of `connect`: through `_fail` if it raised an exception. */
    method FinishStretch(failure: Option<Failure>, up: bool, otherwise: Ending) returns (ending: Ending)
      requires !otherwise.Raises?
      modifies this
      ensures failure.None? ==> ending == otherwise && State() == old(State())
      ensures failure.Some? ==> (State(), ending) == Raise(old(State()), failure.value)
      ensures baseMacFromName == old(baseMacFromName)
    {
      if failure.None? {
        return otherwise;
      }
      var _ := HandleFailure(failure.value, up);
      return Raises(failure.value);
    }

    /** The read of the info block returned `sample`: derives the session and subscribes. */
    method OnInfoRead(
      current: nat, up: bool, sample: Bytes, ciphers: KeySchedule, address: nat, hint: Option<Bytes>,
      hasTelemetry: bool)
        returns (ending: Ending, adopted: Option<Bytes>)
      requires forall mac :: IsBijective(ciphers(mac))
      modifies this
      ensures (State(), ending) == InfoRead(old(State()), current, up, adopted, hasTelemetry)
      ensures IsCurrent(old(State()), current, up) ==>
          IsFirstFitting(ciphers, Candidates(address, hint), sample, adopted)
      ensures ending.Awaits? ==> (baseMacFromName <==> adopted == hint)
    {
      hide IsFirstFitting, IsBijective, Candidates;
      adopted := None;
      var failure := EnsureConnected(current, up);
      if failure.None? {
        var found, fromName := FindSessionKey(ciphers, address, hint, sample);
        adopted := found;
        if found.None? {
          failure := Some(SessionKeyError);
        } else {
          cipher := found;
          baseMacFromName := fromName;
          SetState(SessionEstablished, LinkLost);
          SetState(Subscribing, LinkLost);
          if !hasTelemetry {
            failure := Some(UnsupportedProtocol);
          }
        }
      }
      ending := FinishStretch(failure, up, Awaits);
    }

    method OnTelemetrySubscribed(current: nat, up: bool, hasConfig: bool) returns (ending: Ending)
      modifies this
      ensures (State(), ending) == TelemetrySubscribed(old(State()), current, up, hasConfig)
    {
      var failure := EnsureConnected(current, up);
      if failure.None? && !hasConfig {
        ending := FinishConnect(current, up);
      } else {
        ending := FinishStretch(failure, up, Awaits);
      }
    }

    method FinishConnect(current: nat, up: bool) returns (ending: Ending)
      modifies this
      ensures (State(), ending) == Authenticate(old(State()), current, up)
    {
      var failure := EnsureConnected(current, up);
      if failure.None? {
        SetState(Authenticated, LinkLost);
      }
      ending := FinishStretch(failure, up, Returns);
    }

    /** A failed configuration subscription only disables some settings, unless it timed out. */
    method OnConfigSubscribed(current: nat, up: bool, raised: Option<Failure>) returns (ending: Ending)
      modifies this
      ensures (State(), ending) == ConfigSubscribed(old(State()), current, up, raised)
    {
      if raised.Some? && !raised.value.IsBleakError() {
        ending := FinishStretch(raised, up, Returns);
      } else {
        ending := FinishConnect(current, up);
      }
    }

    /** An await of `connect` raised one of the handled exceptions. */
    method OnFailure(failure: Failure, up: bool) returns (ending: Ending)
      modifies this
      ensures (State(), ending) == Raise(old(State()), failure)
    {
      ending := FinishStretch(Some(failure), up, Awaits);
    }

    /** bleak's disconnected callback. */
    method OnDisconnected(ended: nat)
      modifies this
      ensures State() == LinkEnded(old(State()), ended)
      ensures cipher == old(cipher) && baseMacFromName == old(baseMacFromName)
    {
      if client != Some(ended) {
        return;
      }
      client := None;
      if status == EstablishingConnection || status.IsConnected() {
        return;
      }
      if status.IsError() {
        return;
      }
      SetState(Disconnected, LinkLost);
      reports := reports + [LinkLost];
    }

    /** Returns whether the link has to be ended because of too many errors. */
    method AddError(up: bool) returns (mustEndLink: bool)
      modifies this
      ensures State() == ErrorAdded(old(State()))
      ensures mustEndLink <==> old(errors) >= MAX_ERRORS_BEFORE_RECONNECT && old(client).Some? && up
    {
      errors := errors + 1;
      if errors <= MAX_ERRORS_BEFORE_RECONNECT {
        return false;
      }
      errors := 0;
      SetState(ErrorTooManyErrors, TooManyErrors);
      mustEndLink := client.Some? && up;
    }

    /** A telemetry frame was parsed, or parsing raised an exception. */
    method OnTelemetry(parsed: bool, up: bool) returns (mustEndLink: bool)
      modifies this
      ensures State() == if parsed then old(State()).(errors := 0) else ErrorAdded(old(State()))
    {
      if !parsed {
        mustEndLink := AddError(up);
        return;
      }
      errors := 0;
      mustEndLink := false;
    }

    /** Returns whether there is a link to wait for. */
    method BeginDisconnect(up: bool) returns (mustEndLink: bool)
      modifies this
      ensures State() == DisconnectBegun(old(State()), up)
      ensures mustEndLink <==> old(client).Some? && up
    {
      var current := client;
      client := None;
      if current.Some? && up {
        SetState(Disconnecting, LinkLost);
        return true;
      }
      return false;
    }

    method FinishDisconnect()
      modifies this
      ensures State() == DisconnectEnded(old(State()))
    {
      if status != Disconnected {
        SetState(Disconnected, LinkLost);
      }
    }

    // ----- whole runs

    /** The caller calls, or the environment lets an await end or reports something. */
    method Happen(w: Runs.World, event: OtherEvent)
      requires State() == w.conn
      modifies this
      ensures State() == Runs.Step(w, event).conn
    {
      match event
      case Connect =>
        if Runs.AtRest(w.phase) {
          var _ := BeginConnect();
        }
      case Disconnect =>
        if Runs.AtRest(w.phase) {
          var mustEndLink := BeginDisconnect(client.Some? && client.value in w.up);
          if !mustEndLink {
            FinishDisconnect();
          }
        }
      case ClosingResult =>
        if w.phase.Closing? {
          FinishDisconnect();
        }
      case LinkDrops(_) =>
      case Callback(ended) =>
        if ended < w.clients && ended !in w.up {
          OnDisconnected(ended);
        }
      case Notification(handled, telemetry) =>
        if Runs.Notifies(w) {
          if telemetry {
            var _ := OnTelemetry(handled, true);
          } else if !handled {
            var _ := AddError(true);
          }
        }
      case _ => HandshakeContinues(w, event);
    }

    /** An await of `connect` ends. */
    method HandshakeContinues(w: Runs.World, event: OtherEvent)
      requires State() == w.conn
      requires event.LinkResult? || event.InfoResult? || event.TelemetryResult? || event.ConfigResult?
      modifies this
      ensures State() == Runs.Step(w, event).conn
    {
      match event
      case LinkResult(failure, alive, hasInfo) =>
        if w.phase.Linking? {
          if failure.Some? {
            var _ := OnFailure(failure.value, false);
          } else {
            var _ := OnLinkEstablished(w.clients, alive, hasInfo);
          }
        }
      case InfoResult(failure, _, _) =>
        if w.phase.ReadingInfo? {
          var _ := OnFailure(failure.value, w.phase.client in w.up);
        }
      case TelemetryResult(failure, hasConfig) =>
        if w.phase.SubscribingTelemetry? {
          var up := w.phase.client in w.up;
          if failure.Some? {
            var _ := OnFailure(failure.value, up);
          } else {
            var _ := OnTelemetrySubscribed(w.phase.client, up, hasConfig);
          }
        }
      case ConfigResult(failure) =>
        if w.phase.SubscribingConfig? {
          var _ := OnConfigSubscribed(w.phase.client, w.phase.client in w.up, failure);
        }
    }

    /** The read of the info block ends, and the key is searched for. */
    method InfoArrives(w: Runs.World, sample: Bytes, hasTelemetry: bool, device: Identity)
        returns (event: Runs.Event)
      requires State() == w.conn
      requires forall mac :: IsBijective(device.ciphers(mac))
      modifies this
      ensures Matches(w, ReadsInfo(sample, hasTelemetry), event, device)
      ensures State() == Runs.Step(w, event).conn
    {
      var adopted := None;
      if w.phase.ReadingInfo? {
        var _, found := OnInfoRead(
          w.phase.client, w.phase.client in w.up, sample, device.ciphers, device.address, device.hint, hasTelemetry);
        adopted := found;
      }
      event := Runs.InfoResult(None, adopted, hasTelemetry);
    }

    /**
     Any sequence of calls and of happenings in the environment takes the object through a run
     of `ConnectionRuns`, in which the key that is adopted is the first that opens the block
     read from the device. In particular a `connect` that raised has cleared the client and
     set the state of its exception.
     */
    method Drive(inputs: seq<Input>, device: Identity) returns (events: seq<Runs.Event>)
      requires State() == UNCONNECTED
      requires forall mac :: IsBijective(device.ciphers(mac))
      modifies this
      ensures |events| == |inputs|
      ensures forall i :: 0 <= i < |inputs| ==> Matches(Runs.Run(events[..i]), inputs[i], events[i], device)
      ensures State() == Runs.Run(events).conn
      ensures var w := Runs.Run(events);
              w.phase.Raised? ==> client.None? && status == w.phase.failure.Status()
    {
      hide Runs.Step, Matches;
      var w := Runs.NEW_WORLD;
      events := [];
      for i := 0 to |inputs|
        invariant |events| == i && w == Runs.Run(events) && State() == w.conn
        invariant forall j :: 0 <= j < i ==> Matches(Runs.Run(events[..j]), inputs[j], events[j], device)
      {
        var event := Perform(w, inputs[i], device);
        Runs.RunSnoc(events, event);
        w := Runs.Step(w, event);
        assert forall j :: 0 <= j < i ==> (events + [event])[..j] == events[..j];
        assert (events + [event])[..i] == events;
        events := events + [event];
      }
      if w.phase.Raised? {
        Runs.ConnectRaises(events);
      }
    }

    method Perform(w: Runs.World, input: Input, device: Identity) returns (event: Runs.Event)
      requires State() == w.conn
      requires forall mac :: IsBijective(device.ciphers(mac))
      modifies this
      ensures Matches(w, input, event, device)
      ensures State() == Runs.Step(w, event).conn
    {
      hide Runs.Step;
      match input
      case Happens(other) =>
        Happen(w, other);
        event := other;
      case ReadsInfo(sample, hasTelemetry) =>
        event := InfoArrives(w, sample, hasTelemetry, device);
    }
  }

  /** Everything that can happen, except that the info block was read. */
  type OtherEvent = e: Runs.Event | !(e.InfoResult? && e.failure.None?) witness Runs.Connect

  datatype Input = Happens(event: OtherEvent) | ReadsInfo(sample: Bytes, hasTelemetry: bool)

  /** The Bluetooth address, the address in the advertised name, and the ciphers of all keys. */
  datatype Identity = Identity(ciphers: KeySchedule, address: nat, hint: Option<Bytes>)

  /** The event is the input; a block that was read counts with the address whose key opens it. */
  ghost predicate Matches(w: Runs.World, input: Input, event: Runs.Event, device: Identity) {
    match input
    case Happens(other) => event == other
    case ReadsInfo(sample, hasTelemetry) =>
      && event.InfoResult? && event.failure.None? && event.hasTelemetry == hasTelemetry
      && (w.phase.ReadingInfo? && IsCurrent(w.conn, w.phase.client, w.phase.client in w.up) ==>
            IsFirstFitting(device.ciphers, Candidates(device.address, device.hint), sample, event.adopted))
  }
}
