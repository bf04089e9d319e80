/**
 What the connection does between two suspension points, as functions of its state.
 `Connection` implements them in place, `ConnectionRuns` composes them into runs.
 */
module ConnectionSpec {
  import opened Prelude

  datatype Status =
    | EstablishingConnection | Connected | EstablishingSession | SessionEstablished | Subscribing
    | Authenticated
    | ErrorTimeout | ErrorNotFound | ErrorBleak | ErrorUnsupportedProtocol | ErrorAuthFailed | ErrorTooManyErrors
    | Disconnecting | Disconnected
  {
    predicate IsError() {
      ErrorTimeout? || ErrorNotFound? || ErrorBleak? || ErrorUnsupportedProtocol? || ErrorAuthFailed? ||
          ErrorTooManyErrors?
    }

    predicate IsConnected() {
      Connected? || EstablishingSession? || SessionEstablished? || Subscribing?
    }

    /** `connect` returns at once in this state. */
    predicate BlocksConnect() {
      IsConnected() || EstablishingConnection? || Authenticated?
    }
  }

  /** The exceptions that go through `_fail`; `NotFound` is a kind of `Bleak` error. */
  datatype Failure = SessionKeyError | UnsupportedProtocol | TimeoutError | NotFoundError | BleakError
  {
    function Status(): Status {
      match this
      case SessionKeyError => ErrorAuthFailed
      case UnsupportedProtocol => ErrorUnsupportedProtocol
      case TimeoutError => ErrorTimeout
      case NotFoundError => ErrorNotFound
      case BleakError => ErrorBleak
    }

    predicate IsBleakError() {
      BleakError? || NotFoundError?
    }
  }

  /** A call of the `on_disconnect` listeners, with the exception it passes. */
  datatype Report = Failed(failure: Failure) | TooManyErrors | LinkLost

  const MAX_ERRORS_BEFORE_RECONNECT: nat := 5

  /**
   `client` is the current client, `cipher` the factory address the session cipher was
   derived from. `announced` and `reports` are the calls of the listeners so far.
   */
  datatype Conn = Conn(
    status: Status,
    client: Option<nat>,
    cipher: Option<Bytes>,
    errors: nat,
    announced: seq<Status>,
    reports: seq<Report>)

  const UNCONNECTED := Conn(Disconnected, None, None, 0, [], [])

  function Enter(c: Conn, status: Status): Conn {
    c.(status := status, announced := c.announced + [status])
  }

  /** How a stretch of `connect` ends: at the next await, returning, or raising after `_fail`. */
  datatype Ending = Awaits | Returns | Raises(failure: Failure)

  function Fail(c: Conn, failure: Failure): Conn {
    Enter(c, failure.Status()).(client := None, reports := c.reports + [Report.Failed(failure)])
  }

  /** The link of `client` is up and nobody reported its end: `_ensure_connected`. */
  predicate IsCurrent(c: Conn, client: nat, up: bool) {
    c.client == Some(client) && up
  }

  function Raise(c: Conn, failure: Failure): (Conn, Ending) {
    (Fail(c, failure), Raises(failure))
  }

  /** `establish_connection` returned `client`, up to the read of the info block. */
  function LinkEstablished(c: Conn, client: nat, up: bool, hasInfo: bool): (Conn, Ending) {
    var linked := c.(client := Some(client));
    if !up then Raise(linked, BleakError)
    else
      var session := Enter(Enter(linked, Connected).(errors := 0), EstablishingSession);
      if !hasInfo then Raise(session, UnsupportedProtocol) else (session, Awaits)
  }

  /** The info block was read; `adopted` is the address whose key opens it. */
  function InfoRead(c: Conn, client: nat, up: bool, adopted: Option<Bytes>, hasTelemetry: bool): (Conn, Ending) {
    if !IsCurrent(c, client, up) then Raise(c, BleakError)
    else if adopted.None? then Raise(c, SessionKeyError)
    else
      var subscribing := Enter(Enter(c.(cipher := adopted), SessionEstablished), Subscribing);
      if !hasTelemetry then Raise(subscribing, UnsupportedProtocol) else (subscribing, Awaits)
  }

  function Authenticate(c: Conn, client: nat, up: bool): (Conn, Ending) {
    if !IsCurrent(c, client, up) then Raise(c, BleakError) else (Enter(c, Authenticated), Returns)
  }

  /** The telemetry subscription succeeded; `hasConfig` if there is a configuration channel to subscribe. */
  function TelemetrySubscribed(c: Conn, client: nat, up: bool, hasConfig: bool): (Conn, Ending) {
    if !IsCurrent(c, client, up) then Raise(c, BleakError)
    else if hasConfig then (c, Awaits)
    else Authenticate(c, client, up)
  }

  /** The configuration subscription ended, with `failure` if it raised one. */
  function ConfigSubscribed(c: Conn, client: nat, up: bool, failure: Option<Failure>): (Conn, Ending) {
    if failure.Some? && !failure.value.IsBleakError() then Raise(c, failure.value)
    else Authenticate(c, client, up)
  }

  /** bleak reported the end of the link of `client`. */
  function LinkEnded(c: Conn, client: nat): Conn {
    if c.client != Some(client) then c
    else
      var cleared := c.(client := None);
      if c.status.EstablishingConnection? || c.status.IsConnected() || c.status.IsError() then cleared
      else Enter(cleared, Disconnected).(reports := c.reports + [LinkLost])
  }

  /** A notification could not be handled: `add_error`. */
  function ErrorAdded(c: Conn): Conn {
    if c.errors + 1 <= MAX_ERRORS_BEFORE_RECONNECT then c.(errors := c.errors + 1)
    else Enter(c, ErrorTooManyErrors).(errors := 0, reports := c.reports + [TooManyErrors])
  }

  /** `disconnect` up to the await of the client, if its link is up. */
  function DisconnectBegun(c: Conn, up: bool): Conn {
    var cleared := c.(client := None);
    if c.client.Some? && up then Enter(cleared, Disconnecting) else cleared
  }

  function DisconnectEnded(c: Conn): Conn {
    if c.status.Disconnected? then c else Enter(c, Disconnected)
  }
}
