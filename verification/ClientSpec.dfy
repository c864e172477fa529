/**
 * The client around its subscriptions, as a value: connection attempts, the adopted connection,
 * reconnection, refresh, suspension and identity switches. `StreamClients` runs the same steps on
 * objects.
 */
module ClientSpec {
  import opened Wrappers
  import opened SubscriptionSpec

  datatype ConnectionState = ClientIdle | Connecting | Connected | Reconnecting | AuthRequired | ClientDone

  datatype StreamError = StreamError(code: ErrorCode, retryable: bool)

  datatype AttemptKind = ForConnect | ForRefresh

  /** An opening of a connection: the generation it was started in, and its connection once the hello arrived. */
  datatype Attempt = Attempt(kind: AttemptKind, generation: nat, conn: Option<ConnId>)

  /** The subscriptions a client tracks, by ID. */
  type Subs = map<string, SubData>

  function AttachAll(subs: Subs, conn: ConnId, connected: bool): Subs {
    map id | id in subs :: subs[id].Attach(conn, connected)
  }

  function DetachAll(subs: Subs, why: Option<ErrorCode>): Subs {
    map id | id in subs :: subs[id].Detach(why)
  }

  /** A subscription that ended unregisters itself. */
  function Tracked(subs: Subs, id: string, s: SubData): Subs {
    if s.terminal then subs - {id} else subs[id := s]
  }

  /** Errors after which the client waits for an explicit reconnect(). */
  predicate Suspends(code: ErrorCode) {
    code == Unauthenticated || code == Forbidden || code == InvalidRequest || code == UnsupportedCapability
  }

  /** `up` and `keys` are the network's: the connections between hello and loss, and the identity each authenticated as. */
  datatype ClientData = ClientData(
    state: ConnectionState,
    connection: Option<ConnId>,
    identityKey: Option<string>,
    generation: nat,
    connecting: bool,
    suspended: bool,
    closed: bool,
    everConnected: bool,
    backoffAttempt: nat,
    lastError: Option<StreamError>,
    reconnectTimer: bool,
    subs: Subs,
    attempts: seq<Attempt>,
    up: set<ConnId>,
    keys: map<ConnId, string>)
  {
    // --- connections ------------------------------------------------------------------------

    /** A connection ends; its disconnect callback runs at once. */
    function Lose(conn: ConnId): ClientData {
      if conn in up then this.(up := up - {conn}).HandleDisconnect(conn) else this
    }

    function HandleDisconnect(conn: ConnId): ClientData {
      if connection != Some(conn) then this
      else
        var dropped := this.(
          connection := None,
          subs := DetachAll(subs, if lastError.None? then None else Some(lastError.value.code)));
        if closed then dropped else dropped.AfterDisconnect()
    }

    /** An authentication failure that cannot be retried waits; anything else reconnects, an expiry promptly. */
    function AfterDisconnect(): ClientData {
      if lastError.None? || lastError.value.code != Unauthenticated then ScheduleReconnect()
      else if !lastError.value.retryable then Suspend()
      else this.(backoffAttempt := 0).ScheduleReconnect()
    }

    function Suspend(): ClientData {
      this.(suspended := true, reconnectTimer := false, state := AuthRequired, subs := DetachAll(subs, Some(Unauthenticated)))
    }

    function ScheduleReconnect(): ClientData {
      if closed || suspended then this
      else if subs.Keys == {} then this.(reconnectTimer := false, state := ClientIdle)
      else this.(reconnectTimer := true, state := Reconnecting, backoffAttempt := backoffAttempt + 1)
    }

    /** Starts opening a connection in a new generation; any opening of an older one is superseded. */
    function Connect(explicit: bool): ClientData {
      if closed then this
      else
        this.(
          generation := generation + 1,
          connecting := true,
          state := if everConnected && !explicit then Reconnecting else Connecting,
          attempts := attempts + [Attempt(ForConnect, generation + 1, None)])
    }

    function Refresh(): ClientData {
      if closed || suspended || connection.None? then this
      else this.(attempts := attempts + [Attempt(ForRefresh, generation, None)])
    }

    function ConnectFailed(error: StreamError): ClientData {
      var failed := this.(lastError := Some(error));
      if Suspends(error.code) then failed.Suspend() else failed.ScheduleReconnect()
    }

    /** Makes an open connection the client's own: the previous one closes, another identity's subscriptions end. */
    function Adopt(conn: ConnId, key: string): ClientData {
      if closed then Lose(conn) else Replaced(conn).SwitchedTo(key).MarkedConnected(key).Attaching(conn)
    }

    function Replaced(conn: ConnId): ClientData {
      this.(
        connection := Some(conn),
        up := if connection.Some? && connection.value != conn then up - {connection.value} else up)
    }

    /** Never carry a previous user's view across an account switch. */
    function SwitchedTo(key: string): ClientData {
      if identityKey.None? || identityKey.value == key then this else this.(subs := map[])
    }

    function MarkedConnected(key: string): ClientData {
      this.(state := Connected, identityKey := Some(key), everConnected := true, backoffAttempt := 0, lastError := None)
    }

    function Attaching(conn: ConnId): ClientData {
      this.(subs := AttachAll(subs, conn, conn in up))
    }

    /** An opening failed, before its hello or because its connection was lost before the client took it up. */
    function OpenFailed(a: Attempt, error: StreamError): ClientData {
      if a.kind == ForRefresh || a.generation != generation then this
      else this.(connecting := false).ConnectFailed(error)
    }

    /** The opening's continuation runs: adopt its connection, or close it when it was superseded. */
    function Opened(a: Attempt, conn: ConnId, key: string): ClientData {
      if conn !in up then OpenFailed(a, StreamError(SourceUnavailable, true))
      else if a.generation != generation then Lose(conn)
      else if a.kind == ForRefresh && (closed || suspended) then Lose(conn)
      else Settled(a.kind).Adopt(conn, key)
    }

    /** The opening is taken up: a connect is no longer in progress, or a refresh starts a new generation. */
    function Settled(kind: AttemptKind): ClientData {
      match kind
      case ForConnect => this.(connecting := false)
      case ForRefresh => this.(generation := generation + 1)
    }

    // --- public calls -------------------------------------------------------------------------

    function Register(id: string, s: SubData): ClientData {
      if closed then this else this.(subs := subs[id := s]).Admit(id)
    }

    /** A newly tracked subscription waits for reconnect(), joins the adopted connection, or has one opened. */
    function Admit(id: string): ClientData
      requires id in subs
    {
      if suspended then this.(subs := subs[id := subs[id].Detach(Some(Unauthenticated))])
      else if connection.Some? && connection.value in up then this.(subs := subs[id := subs[id].Attach(connection.value, true)])
      else EnsureConnection()
    }

    function EnsureConnection(): ClientData {
      if closed || suspended || connecting || reconnectTimer || connection.Some? then this else Connect(false)
    }

    function Reconnect(): ClientData {
      if closed then this else ResetBackoff().Dropped().Connect(true)
    }

    function ResetBackoff(): ClientData {
      this.(suspended := false, lastError := None, backoffAttempt := 0, reconnectTimer := false)
    }

    /** Lets the adopted connection go, superseding every opening in flight. */
    function Dropped(): ClientData {
      if connection.None? then Superseding() else Superseding().Releasing(connection.value)
    }

    function Superseding(): ClientData {
      this.(connection := None, connecting := false, generation := generation + 1)
    }

    function Releasing(conn: ConnId): ClientData {
      this.(subs := DetachAll(subs, None), up := up - {conn})
    }

    function Close(): ClientData {
      if closed then this
      else this.(generation := generation + 1, closed := true, reconnectTimer := false, subs := map[]).Disconnected()
    }

    function Disconnected(): ClientData {
      this.(state := ClientDone, connection := None, up := if connection.Some? then up - {connection.value} else up)
    }

    function ReconnectTimerFired(): ClientData {
      if !reconnectTimer then this
      else if subs.Keys == {} then this.(reconnectTimer := false, state := ClientIdle)
      else this.(reconnectTimer := false).Connect(false)
    }

    // --- one subscription ---------------------------------------------------------------------

    /** Whether the connection the subscription is attached to is still up. */
    predicate ConnectedFor(s: SubData) {
      s.attached.Some? && s.attached.value in up
    }

    function OnSub(id: string, s: SubData): ClientData {
      this.(subs := Tracked(subs, id, s))
    }
  }

  const InitialClient: ClientData :=
    ClientData(ClientIdle, None, None, 0, false, false, false, false, 0, None, false, map[], [], {}, map[])

  // --- everything that can happen to a client ---------------------------------------------------

  /**
   * What the application, the timers, the network and the gateway may do. Frames come from connected
   * sockets only; answers may name any connection and any epoch. `at` numbers the openings in flight.
   */
  datatype ClientEvent =
    | Registering(id: string, contract: Contract)
    | CallReconnect
    | CallClose
    | ReconnectTimer
    | RefreshTimer
    | Hello(at: nat, conn: ConnId, key: string)
    | Failing(at: nat, error: StreamError)
    | Resuming(at: nat)
    | Dropping(conn: ConnId)
    | ConnectionError(conn: ConnId, error: StreamError)
    | StateArrives(id: string, conn: ConnId, stateFrame: StateFrame)
    | DataArrives(id: string, conn: ConnId, dataFrame: DataFrame, listenerThrows: bool)
    | SubscribeAnswered(id: string, conn: ConnId, answer: Answer)
    | ControlTimesOut(id: string, conn: ConnId)
    | ResyncGranted(id: string, conn: ConnId, asked: Option<string>)
    | ResyncDenied(id: string, conn: ConnId, asked: Option<string>, code: ErrorCode)
    | Retrying(id: string, retry: Retry)
    | CallResync(id: string)
    | CallUnsubscribe(id: string)
    | ListenerThrows(id: string)

  function Without<T>(s: seq<T>, i: nat): seq<T>
    requires i < |s|
  {
    s[..i] + s[i + 1..]
  }

  function ConnectionStep(c: ClientData, e: ClientEvent): ClientData {
    match e
    case Registering(id, contract) => if id in c.subs then c else c.Register(id, NewSubscription(contract))
    case CallReconnect => c.Reconnect()
    case CallClose => c.Close()
    case ReconnectTimer => c.ReconnectTimerFired()
    case RefreshTimer => c.Refresh()
    case Hello(at, conn, key) =>
      if at < |c.attempts| && c.attempts[at].conn.None? && conn !in c.keys then
        c.(attempts := c.attempts[at := c.attempts[at].(conn := Some(conn))], up := c.up + {conn}, keys := c.keys[conn := key])
      else c
    case Failing(at, error) =>
      if at < |c.attempts| && c.attempts[at].conn.None?
      then c.(attempts := Without(c.attempts, at)).OpenFailed(c.attempts[at], error)
      else c
    case Resuming(at) =>
      if at < |c.attempts| && c.attempts[at].conn.Some? && c.attempts[at].conn.value in c.keys then
        var conn := c.attempts[at].conn.value;
        c.(attempts := Without(c.attempts, at)).Opened(c.attempts[at], conn, c.keys[conn])
      else c
    case Dropping(conn) => c.Lose(conn)
    case ConnectionError(conn, error) => if c.connection == Some(conn) then c.(lastError := Some(error)) else c
    case _ => c
  }

  function SubscriptionStep(c: ClientData, id: string, e: ClientEvent): ClientData
    requires id in c.subs
  {
    var s := c.subs[id];
    match e
    case StateArrives(_, conn, frame) =>
      if conn in c.up && c.connection == Some(conn) then c.OnSub(id, s.HandleState(conn, frame)) else c
    case DataArrives(_, conn, frame, throws) =>
      if conn in c.up && c.connection == Some(conn) then c.OnSub(id, s.HandleData(conn, true, frame, throws)) else c
    case SubscribeAnswered(_, conn, answer) => c.OnSub(id, s.SubscribeSettled(conn, answer))
    case ControlTimesOut(_, conn) =>
      // The connection is replaced instead of retrying on it.
      if s.attached == Some(conn) && c.connection == Some(conn) then c.Lose(conn) else c
    case ResyncGranted(_, conn, asked) => c.OnSub(id, s.ResyncAcknowledged(conn, asked))
    case ResyncDenied(_, conn, asked, code) => c.OnSub(id, s.ResyncRefused(conn, conn in c.up, asked, code))
    case Retrying(_, retry) => c.OnSub(id, s.RetryFired(retry, c.ConnectedFor(s)))
    case CallResync(_) => c.OnSub(id, s.Resynchronize(c.ConnectedFor(s), c.suspended))
    case CallUnsubscribe(_) => c.OnSub(id, s.UnsubscribeNow(c.ConnectedFor(s)))
    case ListenerThrows(_) => c.OnSub(id, s.ListenerFailed(c.ConnectedFor(s)))
    case _ => c
  }

  predicate OfSubscription(e: ClientEvent) {
    match e
    case StateArrives(_, _, _) => true
    case DataArrives(_, _, _, _) => true
    case SubscribeAnswered(_, _, _) => true
    case ControlTimesOut(_, _) => true
    case ResyncGranted(_, _, _) => true
    case ResyncDenied(_, _, _, _) => true
    case Retrying(_, _) => true
    case CallResync(_) => true
    case CallUnsubscribe(_) => true
    case ListenerThrows(_) => true
    case _ => false
  }

  function ClientStep(c: ClientData, e: ClientEvent): ClientData {
    if OfSubscription(e) then (if e.id in c.subs then SubscriptionStep(c, e.id, e) else c)
    else ConnectionStep(c, e)
  }

  function ClientRun(c: ClientData, events: seq<ClientEvent>): ClientData
    decreases |events|
  {
    if events == [] then c else ClientRun(ClientStep(c, events[0]), events[1..])
  }
}
