/**
 * The client object: it owns one connection at a time and the subscriptions it tracks. Each method
 * does to those objects what the function of `ClientSpec` that its postcondition names does to
 * their values.
 */
module StreamClients {
  import opened Wrappers
  import opened SubscriptionSpec
  import opened ClientSubscriptions
  import opened ClientSpec

  /** An opening in flight; `connection` is null until its hello arrived. */
  datatype Opening = Opening(kind: AttemptKind, generation: nat, connection: Connection?)

  function AttemptOf(o: Opening): Attempt {
    Attempt(o.kind, o.generation, if o.connection == null then None else Some(o.connection.id))
  }

  function AttemptsOf(openings: seq<Opening>): (attempts: seq<Attempt>)
    ensures |attempts| == |openings|
    ensures forall i :: 0 <= i < |openings| ==> attempts[i] == AttemptOf(openings[i])
  {
    seq(|openings|, i requires 0 <= i < |openings| => AttemptOf(openings[i]))
  }

  /** The subscriptions with all detached but those still to do. */
  ghost function DetachedBut(subs: Subs, todo: set<string>, why: Option<ErrorCode>): Subs {
    map id | id in subs :: if id in todo then subs[id] else subs[id].Detach(why)
  }

  lemma OneMoreDetached(subs: Subs, todo: set<string>, id: string, why: Option<ErrorCode>)
    requires id in todo && id in subs
    ensures DetachedBut(subs, todo, why)[id := subs[id].Detach(why)] == DetachedBut(subs, todo - {id}, why)
  {
  }

  ghost function AttachedBut(subs: Subs, todo: set<string>, conn: ConnId, connected: bool): Subs {
    map id | id in subs :: if id in todo then subs[id] else subs[id].Attach(conn, connected)
  }

  lemma OneMoreAttached(subs: Subs, todo: set<string>, id: string, conn: ConnId, connected: bool)
    requires id in todo && id in subs
    ensures AttachedBut(subs, todo, conn, connected)[id := subs[id].Attach(conn, connected)] == AttachedBut(subs, todo - {id}, conn, connected)
  {
  }

  class StreamClient {
    var state: ConnectionState
    var connection: Connection?
    var identityKey: Option<string>
    var generation: nat
    var connecting: bool
    var suspended: bool
    var closed: bool
    var everConnected: bool
    var backoffAttempt: nat
    var lastError: Option<StreamError>
    var reconnectTimer: bool
    var subscriptions: map<string, ClientSubscription>
    var openings: seq<Opening>
    /** Every connection that completed its handshake. */
    ghost var sockets: set<Connection>

    ghost predicate Valid()
      reads this`connection, this`openings, this`sockets, this`subscriptions, subscriptions.Values
    {
      && (connection != null ==> connection in sockets)
      && (forall o :: o in openings && o.connection != null ==> o.connection in sockets)
      && (forall c, c' :: c in sockets && c' in sockets && c.id == c'.id ==> c == c')
      && (forall id :: id in subscriptions ==>
            && subscriptions[id].id == id
            && (subscriptions[id].attached != null ==> subscriptions[id].attached in sockets))
    }

    ghost function SubsData(): Subs
      reads this`subscriptions, subscriptions.Values
    {
      map id | id in subscriptions :: subscriptions[id].Data()
    }

    ghost function Up(): set<ConnId>
      reads this`sockets, sockets
    {
      set c | c in sockets && c.connected :: c.id
    }

    ghost function Keys(): map<ConnId, string>
      reads this`sockets
    {
      map id | id in (set c | c in sockets :: c.id) :: KeyOf(id)
    }

    ghost function KeyOf(id: ConnId): string
      requires exists c :: c in sockets && c.id == id
      reads this`sockets
    {
      var c :| c in sockets && c.id == id;
      c.identityKey
    }

    ghost function Data(): ClientData
      reads this, subscriptions.Values, sockets
    {
      ClientData(state, if connection == null then None else Some(connection.id), identityKey, generation, connecting,
                 suspended, closed, everConnected, backoffAttempt, lastError, reconnectTimer, SubsData(),
                 AttemptsOf(openings), Up(), Keys())
    }

    constructor ()
      ensures Valid() && Data() == InitialClient
    {
      state, connection, identityKey, generation := ClientIdle, null, None, 0;
      connecting, suspended, closed, everConnected := false, false, false, false;
      backoffAttempt, lastError, reconnectTimer := 0, None, false;
      subscriptions, openings, sockets := map[], [], {};
    }

    /** What a method that changes only fields of the client itself leaves alone. */
    twostate lemma PartsStay()
      requires sockets == old(sockets) && subscriptions == old(subscriptions)
      requires forall s <- subscriptions.Values :: unchanged(s)
      requires forall c <- sockets :: unchanged(c)
      ensures SubsData() == old(SubsData()) && Up() == old(Up()) && Keys() == old(Keys())
      ensures old(Valid()) && connection == old(connection) && openings == old(openings) ==> Valid()
    {
    }

    // --- all the subscriptions ---------------------------------------------------------------

    method DetachOne(id: string, why: Option<ErrorCode>)
      requires Valid() && id in subscriptions
      modifies subscriptions[id]
      ensures Valid()
      ensures SubsData() == old(SubsData())[id := old(SubsData())[id].Detach(why)]
    {
      subscriptions[id].Detach(why);
    }

    method AttachOne(id: string, to: Connection)
      requires Valid() && id in subscriptions && to in sockets
      modifies subscriptions[id]
      ensures Valid()
      ensures SubsData() == old(SubsData())[id := old(SubsData())[id].Attach(to.id, to.connected)]
    {
      subscriptions[id].Attach(to);
    }

    method DetachAll(why: Option<ErrorCode>)
      requires Valid()
      modifies subscriptions.Values
      ensures Valid()
      ensures SubsData() == ClientSpec.DetachAll(old(SubsData()), why)
    {
      ghost var before := SubsData();
      var todo := subscriptions.Keys;
      while todo != {}
        invariant todo <= subscriptions.Keys
        invariant Valid()
        invariant SubsData() == DetachedBut(before, todo, why)
        decreases todo
      {
        var id :| id in todo;
        DetachOne(id, why);
        OneMoreDetached(before, todo, id, why);
        todo := todo - {id};
      }
      assert DetachedBut(before, {}, why) == ClientSpec.DetachAll(before, why);
    }

    method AttachAll(to: Connection)
      requires Valid() && to in sockets
      modifies subscriptions.Values
      ensures Valid()
      ensures SubsData() == ClientSpec.AttachAll(old(SubsData()), to.id, to.connected)
      ensures Up() == old(Up()) && Keys() == old(Keys())
    {
      ghost var before := SubsData();
      var todo := subscriptions.Keys;
      while todo != {}
        invariant todo <= subscriptions.Keys
        invariant Valid()
        invariant SubsData() == AttachedBut(before, todo, to.id, to.connected)
        decreases todo
      {
        var id :| id in todo;
        AttachOne(id, to);
        OneMoreAttached(before, todo, id, to.id, to.connected);
        todo := todo - {id};
      }
      assert AttachedBut(before, {}, to.id, to.connected) == ClientSpec.AttachAll(before, to.id, to.connected);
    }

    // --- connections ---------------------------------------------------------------------------

    /** A connection ends; its disconnect callback runs at once. */
    method Lose(conn: Connection)
      requires Valid() && conn in sockets
      modifies this, subscriptions.Values, conn`connected
      ensures Valid() && Data() == old(Data()).Lose(conn.id)
      ensures sockets == old(sockets) && subscriptions == old(subscriptions)
    {
      if !conn.connected {
        assert conn.id !in Up();
        return;
      }
      conn.connected := false;
      assert Up() == old(Up()) - {conn.id};
      HandleDisconnect(conn);
    }

    method HandleDisconnect(conn: Connection)
      requires Valid() && conn in sockets
      modifies this, subscriptions.Values
      ensures Valid() && Data() == old(Data()).HandleDisconnect(conn.id)
      ensures sockets == old(sockets) && subscriptions == old(subscriptions)
    {
      if connection != conn {
        return;
      }
      LetGo();
      if !closed {
        AfterDisconnect();
      }
    }

    /** The adopted connection is gone, and every subscription with it. */
    method LetGo()
      requires Valid()
      modifies this`connection, subscriptions.Values
      ensures Valid() && sockets == old(sockets) && subscriptions == old(subscriptions)
      ensures Data() == old(Data()).(connection := None,
                subs := ClientSpec.DetachAll(old(Data()).subs, if lastError.None? then None else Some(lastError.value.code)))
    {
      var why := if lastError.None? then None else Some(lastError.value.code);
      connection := null;
      assert SubsData() == old(SubsData());
      DetachAll(why);
      assert Up() == old(Up()) && Keys() == old(Keys());
      assert Data() == old(Data()).(connection := None, subs := SubsData());
    }

    /** An authentication failure that cannot be retried waits; anything else reconnects. */
    method AfterDisconnect()
      requires Valid() && !closed
      modifies this`suspended, this`reconnectTimer, this`state, this`backoffAttempt, subscriptions.Values
      ensures Valid()
      ensures Data() == old(Data()).AfterDisconnect()
    {
      if lastError.None? || lastError.value.code != Unauthenticated {
        ScheduleReconnect();
      } else if !lastError.value.retryable {
        Suspend();
      } else {
        backoffAttempt := 0;
        assert SubsData() == old(SubsData()) && Up() == old(Up()) && Keys() == old(Keys());
        assert Data() == old(Data()).(backoffAttempt := 0);
        ScheduleReconnect();
      }
    }

    /** Waits for an explicit reconnect(). */
    method Suspend()
      requires Valid()
      modifies this`suspended, this`reconnectTimer, this`state, subscriptions.Values
      ensures Valid() && Data() == old(Data()).Suspend()
    {
      suspended := true;
      reconnectTimer := false;
      state := AuthRequired;
      assert SubsData() == old(SubsData());
      DetachAll(Some(Unauthenticated));
      assert Up() == old(Up()) && Keys() == old(Keys());
    }

    method ScheduleReconnect()
      requires Valid()
      modifies this`reconnectTimer, this`state, this`backoffAttempt
      ensures Valid() && Data() == old(Data()).ScheduleReconnect()
    {
      if closed || suspended {
        return;
      }
      assert SubsData().Keys == subscriptions.Keys;
      if subscriptions.Keys == {} {
        GoIdle();
      } else {
        ArmReconnect();
      }
    }

    /** Nothing is tracked: no reconnection is wanted. */
    method GoIdle()
      requires Valid()
      modifies this`reconnectTimer, this`state
      ensures Valid() && Data() == old(Data()).(reconnectTimer := false, state := ClientIdle)
    {
      reconnectTimer := false;
      state := ClientIdle;
      PartsStay();
    }

    method ArmReconnect()
      requires Valid()
      modifies this`reconnectTimer, this`state, this`backoffAttempt
      ensures Valid() && Data() == old(Data()).(reconnectTimer := true, state := Reconnecting, backoffAttempt := old(backoffAttempt) + 1)
    {
      state := Reconnecting;
      backoffAttempt := backoffAttempt + 1;
      reconnectTimer := true;
      PartsStay();
    }

    /** Starts opening a connection in a new generation; any opening of an older one is superseded. */
    method Connect(explicit: bool)
      requires Valid()
      modifies this`generation, this`connecting, this`state, this`openings
      ensures Valid() && Data() == old(Data()).Connect(explicit)
    {
      if closed {
        return;
      }
      generation := generation + 1;
      connecting := true;
      state := if everConnected && !explicit then Reconnecting else Connecting;
      openings := openings + [Opening(ForConnect, generation, null)];
      assert AttemptsOf(openings) == AttemptsOf(old(openings)) + [Attempt(ForConnect, generation, None)];
      PartsStay();
    }

    /** The refresh timer: opens a freshly authenticated connection to replace the adopted one. */
    method Refresh()
      requires Valid()
      modifies this`openings
      ensures Valid() && Data() == old(Data()).Refresh()
    {
      if closed || suspended || connection == null {
        return;
      }
      openings := openings + [Opening(ForRefresh, generation, null)];
      assert AttemptsOf(openings) == AttemptsOf(old(openings)) + [Attempt(ForRefresh, generation, None)];
      PartsStay();
    }

    method ConnectFailed(error: StreamError)
      requires Valid()
      modifies this`lastError, this`suspended, this`reconnectTimer, this`state, this`backoffAttempt, subscriptions.Values
      ensures Valid() && Data() == old(Data()).ConnectFailed(error)
    {
      lastError := Some(error);
      PartsStay();
      assert Data() == old(Data()).(lastError := Some(error));
      if Suspends(error.code) {
        Suspend();
      } else {
        ScheduleReconnect();
      }
    }

    /** An opening failed, before its hello or because its connection was lost before the client took it up. */
    method OpenFailed(o: Opening, error: StreamError)
      requires Valid()
      modifies this`connecting, this`lastError, this`suspended, this`reconnectTimer, this`state, this`backoffAttempt,
               subscriptions.Values
      ensures Valid() && Data() == old(Data()).OpenFailed(AttemptOf(o), error)
    {
      if o.kind == ForRefresh || o.generation != generation {
        return;
      }
      connecting := false;
      PartsStay();
      assert Data() == old(Data()).(connecting := false);
      ConnectFailed(error);
    }

    /** Makes an open connection the client's own. */
    method Adopt(conn: Connection)
      requires Valid() && conn in sockets
      modifies this, subscriptions.Values, sockets
      ensures Valid() && Data() == old(Data()).Adopt(conn.id, conn.identityKey)
      ensures sockets == old(sockets)
    {
      if closed {
        Lose(conn);
        return;
      }
      Replace(conn);
      SwitchTo(conn.identityKey);
      MarkConnected(conn.identityKey);
      AttachAll(conn);
      assert conn.connected <==> conn.id in Up();
    }

    /** The connection becomes the client's, and the previous one closes. */
    method Replace(conn: Connection)
      requires Valid() && conn in sockets
      modifies this`connection, sockets
      ensures Valid() && connection == conn
      ensures Data() == old(Data()).Replaced(conn.id)
    {
      var previous := connection;
      connection := conn;
      if previous != null && previous != conn {
        CloseSuperseded(previous);
      }
      assert SubsData() == old(SubsData()) && Keys() == old(Keys());
    }

    /** Never carry a previous user's view across an account switch. */
    method SwitchTo(key: string)
      requires Valid()
      modifies this`subscriptions, subscriptions.Values
      ensures Valid() && Data() == old(Data()).SwitchedTo(key)
      ensures subscriptions.Values <= old(subscriptions.Values)
    {
      if identityKey.Some? && key != identityKey.value {
        TerminateAll(Unauthenticated);
        assert Up() == old(Up()) && Keys() == old(Keys());
      }
    }

    method MarkConnected(key: string)
      requires Valid()
      modifies this`identityKey, this`everConnected, this`backoffAttempt, this`lastError, this`state
      ensures Valid() && Data() == old(Data()).MarkedConnected(key)
    {
      identityKey := Some(key);
      everConnected := true;
      backoffAttempt := 0;
      lastError := None;
      state := Connected;
      PartsStay();
    }

    /** Closing a connection that is no longer the client's: its disconnect callback finds nothing to do. */
    method CloseSuperseded(previous: Connection)
      requires Valid() && previous in sockets && connection != previous
      modifies previous`connected
      ensures Valid() && Up() == old(Up()) - {previous.id}
    {
      previous.connected := false;
    }

    /** Never carry a view across an account switch, or past the client's own end. */
    method TerminateAll(why: ErrorCode)
      requires Valid()
      modifies this`subscriptions, subscriptions.Values
      ensures Valid() && subscriptions == map[] && SubsData() == map[]
      ensures forall s :: s in old(subscriptions.Values) ==> s.terminal
    {
      var todo := subscriptions.Keys;
      while todo != {}
        invariant todo <= subscriptions.Keys && subscriptions == old(subscriptions)
        invariant Valid()
        invariant forall id :: id in subscriptions && id !in todo ==> subscriptions[id].terminal
        decreases todo
      {
        var id :| id in todo;
        subscriptions[id].Terminate(Closed, Some(why));
        todo := todo - {id};
      }
      subscriptions := map[];
    }

    /** The opening's continuation runs: adopt its connection, or close it when it was superseded. */
    method Opened(o: Opening)
      requires Valid() && o.connection != null && o.connection in sockets
      modifies this, subscriptions.Values, sockets
      ensures Valid() && Data() == old(Data()).Opened(AttemptOf(o), o.connection.id, o.connection.identityKey)
    {
      var conn := o.connection;
      assert conn.connected <==> conn.id in Up();
      if !conn.connected {
        OpenFailed(o, StreamError(SourceUnavailable, true));
        return;
      }
      if o.generation != generation || (o.kind == ForRefresh && (closed || suspended)) {
        Lose(conn);
        return;
      }
      Settle(o.kind);
      Adopt(conn);
    }

    /** The opening is taken up: an older connect is no longer in progress, or a refresh starts a new generation. */
    method Settle(kind: AttemptKind)
      requires Valid()
      modifies this`connecting, this`generation
      ensures Valid()
      ensures Data() == old(Data()).Settled(kind)
    {
      if kind == ForConnect {
        connecting := false;
      } else {
        generation := generation + 1;
      }
      assert SubsData() == old(SubsData()) && Up() == old(Up()) && Keys() == old(Keys());
    }

    // --- public API --------------------------------------------------------------------------------

    /** Tracks a new subscription and attaches it to the adopted connection, or starts connecting. */
    method Register(s: ClientSubscription)
      requires Valid() && s.id !in subscriptions && s !in subscriptions.Values
      requires s.attached == null
      modifies this, s
      ensures Valid() && Data() == old(Data()).Register(s.id, old(s.Data()))
    {
      if closed {
        return;
      }
      Track(s);
      Admit(s);
    }

    method Admit(s: ClientSubscription)
      requires Valid() && s.id in subscriptions && subscriptions[s.id] == s
      modifies this`generation, this`connecting, this`state, this`openings, s
      ensures Valid() && Data() == old(Data()).Admit(s.id)
    {
      if suspended {
        DetachOne(s.id, Some(Unauthenticated));
        assert Up() == old(Up()) && Keys() == old(Keys());
      } else if connection != null && connection.connected {
        assert connection.id in Up();
        AttachOne(s.id, connection);
        assert Up() == old(Up()) && Keys() == old(Keys());
      } else {
        assert connection != null ==> connection.id !in Up();
        EnsureConnection();
      }
    }

    method EnsureConnection()
      requires Valid()
      modifies this`generation, this`connecting, this`state, this`openings
      ensures Valid() && Data() == old(Data()).EnsureConnection()
    {
      if closed || suspended || connecting || reconnectTimer {
        return;
      }
      if connection != null {
        return;
      }
      Connect(false);
    }

    method Track(s: ClientSubscription)
      requires Valid() && s.id !in subscriptions && s !in subscriptions.Values && s.attached == null
      modifies this`subscriptions
      ensures Valid() && subscriptions == old(subscriptions)[s.id := s]
      ensures Data() == old(Data()).(subs := old(SubsData())[s.id := s.Data()])
    {
      subscriptions := subscriptions[s.id := s];
      assert SubsData() == old(SubsData())[s.id := s.Data()];
      assert Up() == old(Up()) && Keys() == old(Keys());
    }

    /** Stops tracking a subscription that ended. */
    method Unregister(id: string)
      requires Valid()
      modifies this`subscriptions
      ensures Valid() && Data() == old(Data()).(subs := old(SubsData()) - {id})
    {
      subscriptions := subscriptions - {id};
      assert SubsData() == old(SubsData()) - {id};
      assert Up() == old(Up()) && Keys() == old(Keys());
    }

    /** Replaces the connection and recreates the subscriptions on a new one. */
    method Reconnect()
      requires Valid()
      modifies this, subscriptions.Values, sockets
      ensures Valid() && Data() == old(Data()).Reconnect()
    {
      if closed {
        return;
      }
      ResetBackoff();
      Drop();
      Connect(true);
    }

    method ResetBackoff()
      requires Valid()
      modifies this`suspended, this`lastError, this`backoffAttempt, this`reconnectTimer
      ensures Valid() && Data() == old(Data()).ResetBackoff()
    {
      suspended := false;
      lastError := None;
      backoffAttempt := 0;
      reconnectTimer := false;
      PartsStay();
    }

    /** Lets the adopted connection go, superseding every opening in flight. */
    method Drop()
      requires Valid()
      modifies this`connection, this`connecting, this`generation, sockets, subscriptions.Values
      ensures Valid() && Data() == old(Data()).Dropped()
    {
      var previous := connection;
      Supersede();
      if previous != null {
        CloseSuperseded(previous);
        assert SubsData() == old(SubsData()) && Keys() == old(Keys());
        DetachAll(None);
        assert Up() == old(Up()) - {previous.id} && Keys() == old(Keys());
      }
    }

    method Supersede()
      requires Valid()
      modifies this`connection, this`connecting, this`generation
      ensures Valid() && connection == null && Data() == old(Data()).Superseding()
    {
      connection := null;
      connecting := false;
      generation := generation + 1;
      PartsStay();
    }

    /** Ends every subscription locally and drops the connection. */
    method Close()
      requires Valid()
      modifies this, subscriptions.Values, sockets
      ensures Valid() && Data() == old(Data()).Close()
    {
      if closed {
        return;
      }
      closed := true;
      generation := generation + 1;
      reconnectTimer := false;
      TerminateAll(ClientClosed);
      assert Up() == old(Up()) && Keys() == old(Keys());
      assert Data() == old(Data()).(generation := old(generation) + 1, closed := true, reconnectTimer := false, subs := map[]);
      Disconnect();
    }

    method Disconnect()
      requires Valid()
      modifies this`state, this`connection, sockets
      ensures Valid() && Data() == old(Data()).Disconnected()
    {
      var previous := connection;
      connection := null;
      if previous != null {
        CloseSuperseded(previous);
      }
      state := ClientDone;
      assert SubsData() == old(SubsData()) && Keys() == old(Keys());
    }

    method ReconnectTimerFired()
      requires Valid() && reconnectTimer
      modifies this`reconnectTimer, this`state, this`generation, this`connecting, this`openings
      ensures Valid() && Data() == old(Data()).ReconnectTimerFired()
    {
      reconnectTimer := false;
      PartsStay();
      assert SubsData().Keys == subscriptions.Keys;
      if subscriptions.Keys == {} {
        state := ClientIdle;
        return;
      }
      assert Data() == old(Data()).(reconnectTimer := false);
      Connect(false);
    }

    // --- frames --------------------------------------------------------------------------------------

    /** Routes a state frame of the adopted connection to its subscription. */
    method RouteState(conn: Connection, id: string, frame: StateFrame)
      requires Valid() && conn in sockets && conn.connected && id in subscriptions
      modifies this`subscriptions, subscriptions[id]
      ensures Valid()
      ensures Data() == if connection == conn then old(Data()).OnSub(id, old(SubsData())[id].HandleState(conn.id, frame)) else old(Data())
    {
      if conn != connection {
        return;
      }
      ghost var before, after := Data(), SubsData()[id].HandleState(conn.id, frame);
      GiveState(conn, id, frame);
      UnregisterIfOver(id, before, after);
    }

    method GiveState(conn: Connection, id: string, frame: StateFrame)
      requires Valid() && conn in sockets && id in subscriptions
      modifies subscriptions[id]
      ensures Valid()
      ensures Data() == old(Data()).(subs := old(Data()).subs[id := old(SubsData())[id].HandleState(conn.id, frame)])
    {
      var s := subscriptions[id];
      ghost var before, after := SubsData(), s.Data().HandleState(conn.id, frame);
      s.HandleState(conn, frame);
      assert s.Data() == after;
      assert SubsData() == before[id := after];
      assert Up() == old(Up()) && Keys() == old(Keys());
    }

    /** Routes a data frame of the adopted connection to its subscription. */
    method RouteData(conn: Connection, id: string, frame: DataFrame, listenerThrows: bool)
      requires Valid() && conn in sockets && conn.connected && id in subscriptions
      modifies this`subscriptions, subscriptions[id]
      ensures Valid()
      ensures Data() == if connection == conn then old(Data()).OnSub(id, old(SubsData())[id].HandleData(conn.id, true, frame, listenerThrows)) else old(Data())
    {
      if conn != connection {
        return;
      }
      ghost var before, after := Data(), SubsData()[id].HandleData(conn.id, true, frame, listenerThrows);
      GiveData(conn, id, frame, listenerThrows);
      UnregisterIfOver(id, before, after);
    }

    method GiveData(conn: Connection, id: string, frame: DataFrame, listenerThrows: bool)
      requires Valid() && conn in sockets && id in subscriptions
      modifies subscriptions[id]
      ensures Valid()
      ensures Data() == old(Data()).(subs := old(Data()).subs[id := old(SubsData())[id].HandleData(conn.id, conn.connected, frame, listenerThrows)])
    {
      var s := subscriptions[id];
      ghost var before, after := SubsData(), s.Data().HandleData(conn.id, conn.connected, frame, listenerThrows);
      s.HandleData(conn, frame, listenerThrows);
      assert s.Data() == after;
      assert SubsData() == before[id := after];
      assert Up() == old(Up()) && Keys() == old(Keys());
    }

    /** After a subscription's step: it unregisters itself if it ended. */
    method UnregisterIfOver(id: string, ghost before: ClientData, ghost s: SubData)
      requires Valid() && id in subscriptions
      requires Data() == before.(subs := before.subs[id := s])
      modifies this`subscriptions
      ensures Valid() && Data() == before.OnSub(id, s)
    {
      assert SubsData()[id] == s;
      if subscriptions[id].terminal {
        Unregister(id);
        assert before.subs[id := s] - {id} == before.subs - {id};
      }
    }

    /** An unanswered control request: the adopted connection is closed, so reconnection rebuilds it. */
    method ControlTimedOut(conn: Connection)
      requires Valid() && conn in sockets
      modifies this, subscriptions.Values, conn`connected
      ensures Valid()
      ensures Data() == if old(connection) == conn then old(Data()).Lose(conn.id) else old(Data())
    {
      if conn != connection {
        return;
      }
      Lose(conn);
    }
  }
}
