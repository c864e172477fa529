/**
 * How a client comes to be stranded: a refresh is taken up while a connect of the same generation is
 * still opening. The connect is then superseded, and `connecting` stays set.
 */
module ReconnectionGap {
  import opened Wrappers
  import opened SubscriptionSpec
  import opened ClientSpec
  import opened Reconnection

  /** A refreshed connection is taken up while a connect is in progress. */
  predicate Overtakes(c: ClientData, e: ClientEvent) {
    && e.Resuming? && e.at < |c.attempts| && c.attempts[e.at].kind == ForRefresh && c.attempts[e.at].generation == c.generation
    && c.attempts[e.at].conn.Some? && c.attempts[e.at].conn.value in c.up && c.attempts[e.at].conn.value in c.keys
    && !c.closed && !c.suspended && c.connecting
  }

  /** While `connecting` is set, a connect of the current generation is opening. */
  predicate Tracking(c: ClientData) {
    c.closed || !c.connecting || InFlight(c)
  }

  lemma OpenFailedTracks(c: ClientData, at: nat, error: StreamError)
    requires Tracking(c) && at < |c.attempts|
    ensures Tracking(c.(attempts := Without(c.attempts, at)).OpenFailed(c.attempts[at], error))
  {
    if c.attempts[at].kind == ForRefresh || c.attempts[at].generation != c.generation { TakenOut(c, at); }
  }

  lemma LoseTracks(c: ClientData, conn: ConnId)
    ensures var c' := c.Lose(conn);
      c'.generation == c.generation && c'.attempts == c.attempts && c'.connecting == c.connecting && c'.closed == c.closed
  {
    if conn in c.up && c.connection == Some(conn) && !c.closed {
      var why := if c.lastError.None? then None else Some(c.lastError.value.code);
      AfterTracks(c.(up := c.up - {conn}, connection := None, subs := DetachAll(c.subs, why)));
    }
  }

  lemma AfterTracks(c: ClientData)
    ensures var c' := c.AfterDisconnect();
      c'.generation == c.generation && c'.attempts == c.attempts && c'.connecting == c.connecting && c'.closed == c.closed
  {
  }

  lemma AdoptTracks(c: ClientData, conn: ConnId, key: string)
    ensures var c' := c.Adopt(conn, key);
      c'.generation == c.generation && c'.attempts == c.attempts && c'.connecting == c.connecting && c'.closed == c.closed
  {
    if c.closed { LoseTracks(c, conn); }
  }

  lemma ResumingTracks(c: ClientData, at: nat)
    requires Tracking(c) && !Overtakes(c, Resuming(at))
    requires at < |c.attempts| && c.attempts[at].conn.Some? && c.attempts[at].conn.value in c.keys
    ensures Tracking(ConnectionStep(c, Resuming(at)))
  {
    var a, taken := c.attempts[at], c.(attempts := Without(c.attempts, at));
    var conn := a.conn.value;
    if conn !in c.up {
      OpenFailedTracks(c, at, StreamError(SourceUnavailable, true));
    } else if a.generation != c.generation || (a.kind == ForRefresh && (c.closed || c.suspended)) {
      TakenOut(c, at);
      LoseTracks(taken, conn);
    } else {
      AdoptTracks(taken.Settled(a.kind), conn, c.keys[conn]);
    }
  }

  lemma RegisterTracked(c: ClientData, id: string, s: SubData)
    requires Tracking(c)
    ensures Tracking(c.Register(id, s))
  {
    ConnectOpens(c.(subs := c.subs[id := s]), false);
  }

  lemma CallsTrack(c: ClientData, e: ClientEvent)
    requires Tracking(c) && (e.Registering? || e.CallReconnect? || e.ReconnectTimer? || e.RefreshTimer?)
    ensures Tracking(ConnectionStep(c, e))
  {
    match e
    case Registering(id, contract) => if id !in c.subs { RegisterTracked(c, id, NewSubscription(contract)); }
    case CallReconnect => ConnectOpens(c.ResetBackoff().Dropped(), true);
    case ReconnectTimer => ConnectOpens(c.(reconnectTimer := false), false);
    case RefreshTimer => SameOpenings(c, c.Refresh());
  }

  lemma ConnectionStepTracks(c: ClientData, e: ClientEvent)
    requires Tracking(c) && !Overtakes(c, e) && !OfSubscription(e)
    ensures Tracking(ConnectionStep(c, e))
  {
    match e
    case Hello(at, conn, key) => SameOpenings(c, ConnectionStep(c, e));
    case Failing(at, error) => if at < |c.attempts| && c.attempts[at].conn.None? { OpenFailedTracks(c, at, error); }
    case Resuming(at) => if at < |c.attempts| && c.attempts[at].conn.Some? && c.attempts[at].conn.value in c.keys { ResumingTracks(c, at); }
    case Dropping(conn) => LoseTracks(c, conn);
    case CallClose =>
    case ConnectionError(conn, error) =>
    case _ => CallsTrack(c, e);
  }

  lemma StepTracks(c: ClientData, e: ClientEvent)
    requires Tracking(c) && !Overtakes(c, e)
    ensures Tracking(ClientStep(c, e))
  {
    if !OfSubscription(e) {
      ConnectionStepTracks(c, e);
    } else if e.ControlTimesOut? {
      LoseTracks(c, e.conn);
    }
  }

  /** The k-th event of the run overtakes a connect. */
  predicate OvertakenAt(events: seq<ClientEvent>, k: int)
    requires 0 <= k < |events|
  {
    Overtakes(ClientAt(events, k), events[k])
  }

  lemma TrackedNext(events: seq<ClientEvent>, k: nat)
    requires k < |events| && Tracking(ClientAt(events, k)) && !OvertakenAt(events, k)
    ensures Tracking(ClientAt(events, k + 1))
  {
    ClientNext(events, k);
    StepTracks(ClientAt(events, k), events[k]);
  }

  lemma {:induction false} TracksUpTo(events: seq<ClientEvent>, n: nat)
    requires n <= |events| && forall k :: 0 <= k < n ==> !OvertakenAt(events, k)
    ensures Tracking(ClientAt(events, n))
  {
    if n == 0 {
      assert ClientAt(events, 0) == InitialClient;
    } else {
      TracksUpTo(events, n - 1);
      TrackedNext(events, n - 1);
    }
  }

  /** In a run in which no refresh overtakes a connect, the client is on its way to a connection after every event. */
  lemma UnovertakenReconnects(events: seq<ClientEvent>)
    requires forall k :: 0 <= k < |events| ==> !OvertakenAt(events, k)
    ensures forall n :: 0 <= n <= |events| ==> Reconnects(ClientAt(events, n))
  {
    forall k | 0 <= k < |events| ensures !Stranded(ClientAt(events, k)) { TracksUpTo(events, k); }
    RunReconnects(events);
  }

  // --- a run that strands the client ---------------------------------------------------------

  /** What matters of a client along the run. */
  datatype Spot = Spot(generation: nat, connection: Option<ConnId>, attempts: seq<Attempt>, up: set<ConnId>, known: set<ConnId>,
                       tracked: set<string>, connecting: bool, timer: bool)

  /** The client is open, has met no error, and knows one identity. */
  predicate At(c: ClientData, p: Spot) {
    && !c.closed && !c.suspended && c.lastError.None? && (c.identityKey.Some? ==> c.identityKey.value == "u")
    && c.generation == p.generation && c.connection == p.connection && c.attempts == p.attempts && c.up == p.up
    && c.keys.Keys == p.known && (forall conn <- p.known :: c.keys[conn] == "u")
    && c.subs.Keys == p.tracked && c.connecting == p.connecting && c.reconnectTimer == p.timer
  }

  predicate Reaches(events: seq<ClientEvent>, p: Spot) {
    At(ClientRun(InitialClient, events), p)
  }

  /** A hello arrives for an opening. */
  lemma Met(events: seq<ClientEvent>, p: Spot, at: nat, conn: ConnId)
    requires Reaches(events, p) && at < |p.attempts| && p.attempts[at].conn.None? && conn !in p.known
    ensures Reaches(events + [Hello(at, conn, "u")],
                    p.(attempts := p.attempts[at := p.attempts[at].(conn := Some(conn))], up := p.up + {conn}, known := p.known + {conn}))
  {
    RunLast(InitialClient, events, Hello(at, conn, "u"));
  }

  /** An opening of the current generation is taken up. */
  lemma Taken(events: seq<ClientEvent>, p: Spot, at: nat, conn: ConnId)
    requires Reaches(events, p) && at < |p.attempts| && p.attempts[at].conn == Some(conn) && p.attempts[at].generation == p.generation
    requires conn in p.up && conn in p.known && p.connection != Some(conn)
    ensures Reaches(events + [Resuming(at)],
                    p.(generation := if p.attempts[at].kind == ForRefresh then p.generation + 1 else p.generation, connection := Some(conn),
                       attempts := Without(p.attempts, at), up := if p.connection.Some? then p.up - {p.connection.value} else p.up,
                       connecting := p.connecting && p.attempts[at].kind == ForRefresh))
  {
    RunLast(InitialClient, events, Resuming(at));
    TakenUp(ClientRun(InitialClient, events), p, at, conn);
  }

  lemma TakenUp(c: ClientData, p: Spot, at: nat, conn: ConnId)
    requires At(c, p) && at < |p.attempts| && p.attempts[at].conn == Some(conn) && p.attempts[at].generation == p.generation
    requires conn in p.up && conn in p.known && p.connection != Some(conn)
    ensures At(ClientStep(c, Resuming(at)),
               p.(generation := if p.attempts[at].kind == ForRefresh then p.generation + 1 else p.generation, connection := Some(conn),
                  attempts := Without(p.attempts, at), up := if p.connection.Some? then p.up - {p.connection.value} else p.up,
                  connecting := p.connecting && p.attempts[at].kind == ForRefresh))
  {
  }

  lemma Refreshed(events: seq<ClientEvent>, p: Spot)
    requires Reaches(events, p) && p.connection.Some?
    ensures Reaches(events + [RefreshTimer], p.(attempts := p.attempts + [Attempt(ForRefresh, p.generation, None)]))
  {
    RunLast(InitialClient, events, RefreshTimer);
  }

  /** The connection drops: the timer is armed if anything is tracked. */
  lemma Lost(events: seq<ClientEvent>, p: Spot, conn: ConnId)
    requires Reaches(events, p) && p.connection == Some(conn) && conn in p.up
    ensures Reaches(events + [Dropping(conn)], p.(connection := None, up := p.up - {conn}, timer := p.tracked != {}))
  {
    RunLast(InitialClient, events, Dropping(conn));
    LossArmsTimer(ClientRun(InitialClient, events), conn);
  }

  /** The reconnect timer fires. */
  lemma Fired(events: seq<ClientEvent>, p: Spot)
    requires Reaches(events, p) && p.timer && p.tracked != {}
    ensures Reaches(events + [ReconnectTimer],
                    p.(generation := p.generation + 1, attempts := p.attempts + [Attempt(ForConnect, p.generation + 1, None)], connecting := true, timer := false))
  {
    RunLast(InitialClient, events, ReconnectTimer);
  }

  /** A listener throws, and the only subscription ends. */
  lemma Ended(events: seq<ClientEvent>, p: Spot, id: string)
    requires Reaches(events, p) && p.tracked == {id}
    ensures Reaches(events + [ListenerThrows(id)], p.(tracked := {}))
  {
    RunLast(InitialClient, events, ListenerThrows(id));
    var c := ClientRun(InitialClient, events);
    assert c.subs[id].ListenerFailed(c.ConnectedFor(c.subs[id])).terminal;
  }

  const CONTRACT := Contract("orders", 1)

  lemma Opening() returns (events: seq<ClientEvent>)
    ensures Reaches(events, Spot(1, None, [Attempt(ForConnect, 1, None)], {}, {}, {"s"}, true, false))
  {
    events := [] + [Registering("s", CONTRACT)];
    RunLast(InitialClient, [], Registering("s", CONTRACT));
    var c := ClientRun(InitialClient, events);
    assert c.attempts == [Attempt(ForConnect, 1, None)] && c.subs.Keys == {"s"};
  }

  lemma FirstConnected() returns (events: seq<ClientEvent>)
    ensures Reaches(events, Spot(1, Some(1), [], {1}, {1}, {"s"}, false, false))
  {
    events := Opening();
    var opening, met := Attempt(ForConnect, 1, None), Attempt(ForConnect, 1, Some(1));
    Met(events, Spot(1, None, [opening], {}, {}, {"s"}, true, false), 0, 1);
    events := events + [Hello(0, 1, "u")];
    assert [opening][0 := met] == [met] && {} + {1} == {1} && Without([met], 0) == [];
    Taken(events, Spot(1, None, [met], {1}, {1}, {"s"}, true, false), 0, 1);
    events := events + [Resuming(0)];
  }

  /** The connection drops while its refresh is opening, so the timer is armed when the refresh is taken up. */
  lemma TimerBesideConnection() returns (events: seq<ClientEvent>)
    ensures Reaches(events, Spot(2, Some(2), [], {2}, {1, 2}, {"s"}, false, true))
  {
    events := FirstConnected();
    var refresh, met := Attempt(ForRefresh, 1, None), Attempt(ForRefresh, 1, Some(2));
    Refreshed(events, Spot(1, Some(1), [], {1}, {1}, {"s"}, false, false));
    events := events + [RefreshTimer];
    assert [] + [refresh] == [refresh] && [refresh][0 := met] == [met] && Without([met], 0) == [];
    Lost(events, Spot(1, Some(1), [refresh], {1}, {1}, {"s"}, false, false), 1);
    events := events + [Dropping(1)];
    assert {1} - {1} == {} && {} + {2} == {2} && {1} + {2} == {1, 2};
    Met(events, Spot(1, None, [refresh], {}, {1}, {"s"}, false, true), 0, 2);
    events := events + [Hello(0, 2, "u")];
    Taken(events, Spot(1, None, [met], {2}, {1, 2}, {"s"}, false, true), 0, 2);
    events := events + [Resuming(0)];
  }

  /** The timer starts a connect, a second refresh is taken up before it, and `connecting` stays set. */
  lemma Overtaken() returns (events: seq<ClientEvent>)
    ensures Reaches(events, Spot(4, Some(3), [Attempt(ForConnect, 3, None)], {3}, {1, 2, 3}, {"s"}, true, false))
  {
    events := TimerBesideConnection();
    var connect, refresh, met := Attempt(ForConnect, 3, None), Attempt(ForRefresh, 3, None), Attempt(ForRefresh, 3, Some(3));
    Fired(events, Spot(2, Some(2), [], {2}, {1, 2}, {"s"}, false, true));
    events := events + [ReconnectTimer];
    assert [] + [connect] == [connect] && [connect] + [refresh] == [connect, refresh] && [connect, refresh][1 := met] == [connect, met];
    assert Without([connect, met], 1) == [connect];
    Refreshed(events, Spot(3, Some(2), [connect], {2}, {1, 2}, {"s"}, true, false));
    events := events + [RefreshTimer];
    Met(events, Spot(3, Some(2), [connect, refresh], {2}, {1, 2}, {"s"}, true, false), 1, 3);
    events := events + [Hello(1, 3, "u")];
    assert {2} + {3} == {2, 3} && {1, 2} + {3} == {1, 2, 3} && {2, 3} - {2} == {3};
    Taken(events, Spot(3, Some(2), [connect, met], {2, 3}, {1, 2, 3}, {"s"}, true, false), 1, 3);
    events := events + [Resuming(1)];
  }

  /** Its only subscription ends and its connection drops: the client is idle, and believes it is connecting. */
  lemma Idled() returns (events: seq<ClientEvent>)
    ensures Reaches(events, Spot(4, None, [Attempt(ForConnect, 3, None)], {}, {1, 2, 3}, {}, true, false))
  {
    events := Overtaken();
    var connect := Attempt(ForConnect, 3, None);
    Ended(events, Spot(4, Some(3), [connect], {3}, {1, 2, 3}, {"s"}, true, false), "s");
    events := events + [ListenerThrows("s")];
    Lost(events, Spot(4, Some(3), [connect], {3}, {1, 2, 3}, {}, true, false), 3);
    events := events + [Dropping(3)];
    assert {3} - {3} == {};
  }

  /** Nothing of the current generation is opening, not even a refresh. */
  predicate NothingOpening(c: ClientData) {
    forall k :: 0 <= k < |c.attempts| ==> c.attempts[k].generation != c.generation
  }

  /** The client tracks a subscription and nothing is under way that could connect it. */
  predicate Stuck(c: ClientData) {
    !Reconnects(c) && c.connecting && NothingOpening(c)
  }

  /** A run after which a client is stuck. */
  lemma Strands() returns (events: seq<ClientEvent>)
    ensures Stuck(ClientRun(InitialClient, events))
  {
    var before := Idled();
    var c := ClientRun(InitialClient, before);
    assert Stranded(c);
    events := before + [Registering("t", CONTRACT)];
    RunLast(InitialClient, before, Registering("t", CONTRACT));
    StepReconnects(c, Registering("t", CONTRACT));
  }

  lemma StaysStuck(c: ClientData, e: ClientEvent)
    requires Stuck(c) && e != CallReconnect && e != CallClose && ClientStep(c, e).subs.Keys != {}
    ensures Stuck(ClientStep(c, e))
  {
    match e
    case Hello(_, _, _) =>
    case Failing(_, _) =>
    case Resuming(_) =>
    case Dropping(_) =>
    case _ => OthersStuck(c, e);
  }

  lemma OthersStuck(c: ClientData, e: ClientEvent)
    requires Stuck(c) && e != CallReconnect && e != CallClose && ClientStep(c, e).subs.Keys != {}
    requires !e.Hello? && !e.Failing? && !e.Resuming? && !e.Dropping?
    ensures Stuck(ClientStep(c, e))
  {
  }

  /** Only reconnect() or close() helps a stuck client, as long as it tracks anything. */
  lemma {:induction false} StuckForGood(c: ClientData, events: seq<ClientEvent>)
    requires Stuck(c) && CallReconnect !in events && CallClose !in events
    requires forall n :: 0 <= n <= |events| ==> ClientRun(c, events[..n]).subs.Keys != {}
    ensures Stuck(ClientRun(c, events))
    decreases |events|
  {
    if events != [] {
      var before, e := events[..|events| - 1], events[|events| - 1];
      assert events == before + [e];
      forall n | 0 <= n <= |before| ensures ClientRun(c, before[..n]).subs.Keys != {} { assert before[..n] == events[..n]; }
      StuckForGood(c, before);
      RunLast(c, before, e);
      assert events[..|events|] == events;
      StaysStuck(ClientRun(c, before), e);
    }
  }
}
