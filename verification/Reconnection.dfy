/**
 * Whether a client that tracks subscriptions is always on its way to a connection: it has one, waits
 * for its timer, or is opening one. The exact events that break this, and a run with one of them, are in
 * `ReconnectionGap`.
 */
module Reconnection {
  import opened Wrappers
  import opened SubscriptionSpec
  import opened ClientSpec

  /** A connect of the current generation is still opening. */
  predicate InFlight(c: ClientData) {
    exists k :: 0 <= k < |c.attempts| && c.attempts[k].kind == ForConnect && c.attempts[k].generation == c.generation
  }

  /** A client that is neither closed nor suspended and tracks a subscription has a connection, a timer, or an opening. */
  predicate Reconnects(c: ClientData) {
    !c.closed && !c.suspended && c.subs.Keys != {} ==> c.connection.Some? || c.reconnectTimer || InFlight(c)
  }

  /** `connecting` is set though no connect of the current generation is opening, and nothing else is under way. */
  predicate Stranded(c: ClientData) {
    !c.closed && !c.suspended && c.connecting && c.connection.None? && !c.reconnectTimer && !InFlight(c)
  }

  // --- openings ------------------------------------------------------------------------------

  lemma SameOpenings(c: ClientData, c': ClientData)
    requires c'.generation == c.generation && |c'.attempts| >= |c.attempts|
    requires forall k :: 0 <= k < |c.attempts| ==> c'.attempts[k].kind == c.attempts[k].kind && c'.attempts[k].generation == c.attempts[k].generation
    ensures InFlight(c) ==> InFlight(c')
  {
    if InFlight(c) {
      var k :| 0 <= k < |c.attempts| && c.attempts[k].kind == ForConnect && c.attempts[k].generation == c.generation;
      assert c'.attempts[k].kind == ForConnect;
    }
  }

  /** Taking an opening out leaves the others. */
  lemma TakenOut(c: ClientData, at: nat)
    requires at < |c.attempts|
    ensures var c' := c.(attempts := Without(c.attempts, at));
      InFlight(c) ==> InFlight(c') || (c.attempts[at].kind == ForConnect && c.attempts[at].generation == c.generation)
  {
    if InFlight(c) {
      var c' := c.(attempts := Without(c.attempts, at));
      var k :| 0 <= k < |c.attempts| && c.attempts[k].kind == ForConnect && c.attempts[k].generation == c.generation;
      if k < at { assert c'.attempts[k] == c.attempts[k]; }
      if k > at { assert c'.attempts[k - 1] == c.attempts[k]; }
    }
  }

  lemma ConnectOpens(c: ClientData, explicit: bool)
    ensures c.closed || InFlight(c.Connect(explicit))
  {
    var c' := c.Connect(explicit);
    if !c.closed { assert c'.attempts[|c.attempts|] == Attempt(ForConnect, c'.generation, None); }
  }

  // --- each event ------------------------------------------------------------------------------

  /** Detached, and stale with the reason unless it ended or gave up before. */
  predicate LetGo(s: SubData, s': SubData, why: Option<ErrorCode>) {
    && s'.attached.None? && s'.awaitingEpoch && s'.replacing.None? && !s'.resyncPending && s'.history == s.history && s'.progress == s.progress
    && if s.terminal || s.state == ResyncRequired then s'.state == s.state && s'.reason == s.reason else s'.state == Stale && s'.reason == why
  }

  /**
   * Losing the adopted connection, unless the last error says the authentication failed, detaches every
   * subscription and arms the timer for the next attempt; with nothing tracked the client goes idle.
   */
  lemma LossArmsTimer(c: ClientData, conn: ConnId)
    requires !c.closed && !c.suspended && conn in c.up && c.connection == Some(conn)
    requires c.lastError.Some? ==> c.lastError.value.code != Unauthenticated
    ensures var c' := c.Lose(conn);
      && c'.connection.None? && c'.up == c.up - {conn} && c'.subs.Keys == c.subs.Keys
      && (forall id <- c.subs :: LetGo(c.subs[id], c'.subs[id], if c.lastError.None? then None else Some(c.lastError.value.code)))
      && (if c.subs.Keys == {} then !c'.reconnectTimer && c'.state == ClientIdle && c'.backoffAttempt == c.backoffAttempt
          else c'.reconnectTimer && c'.state == Reconnecting && c'.backoffAttempt == c.backoffAttempt + 1)
      && c'.generation == c.generation && c'.attempts == c.attempts && c'.lastError == c.lastError
  {
    var why := if c.lastError.None? then None else Some(c.lastError.value.code);
    var dropped := c.(up := c.up - {conn}, connection := None, subs := DetachAll(c.subs, why));
    assert c.Lose(conn) == dropped.ScheduleReconnect() by { DroppedSchedules(c, conn); }
    AllLetGo(c.subs, why);
  }

  lemma DroppedSchedules(c: ClientData, conn: ConnId)
    requires !c.closed && conn in c.up && c.connection == Some(conn) && (c.lastError.Some? ==> c.lastError.value.code != Unauthenticated)
    ensures var why := if c.lastError.None? then None else Some(c.lastError.value.code);
      c.Lose(conn) == c.(up := c.up - {conn}, connection := None, subs := DetachAll(c.subs, why)).ScheduleReconnect()
  {
  }

  lemma AllLetGo(subs: Subs, why: Option<ErrorCode>)
    ensures DetachAll(subs, why).Keys == subs.Keys
    ensures forall id <- subs :: LetGo(subs[id], DetachAll(subs, why)[id], why)
  {
  }

  lemma LoseReconnects(c: ClientData, conn: ConnId)
    requires Reconnects(c)
    ensures Reconnects(c.Lose(conn))
  {
    if conn in c.up && c.connection == Some(conn) {
      var why := if c.lastError.None? then None else Some(c.lastError.value.code);
      var dropped := c.(up := c.up - {conn}, connection := None, subs := DetachAll(c.subs, why));
      assert !c.closed ==> c.Lose(conn) == dropped.AfterDisconnect();
      AfterReconnects(dropped);
    }
  }

  lemma AfterReconnects(c: ClientData)
    ensures !c.closed ==> Reconnects(c.AfterDisconnect())
  {
    ScheduleReconnects(c);
    ScheduleReconnects(c.(backoffAttempt := 0));
  }

  lemma ScheduleReconnects(c: ClientData)
    ensures Reconnects(c.ScheduleReconnect())
  {
  }

  lemma OpenFailedReconnects(c: ClientData, at: nat, error: StreamError)
    requires Reconnects(c) && at < |c.attempts|
    ensures Reconnects(c.(attempts := Without(c.attempts, at)).OpenFailed(c.attempts[at], error))
  {
    var a, taken := c.attempts[at], c.(attempts := Without(c.attempts, at));
    if a.kind == ForRefresh || a.generation != c.generation {
      TakenOut(c, at);
    } else {
      ScheduleReconnects(taken.(connecting := false, lastError := Some(error)));
    }
  }

  lemma AdoptReconnects(c: ClientData, conn: ConnId, key: string)
    requires conn in c.up
    ensures Reconnects(c.Adopt(conn, key))
  {
    if !c.closed {
      assert c.Adopt(conn, key).connection == Some(conn);
    } else {
      LoseReconnects(c, conn);
    }
  }

  lemma ResumingReconnects(c: ClientData, at: nat)
    requires Reconnects(c) && at < |c.attempts| && c.attempts[at].conn.Some? && c.attempts[at].conn.value in c.keys
    ensures Reconnects(ConnectionStep(c, Resuming(at)))
  {
    var a, taken := c.attempts[at], c.(attempts := Without(c.attempts, at));
    var conn := a.conn.value;
    if conn !in c.up {
      OpenFailedReconnects(c, at, StreamError(SourceUnavailable, true));
    } else if a.generation != c.generation || (a.kind == ForRefresh && (c.closed || c.suspended)) {
      TakenOut(c, at);
      LoseReconnects(taken, conn);
    } else {
      AdoptReconnects(taken.Settled(a.kind), conn, c.keys[conn]);
    }
  }

  /** A registration finds or makes a way to a connection, unless the client is stranded. */
  lemma RegisterReconnects(c: ClientData, id: string, s: SubData)
    requires Reconnects(c)
    ensures Reconnects(c.Register(id, s)) <==> !Stranded(c)
  {
    var tracked := c.(subs := c.subs[id := s]);
    if !c.closed && !c.suspended && !(c.connection.Some? && c.connection.value in c.up) {
      if c.connecting || c.reconnectTimer || c.connection.Some? {
        assert c.Register(id, s) == tracked;
        assert id in tracked.subs.Keys;
      } else {
        ConnectOpens(tracked, false);
      }
    }
  }

  lemma ConnectionStepReconnects(c: ClientData, e: ClientEvent)
    requires Reconnects(c) && !e.Registering? && !OfSubscription(e)
    ensures Reconnects(ConnectionStep(c, e))
  {
    match e
    case CallReconnect => ConnectOpens(c.ResetBackoff().Dropped(), true);
    case ReconnectTimer => ConnectOpens(c.(reconnectTimer := false), false);
    case RefreshTimer => SameOpenings(c, c.Refresh());
    case Hello(at, conn, key) => SameOpenings(c, ConnectionStep(c, e));
    case Failing(at, error) => if at < |c.attempts| && c.attempts[at].conn.None? { OpenFailedReconnects(c, at, error); }
    case Resuming(at) => if at < |c.attempts| && c.attempts[at].conn.Some? && c.attempts[at].conn.value in c.keys { ResumingReconnects(c, at); }
    case Dropping(conn) => LoseReconnects(c, conn);
    case _ =>
  }

  lemma SubscriptionStepReconnects(c: ClientData, e: ClientEvent)
    requires Reconnects(c) && OfSubscription(e) && e.id in c.subs
    ensures Reconnects(SubscriptionStep(c, e.id, e))
  {
    if e.ControlTimesOut? { LoseReconnects(c, e.conn); }
  }

  /** Every event keeps the client on its way to a connection, but a registration while it is stranded. */
  lemma StepReconnects(c: ClientData, e: ClientEvent)
    requires Reconnects(c)
    ensures Reconnects(ClientStep(c, e)) <==> !(e.Registering? && Stranded(c))
  {
    if OfSubscription(e) {
      if e.id in c.subs { SubscriptionStepReconnects(c, e); }
    } else if e.Registering? {
      if e.id !in c.subs { RegisterReconnects(c, e.id, NewSubscription(e.contract)); }
    } else {
      ConnectionStepReconnects(c, e);
    }
  }

  // --- runs ------------------------------------------------------------------------------------

  lemma {:induction false} RunLast(c: ClientData, events: seq<ClientEvent>, e: ClientEvent)
    ensures ClientRun(c, events + [e]) == ClientStep(ClientRun(c, events), e)
    decreases |events|
  {
    if events == [] {
      assert [e][1..] == [];
    } else {
      assert (events + [e])[1..] == events[1..] + [e];
      RunLast(ClientStep(c, events[0]), events[1..], e);
    }
  }

  /** The client after the first n events. */
  function ClientAt(events: seq<ClientEvent>, n: int): ClientData
    requires 0 <= n <= |events|
  {
    ClientRun(InitialClient, events[..n])
  }

  lemma ClientNext(events: seq<ClientEvent>, n: nat)
    requires n < |events|
    ensures ClientAt(events, n + 1) == ClientStep(ClientAt(events, n), events[n])
  {
    assert events[..n + 1] == events[..n] + [events[n]];
    RunLast(InitialClient, events[..n], events[n]);
  }

  /** The k-th event registers a subscription with a stranded client. */
  predicate StrandedAt(events: seq<ClientEvent>, k: int)
    requires 0 <= k < |events|
  {
    events[k].Registering? && Stranded(ClientAt(events, k))
  }

  lemma ReconnectsNext(events: seq<ClientEvent>, k: nat)
    requires k < |events| && Reconnects(ClientAt(events, k))
    ensures Reconnects(ClientAt(events, k + 1)) <==> !StrandedAt(events, k)
  {
    ClientNext(events, k);
    StepReconnects(ClientAt(events, k), events[k]);
  }

  lemma {:induction false} ReconnectsUpTo(events: seq<ClientEvent>, n: nat)
    requires n <= |events| && forall k :: 0 <= k < n ==> !StrandedAt(events, k)
    ensures Reconnects(ClientAt(events, n))
  {
    if n == 0 {
      assert ClientAt(events, 0) == InitialClient;
    } else {
      ReconnectsUpTo(events, n - 1);
      ReconnectsNext(events, n - 1);
    }
  }

  /** Through a whole run the client is always on its way to a connection, exactly when no registration finds it stranded. */
  lemma RunReconnects(events: seq<ClientEvent>)
    ensures (forall n :: 0 <= n <= |events| ==> Reconnects(ClientAt(events, n))) <==> (forall k :: 0 <= k < |events| ==> !StrandedAt(events, k))
  {
    if k :| 0 <= k < |events| && StrandedAt(events, k) {
      if Reconnects(ClientAt(events, k)) { ReconnectsNext(events, k); }
      assert !Reconnects(ClientAt(events, k)) || !Reconnects(ClientAt(events, k + 1));
    } else {
      forall n | 0 <= n <= |events| ensures Reconnects(ClientAt(events, n)) { ReconnectsUpTo(events, n); }
    }
  }
}
