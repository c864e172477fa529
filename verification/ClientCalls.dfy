/**
 * What each call and each answer of the network does to a client, said in full: which connection it
 * has, what it opens, what it waits for, and what becomes of the subscriptions it tracks.
 */
module ClientCalls {
  import opened Wrappers
  import opened SubscriptionSpec
  import opened SubscriptionAnswers
  import opened ClientSpec
  import opened Reconnection

  /** Every tracked subscription let its connection go, and is stale with the reason unless it gave up before. */
  predicate AllStale(subs: Subs, subs': Subs, why: Option<ErrorCode>) {
    subs'.Keys == subs.Keys && forall id <- subs :: LetGo(subs[id], subs'[id], why)
  }

  /** Every tracked subscription is subscribed anew on the connection. */
  predicate AllStarted(subs: Subs, subs': Subs, conn: ConnId, connected: bool) {
    && subs'.Keys == subs.Keys
    && forall id <- subs :: if subs[id].terminal then subs'[id] == subs[id] else StartedOn(subs[id], subs'[id], conn, connected)
  }

  lemma AttachedAll(subs: Subs, conn: ConnId, connected: bool)
    ensures AllStarted(subs, AttachAll(subs, conn, connected), conn, connected)
  {
    forall id <- subs { AttachStarts(subs[id], conn, connected); }
  }

  // --- connections ------------------------------------------------------------------------------

  /** No reconnection until an explicit one: every subscription waits, stale for want of authentication. */
  predicate Waits(c: ClientData, c': ClientData) {
    && c' == c.(state := AuthRequired, suspended := true, reconnectTimer := false, subs := c'.subs)
    && AllStale(c.subs, c'.subs, Some(Unauthenticated))
  }

  lemma SuspendWaits(c: ClientData)
    ensures Waits(c, c.Suspend())
  {
    AllLetGo(c.subs, Some(Unauthenticated));
  }

  /** The next attempt is waited for, or nothing is wanted because nothing is tracked. */
  predicate Scheduled(c: ClientData, c': ClientData) {
    if c.closed || c.suspended then c' == c
    else if c.subs.Keys == {} then c' == c.(state := ClientIdle, reconnectTimer := false)
    else c' == c.(state := Reconnecting, reconnectTimer := true, backoffAttempt := c.backoffAttempt + 1)
  }

  lemma ScheduleIs(c: ClientData)
    ensures Scheduled(c, c.ScheduleReconnect())
  {
  }

  /**
   * An opening failed. Superseded openings and refreshes leave the client as it is; otherwise the error is kept,
   * and the four codes that call for the application wait for it while every other is tried again.
   */
  lemma FailureHandled(c: ClientData, a: Attempt, error: StreamError)
    ensures var c', failed := c.OpenFailed(a, error), c.(connecting := false, lastError := Some(error));
      if a.kind == ForRefresh || a.generation != c.generation then c' == c
      else if error.code == Unauthenticated || error.code == Forbidden || error.code == InvalidRequest || error.code == UnsupportedCapability
      then Waits(failed, c')
      else Scheduled(failed, c')
  {
    var failed := c.(connecting := false, lastError := Some(error));
    SuspendWaits(failed);
    ScheduleIs(failed);
  }

  /**
   * Losing the adopted connection: every subscription is stale with the last error's code. When that error was an
   * authentication that cannot be retried the client waits; one that can is tried again promptly.
   */
  lemma LossHandled(c: ClientData, conn: ConnId)
    requires conn in c.up && c.connection == Some(conn)
    ensures var c', error := c.Lose(conn), c.lastError;
      exists subs ::
        && AllStale(c.subs, subs, if error.None? then None else Some(error.value.code))
        && var dropped := c.(connection := None, up := c.up - {conn}, subs := subs);
           if c.closed then c' == dropped
           else if error.Some? && error.value.code == Unauthenticated && !error.value.retryable then Waits(dropped, c')
           else Scheduled(if error.Some? && error.value.code == Unauthenticated then dropped.(backoffAttempt := 0) else dropped, c')
  {
    var why := if c.lastError.None? then None else Some(c.lastError.value.code);
    var dropped := c.(connection := None, up := c.up - {conn}, subs := DetachAll(c.subs, why));
    AllLetGo(c.subs, why);
    assert c.Lose(conn) == if c.closed then dropped else dropped.AfterDisconnect();
    SuspendWaits(dropped);
    ScheduleIs(dropped);
    ScheduleIs(dropped.(backoffAttempt := 0));
    assert AllStale(c.subs, dropped.subs, why);
  }

  /** A connection that is not the client's, or is down already, is lost without a trace. */
  lemma OtherLossIgnored(c: ClientData, conn: ConnId)
    requires conn !in c.up || c.connection != Some(conn)
    ensures c.Lose(conn) == c.(up := c.up - {conn})
  {
    if conn !in c.up { assert c.up - {conn} == c.up; }
  }

  /** A connection is taken up: it replaces the one before, which closes; another identity's subscriptions are dropped; the rest start on it. */
  predicate TakesUp(c: ClientData, c': ClientData, conn: ConnId, key: string) {
    var kept := if c.identityKey.Some? && c.identityKey.value != key then map[] else c.subs;
    var up := if c.connection.Some? && c.connection.value != conn then c.up - {c.connection.value} else c.up;
    && c' == c.(state := Connected, connection := Some(conn), identityKey := Some(key), everConnected := true, backoffAttempt := 0,
                lastError := None, up := up, subs := c'.subs)
    && AllStarted(kept, c'.subs, conn, conn in up)
  }

  lemma AdoptTakes(c: ClientData, conn: ConnId, key: string)
    requires !c.closed
    ensures TakesUp(c, c.Adopt(conn, key), conn, key)
  {
    var before := c.Replaced(conn).SwitchedTo(key).MarkedConnected(key);
    AttachedAll(before.subs, conn, conn in before.up);
  }

  /**
   * A finished opening: one whose connection was lost counts as failed, one superseded meanwhile is closed, and any other is
   * taken up, a refresh under a generation of its own.
   */
  lemma OpeningSettled(c: ClientData, a: Attempt, conn: ConnId, key: string)
    requires !c.closed
    ensures var c' := c.Opened(a, conn, key);
      if conn !in c.up then c' == c.OpenFailed(a, StreamError(SourceUnavailable, true))
      else if a.generation != c.generation || (a.kind == ForRefresh && c.suspended) then c' == c.Lose(conn)
      else if a.kind == ForConnect then TakesUp(c.(connecting := false), c', conn, key)
      else TakesUp(c.(generation := c.generation + 1), c', conn, key)
  {
    AdoptTakes(c.(connecting := false), conn, key);
    AdoptTakes(c.(generation := c.generation + 1), conn, key);
  }

  // --- openings ----------------------------------------------------------------------------------

  /** One more opening, in a generation that supersedes every other. */
  predicate Opens(c: ClientData, c': ClientData, explicit: bool) {
    c' == c.(generation := c.generation + 1, connecting := true, state := if c.everConnected && !explicit then Reconnecting else Connecting,
             attempts := c.attempts + [Attempt(ForConnect, c.generation + 1, None)])
  }

  /** The refresh timer opens a replacement in the current generation, for a client that has a connection. */
  lemma RefreshOpens(c: ClientData)
    ensures c.Refresh() ==
            if c.closed || c.suspended || c.connection.None? then c
            else c.(attempts := c.attempts + [Attempt(ForRefresh, c.generation, None)])
  {
  }

  lemma TimerOpens(c: ClientData)
    ensures var c', fired := c.ReconnectTimerFired(), c.(reconnectTimer := false);
      if !c.reconnectTimer then c' == c
      else if c.subs.Keys == {} then c' == fired.(state := ClientIdle)
      else if c.closed then c' == fired
      else Opens(fired, c', false)
  {
  }

  /**
   * A new subscription is tracked: while suspended it only hears that authentication is required; otherwise it starts on the
   * adopted connection, or a connection is opened unless one is on its way.
   */
  lemma RegisterTracks(c: ClientData, id: string, s: SubData)
    requires !s.terminal && (c.connection.Some? ==> c.connection.value in c.up)
    ensures var c' := c.Register(id, s);
      if c.closed then c' == c
      else if c.suspended then c' == c.(subs := c'.subs) && c'.subs == c.subs[id := c'.subs[id]] && LetGo(s, c'.subs[id], Some(Unauthenticated))
      else if c.connection.Some? then
        c' == c.(subs := c'.subs) && c'.subs == c.subs[id := c'.subs[id]] && StartedOn(s, c'.subs[id], c.connection.value, true)
      else if c.connecting || c.reconnectTimer then c' == c.(subs := c.subs[id := s])
      else Opens(c.(subs := c.subs[id := s]), c', false)
  {
    if c.connection.Some? { AttachStarts(s, c.connection.value, true); }
  }

  // --- explicit calls -----------------------------------------------------------------------------

  /** reconnect(): whatever was under way is superseded, the connection closes, and one is opened at once. */
  lemma ReconnectRestarts(c: ClientData)
    requires !c.closed
    ensures var c' := c.Reconnect();
      && c' == c.(state := Connecting, connection := None, generation := c.generation + 2, connecting := true, suspended := false,
                  lastError := None, backoffAttempt := 0, reconnectTimer := false, subs := c'.subs,
                  up := if c.connection.None? then c.up else c.up - {c.connection.value},
                  attempts := c.attempts + [Attempt(ForConnect, c.generation + 2, None)])
      && if c.connection.None? then c'.subs == c.subs else AllStale(c.subs, c'.subs, None)
  {
    AllLetGo(c.subs, None);
  }

  /** close(): nothing is tracked, connected or waited for any more, and every later call leaves it so. */
  lemma CloseEnds(c: ClientData)
    requires !c.closed
    ensures c.Close() ==
            c.(state := ClientDone, closed := true, generation := c.generation + 1, reconnectTimer := false, subs := map[], connection := None,
               up := if c.connection.Some? then c.up - {c.connection.value} else c.up)
  {
  }

  lemma ClosedIgnores(c: ClientData, id: string, s: SubData, explicit: bool)
    requires c.closed
    ensures c.Close() == c && c.Reconnect() == c && c.Register(id, s) == c && c.Connect(explicit) == c && c.Refresh() == c
  {
  }

  // --- frames and answers ---------------------------------------------------------------------------

  /** The client with the subscription as it now is; one that ended is no longer tracked. */
  predicate With(c: ClientData, c': ClientData, id: string, s: SubData) {
    c' == c.(subs := if s.terminal then c.subs - {id} else c.subs[id := s])
  }

  /** Frames reach the subscription they name from the adopted connection, while it is up, and from no other. */
  lemma FramesRouted(c: ClientData, id: string, conn: ConnId, frame: StateFrame, data: DataFrame, throws: bool)
    requires id in c.subs
    ensures var s, adopted := c.subs[id], conn in c.up && c.connection == Some(conn);
      && (if adopted then With(c, ClientStep(c, StateArrives(id, conn, frame)), id, s.HandleState(conn, frame))
          else ClientStep(c, StateArrives(id, conn, frame)) == c)
      && (if adopted then With(c, ClientStep(c, DataArrives(id, conn, data, throws)), id, s.HandleData(conn, true, data, throws))
          else ClientStep(c, DataArrives(id, conn, data, throws)) == c)
  {
  }

  /** Answers reach the subscription that asked; a control request that times out on the adopted connection costs that connection. */
  lemma AnswersRouted(c: ClientData, id: string, conn: ConnId, answer: Answer, asked: Option<string>, code: ErrorCode)
    requires id in c.subs
    ensures var s := c.subs[id];
      && With(c, ClientStep(c, SubscribeAnswered(id, conn, answer)), id, s.SubscribeSettled(conn, answer))
      && With(c, ClientStep(c, ResyncGranted(id, conn, asked)), id, s.ResyncAcknowledged(conn, asked))
      && With(c, ClientStep(c, ResyncDenied(id, conn, asked, code)), id, s.ResyncRefused(conn, conn in c.up, asked, code))
      && ClientStep(c, ControlTimesOut(id, conn)) == if s.attached == Some(conn) && c.connection == Some(conn) then c.Lose(conn) else c
  {
  }

  /** Whether the connection the subscription is attached to is up. */
  predicate Up(c: ClientData, s: SubData) {
    s.attached.Some? && s.attached.value in c.up
  }

  lemma TimerRouted(c: ClientData, id: string, retry: Retry)
    requires id in c.subs
    ensures With(c, ClientStep(c, Retrying(id, retry)), id, c.subs[id].RetryFired(retry, Up(c, c.subs[id])))
  {
  }

  lemma ResyncRouted(c: ClientData, id: string)
    requires id in c.subs
    ensures With(c, ClientStep(c, CallResync(id)), id, c.subs[id].Resynchronize(Up(c, c.subs[id]), c.suspended))
  {
  }

  lemma EndsRouted(c: ClientData, id: string)
    requires id in c.subs
    ensures With(c, ClientStep(c, CallUnsubscribe(id)), id, c.subs[id].UnsubscribeNow(Up(c, c.subs[id])))
    ensures With(c, ClientStep(c, ListenerThrows(id)), id, c.subs[id].ListenerFailed(Up(c, c.subs[id])))
  {
  }

  /** Calls and timers reach their subscription, told whether its connection is up and whether authentication is awaited. */
  lemma CallsRouted(c: ClientData, id: string, retry: Retry)
    requires id in c.subs
    ensures var s := c.subs[id];
      && With(c, ClientStep(c, Retrying(id, retry)), id, s.RetryFired(retry, Up(c, s)))
      && With(c, ClientStep(c, CallResync(id)), id, s.Resynchronize(Up(c, s), c.suspended))
      && With(c, ClientStep(c, CallUnsubscribe(id)), id, s.UnsubscribeNow(Up(c, s)))
      && With(c, ClientStep(c, ListenerThrows(id)), id, s.ListenerFailed(Up(c, s)))
  {
    TimerRouted(c, id, retry);
    ResyncRouted(c, id);
    EndsRouted(c, id);
  }

  /** An error the adopted connection reports is kept, for what its loss will mean; one of another connection is not. */
  lemma ErrorKept(c: ClientData, conn: ConnId, error: StreamError)
    ensures ClientStep(c, ConnectionError(conn, error)) == c.(lastError := if c.connection == Some(conn) then Some(error) else c.lastError)
  {
  }
}
